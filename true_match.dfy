/**
 * The gallery "true match" lookup of the comparison page: given the path of
 * the image chosen on one side, find the image on the other side whose file
 * name carries the same six-character subject ID.
 *
 * Paths are strings; the lookup splits them on '/', keeps the last segment
 * (the file name), and compares ID prefixes.
 */
module TrueMatch {
  import opened Wrappers

  /** Separator of path segments. */
  const PathSeparator: char := '/'

  /** Number of leading file-name characters that form the subject ID. */
  const IdLength: nat := 6

  /** Last element of a non-empty sequence (JavaScript's `pop()` result). */
  function Last<T>(s: seq<T>): T
    requires |s| > 0
  {
    s[|s| - 1]
  }

  /** `pop()` takes an element of the list, and what it leaves plus that element is the list. */
  lemma LastIsPopped<T>(s: seq<T>)
    requires |s| > 0
    ensures Last(s) in s && s == s[..|s| - 1] + [Last(s)]
  {
  }

  /** `p` is a prefix of `s` (JavaScript's `s.startsWith(p)`). */
  predicate StartsWith(s: string, p: string) {
    |p| <= |s| && s[..|p|] == p
  }

  /** `s` starts with `p` exactly when `s` is `p` followed by something. */
  lemma StartsWithIsPrefix(s: string, p: string)
    ensures StartsWith(s, p) <==> exists rest :: s == p + rest
  {
    if StartsWith(s, p) {
      assert s == p + s[|p|..];
    }
  }

  /**
   * The pieces of `s` between occurrences of `sep`, as `s.split(sep)` returns
   * them for a one-character separator: the empty string splits into one
   * empty piece, and a trailing separator yields a trailing empty piece.
   * The last piece is the longest suffix of `s` free of `sep`.
   */
  function Split(s: string, sep: char): (parts: seq<string>)
    ensures |parts| >= 1
    ensures forall i :: 0 <= i < |parts| ==> sep !in parts[i]
    decreases |s|
  {
    if |s| == 0 then [""]
    else
      var init := Split(s[..|s| - 1], sep);
      var c := s[|s| - 1];
      if c == sep then init + [""]
      else init[..|init| - 1] + [Last(init) + [c]]
  }

  /** The last piece is a suffix of `s`, either all of `s` or preceded by `sep`. */
  lemma {:induction false} LastPieceIsSuffix(s: string, sep: char)
    ensures var last := Last(Split(s, sep));
      |last| <= |s| && s[|s| - |last|..] == last &&
      (|last| == |s| || s[|s| - |last| - 1] == sep)
    decreases |s|
  {
    if |s| > 0 {
      var s' := s[..|s| - 1];
      var c := s[|s| - 1];
      LastPieceIsSuffix(s', sep);
      var last' := Last(Split(s', sep));
      if c != sep {
        assert Last(Split(s, sep)) == last' + [c];
        assert s[|s| - |last'| - 1..] == s'[|s'| - |last'|..] + [c];
      }
    }
  }

  /** The pieces glued back together with `sep` between neighbours. */
  function Join(parts: seq<string>, sep: char): string
    requires |parts| >= 1
    decreases |parts|
  {
    if |parts| == 1 then parts[0]
    else Join(parts[..|parts| - 1], sep) + [sep] + Last(parts)
  }

  /** Splitting loses nothing: joining the pieces restores the string. */
  lemma {:induction false} JoinSplit(s: string, sep: char)
    ensures Join(Split(s, sep), sep) == s
    decreases |s|
  {
    if |s| > 0 {
      var s' := s[..|s| - 1];
      var c := s[|s| - 1];
      var init := Split(s', sep);
      JoinSplit(s', sep);
      assert s == s' + [c];
      if c == sep {
        assert Split(s, sep) == init + [""];
        JoinAppendEmpty(init, sep);
      } else {
        assert Split(s, sep) == init[..|init| - 1] + [Last(init) + [c]];
        JoinExtendLast(init, sep, c);
      }
    }
  }

  /** A trailing empty piece adds a trailing separator. */
  lemma JoinAppendEmpty(parts: seq<string>, sep: char)
    requires |parts| >= 1
    ensures Join(parts + [""], sep) == Join(parts, sep) + [sep]
  {
    var longer := parts + [""];
    assert longer[..|longer| - 1] == parts;
  }

  /** Extending the last piece by a character extends the joined string by it. */
  lemma JoinExtendLast(parts: seq<string>, sep: char, c: char)
    requires |parts| >= 1
    ensures Join(parts[..|parts| - 1] + [Last(parts) + [c]], sep) == Join(parts, sep) + [c]
  {
    var front := parts[..|parts| - 1];
    var extended := front + [Last(parts) + [c]];
    if |parts| > 1 {
      assert extended[..|extended| - 1] == front;
      assert Join(extended, sep) == Join(front, sep) + [sep] + (Last(parts) + [c]);
    }
  }

  /** A string free of the separator splits into itself alone. */
  lemma {:induction false} SplitNoSeparator(p: string, sep: char)
    requires sep !in p
    ensures Split(p, sep) == [p]
    decreases |p|
  {
    if |p| > 0 {
      var p' := p[..|p| - 1];
      assert sep !in p' by {
        forall k | 0 <= k < |p'| ensures p'[k] != sep { assert p'[k] == p[k]; }
      }
      SplitNoSeparator(p', sep);
      assert p' + [p[|p| - 1]] == p;
    }
  }

  /** Appending a separator and a separator-free piece appends that piece. */
  lemma {:induction false} SplitAppendPiece(x: string, sep: char, piece: string)
    requires sep !in piece
    ensures Split(x + [sep] + piece, sep) == Split(x, sep) + [piece]
    decreases |piece|
  {
    var s := x + [sep] + piece;
    if |piece| == 0 {
      assert s[..|s| - 1] == x;
    } else {
      var piece' := piece[..|piece| - 1];
      var c := piece[|piece| - 1];
      assert sep !in piece' by {
        forall k | 0 <= k < |piece'| ensures piece'[k] != sep { assert piece'[k] == piece[k]; }
      }
      SplitAppendPiece(x, sep, piece');
      assert s[..|s| - 1] == x + [sep] + piece';
      assert s[|s| - 1] == c;
      assert piece' + [c] == piece;
      var init := Split(x, sep) + [piece'];
      assert init[..|init| - 1] == Split(x, sep);
    }
  }

  /** Joining separator-free pieces and splitting again gives the pieces back. */
  lemma {:induction false} SplitJoin(parts: seq<string>, sep: char)
    requires |parts| >= 1
    requires forall i :: 0 <= i < |parts| ==> sep !in parts[i]
    ensures Split(Join(parts, sep), sep) == parts
    decreases |parts|
  {
    if |parts| == 1 {
      SplitNoSeparator(parts[0], sep);
    } else {
      var init := parts[..|parts| - 1];
      SplitJoin(init, sep);
      SplitAppendPiece(Join(init, sep), sep, Last(parts));
      assert init + [Last(parts)] == parts;
    }
  }

  /**
   * `path.split("/").pop()`: the file name of a path. Since `split` never
   * returns an empty list, `pop()` always yields a string.
   */
  function Basename(path: string): (name: string)
    ensures PathSeparator !in name
    ensures |name| <= |path| && path[|path| - |name|..] == name
    ensures |name| == |path| || path[|path| - |name| - 1] == PathSeparator
  {
    LastPieceIsSuffix(path, PathSeparator);
    Last(Split(path, PathSeparator))
  }

  /** A file name is the longest separator-free suffix: these three facts pin it down. */
  lemma BasenameUnique(path: string, name: string)
    requires PathSeparator !in name
    requires |name| <= |path| && path[|path| - |name|..] == name
    requires |name| == |path| || path[|path| - |name| - 1] == PathSeparator
    ensures name == Basename(path)
  {
  }

  /**
   * `basename.substring(0, 6)`: the first six characters of the file name,
   * or the whole file name when it is shorter.
   */
  function IdPrefix(path: string): (id: string)
    ensures StartsWith(Basename(path), id)
    ensures |id| == if |Basename(path)| < IdLength then |Basename(path)| else IdLength
  {
    var name := Basename(path);
    if |name| < IdLength then name else name[..IdLength]
  }

  /** The ID prefix is empty exactly for the empty path and for a path ending in '/'. */
  lemma EmptyIdPrefix(path: string)
    ensures IdPrefix(path) == "" <==> (path == "" || path[|path| - 1] == PathSeparator)
  {

  }

  /** The search condition of the lookup: the image's file name starts with `id`. */
  predicate Matches(image: string, id: string) {
    StartsWith(Basename(image), id)
  }

  /**
   * The empty ID matches every image; an ID that matches holds no '/' and
   * is no longer than the image's path.
   */
  lemma MatchCondition(image: string, id: string)
    ensures id == "" ==> Matches(image, id)
    ensures Matches(image, id) ==> PathSeparator !in id && |id| <= |image|
  {
    if Matches(image, id) {
      var name := Basename(image);
      assert forall k :: 0 <= k < |id| ==> id[k] == name[k];
    }
  }

  /** `i` is the position of the first image that matches `id`. */
  predicate IsFirstMatch(images: seq<string>, id: string, i: int) {
    0 <= i < |images| && Matches(images[i], id) &&
    forall j :: 0 <= j < i ==> !Matches(images[j], id)
  }

  /** `images.find(...)`, as a position: the first image whose file name starts with `id`. */
  function FindFirst(images: seq<string>, id: string): (r: Option<nat>)
    ensures r.Some? ==> IsFirstMatch(images, id, r.value)
    ensures r.None? ==> forall j :: 0 <= j < |images| ==> !Matches(images[j], id)
    decreases |images|
  {
    if |images| == 0 then None
    else if Matches(images[0], id) then Some(0)
    else match FindFirst(images[1..], id)
      case None => NoMatchAfterSkip(images, id); None
      case Some(i) => FirstMatchAfterSkip(images, id, i); Some(i + 1)
  }

  /** Past a non-matching head, the first match of the tail is the first match, one further on. */
  lemma FirstMatchAfterSkip(images: seq<string>, id: string, i: int)
    requires |images| > 0 && !Matches(images[0], id)
    requires IsFirstMatch(images[1..], id, i)
    ensures IsFirstMatch(images, id, i + 1)
  {
    assert images[i + 1] == images[1..][i];
    forall j | 0 <= j < i + 1 ensures !Matches(images[j], id) {
      if j > 0 { assert images[j] == images[1..][j - 1]; }
    }
  }

  /** Past a non-matching head, a tail without matches leaves none at all. */
  lemma NoMatchAfterSkip(images: seq<string>, id: string)
    requires |images| > 0 && !Matches(images[0], id)
    requires forall j :: 0 <= j < |images| - 1 ==> !Matches(images[1..][j], id)
    ensures forall j :: 0 <= j < |images| ==> !Matches(images[j], id)
  {
    forall j | 0 <= j < |images| ensures !Matches(images[j], id) {
      if j > 0 { assert images[j] == images[1..][j - 1]; }
    }
  }

  /** There is at most one first match. */
  lemma FirstMatchUnique(images: seq<string>, id: string, i: int, k: int)
    requires IsFirstMatch(images, id, i) && IsFirstMatch(images, id, k)
    ensures i == k
  {
  }

  /**
   * `getTrueMatch(selectedImage, images)`: the first image of `images` whose
   * file name starts with the selected file name's ID prefix, or `None`; a
   * hit on the empty string is turned into `None` by `|| null`.
   */
  function GetTrueMatch(selected: string, images: seq<string>): (r: Option<string>)
    ensures r.Some? ==> r.value in images && r.value != ""
    ensures r.Some? ==> Matches(r.value, IdPrefix(selected))
  {
    match FindFirst(images, IdPrefix(selected))
    case None => None
    case Some(i) => if images[i] == "" then None else Some(images[i])
  }

  /**
   * The lookup answers with the image at the first matching position, and
   * has no answer exactly when nothing matches or the first match is "".
   */
  lemma GetTrueMatchIsFirstMatch(selected: string, images: seq<string>)
    ensures var r := GetTrueMatch(selected, images);
      r.Some? ==> exists i :: IsFirstMatch(images, IdPrefix(selected), i) && images[i] == r.value
    ensures GetTrueMatch(selected, images).None? <==>
      (forall j :: 0 <= j < |images| ==> !Matches(images[j], IdPrefix(selected))) ||
      (exists i :: IsFirstMatch(images, IdPrefix(selected), i) && images[i] == "")
  {
    var f := FindFirst(images, IdPrefix(selected));
    if f.Some? {
      FirstMatchUniqueForAll(images, IdPrefix(selected), f.value);
    }
  }

  /** Any first match is the one at `i`. */
  lemma FirstMatchUniqueForAll(images: seq<string>, id: string, i: int)
    requires IsFirstMatch(images, id, i)
    ensures forall k :: IsFirstMatch(images, id, k) ==> k == i
  {
    forall k | IsFirstMatch(images, id, k) ensures k == i {
      FirstMatchUnique(images, id, i, k);
    }
  }

  /** A file name shorter than the ID length is the whole ID. */
  lemma ShortBasenameIsWholeId(path: string)
    requires |Basename(path)| < IdLength
    ensures IdPrefix(path) == Basename(path)
  {
  }

  /**
   * A selected path ending in '/' has the empty ID, which every file name
   * starts with: the lookup returns the first image, or `None` when the list
   * is empty or its first image is the empty string.
   */
  lemma {:induction false} TrailingSlashMatchesFirst(selected: string, images: seq<string>)
    requires selected != "" && selected[|selected| - 1] == PathSeparator
    ensures GetTrueMatch(selected, images) ==
      if |images| > 0 && images[0] != "" then Some(images[0]) else None
  {
    EmptyIdPrefix(selected);
    if |images| > 0 {
      assert Matches(images[0], "");
      assert IsFirstMatch(images, "", 0);
    }
  }

  /** An image whose file name starts with the ID ensures some answer unless an empty string comes first. */
  lemma {:induction false} MatchPresentGivesAnswer(selected: string, images: seq<string>, k: int)
    requires 0 <= k < |images| && images[k] != "" && Matches(images[k], IdPrefix(selected))
    requires forall j :: 0 <= j < k ==> images[j] != ""
    ensures GetTrueMatch(selected, images).Some?
  {
    var id := IdPrefix(selected);
    var f := FindFirst(images, id);
    assert f.Some?;
    assert f.value <= k;
    assert images[f.value] != "";
  }
}
