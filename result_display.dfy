/**
 * The verdict shown between the two faces: nothing to show until a score
 * exists, then "Match" or "No Match" against a fixed threshold.
 * Scores are mathematical reals; floating-point rounding is not modelled.
 */
module ResultDisplay {
  import opened Wrappers

  /** Scores at or above this value are shown as a match. */
  const SimilarityThreshold: real := 0.5

  /** The three states of the result panel. */
  datatype Verdict = Waiting | Match | NoMatch

  /** The decision for an optional similarity score. */
  function Decide(similarity: Option<real>): (v: Verdict)
    ensures v == Waiting <==> similarity.None?
    ensures similarity.Some? ==> (v == Match <==> similarity.value >= SimilarityThreshold)
    ensures similarity.Some? ==> (v == NoMatch <==> similarity.value < SimilarityThreshold)
  {
    match similarity
    case None => Waiting
    case Some(score) => if score >= SimilarityThreshold then Match else NoMatch
  }

  /** `isMatch`: the panel is highlighted as a match. */
  function IsMatch(similarity: Option<real>): (b: bool)
    ensures b <==> similarity.Some? && similarity.value >= SimilarityThreshold
  {
    Decide(similarity) == Match
  }

  /** The text of the panel's headline: the empty state's text, or `decision`. */
  function Label(v: Verdict): (text: string)
    ensures text == "Waiting" <==> v == Waiting
    ensures text == "Match" <==> v == Match
  {
    match v
    case Waiting => "Waiting"
    case Match => "Match"
    case NoMatch => "No Match"
  }

  /** `isMatch` is the test `decision === "Match"` on the headline text. */
  lemma IsMatchIsMatchHeadline(similarity: Option<real>)
    ensures IsMatch(similarity) <==> Label(Decide(similarity)) == "Match"
  {
  }

  /** Without a score there is never a verdict. */
  lemma NoScoreIsWaiting()
    ensures Decide(None) == Waiting && !IsMatch(None)
  {
  }

  /** The threshold itself is a match. */
  lemma ThresholdIsMatch()
    ensures Decide(Some(SimilarityThreshold)) == Match
  {
  }

  /** Raising a matching score keeps it a match. */
  lemma MatchIsMonotone(s1: real, s2: real)
    requires Decide(Some(s1)) == Match && s1 <= s2
    ensures Decide(Some(s2)) == Match
  {
  }

  /** Lowering a non-matching score keeps it a non-match. */
  lemma NoMatchIsAntitone(s1: real, s2: real)
    requires Decide(Some(s1)) == NoMatch && s2 <= s1
    ensures Decide(Some(s2)) == NoMatch
  {
  }
}
