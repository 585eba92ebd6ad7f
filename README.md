# SimFace web comparison page: a verified model

SimFace compares two face images. Its web page has two sides: side A is
picked from a gallery list, side B from a probe list. Each side's image is turned into an embedding by an external face
pipeline; once both sides have one, the page computes a similarity score and
shows "Match" or "No Match".

This project models the logic of that page that does not depend on the face
pipeline:

- `TrueMatch` (`true_match.dfy`): the "true match" lookup. When an image is
  picked on one side, the page finds the image on the other side whose file
  name starts with the same six-character subject ID, so that the picker
  can highlight it. Paths are split on `/` exactly as JavaScript's
  `split("/")` does. The file name is the last piece, the ID is its first
  six characters (or all of it when shorter), and the answer is the first
  image whose file name starts with the ID. A hit on the empty string is
  turned into "no answer".
- `ClientPage` (`client_page.dfy`): the page state as a class `Page`, with
  one field per piece of page state. Its methods are the handlers:
  - selecting an image on each side;
  - the two halves of embedding processing, before and after extraction is awaited;
  - an image that fails to load;
  - opening and closing the picker dialog;
  - the effect that recomputes the score.
  The invariant `Valid` says three things. The dialog is open exactly when
  it has a configuration. That configuration is always the one `OpenModal`
  builds from the current state. Each side's true match is an element of the
  list it is shown in.
- `ResultDisplay` (`result_display.dfy`): the verdict. No score means
  "Waiting". Otherwise a score at or above 0.5 is "Match" and anything else
  is "No Match".

Embedding extraction arrives as an `Extraction` outcome: success with an
opaque embedding, a face-alignment error with its message, or some other
failure. Cosine similarity is a function `cosine` that the page receives and
never inspects. Scores are `real`.

Notes on how the model reads the code:

- In `getTrueMatch`, `split("/")` never returns an empty array. So `pop()`
  always yields a string, and the `?.` and `?? ""` guards never take effect.
  The model has no such case.
- The comparison effect runs after any render in which `embeddingA` or
  `embeddingB` changed. In the model, the methods that change an embedding
  call `CompareEmbeddings` after the change.
- React batches the state updates of one handler into one render. So
  `SelectImageA` and `SelectImageB` close the dialog first and then set the
  other fields. The resulting state is the same as in the source order.
- `processAndStoreEmbedding` awaits the extraction, and other events can
  happen in the meantime. For that reason it is split into `BeginEmbedding`
  (the clearing done before the await) and `CompleteEmbedding` (the outcome
  after it). `ProcessAndStoreEmbedding` is the two run back to back.
- An image's `onerror` only sets the side's error; it leaves the side's
  previous embedding in place. `StaleEmbeddingAfterLoadFailure` shows the
  consequence. Side A gets an embedding, then a new side-A image fails to
  load, then side B gets an embedding. The score shown then compares side B
  with side A's previous image, while side A shows the new image and its load
  error.
- The threshold is the constant 0.5 (`ResultDisplay.tsx:4`).

## Model

| member | source | states |
|---|---|---|
| `TrueMatch.LastIsPopped` | src/app/clientpage.tsx:70-75 | `pop()` returns an element of the list, and the rest of the list followed by that element is the whole list |
| `TrueMatch.StartsWithIsPrefix` | src/app/clientpage.tsx:76 | `startsWith(p)` holds exactly when the string is `p` followed by something |
| `TrueMatch.Split` | src/app/clientpage.tsx:70 | `split` yields at least one piece, and no piece contains the separator |
| `TrueMatch.JoinSplit` | src/app/clientpage.tsx:70 | splitting loses nothing: re-joining the pieces with the separator gives back the original string |
| `TrueMatch.JoinAppendEmpty` | src/app/clientpage.tsx:70 | a trailing empty piece (what a trailing '/' produces) joins as a trailing separator |
| `TrueMatch.JoinExtendLast` | src/app/clientpage.tsx:70 | extending the last piece by a character extends the joined string by that character |
| `TrueMatch.SplitJoin` | src/app/clientpage.tsx:70 | the reverse round trip: separator-free pieces, joined and split again, come back unchanged |
| `TrueMatch.SplitNoSeparator` | src/app/clientpage.tsx:70 | a string without the separator splits into itself alone |
| `TrueMatch.SplitAppendPiece` | src/app/clientpage.tsx:70 | appending a separator and a separator-free piece to a string appends exactly that piece to its split |
| `TrueMatch.LastPieceIsSuffix` | src/app/clientpage.tsx:70 | the last piece (what `pop()` returns) is a suffix of the string, and either the whole string or preceded by the separator |
| `TrueMatch.Basename` | src/app/clientpage.tsx:70 | the file name contains no '/', is a suffix of the path, and is the whole path or follows a '/' |
| `TrueMatch.BasenameUnique` | src/app/clientpage.tsx:70 | those three facts determine the file name: it is the longest '/'-free suffix |
| `TrueMatch.IdPrefix` | src/app/clientpage.tsx:70 | the ID is a prefix of the file name of length min(6, file-name length) |
| `TrueMatch.ShortBasenameIsWholeId` | src/app/clientpage.tsx:70 | a file name shorter than 6 characters is the whole ID |
| `TrueMatch.EmptyIdPrefix` | src/app/clientpage.tsx:70 | the ID is empty exactly when the path is empty or ends in '/' |
| `TrueMatch.MatchCondition` | src/app/clientpage.tsx:73-76 | the `find` callback: the empty ID matches every image, and an ID that matches contains no '/' and is no longer than the image's path |
| `TrueMatch.FirstMatchAfterSkip` | src/app/clientpage.tsx:72-76 | past a head that does not match, the tail's first match is the list's first match, one position further |
| `TrueMatch.NoMatchAfterSkip` | src/app/clientpage.tsx:72-76 | past a head that does not match, a tail with no match leaves no match in the list |
| `TrueMatch.FindFirst` | src/app/clientpage.tsx:72-76 | `find` gives the position of an image whose file name starts with the ID with no earlier such image, or nothing when no image's file name starts with it |
| `TrueMatch.FirstMatchUnique` | src/app/clientpage.tsx:72-76 | there is at most one first matching position |
| `TrueMatch.GetTrueMatch` | src/app/clientpage.tsx:69-79 | the answer is never invented: it is a non-empty element of the list whose file name starts with the selected path's ID |
| `TrueMatch.GetTrueMatchIsFirstMatch` | src/app/clientpage.tsx:71-77 | the answer is the image at the first matching position; there is no answer exactly when nothing matches or the first match is the empty string |
| `TrueMatch.TrailingSlashMatchesFirst` | src/app/clientpage.tsx:70-77 | a selected path ending in '/' returns the first image, or nothing when the list is empty or its first image is "" |
| `TrueMatch.MatchPresentGivesAnswer` | src/app/clientpage.tsx:72-77 | an answer exists when some non-empty image's file name starts with the ID and no empty image comes before it |
| `ResultDisplay.Decide` | src/components/ResultDisplay.tsx:12-26 | no score is Waiting and only that; with a score the verdict is Match iff the score is >= 0.5 and No Match iff it is < 0.5 |
| `ResultDisplay.IsMatch` | src/components/ResultDisplay.tsx:26-27 | `isMatch` holds exactly when there is a score and it is >= 0.5 |
| `ResultDisplay.Label` | src/components/ResultDisplay.tsx:12-37 | the headline is "Waiting" exactly for the Waiting state and "Match" exactly for a Match |
| `ResultDisplay.IsMatchIsMatchHeadline` | src/components/ResultDisplay.tsx:26-27 | `isMatch` is `decision === "Match"`: it holds exactly when the headline shown is "Match" |
| `ResultDisplay.NoScoreIsWaiting` | src/components/ResultDisplay.tsx:12-23 | a missing score gives Waiting and never a match |
| `ResultDisplay.ThresholdIsMatch` | src/components/ResultDisplay.tsx:4-26 | a score equal to the threshold is a Match |
| `ResultDisplay.MatchIsMonotone` | src/components/ResultDisplay.tsx:26 | raising a matching score keeps it a Match |
| `ResultDisplay.NoMatchIsAntitone` | src/components/ResultDisplay.tsx:26 | lowering a non-matching score keeps it a No Match |
| `ClientPage.Page.Valid` | src/app/clientpage.tsx:136-153 | the page invariant: under it, an open picker's configuration lists the gallery with side A's true match, or the probes with side B's true match, matching the side it selects |
| `ClientPage.Page.Verdict` | src/app/clientpage.tsx:194 | the panel rendered for the page's score is Waiting exactly when there is no score, and Match exactly when the score is at least 0.5 |
| `ClientPage.Page.constructor` | src/app/clientpage.tsx:26-42 | the initial page: every optional field null, dialog closed, models loading, verdict Waiting |
| `ClientPage.Page.ModelsLoaded` | src/app/clientpage.tsx:44-50 | once the models are loaded, the loading flag is off and nothing else changes |
| `ClientPage.Page.ModalFor` | src/app/clientpage.tsx:136-151 | the gallery picker's configuration lists the gallery, selects side A and highlights side A's true match; the probe picker's does the same with the probes and side B |
| `ClientPage.Page.CloseModal` | src/app/clientpage.tsx:64-67 | `closeModal` leaves the dialog closed with no configuration and changes nothing else |
| `ClientPage.Page.OpenModal` | src/app/clientpage.tsx:136-153 | `openModal` opens the dialog with the chosen picker's configuration (gallery: gallery images, side A, trueMatchA; otherwise probes, side B, trueMatchB) and changes nothing else |
| `ClientPage.Page.SelectImageA` | src/app/clientpage.tsx:104-108 | selecting A sets imageA, sets trueMatchB to the lookup among the probes, clears the score (verdict Waiting) and closes the dialog; embeddings, errors, imageB and trueMatchA are unchanged |
| `ClientPage.Page.SelectImageB` | src/app/clientpage.tsx:120-124 | selecting B sets imageB, sets trueMatchA to the lookup in the gallery, clears the score and closes the dialog; everything else is unchanged |
| `ClientPage.Page.CompareEmbeddings` | src/app/clientpage.tsx:53-62 | the score becomes cosine(embeddingA, embeddingB) when both exist, and otherwise keeps its value; nothing else changes |
| `ClientPage.Page.BeginEmbedding` | src/app/clientpage.tsx:87-89 | before extraction the side's embedding and error are cleared; the other side and the score are unchanged |
| `ClientPage.Page.CompleteEmbedding` | src/app/clientpage.tsx:91-101 | a success stores the embedding and re-scores when the other side has one; a face-alignment failure sets the error to its message; any other failure sets the fixed unknown-error text; a failure keeps the embedding and the score |
| `ClientPage.Page.ProcessAndStoreEmbedding` | src/app/clientpage.tsx:81-102 | run without interleaving: a success leaves the embedding set and the error null; either failure leaves the embedding null and the error set; the score changes only when both embeddings exist |
| `ClientPage.Page.ImageLoadFailed` | src/app/clientpage.tsx:110-133 | a failed image load sets that side's error to "Failed to load image for processing." and changes nothing else |
| `ClientPage.StaleEmbeddingAfterLoadFailure` | src/app/clientpage.tsx:104-133 | after a side-A load failure, the score later shown compares side B with side A's earlier image, while side A shows its new image and the load error |

## Left out

- The face pipeline: landmark detection, alignment, embedding inference and cosine similarity. In `src/lib/faceApi.ts` these are placeholders. The page imports `getEmbedding`, `loadModels` and `FaceAlignmentError`, but that file does not define them. Extraction is therefore an `Extraction` outcome, and similarity is the uninterpreted `cosine` parameter.
- The model-loading effect is reduced to `ModelsLoaded`. The loading itself is an external asynchronous call.
- Native tensor lifetime: `dispose()` on the embedding captured when the select handler was created (`clientpage.tsx:113`, `:129`). That can be a stale value when the handler is the `onSelect` stored in the dialog configuration. It is a foreign resource API, and the model's embeddings are plain values.
- Image loading: `new Image()`, `src`, and the `onload` and `onerror` callbacks. The environment triggers `ProcessAndStoreEmbedding` (or `BeginEmbedding`/`CompleteEmbedding`) or `ImageLoadFailed` instead.
- The file upload. As written it is not connected to the select handlers: `FaceInput.tsx:69` passes `onImageSelect` to `ImageUploader`, but `ImageUploader` reads only an `onImageUpload` prop (`ImageUploader.tsx:8`, `:11`). Its calls at `:24` and `:29` therefore go to an undefined callback. Even if it were connected, the no-file branch would pass `null`, and `getTrueMatch` would fail on it. The model covers only selections of a string path.
- The `console.error(error)` logging on the unknown-failure path (`clientpage.tsx:99`): console output.
- The loading gate. While `loadingModels` holds, the page renders only the loading screen (`clientpage.tsx:155-157`), so no handler can be reached. The model does not require `!loadingModels`: every method can run in that state.
- Which image load or extraction finishes first. A late completion from an earlier selection can overwrite newer state. The model allows any order of method calls, but states no property about stale completions.
- Rendering and layout: the JSX, the modal, `FaceInput`, `ImageSelector`, `IconButton`, `LoadingComponent` and the layout files. The dialog's `title`, however, is part of the modelled configuration.
- `src/app/page.tsx`, the older single-button flow: asynchronous orchestration around the placeholder model code.
- Score formatting with `toFixed(4)`: float-to-string conversion.
- Floating-point arithmetic: scores are reals, so the comparison with 0.5 is exact.
- `substring`, `startsWith` and `split` count UTF-16 code units; the model counts Dafny characters.
- `next.config.ts`: deployment configuration.
