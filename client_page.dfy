/**
 * The state of the two-image comparison page and the handlers that change
 * it. Side A is picked from the gallery list, side B from the probe list;
 * each side carries its image, its embedding and its error message, and the
 * page carries the similarity score and the image-picker dialog.
 *
 * Embedding extraction and cosine similarity belong to an external face
 * pipeline: an extraction arrives as an `Extraction` outcome, and the
 * similarity function is a parameter of the page that is never inspected.
 */
module ClientPage {
  import opened Wrappers
  import TrueMatch
  import ResultDisplay

  /** A face embedding produced by the external pipeline, known only by identity. */
  datatype Embedding = Embedding(handle: nat)

  /** The two sides of the comparison. */
  datatype Side = SideA | SideB

  /** What an embedding extraction can end in. */
  datatype Extraction =
    | Extracted(embedding: Embedding)
    | FaceAlignmentError(message: string)
    | UnknownFailure

  /** Which list the picker dialog shows: the gallery (side A) or the probes (side B). */
  datatype Picker = Gallery | Probe

  /** What the picker dialog shows and which side a click in it selects. */
  datatype ModalConfig = ModalConfig(title: string, images: seq<string>, onSelect: Side, trueMatch: Option<string>)

  /** Error text for an extraction that failed for a reason other than face alignment. */
  const UnknownErrorMessage: string := "An unknown error occurred during validation."

  /** Error text for an image that could not be loaded. */
  const LoadErrorMessage: string := "Failed to load image for processing."

  function Other(side: Side): Side {
    if side == SideA then SideB else SideA
  }

  class Page {
    const galleryImages: seq<string>
    const probeImages: seq<string>
    /** `cosineSimilarity`, supplied by the external pipeline. */
    const cosine: (Embedding, Embedding) -> real

    var imageA: Option<string>
    var imageB: Option<string>
    var embeddingA: Option<Embedding>
    var embeddingB: Option<Embedding>
    var similarity: Option<real>
    var loadingModels: bool
    var isModalOpen: bool
    var modalConfig: Option<ModalConfig>
    var trueMatchA: Option<string>
    var trueMatchB: Option<string>
    var errorA: Option<string>
    var errorB: Option<string>

    /**
     * The dialog is open exactly when it has a configuration, and that
     * configuration is the one `OpenModal` builds from the current state;
     * each side's true match is an image of the list it is shown in.
     */
    ghost predicate Valid()
      reads this
      ensures Valid() && modalConfig.Some? ==>
        isModalOpen &&
        (modalConfig.value.onSelect == SideA ==>
          modalConfig.value.images == galleryImages && modalConfig.value.trueMatch == trueMatchA) &&
        (modalConfig.value.onSelect == SideB ==>
          modalConfig.value.images == probeImages && modalConfig.value.trueMatch == trueMatchB)
    {
      (isModalOpen <==> modalConfig.Some?) &&
      (modalConfig == None || modalConfig == Some(ModalFor(Gallery)) || modalConfig == Some(ModalFor(Probe))) &&
      (trueMatchA.Some? ==> trueMatchA.value in galleryImages) &&
      (trueMatchB.Some? ==> trueMatchB.value in probeImages)
    }

    /** The dialog configuration for a picker, as `openModal` builds it. */
    function ModalFor(picker: Picker): (c: ModalConfig)
      reads this
      ensures picker == Gallery ==> c.images == galleryImages && c.onSelect == SideA && c.trueMatch == trueMatchA
      ensures picker == Probe ==> c.images == probeImages && c.onSelect == SideB && c.trueMatch == trueMatchB
    {
      match picker
      case Gallery => ModalConfig("Gallery 1", galleryImages, SideA, trueMatchA)
      case Probe => ModalConfig("Gallery 2", probeImages, SideB, trueMatchB)
    }

    function EmbeddingOf(side: Side): Option<Embedding>
      reads this
    {
      if side == SideA then embeddingA else embeddingB
    }

    function ErrorOf(side: Side): Option<string>
      reads this
    {
      if side == SideA then errorA else errorB
    }

    /** The verdict the result panel shows for the current score. */
    function Verdict(): (v: ResultDisplay.Verdict)
      reads this
      ensures v == ResultDisplay.Waiting <==> similarity.None?
      ensures v == ResultDisplay.Match <==>
        similarity.Some? && similarity.value >= ResultDisplay.SimilarityThreshold
    {
      ResultDisplay.Decide(similarity)
    }

    /** The page as first rendered: nothing selected, models still loading. */
    constructor (galleryImages: seq<string>, probeImages: seq<string>, cosine: (Embedding, Embedding) -> real)
      ensures Valid()
      ensures this.galleryImages == galleryImages && this.probeImages == probeImages && this.cosine == cosine
      ensures imageA == None && imageB == None && embeddingA == None && embeddingB == None
      ensures similarity == None && loadingModels
      ensures !isModalOpen && modalConfig == None
      ensures trueMatchA == None && trueMatchB == None && errorA == None && errorB == None
      ensures Verdict() == ResultDisplay.Waiting
    {
      this.galleryImages := galleryImages;
      this.probeImages := probeImages;
      this.cosine := cosine;
      imageA, imageB := None, None;
      embeddingA, embeddingB := None, None;
      similarity := None;
      loadingModels := true;
      isModalOpen, modalConfig := false, None;
      trueMatchA, trueMatchB := None, None;
      errorA, errorB := None, None;
    }

    /** The models finished loading: the page leaves its loading screen. */
    method ModelsLoaded()
      requires Valid()
      modifies this
      ensures Valid()
      ensures !loadingModels
      ensures imageA == old(imageA) && imageB == old(imageB)
      ensures embeddingA == old(embeddingA) && embeddingB == old(embeddingB) && similarity == old(similarity)
      ensures isModalOpen == old(isModalOpen) && modalConfig == old(modalConfig)
      ensures trueMatchA == old(trueMatchA) && trueMatchB == old(trueMatchB)
      ensures errorA == old(errorA) && errorB == old(errorB)
    {
      loadingModels := false;
    }

    /** `closeModal`: the dialog is closed and forgets its configuration. */
    method CloseModal()
      requires Valid()
      modifies this
      ensures Valid()
      ensures !isModalOpen && modalConfig == None
      ensures imageA == old(imageA) && imageB == old(imageB)
      ensures embeddingA == old(embeddingA) && embeddingB == old(embeddingB) && similarity == old(similarity)
      ensures loadingModels == old(loadingModels)
      ensures trueMatchA == old(trueMatchA) && trueMatchB == old(trueMatchB)
      ensures errorA == old(errorA) && errorB == old(errorB)
    {
      isModalOpen := false;
      modalConfig := None;
    }

    /**
     * `openModal`: the gallery picker lists the gallery images, selects side A
     * and highlights side A's true match; the probe picker does the same for
     * side B.
     */
    method OpenModal(picker: Picker)
      requires Valid()
      modifies this
      ensures Valid()
      ensures isModalOpen && modalConfig == Some(ModalFor(picker))
      ensures picker == Gallery ==>
        modalConfig.value.images == galleryImages && modalConfig.value.onSelect == SideA &&
        modalConfig.value.trueMatch == trueMatchA
      ensures picker == Probe ==>
        modalConfig.value.images == probeImages && modalConfig.value.onSelect == SideB &&
        modalConfig.value.trueMatch == trueMatchB
      ensures imageA == old(imageA) && imageB == old(imageB)
      ensures embeddingA == old(embeddingA) && embeddingB == old(embeddingB) && similarity == old(similarity)
      ensures loadingModels == old(loadingModels)
      ensures trueMatchA == old(trueMatchA) && trueMatchB == old(trueMatchB)
      ensures errorA == old(errorA) && errorB == old(errorB)
    {
      modalConfig := Some(ModalFor(picker));
      isModalOpen := true;
    }

    /**
     * `handleImageASelect`, up to starting the image load: side A shows the
     * image, side B's true match is looked up among the probes, the old score
     * is dropped and the dialog closes. Both embeddings and errors, side B's
     * image and side A's true match are left as they were.
     */
    method SelectImageA(image: string)
      requires Valid()
      modifies this
      ensures Valid()
      ensures imageA == Some(image)
      ensures trueMatchB == TrueMatch.GetTrueMatch(image, probeImages)
      ensures similarity == None && Verdict() == ResultDisplay.Waiting
      ensures !isModalOpen && modalConfig == None
      ensures imageB == old(imageB) && trueMatchA == old(trueMatchA)
      ensures embeddingA == old(embeddingA) && embeddingB == old(embeddingB)
      ensures errorA == old(errorA) && errorB == old(errorB)
      ensures loadingModels == old(loadingModels)
    {
      var matchB := TrueMatch.GetTrueMatch(image, probeImages);
      assert matchB.Some? ==> matchB.value in probeImages;
      // The page's state updates are batched into one render, so closing
      // the dialog first gives the same state as closing it last.
      CloseModal();
      imageA, trueMatchB, similarity := Some(image), matchB, None;
    }

    /** `handleImageBSelect`: the mirror image of `SelectImageA`, with side A's true match looked up in the gallery. */
    method SelectImageB(image: string)
      requires Valid()
      modifies this
      ensures Valid()
      ensures imageB == Some(image)
      ensures trueMatchA == TrueMatch.GetTrueMatch(image, galleryImages)
      ensures similarity == None && Verdict() == ResultDisplay.Waiting
      ensures !isModalOpen && modalConfig == None
      ensures imageA == old(imageA) && trueMatchB == old(trueMatchB)
      ensures embeddingA == old(embeddingA) && embeddingB == old(embeddingB)
      ensures errorA == old(errorA) && errorB == old(errorB)
      ensures loadingModels == old(loadingModels)
    {
      var matchA := TrueMatch.GetTrueMatch(image, galleryImages);
      assert matchA.Some? ==> matchA.value in galleryImages;
      // The page's state updates are batched into one render, so closing
      // the dialog first gives the same state as closing it last.
      CloseModal();
      imageB, trueMatchA, similarity := Some(image), matchA, None;
    }

    /**
     * The effect that runs whenever an embedding changes: a score is computed
     * only when both sides have an embedding; otherwise the score is kept.
     */
    method CompareEmbeddings()
      requires Valid()
      modifies this
      ensures Valid()
      ensures embeddingA.Some? && embeddingB.Some? ==>
        similarity == Some(cosine(embeddingA.value, embeddingB.value))
      ensures embeddingA.None? || embeddingB.None? ==> similarity == old(similarity)
      ensures imageA == old(imageA) && imageB == old(imageB)
      ensures embeddingA == old(embeddingA) && embeddingB == old(embeddingB)
      ensures isModalOpen == old(isModalOpen) && modalConfig == old(modalConfig)
      ensures loadingModels == old(loadingModels)
      ensures trueMatchA == old(trueMatchA) && trueMatchB == old(trueMatchB)
      ensures errorA == old(errorA) && errorB == old(errorB)
    {
      if embeddingA.Some? && embeddingB.Some? {
        similarity := Some(cosine(embeddingA.value, embeddingB.value));
      }
    }

    /**
     * The part of `processAndStoreEmbedding` before extraction is awaited:
     * the side's embedding and error are cleared. The score is kept, since
     * the comparison effect needs both embeddings.
     */
    method BeginEmbedding(side: Side)
      requires Valid()
      modifies this
      ensures Valid()
      ensures EmbeddingOf(side) == None && ErrorOf(side) == None
      ensures EmbeddingOf(Other(side)) == old(EmbeddingOf(Other(side)))
      ensures ErrorOf(Other(side)) == old(ErrorOf(Other(side)))
      ensures similarity == old(similarity)
      ensures imageA == old(imageA) && imageB == old(imageB)
      ensures isModalOpen == old(isModalOpen) && modalConfig == old(modalConfig)
      ensures loadingModels == old(loadingModels)
      ensures trueMatchA == old(trueMatchA) && trueMatchB == old(trueMatchB)
    {
      if side == SideA {
        embeddingA, errorA := None, None;
      } else {
        embeddingB, errorB := None, None;
      }
      CompareEmbeddings();
    }

    /**
     * The part of `processAndStoreEmbedding` after extraction settles: a new
     * embedding is stored and compared with the other side's; a face-alignment
     * failure shows its own message; any other failure shows a fixed message.
     * Only the field a branch sets changes: a failure keeps the side's
     * embedding (cleared by `BeginEmbedding` unless another run stored one
     * meanwhile) and the score, a success keeps the side's error.
     */
    method CompleteEmbedding(side: Side, outcome: Extraction)
      requires Valid()
      modifies this
      ensures Valid()
      ensures outcome.Extracted? ==> EmbeddingOf(side) == Some(outcome.embedding) && ErrorOf(side) == old(ErrorOf(side))
      ensures outcome.FaceAlignmentError? ==> EmbeddingOf(side) == old(EmbeddingOf(side)) && ErrorOf(side) == Some(outcome.message)
      ensures outcome.UnknownFailure? ==> EmbeddingOf(side) == old(EmbeddingOf(side)) && ErrorOf(side) == Some(UnknownErrorMessage)
      ensures outcome.Extracted? && embeddingA.Some? && embeddingB.Some? ==>
        similarity == Some(cosine(embeddingA.value, embeddingB.value))
      ensures !(outcome.Extracted? && EmbeddingOf(Other(side)).Some?) ==> similarity == old(similarity)
      ensures EmbeddingOf(Other(side)) == old(EmbeddingOf(Other(side)))
      ensures ErrorOf(Other(side)) == old(ErrorOf(Other(side)))
      ensures imageA == old(imageA) && imageB == old(imageB)
      ensures isModalOpen == old(isModalOpen) && modalConfig == old(modalConfig)
      ensures loadingModels == old(loadingModels)
      ensures trueMatchA == old(trueMatchA) && trueMatchB == old(trueMatchB)
    {
      match outcome
      case Extracted(e) =>
        if side == SideA { embeddingA := Some(e); } else { embeddingB := Some(e); }
        CompareEmbeddings();
      case FaceAlignmentError(message) =>
        if side == SideA { errorA := Some(message); } else { errorB := Some(message); }
      case UnknownFailure =>
        if side == SideA { errorA := Some(UnknownErrorMessage); } else { errorB := Some(UnknownErrorMessage); }
    }

    /** `processAndStoreEmbedding` when nothing else happens while extraction is awaited. */
    method ProcessAndStoreEmbedding(side: Side, outcome: Extraction)
      requires Valid()
      modifies this
      ensures Valid()
      ensures outcome.Extracted? ==> EmbeddingOf(side) == Some(outcome.embedding) && ErrorOf(side) == None
      ensures outcome.FaceAlignmentError? ==> EmbeddingOf(side) == None && ErrorOf(side) == Some(outcome.message)
      ensures outcome.UnknownFailure? ==> EmbeddingOf(side) == None && ErrorOf(side) == Some(UnknownErrorMessage)
      ensures outcome.Extracted? && embeddingA.Some? && embeddingB.Some? ==>
        similarity == Some(cosine(embeddingA.value, embeddingB.value))
      ensures !(outcome.Extracted? && EmbeddingOf(Other(side)).Some?) ==> similarity == old(similarity)
      ensures EmbeddingOf(Other(side)) == old(EmbeddingOf(Other(side)))
      ensures ErrorOf(Other(side)) == old(ErrorOf(Other(side)))
      ensures imageA == old(imageA) && imageB == old(imageB)
      ensures isModalOpen == old(isModalOpen) && modalConfig == old(modalConfig)
      ensures loadingModels == old(loadingModels)
      ensures trueMatchA == old(trueMatchA) && trueMatchB == old(trueMatchB)
    {
      BeginEmbedding(side);
      CompleteEmbedding(side, outcome);
    }

    /**
     * The image element's `onerror`: the side shows the load error. Its
     * embedding, and with it any score, is left as it was.
     */
    method ImageLoadFailed(side: Side)
      requires Valid()
      modifies this
      ensures Valid()
      ensures ErrorOf(side) == Some(LoadErrorMessage)
      ensures ErrorOf(Other(side)) == old(ErrorOf(Other(side)))
      ensures embeddingA == old(embeddingA) && embeddingB == old(embeddingB) && similarity == old(similarity)
      ensures imageA == old(imageA) && imageB == old(imageB)
      ensures isModalOpen == old(isModalOpen) && modalConfig == old(modalConfig)
      ensures loadingModels == old(loadingModels)
      ensures trueMatchA == old(trueMatchA) && trueMatchB == old(trueMatchB)
    {
      if side == SideA {
        errorA := Some(LoadErrorMessage);
      } else {
        errorB := Some(LoadErrorMessage);
      }
    }
  }

  /**
   * A run of the page: side A gets an embedding, side A is then re-selected
   * but its new image fails to load, and side B gets an embedding. The score
   * shown compares side B with side A's earlier image, next to side A's load
   * error.
   */
  method StaleEmbeddingAfterLoadFailure(
    gallery: seq<string>, probes: seq<string>, cosine: (Embedding, Embedding) -> real,
    first: string, second: string, probe: string, e1: Embedding, e2: Embedding)
    returns (shownA: Option<string>, errorA: Option<string>, score: Option<real>)
    ensures shownA == Some(second) && errorA == Some(LoadErrorMessage)
    ensures score == Some(cosine(e1, e2))
  {
    var page := new Page(gallery, probes, cosine);
    page.ModelsLoaded();
    page.SelectImageA(first);
    page.ProcessAndStoreEmbedding(SideA, Extracted(e1));
    page.SelectImageA(second);
    page.ImageLoadFailed(SideA);
    page.SelectImageB(probe);
    page.ProcessAndStoreEmbedding(SideB, Extracted(e2));
    shownA, errorA, score := page.imageA, page.errorA, page.similarity;
  }
}
