/**
 * The work lightbox controller: the overlay that opens on a thumbnail click,
 * steps through the image path list with wrap-around, and closes again, each
 * step wrapped in a view transition.
 *
 * The pure functions below (`Rendered`, `Opened`, `Closed`, `Moved`, ...) are
 * the specification: each maps the controller's observable state before an
 * operation to the state after it. The class `Lightbox` holds that state in
 * mutable fields, as the script does, and each of its methods is proved to
 * move its fields exactly as the matching function says.
 */
module WorkLightbox {
  import opened LoopedIndex
  import opened ImagePaths

  const IMAGE_TRANSITION_NAME := "work-lightbox-image"
  const OPEN_TRANSITION_CLASS := "is-work-transition-open"
  const CLOSE_TRANSITION_CLASS := "is-work-transition-close"
  const NEXT_TRANSITION_CLASS := "is-work-transition-next"
  const PREVIOUS_TRANSITION_CLASS := "is-work-transition-previous"
  const BODY_OPEN_CLASS := "is-work-lightbox-open"

  const TRANSITION_CLASSES: set<string> :=
    {OPEN_TRANSITION_CLASS, CLOSE_TRANSITION_CLASS, NEXT_TRANSITION_CLASS, PREVIOUS_TRANSITION_CLASS}

  /** Everything the controller reads or writes after set-up: the current
      image index, the overlay's `hidden` flag and `aria-hidden` attribute
      (absent or a string), the body's and the document root's class lists,
      the overlay image's `src` and `viewTransitionName`, and the
      `viewTransitionName` of each thumbnail image, keyed by trigger index. */
  datatype State = State(
    currentIndex: int,
    overlayHidden: bool,
    overlayAriaHidden: Option<string>,
    bodyClasses: set<string>,
    imageSrc: string,
    imageTransitionName: string,
    thumbnailTransitionNames: map<nat, string>,
    rootClasses: set<string>)

  /** What is fixed once the controller is set up: the triggers, the path list
      derived from them, and whether the platform offers view transitions. */
  datatype Setup = Setup(triggers: seq<Trigger>, paths: seq<string>, viewTransitions: bool)

  ghost predicate WellFormed(setup: Setup)
  {
    |setup.triggers| > 0 && setup.paths == PathList(setup.triggers)
  }

  /** The `updateDom` callbacks that open, close and move pass to the
      transition wrapper, with the values they close over. */
  datatype DomUpdate =
    | OpenUpdate(thumbnail: Option<nat>, targetIndex: int)
    | CloseUpdate(thumbnail: Option<nat>)
    | MoveUpdate(offset: int)

  /** The `onFinished` callbacks: none (move), or clearing the transition name
      of the thumbnail looked up before the transition (open and close). */
  datatype FinishAction = NoFinish | ClearThumbnailName(thumbnail: Option<nat>)

  // ---------------------------------------------------------------------------
  // Invariants of the observable state

  /** The overlay's three visibility markers agree: hidden exactly when
      `aria-hidden` is "true" and exactly when the body lacks the open class. */
  predicate Synced(s: State)
  {
    (s.overlayHidden <==> s.overlayAriaHidden == Some("true")) &&
    (s.overlayHidden <==> BODY_OPEN_CLASS !in s.bodyClasses)
  }

  predicate IndexInRange(s: State, paths: seq<string>)
  {
    0 <= s.currentIndex < LoopDivisor(|paths|)
  }

  /** The overlay image shows the path at the current index (vacuous while
      the path list is empty). */
  predicate Showing(s: State, paths: seq<string>)
  {
    |paths| > 0 ==> 0 <= s.currentIndex < |paths| && s.imageSrc == paths[s.currentIndex]
  }

  /** No transition class is left on the document root. */
  predicate NoTransitionClass(s: State)
  {
    s.rootClasses !! TRANSITION_CLASSES
  }

  // ---------------------------------------------------------------------------
  // Specification of the operations

  function WithThumbnailName(s: State, thumbnail: Option<nat>, name: string): State
  {
    match thumbnail
    case None => s
    case Some(i) => s.(thumbnailTransitionNames := s.thumbnailTransitionNames[i := name])
  }

  /** `renderWorkImage`: loop the target into the path list and show the path
      there; an undefined or empty path leaves the image source alone. */
  function Rendered(s: State, paths: seq<string>, targetIndex: int): State
  {
    var index := ToLoopedIndex(targetIndex, |paths|);
    var path := if 0 <= index < |paths| then paths[index] else "";
    s.(currentIndex := index, imageSrc := if path != "" then path else s.imageSrc)
  }

  function Updated(s: State, paths: seq<string>, update: DomUpdate): State
  {
    match update
    case OpenUpdate(thumbnail, targetIndex) =>
      var cleared := WithThumbnailName(s, thumbnail, "");
      var rendered := Rendered(cleared.(imageTransitionName := IMAGE_TRANSITION_NAME), paths, targetIndex);
      rendered.(overlayHidden := false, overlayAriaHidden := Some("false"),
                bodyClasses := rendered.bodyClasses + {BODY_OPEN_CLASS})
    case CloseUpdate(thumbnail) =>
      var tagged := WithThumbnailName(s, thumbnail, IMAGE_TRANSITION_NAME);
      tagged.(imageTransitionName := "", overlayHidden := true, overlayAriaHidden := Some("true"),
              bodyClasses := tagged.bodyClasses - {BODY_OPEN_CLASS})
    case MoveUpdate(offset) =>
      Rendered(s, paths, s.currentIndex + offset)
  }

  function Finished(s: State, onFinished: FinishAction): State
  {
    match onFinished
    case NoFinish => s
    case ClearThumbnailName(thumbnail) => WithThumbnailName(s, thumbnail, "")
  }

  /** `runWorkViewTransition` once it has settled. Without view transitions:
      update, then finish. With them: tag the document root with the class
      (when one is given), update, untag, finish. */
  function Transitioned(s: State, setup: Setup, update: DomUpdate, className: string, onFinished: FinishAction): State
  {
    var animated := setup.viewTransitions && className != "";
    var tagged := if animated then s.(rootClasses := s.rootClasses + {className}) else s;
    var updated := Updated(tagged, setup.paths, update);
    var settled := if animated then updated.(rootClasses := updated.rootClasses - {className}) else updated;
    Finished(settled, onFinished)
  }

  /** `openWorkLightbox` */
  function Opened(s: State, setup: Setup, targetIndex: int): State
  {
    var thumbnail := ThumbnailImageAt(setup.triggers, targetIndex);
    var tagged := WithThumbnailName(s, thumbnail, IMAGE_TRANSITION_NAME);
    Transitioned(tagged, setup, OpenUpdate(thumbnail, targetIndex), OPEN_TRANSITION_CLASS, ClearThumbnailName(thumbnail))
  }

  /** `closeWorkLightbox`: the thumbnail is looked up with the current index,
      which is an index into the path list. */
  function Closed(s: State, setup: Setup): State
  {
    var thumbnail := ThumbnailImageAt(setup.triggers, s.currentIndex);
    Transitioned(s, setup, CloseUpdate(thumbnail), CLOSE_TRANSITION_CLASS, ClearThumbnailName(thumbnail))
  }

  /** The root class a move is animated with: "next" for a positive offset,
      "previous" otherwise. */
  function MoveTransitionClass(offset: int): string
  {
    if offset > 0 then NEXT_TRANSITION_CLASS else PREVIOUS_TRANSITION_CLASS
  }

  /** `moveWorkLightboxImage` */
  function Moved(s: State, setup: Setup, offset: int): State
  {
    Transitioned(s, setup, MoveUpdate(offset), MoveTransitionClass(offset), NoFinish)
  }

  /** The document's keydown listener. */
  function AfterKeyDown(s: State, setup: Setup, key: string): State
  {
    if s.overlayHidden then s
    else
      var left := if key == "ArrowLeft" then Moved(s, setup, -1) else s;
      var right := if key == "ArrowRight" then Moved(left, setup, 1) else left;
      if key == "Escape" then Closed(right, setup) else right
  }

  /** The events the controller listens to. */
  datatype Event =
    | ThumbnailClick(index: nat)
    | PreviousClick
    | NextClick
    | CloseClick
    | KeyDown(key: string)

  function AfterEvent(s: State, setup: Setup, event: Event): State
  {
    match event
    case ThumbnailClick(i) => Opened(s, setup, i)
    case PreviousClick => Moved(s, setup, -1)
    case NextClick => Moved(s, setup, 1)
    case CloseClick => Closed(s, setup)
    case KeyDown(key) => AfterKeyDown(s, setup, key)
  }

  // ---------------------------------------------------------------------------
  // Initialisation

  datatype Overlay = Overlay(hidden: bool, ariaHidden: Option<string>)
  datatype OverlayImage = OverlayImage(src: string, transitionName: string)

  /** The markup the script finds when it runs: the triggers, the optional
      overlay, overlay image and buttons, the number of close controls, the
      class lists of body and document root, and whether the platform offers
      `document.startViewTransition`. */
  datatype Page = Page(
    triggers: seq<Trigger>,
    overlay: Option<Overlay>,
    overlayImage: Option<OverlayImage>,
    hasPreviousButton: bool,
    hasNextButton: bool,
    closeControlCount: nat,
    bodyClasses: set<string>,
    rootClasses: set<string>,
    viewTransitions: bool)

  /** The guard: at least one trigger, the overlay, its image and both
      navigation buttons. Close controls are optional. */
  predicate CanActivate(page: Page)
  {
    |page.triggers| > 0 && page.overlay.Some? && page.overlayImage.Some? &&
    page.hasPreviousButton && page.hasNextButton
  }

  function InitialThumbnailNames(triggers: seq<Trigger>): (names: map<nat, string>)
    ensures names.Keys == ThumbnailIndices(triggers)
  {
    map i | i in ThumbnailIndices(triggers) :: triggers[i].image.value.transitionName
  }

  function InitialState(page: Page): State
    requires CanActivate(page)
  {
    State(0, page.overlay.value.hidden, page.overlay.value.ariaHidden, page.bodyClasses,
          page.overlayImage.value.src, page.overlayImage.value.transitionName,
          InitialThumbnailNames(page.triggers), page.rootClasses)
  }

  function SetupOf(page: Page): Setup
  {
    Setup(page.triggers, PathList(page.triggers), page.viewTransitions)
  }

  // ---------------------------------------------------------------------------
  // The controller

  class Lightbox {
    const triggers: seq<Trigger>
    const paths: seq<string>
    const viewTransitions: bool
    const closeControlCount: nat

    var currentIndex: int
    var overlayHidden: bool
    var overlayAriaHidden: Option<string>
    var bodyClasses: set<string>
    var imageSrc: string
    var imageTransitionName: string
    var thumbnailTransitionNames: map<nat, string>
    var rootClasses: set<string>

    function Fixed(): Setup
    {
      Setup(triggers, paths, viewTransitions)
    }

    function Snapshot(): State
      reads this
    {
      State(currentIndex, overlayHidden, overlayAriaHidden, bodyClasses, imageSrc,
            imageTransitionName, thumbnailTransitionNames, rootClasses)
    }

    ghost predicate Valid()
      reads this
    {
      WellFormed(Fixed()) && thumbnailTransitionNames.Keys == ThumbnailIndices(triggers)
    }

    /** A thumbnail reference obtained from the lookup. */
    predicate Known(thumbnail: Option<nat>)
    {
      thumbnail.Some? ==> thumbnail.value in ThumbnailIndices(triggers)
    }

    /** The set-up performed when the guard passes. */
    constructor (page: Page)
      requires CanActivate(page)
      ensures Valid()
      ensures Fixed() == SetupOf(page) && closeControlCount == page.closeControlCount
      ensures Snapshot() == InitialState(page)
    {
      triggers := page.triggers;
      paths := PathList(page.triggers);
      viewTransitions := page.viewTransitions;
      closeControlCount := page.closeControlCount;
      currentIndex := 0;
      overlayHidden := page.overlay.value.hidden;
      overlayAriaHidden := page.overlay.value.ariaHidden;
      bodyClasses := page.bodyClasses;
      imageSrc := page.overlayImage.value.src;
      imageTransitionName := page.overlayImage.value.transitionName;
      thumbnailTransitionNames := InitialThumbnailNames(page.triggers);
      rootClasses := page.rootClasses;
    }

    method SetThumbnailName(thumbnail: Option<nat>, name: string)
      requires Valid() && Known(thumbnail)
      modifies this
      ensures Valid()
      ensures Snapshot() == WithThumbnailName(old(Snapshot()), thumbnail, name)
    {
      if thumbnail.Some? {
        thumbnailTransitionNames := thumbnailTransitionNames[thumbnail.value := name];
      }
    }

    /** `renderWorkImage` */
    method RenderImage(targetIndex: int)
      requires Valid()
      modifies this
      ensures Valid()
      ensures Snapshot() == Rendered(old(Snapshot()), paths, targetIndex)
    {
      currentIndex := ToLoopedIndex(targetIndex, |paths|);
      var currentImagePath := if 0 <= currentIndex < |paths| then paths[currentIndex] else "";
      if currentImagePath == "" {
        return;
      }
      imageSrc := currentImagePath;
    }

    /** Runs an `updateDom` callback. */
    method ApplyUpdate(update: DomUpdate)
      requires Valid()
      requires update.OpenUpdate? ==> Known(update.thumbnail)
      requires update.CloseUpdate? ==> Known(update.thumbnail)
      modifies this
      ensures Valid()
      ensures Snapshot() == Updated(old(Snapshot()), paths, update)
    {
      match update
      case OpenUpdate(thumbnail, targetIndex) =>
        SetThumbnailName(thumbnail, "");
        imageTransitionName := IMAGE_TRANSITION_NAME;
        RenderImage(targetIndex);
        overlayHidden := false;
        overlayAriaHidden := Some("false");
        bodyClasses := bodyClasses + {BODY_OPEN_CLASS};
      case CloseUpdate(thumbnail) =>
        SetThumbnailName(thumbnail, IMAGE_TRANSITION_NAME);
        imageTransitionName := "";
        overlayHidden := true;
        overlayAriaHidden := Some("true");
        bodyClasses := bodyClasses - {BODY_OPEN_CLASS};
      case MoveUpdate(offset) =>
        RenderImage(currentIndex + offset);
    }

    /** Runs an `onFinished` callback, if any. */
    method ApplyFinish(onFinished: FinishAction)
      requires Valid()
      requires onFinished.ClearThumbnailName? ==> Known(onFinished.thumbnail)
      modifies this
      ensures Valid()
      ensures Snapshot() == Finished(old(Snapshot()), onFinished)
    {
      match onFinished
      case NoFinish =>
      case ClearThumbnailName(thumbnail) =>
        SetThumbnailName(thumbnail, "");
    }

    /** `runWorkViewTransition`, on either path, once the transition settles. */
    method RunTransition(update: DomUpdate, className: string, onFinished: FinishAction)
      requires Valid()
      requires update.OpenUpdate? ==> Known(update.thumbnail)
      requires update.CloseUpdate? ==> Known(update.thumbnail)
      requires onFinished.ClearThumbnailName? ==> Known(onFinished.thumbnail)
      modifies this
      ensures Valid()
      ensures Snapshot() == Transitioned(old(Snapshot()), Fixed(), update, className, onFinished)
    {
      if !viewTransitions {
        ApplyUpdate(update);
        ApplyFinish(onFinished);
        return;
      }
      if className != "" {
        rootClasses := rootClasses + {className};
      }
      ApplyUpdate(update);
      if className != "" {
        rootClasses := rootClasses - {className};
      }
      ApplyFinish(onFinished);
    }

    /** `openWorkLightbox` */
    method Open(targetIndex: int)
      requires Valid()
      modifies this
      ensures Valid()
      ensures Snapshot() == Opened(old(Snapshot()), Fixed(), targetIndex)
    {
      var thumbnail := ThumbnailImageAt(triggers, targetIndex);
      SetThumbnailName(thumbnail, IMAGE_TRANSITION_NAME);
      RunTransition(OpenUpdate(thumbnail, targetIndex), OPEN_TRANSITION_CLASS, ClearThumbnailName(thumbnail));
    }

    /** `closeWorkLightbox` */
    method Close()
      requires Valid()
      modifies this
      ensures Valid()
      ensures Snapshot() == Closed(old(Snapshot()), Fixed())
    {
      var thumbnail := ThumbnailImageAt(triggers, currentIndex);
      RunTransition(CloseUpdate(thumbnail), CLOSE_TRANSITION_CLASS, ClearThumbnailName(thumbnail));
    }

    /** `moveWorkLightboxImage` */
    method Move(offset: int)
      requires Valid()
      modifies this
      ensures Valid()
      ensures Snapshot() == Moved(old(Snapshot()), Fixed(), offset)
    {
      var transitionClassName := MoveTransitionClass(offset);
      RunTransition(MoveUpdate(offset), transitionClassName, NoFinish);
    }

    /** The keydown listener. */
    method OnKeyDown(key: string)
      requires Valid()
      modifies this
      ensures Valid()
      ensures Snapshot() == AfterKeyDown(old(Snapshot()), Fixed(), key)
    {
      if overlayHidden {
        return;
      }
      if key == "ArrowLeft" {
        Move(-1);
      }
      if key == "ArrowRight" {
        Move(1);
      }
      if key == "Escape" {
        Close();
      }
    }

    /** Delivers one event to the listener registered for it: a click on an
        existing trigger, on either navigation button, on one of the close
        controls (if there are any), or a key press. */
    method Dispatch(event: Event)
      requires Valid()
      requires event.ThumbnailClick? ==> event.index < |triggers|
      requires event.CloseClick? ==> closeControlCount > 0
      modifies this
      ensures Valid()
      ensures Snapshot() == AfterEvent(old(Snapshot()), Fixed(), event)
    {
      match event
      case ThumbnailClick(i) => Open(i);
      case PreviousClick => Move(-1);
      case NextClick => Move(1);
      case CloseClick => Close();
      case KeyDown(key) => OnKeyDown(key);
    }
  }

  /** The script's top level: a controller exists exactly when the guard
      passes, and then starts from the page's state at index 0. */
  method Activate(page: Page) returns (lightbox: Option<Lightbox>)
    ensures lightbox.Some? <==> CanActivate(page)
    ensures lightbox.Some? ==> fresh(lightbox.value) && lightbox.value.Valid()
    ensures lightbox.Some? ==> lightbox.value.Snapshot() == InitialState(page)
    ensures lightbox.Some? ==> lightbox.value.Fixed() == SetupOf(page)
  {
    if !CanActivate(page) {
      return None;
    }
    var controller := new Lightbox(page);
    return Some(controller);
  }
}
