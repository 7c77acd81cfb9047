/**
 * What the work lightbox promises, stated over the specification functions
 * of `WorkLightbox` (and so, through their contracts, over the methods of
 * `WorkLightbox.Lightbox`).
 */
module LightboxProperties {
  import opened LoopedIndex
  import opened ImagePaths
  import opened WorkLightbox

  ghost predicate NonEmptyPaths(paths: seq<string>)
  {
    forall k :: 0 <= k < |paths| ==> paths[k] != ""
  }

  lemma WellFormedPaths(setup: Setup)
    requires WellFormed(setup)
    ensures NonEmptyPaths(setup.paths)
    ensures |setup.paths| <= |setup.triggers|
  {
  }

  // ---------------------------------------------------------------------------
  // Rendering

  /** Rendering loops the target into the path list and shows the path there;
      with an empty list the index becomes 0 and the image is untouched. Only
      the index and the image source change. */
  lemma RenderShowsLoopedPath(s: State, paths: seq<string>, targetIndex: int)
    requires NonEmptyPaths(paths)
    requires targetIndex >= -LoopDivisor(|paths|)
    ensures IndexInRange(Rendered(s, paths, targetIndex), paths)
    ensures Showing(Rendered(s, paths, targetIndex), paths)
    ensures Rendered(s, paths, targetIndex).currentIndex == ToLoopedIndex(targetIndex, |paths|)
    ensures |paths| > 0 ==> Rendered(s, paths, targetIndex).imageSrc == paths[ToLoopedIndex(targetIndex, |paths|)]
    ensures |paths| == 0 ==> Rendered(s, paths, targetIndex).currentIndex == 0
    ensures |paths| == 0 ==> Rendered(s, paths, targetIndex).imageSrc == s.imageSrc
    ensures Rendered(s, paths, targetIndex).(currentIndex := s.currentIndex, imageSrc := s.imageSrc) == s
  {
    if |paths| == 0 {
      EmptyListLoopsToZero(targetIndex);
    }
  }

  // ---------------------------------------------------------------------------
  // The transition wrapper

  /** The root classes once a transition has settled. */
  function SettledRootClasses(rootClasses: set<string>, viewTransitions: bool, className: string): set<string>
  {
    if viewTransitions && className != "" then rootClasses - {className} else rootClasses
  }

  lemma UpdatedKeepsRootClasses(s: State, paths: seq<string>, update: DomUpdate, rootClasses: set<string>)
    ensures Updated(s, paths, update).rootClasses == s.rootClasses
    ensures Updated(s.(rootClasses := rootClasses), paths, update) == Updated(s, paths, update).(rootClasses := rootClasses)
  {
  }

  /** However the platform runs it, a settled transition is the update
      followed by the finish callback, with the root classes as
      `SettledRootClasses` says. */
  lemma TransitionedSettles(s: State, setup: Setup, update: DomUpdate, className: string, onFinished: FinishAction)
    ensures Transitioned(s, setup, update, className, onFinished) ==
      Finished(Updated(s, setup.paths, update), onFinished).(rootClasses := SettledRootClasses(s.rootClasses, setup.viewTransitions, className))
  {
    UpdatedKeepsRootClasses(s, setup.paths, update, s.rootClasses + {className});
  }

  /** The two paths of the transition wrapper end in the same state, except
      that the animated path removes the class it added from the document
      root; so they agree whenever that class was not there before. */
  lemma AnimatedPathMatchesFallback(s: State, setup: Setup, update: DomUpdate, className: string, onFinished: FinishAction)
    ensures var animated := Transitioned(s, setup.(viewTransitions := true), update, className, onFinished);
      var fallback := Transitioned(s, setup.(viewTransitions := false), update, className, onFinished);
      fallback.rootClasses == s.rootClasses &&
      animated == fallback.(rootClasses := if className != "" then s.rootClasses - {className} else s.rootClasses)
    ensures className !in s.rootClasses ==>
      Transitioned(s, setup.(viewTransitions := true), update, className, onFinished) ==
      Transitioned(s, setup.(viewTransitions := false), update, className, onFinished)
  {
    TransitionedSettles(s, setup.(viewTransitions := true), update, className, onFinished);
    TransitionedSettles(s, setup.(viewTransitions := false), update, className, onFinished);
  }

  // ---------------------------------------------------------------------------
  // Open and close

  /** `Opened` is the open update (with the thumbnail's name cleared) on top
      of the tagged state, with the root classes settled. */
  lemma OpenedSettles(s: State, setup: Setup, targetIndex: int)
    ensures var thumbnail := ThumbnailImageAt(setup.triggers, targetIndex);
      var prepared := WithThumbnailName(s, thumbnail, "").(imageTransitionName := IMAGE_TRANSITION_NAME);
      var rendered := Rendered(prepared, setup.paths, targetIndex);
      Opened(s, setup, targetIndex) ==
        rendered.(overlayHidden := false, overlayAriaHidden := Some("false"),
                  bodyClasses := s.bodyClasses + {BODY_OPEN_CLASS},
                  rootClasses := SettledRootClasses(s.rootClasses, setup.viewTransitions, OPEN_TRANSITION_CLASS))
  {
    var thumbnail := ThumbnailImageAt(setup.triggers, targetIndex);
    var tagged := WithThumbnailName(s, thumbnail, IMAGE_TRANSITION_NAME);
    TransitionedSettles(tagged, setup, OpenUpdate(thumbnail, targetIndex), OPEN_TRANSITION_CLASS, ClearThumbnailName(thumbnail));
  }

  /** After opening: the overlay is visible on all three markers, the overlay
      image carries the shared transition name, the opened thumbnail (if it
      exists) has none, and the image shown is the looped target's. */
  lemma OpenedShowsTarget(s: State, setup: Setup, targetIndex: int)
    requires NonEmptyPaths(setup.paths)
    requires targetIndex >= -LoopDivisor(|setup.paths|)
    ensures var r := Opened(s, setup, targetIndex);
      !r.overlayHidden && r.overlayAriaHidden == Some("false") &&
      r.bodyClasses == s.bodyClasses + {BODY_OPEN_CLASS} && Synced(r)
    ensures Opened(s, setup, targetIndex).imageTransitionName == IMAGE_TRANSITION_NAME
    ensures Opened(s, setup, targetIndex).thumbnailTransitionNames ==
      if ThumbnailImageAt(setup.triggers, targetIndex).Some?
      then s.thumbnailTransitionNames[targetIndex as nat := ""]
      else s.thumbnailTransitionNames
    ensures var r := Opened(s, setup, targetIndex);
      r.currentIndex == ToLoopedIndex(targetIndex, |setup.paths|) &&
      IndexInRange(r, setup.paths) && Showing(r, setup.paths)
    ensures |setup.paths| == 0 ==> Opened(s, setup, targetIndex).imageSrc == s.imageSrc
    ensures NoTransitionClass(s) ==> Opened(s, setup, targetIndex).rootClasses == s.rootClasses
  {
    OpenedSettles(s, setup, targetIndex);
    var thumbnail := ThumbnailImageAt(setup.triggers, targetIndex);
    var prepared := WithThumbnailName(s, thumbnail, "").(imageTransitionName := IMAGE_TRANSITION_NAME);
    RenderShowsLoopedPath(prepared, setup.paths, targetIndex);
    assert OPEN_TRANSITION_CLASS in TRANSITION_CLASSES;
  }

  /** A transition class already on the document root when open runs: the
      immediate path leaves it there, while the animated path's `add` does
      nothing and its `remove` takes the class off all the same. */
  lemma PresetOpenClassOnRoot(s: State, setup: Setup, targetIndex: int)
    requires OPEN_TRANSITION_CLASS in s.rootClasses
    ensures !setup.viewTransitions ==> Opened(s, setup, targetIndex).rootClasses == s.rootClasses
    ensures setup.viewTransitions ==>
      Opened(s, setup, targetIndex).rootClasses == s.rootClasses - {OPEN_TRANSITION_CLASS}
    ensures setup.viewTransitions ==> OPEN_TRANSITION_CLASS !in Opened(s, setup, targetIndex).rootClasses
  {
    OpenedSettles(s, setup, targetIndex);
  }

  /** With the open class already on the root, the two paths of the
      transition wrapper end in different states. */
  lemma PresetOpenClassSeparatesPaths(s: State, setup: Setup, targetIndex: int)
    requires OPEN_TRANSITION_CLASS in s.rootClasses
    ensures Opened(s, setup.(viewTransitions := true), targetIndex) !=
            Opened(s, setup.(viewTransitions := false), targetIndex)
  {
    PresetOpenClassOnRoot(s, setup.(viewTransitions := true), targetIndex);
    PresetOpenClassOnRoot(s, setup.(viewTransitions := false), targetIndex);
  }

  /** After closing: the overlay is hidden on all three markers, the overlay
      image has no transition name, the thumbnail at the current index (if
      it exists) has none once the transition finishes, and the index and
      the image source are kept. */
  lemma ClosedHidesOverlay(s: State, setup: Setup)
    ensures var r := Closed(s, setup);
      r.overlayHidden && r.overlayAriaHidden == Some("true") &&
      r.bodyClasses == s.bodyClasses - {BODY_OPEN_CLASS} && Synced(r)
    ensures Closed(s, setup).imageTransitionName == ""
    ensures Closed(s, setup).thumbnailTransitionNames ==
      if ThumbnailImageAt(setup.triggers, s.currentIndex).Some?
      then s.thumbnailTransitionNames[s.currentIndex as nat := ""]
      else s.thumbnailTransitionNames
    ensures Closed(s, setup).currentIndex == s.currentIndex
    ensures Closed(s, setup).imageSrc == s.imageSrc
    ensures NoTransitionClass(s) ==> Closed(s, setup).rootClasses == s.rootClasses
  {
  }

  /** Close looks up the thumbnail with an index into the path list; since the
      path list is never longer than the trigger list, that index is always a
      trigger index. */
  lemma CloseLookupWithinTriggers(s: State, setup: Setup)
    requires WellFormed(setup) && IndexInRange(s, setup.paths)
    ensures 0 <= s.currentIndex < |setup.triggers|
  {
    WellFormedPaths(setup);
  }

  /** Opening from a synced, hidden overlay and closing again restores the
      overlay's visibility markers and the body's classes. */
  lemma OpenThenCloseRestoresVisibility(s: State, setup: Setup, targetIndex: int)
    requires Synced(s) && s.overlayHidden
    ensures var r := Closed(Opened(s, setup, targetIndex), setup);
      r.overlayHidden == s.overlayHidden && r.overlayAriaHidden == s.overlayAriaHidden &&
      r.bodyClasses == s.bodyClasses
  {
    var afterOpen := Opened(s, setup, targetIndex);
    assert afterOpen.bodyClasses == s.bodyClasses + {BODY_OPEN_CLASS};
  }

  // ---------------------------------------------------------------------------
  // Moving

  /** With no transition class lingering, a move is a render at the current
      index plus the offset, and leaves no class behind. */
  lemma MovedIsRendered(s: State, setup: Setup, offset: int)
    requires NoTransitionClass(s)
    ensures Moved(s, setup, offset) == Rendered(s, setup.paths, s.currentIndex + offset)
    ensures NoTransitionClass(Moved(s, setup, offset))
  {
    TransitionedSettles(s, setup, MoveUpdate(offset), MoveTransitionClass(offset), NoFinish);
    assert MoveTransitionClass(offset) in TRANSITION_CLASSES;
  }

  /** A move from a target at or above `-count` lands on the looped index and
      shows the path there. */
  lemma MoveStep(s: State, setup: Setup, offset: int)
    requires NonEmptyPaths(setup.paths) && NoTransitionClass(s)
    requires s.currentIndex + offset >= -LoopDivisor(|setup.paths|)
    ensures var j := ToLoopedIndex(s.currentIndex + offset, |setup.paths|);
      Moved(s, setup, offset) ==
        s.(currentIndex := j, imageSrc := if |setup.paths| > 0 then setup.paths[j] else s.imageSrc)
  {
    MovedIsRendered(s, setup, offset);
    RenderShowsLoopedPath(s, setup.paths, s.currentIndex + offset);
  }

  /** From a shown index in range, next then previous restores the whole
      state. */
  lemma NextThenPreviousRestores(s: State, setup: Setup)
    requires NonEmptyPaths(setup.paths)
    requires IndexInRange(s, setup.paths) && Showing(s, setup.paths) && NoTransitionClass(s)
    ensures Moved(Moved(s, setup, 1), setup, -1) == s
  {
    StepsUndoEachOther(s.currentIndex, |setup.paths|);
    MoveStep(s, setup, 1);
    MoveStep(Moved(s, setup, 1), setup, -1);
  }

  /** From a shown index in range, previous then next restores the whole
      state. */
  lemma PreviousThenNextRestores(s: State, setup: Setup)
    requires NonEmptyPaths(setup.paths)
    requires IndexInRange(s, setup.paths) && Showing(s, setup.paths) && NoTransitionClass(s)
    ensures Moved(Moved(s, setup, -1), setup, 1) == s
  {
    StepsUndoEachOther(s.currentIndex, |setup.paths|);
    MoveStep(s, setup, -1);
    MoveStep(Moved(s, setup, -1), setup, 1);
  }

  /** `k` presses of "next". */
  function MovedForward(s: State, setup: Setup, k: nat): State
  {
    if k == 0 then s else Moved(MovedForward(s, setup, k - 1), setup, 1)
  }

  /** `s` moved to index `j`, showing the path there. */
  function ShownAt(s: State, paths: seq<string>, j: int): State
    requires |paths| > 0 ==> 0 <= j < |paths|
  {
    s.(currentIndex := j, imageSrc := if |paths| > 0 then paths[j] else s.imageSrc)
  }

  /** The index `k` steps forward from `i`, for `k` up to the divisor. */
  function Ahead(i: int, k: int, d: int): int
  {
    if i + k < d then i + k else i + k - d
  }

  /** One more press of "next". */
  lemma NextStepAhead(s: State, setup: Setup, k: nat)
    requires NonEmptyPaths(setup.paths) && NoTransitionClass(s)
    requires IndexInRange(s, setup.paths) && Showing(s, setup.paths)
    requires 0 < k <= LoopDivisor(|setup.paths|)
    ensures var d := LoopDivisor(|setup.paths|);
      Moved(ShownAt(s, setup.paths, Ahead(s.currentIndex, k - 1, d)), setup, 1) ==
        ShownAt(s, setup.paths, Ahead(s.currentIndex, k, d))
  {
    var d := LoopDivisor(|setup.paths|);
    var j := Ahead(s.currentIndex, k - 1, d);
    MoveStep(ShownAt(s, setup.paths, j), setup, 1);
    NextIndex(j, |setup.paths|);
  }

  /** `k` presses of "next" from a shown index, for `k` up to the image count,
      land `k` images further on, wrapping once past the end, and change
      nothing else. */
  lemma {:induction false} MovedForwardLandsAhead(s: State, setup: Setup, k: nat)
    requires NonEmptyPaths(setup.paths)
    requires IndexInRange(s, setup.paths) && Showing(s, setup.paths) && NoTransitionClass(s)
    requires k <= LoopDivisor(|setup.paths|)
    ensures MovedForward(s, setup, k) ==
      ShownAt(s, setup.paths, Ahead(s.currentIndex, k, LoopDivisor(|setup.paths|)))
  {
    if k > 0 {
      MovedForwardLandsAhead(s, setup, k - 1);
      NextStepAhead(s, setup, k);
    }
  }

  /** As many presses of "next" as there are images bring the lightbox back
      to exactly where it was. */
  lemma FullLoopReturns(s: State, setup: Setup)
    requires NonEmptyPaths(setup.paths)
    requires IndexInRange(s, setup.paths) && Showing(s, setup.paths) && NoTransitionClass(s)
    ensures MovedForward(s, setup, |setup.paths|) == s
  {
    MovedForwardLandsAhead(s, setup, |setup.paths|);
  }

  // ---------------------------------------------------------------------------
  // Keyboard and events

  /** While the overlay is hidden a key press changes nothing; while it is
      visible the arrows move and Escape closes, and other keys do nothing. */
  lemma KeyDownDispatch(s: State, setup: Setup, key: string)
    ensures s.overlayHidden ==> AfterKeyDown(s, setup, key) == s
    ensures !s.overlayHidden && key == "ArrowLeft" ==> AfterKeyDown(s, setup, key) == Moved(s, setup, -1)
    ensures !s.overlayHidden && key == "ArrowRight" ==> AfterKeyDown(s, setup, key) == Moved(s, setup, 1)
    ensures !s.overlayHidden && key == "Escape" ==> AfterKeyDown(s, setup, key) == Closed(s, setup)
    ensures key !in {"ArrowLeft", "ArrowRight", "Escape"} ==> AfterKeyDown(s, setup, key) == s
  {
  }

  /** What every state reachable from a set-up whose document root carries
      no transition class satisfies: the index is within the path list, no transition class lingers on the document root, and the
      thumbnails' transition names are keyed by the triggers that have an image. */
  ghost predicate Consistent(s: State, setup: Setup)
  {
    IndexInRange(s, setup.paths) && NoTransitionClass(s) &&
    s.thumbnailTransitionNames.Keys == ThumbnailIndices(setup.triggers)
  }

  lemma OpenKeepsInvariants(s: State, setup: Setup, targetIndex: nat)
    requires NonEmptyPaths(setup.paths) && Consistent(s, setup)
    ensures Consistent(Opened(s, setup, targetIndex), setup)
    ensures Synced(Opened(s, setup, targetIndex))
    ensures Showing(Opened(s, setup, targetIndex), setup.paths)
  {
    OpenedShowsTarget(s, setup, targetIndex);
    if ThumbnailImageAt(setup.triggers, targetIndex).Some? {
      assert targetIndex in s.thumbnailTransitionNames;
    }
  }

  lemma CloseKeepsInvariants(s: State, setup: Setup)
    requires NonEmptyPaths(setup.paths) && Consistent(s, setup)
    ensures Consistent(Closed(s, setup), setup)
    ensures Synced(Closed(s, setup))
    ensures Showing(s, setup.paths) ==> Showing(Closed(s, setup), setup.paths)
  {
    ClosedHidesOverlay(s, setup);
    if ThumbnailImageAt(setup.triggers, s.currentIndex).Some? {
      assert s.currentIndex in s.thumbnailTransitionNames;
    }
  }

  lemma MoveKeepsInvariants(s: State, setup: Setup, offset: int)
    requires NonEmptyPaths(setup.paths) && Consistent(s, setup)
    requires offset == 1 || offset == -1
    ensures Consistent(Moved(s, setup, offset), setup)
    ensures Synced(Moved(s, setup, offset)) == Synced(s)
    ensures Showing(Moved(s, setup, offset), setup.paths)
  {
    MovedIsRendered(s, setup, offset);
    RenderShowsLoopedPath(s, setup.paths, s.currentIndex + offset);
  }

  /** Every event keeps the state consistent, and keeps the visibility markers
      synced and the shown image current once they are; opening a thumbnail
      establishes both. */
  lemma EventKeepsInvariants(s: State, setup: Setup, event: Event)
    requires NonEmptyPaths(setup.paths) && Consistent(s, setup)
    ensures Consistent(AfterEvent(s, setup, event), setup)
    ensures Synced(s) ==> Synced(AfterEvent(s, setup, event))
    ensures Showing(s, setup.paths) ==> Showing(AfterEvent(s, setup, event), setup.paths)
    ensures event.ThumbnailClick? ==>
      Synced(AfterEvent(s, setup, event)) && Showing(AfterEvent(s, setup, event), setup.paths)
  {
    match event
    case ThumbnailClick(i) =>
      OpenKeepsInvariants(s, setup, i);
    case PreviousClick =>
      MoveKeepsInvariants(s, setup, -1);
    case NextClick =>
      MoveKeepsInvariants(s, setup, 1);
    case CloseClick =>
      CloseKeepsInvariants(s, setup);
    case KeyDown(key) =>
      KeyDownDispatch(s, setup, key);
      if !s.overlayHidden {
        if key == "ArrowLeft" {
          MoveKeepsInvariants(s, setup, -1);
        } else if key == "ArrowRight" {
          MoveKeepsInvariants(s, setup, 1);
        } else if key == "Escape" {
          CloseKeepsInvariants(s, setup);
        }
      }
  }

  /** A sequence of events, delivered in order. */
  function AfterEvents(s: State, setup: Setup, events: seq<Event>): State
    decreases |events|
  {
    if events == [] then s else AfterEvents(AfterEvent(s, setup, events[0]), setup, events[1..])
  }

  /** From any consistent state, whatever the user does, the index stays
      within the path list, no transition class lingers on the document root
      and synced visibility markers stay synced. */
  lemma {:induction false} ReachableStatesKeepInvariants(s: State, setup: Setup, events: seq<Event>)
    requires NonEmptyPaths(setup.paths) && Consistent(s, setup)
    ensures Consistent(AfterEvents(s, setup, events), setup)
    ensures Synced(s) ==> Synced(AfterEvents(s, setup, events))
    decreases |events|
  {
    if events != [] {
      EventKeepsInvariants(s, setup, events[0]);
      ReachableStatesKeepInvariants(AfterEvent(s, setup, events[0]), setup, events[1..]);
    }
  }

  /** The state set-up leaves behind is consistent, provided the page's
      document root carries none of the four transition classes when the
      script runs. */
  lemma InitialStateConsistent(page: Page)
    requires CanActivate(page) && page.rootClasses !! TRANSITION_CLASSES
    ensures Consistent(InitialState(page), SetupOf(page))
    ensures NonEmptyPaths(SetupOf(page).paths)
  {
  }

  /** From set-up on, on a page whose root carries no transition class,
      whatever the user does keeps the state consistent, and keeps the
      visibility markers synced when the page's markup started them so. */
  lemma ActivatedStatesKeepInvariants(page: Page, events: seq<Event>)
    requires CanActivate(page) && page.rootClasses !! TRANSITION_CLASSES
    ensures Consistent(AfterEvents(InitialState(page), SetupOf(page), events), SetupOf(page))
    ensures Synced(InitialState(page)) ==> Synced(AfterEvents(InitialState(page), SetupOf(page), events))
  {
    InitialStateConsistent(page);
    ReachableStatesKeepInvariants(InitialState(page), SetupOf(page), events);
  }

  // ---------------------------------------------------------------------------
  // Path index against trigger index

  /** When every trigger has a path, the thumbnail that close morphs into is
      the one whose image the overlay shows. */
  lemma CloseTargetsShownThumbnail(s: State, setup: Setup)
    requires WellFormed(setup)
    requires forall i :: 0 <= i < |setup.triggers| ==> TriggerPath(setup.triggers[i]).Some?
    requires |setup.paths| > 0 && Showing(s, setup.paths)
    ensures ThumbnailImageAt(setup.triggers, s.currentIndex) == Some(s.currentIndex as nat)
    ensures TriggerPath(setup.triggers[s.currentIndex]) == Some(s.imageSrc)
  {
    PathListAligned(setup.triggers);
  }

  /** When a thumbnail lacks a source, the path list is shifted against the
      triggers: opening the second of three triggers, whose image is "a.jpg",
      shows "b.jpg", the image of the third. */
  lemma MissingSourceShiftsShownImage(s: State, viewTransitions: bool)
    ensures var triggers := [Trigger(Some(ThumbnailImage(None, ""))),
                             Trigger(Some(ThumbnailImage(Some("a.jpg"), ""))),
                             Trigger(Some(ThumbnailImage(Some("b.jpg"), "")))];
      var setup := Setup(triggers, PathList(triggers), viewTransitions);
      TriggerPath(triggers[1]) == Some("a.jpg") &&
      Opened(s, setup, 1).imageSrc == "b.jpg"
  {
    var triggers := [Trigger(Some(ThumbnailImage(None, ""))),
                     Trigger(Some(ThumbnailImage(Some("a.jpg"), ""))),
                     Trigger(Some(ThumbnailImage(Some("b.jpg"), "")))];
    assert PathList(triggers[2..]) == ["b.jpg"];
    assert PathList(triggers[1..]) == ["a.jpg", "b.jpg"];
    assert PathList(triggers) == ["a.jpg", "b.jpg"];
    InRangeIsFixed(1, 2);
  }

  // ---------------------------------------------------------------------------
  // A walk through three thumbnails

  /** "next" from a consistent state shows the following image, wrapping from
      the last image to the first. */
  lemma NextShowsFollowingImage(s: State, setup: Setup)
    requires NonEmptyPaths(setup.paths) && Consistent(s, setup) && |setup.paths| > 0
    ensures var i := s.currentIndex;
      var j := if i + 1 == |setup.paths| then 0 else i + 1;
      Moved(s, setup, 1) == s.(currentIndex := j, imageSrc := setup.paths[j])
    ensures Consistent(Moved(s, setup, 1), setup)
  {
    MoveKeepsInvariants(s, setup, 1);
    MovedIsRendered(s, setup, 1);
    NextIndex(s.currentIndex, |setup.paths|);
  }

  /** Escape on a visible overlay hides it and keeps the image shown. */
  lemma EscapeClosesVisibleOverlay(s: State, setup: Setup)
    requires !s.overlayHidden
    ensures var r := AfterEvent(s, setup, KeyDown("Escape"));
      r.overlayHidden && r.overlayAriaHidden == Some("true") && BODY_OPEN_CLASS !in r.bodyClasses &&
      r.imageSrc == s.imageSrc && r.currentIndex == s.currentIndex
  {
    KeyDownDispatch(s, setup, "Escape");
    ClosedHidesOverlay(s, setup);
  }

  /** The images shown along a walk: open the first thumbnail, press next
      three times (wrapping round after the third image), then Escape. */
  lemma ThreeImageWalk(s0: State, setup: Setup)
    requires setup.paths == ["a.jpg", "b.jpg", "c.jpg"] && Consistent(s0, setup)
    ensures var s1 := AfterEvent(s0, setup, ThumbnailClick(0));
      var s2 := AfterEvent(s1, setup, NextClick);
      var s3 := AfterEvent(s2, setup, NextClick);
      var s4 := AfterEvent(s3, setup, NextClick);
      var s5 := AfterEvent(s4, setup, KeyDown("Escape"));
      [s1.imageSrc, s2.imageSrc, s3.imageSrc, s4.imageSrc] == ["a.jpg", "b.jpg", "c.jpg", "a.jpg"] &&
      s5.overlayHidden && s5.overlayAriaHidden == Some("true") && BODY_OPEN_CLASS !in s5.bodyClasses &&
      s5.imageSrc == "a.jpg" && s5.currentIndex == 0
  {
    var s1 := AfterEvent(s0, setup, ThumbnailClick(0));
    OpenKeepsInvariants(s0, setup, 0);
    OpenedShowsTarget(s0, setup, 0);
    InRangeIsFixed(0, 3);
    assert s1.currentIndex == 0 && s1.imageSrc == "a.jpg" && !s1.overlayHidden;
    var s2 := AfterEvent(s1, setup, NextClick);
    NextShowsFollowingImage(s1, setup);
    assert s2.currentIndex == 1 && s2.imageSrc == "b.jpg" && !s2.overlayHidden;
    var s3 := AfterEvent(s2, setup, NextClick);
    NextShowsFollowingImage(s2, setup);
    assert s3.currentIndex == 2 && s3.imageSrc == "c.jpg" && !s3.overlayHidden;
    var s4 := AfterEvent(s3, setup, NextClick);
    NextShowsFollowingImage(s3, setup);
    assert s4.currentIndex == 0 && s4.imageSrc == "a.jpg" && !s4.overlayHidden;
    EscapeClosesVisibleOverlay(s4, setup);
  }

  /** The same walk driven through a `Lightbox` set up over three thumbnails.
      Returns the image source after each click and the final state. */
  method ThreeImageWalkthrough(viewTransitions: bool) returns (shown: seq<string>, final: State)
    ensures shown == ["a.jpg", "b.jpg", "c.jpg", "a.jpg"]
    ensures final.overlayHidden && final.overlayAriaHidden == Some("true")
    ensures BODY_OPEN_CLASS !in final.bodyClasses
    ensures final.imageSrc == "a.jpg" && final.currentIndex == 0
  {
    var triggers := [Trigger(Some(ThumbnailImage(Some("a.jpg"), ""))),
                     Trigger(Some(ThumbnailImage(Some("b.jpg"), ""))),
                     Trigger(Some(ThumbnailImage(Some("c.jpg"), "")))];
    assert PathList(triggers[2..]) == ["c.jpg"];
    assert PathList(triggers[1..]) == ["b.jpg", "c.jpg"];
    assert PathList(triggers) == ["a.jpg", "b.jpg", "c.jpg"];
    var page := Page(triggers, Some(Overlay(true, Some("true"))), Some(OverlayImage("", "")),
                     true, true, 1, {}, {}, viewTransitions);
    var lightbox := new Lightbox(page);
    ghost var setup := lightbox.Fixed();
    ghost var s0 := lightbox.Snapshot();
    assert Consistent(s0, setup);
    ThreeImageWalk(s0, setup);

    lightbox.Dispatch(ThumbnailClick(0));
    var first := lightbox.imageSrc;
    lightbox.Dispatch(NextClick);
    var second := lightbox.imageSrc;
    lightbox.Dispatch(NextClick);
    var third := lightbox.imageSrc;
    lightbox.Dispatch(NextClick);
    var fourth := lightbox.imageSrc;
    shown := [first, second, third, fourth];
    lightbox.Dispatch(KeyDown("Escape"));
    final := lightbox.Snapshot();
  }
}
