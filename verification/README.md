# Work lightbox, modelled in Dafny

The work page's script turns a grid of `.work__item` thumbnail triggers into a
lightbox. It finds the overlay, its image, the previous and next buttons and any
close controls. If the required ones exist, it collects the thumbnails' image
paths once. It then keeps a current image index that wraps round the list. A
click on a thumbnail opens the overlay on that image (when every thumbnail
before it has a source; see the notes below). Previous and next (buttons
or arrow keys) step through the images, and a close control or Escape hides the
overlay again. Every change runs through a small wrapper around the View
Transitions API. When the platform offers it, the wrapper tags the document root
with a class for the duration of the animation. Otherwise it applies the change
at once.

The model has four modules:

- `LoopedIndex` (`looped_index.dfy`) covers `toLoopedIndex`. JavaScript's `%`
  is written out as a truncating remainder: the result takes the sign of the
  dividend. The range, periodicity and wrap-round laws are proved, and so is
  the point where the range guarantee stops holding.
- `ImagePaths` (`image_paths.dfy`) covers the trigger markup and the image path
  list, which is the in-order subsequence of the triggers' non-empty `src`
  attributes. It also covers the thumbnail lookup by trigger index.
- `WorkLightbox` (`work_lightbox.dfy`) holds the controller's observable state
  as a `State` value. That value includes the index, the overlay's `hidden` and
  `aria-hidden`, the body and root class lists, the overlay image's `src` and
  transition name, and the thumbnails' transition names. Each operation
  (render, open, close, move, keydown, event dispatch) is specified as a
  function on `State`. The `Lightbox` class keeps the same state in fields, and
  each of its methods is proved to update the fields exactly as its function
  says. `Activate` is the initialisation guard.
- `LightboxProperties` (`lightbox_properties.dfy`) proves what the functions
  promise:
  - what open, close and move leave behind;
  - that the animated and the immediate path of the transition wrapper agree
    whenever the transition class is not already on the document root, and
    how they differ when it is;
  - the move round trip and the full loop;
  - that keydown is a no-op while the overlay is hidden;
  - invariants kept by every event sequence;
  - the three-thumbnail walk-through.

The `updateDom` and `onFinished` callbacks are represented as data: `DomUpdate`
and `FinishAction`, with the values they close over. The transition wrapper
then runs them by case analysis. The animated path is modelled as it looks once
the transition has settled: add the class, update, remove the class, finish.

Notes on the behaviour as written:

- JavaScript's `%` keeps the sign of the dividend. So `toLoopedIndex` is
  guaranteed to land in `[0, count)` only for targets at or above `-count`,
  not for every integer. Below that it is non-positive: 0 when the count
  divides the target (and always when the count is at most 1), negative
  otherwise. `LoopedIndex.BelowRangeLeavesRange` exhibits `-1 - count ↦ -1`. The script
  itself only asks for targets from `-1` up: a trigger index, or the current
  index plus or minus one.
- The path list skips triggers whose image has no `src`, but a thumbnail click
  passes the trigger index to `renderWorkImage`. So when a thumbnail lacks a
  source, the path and trigger indices drift apart, and the overlay shows
  another work's image. `LightboxProperties.MissingSourceShiftsShownImage`
  gives a three-trigger instance. `LightboxProperties.CloseTargetsShownThumbnail`
  shows the indices agree when every trigger has a source.
- The invariants the controller keeps (index within the path list, no
  transition class left on the document root) hold from set-up on only if
  the page's root does not already carry one of the four transition classes
  when the script runs. Without view transitions a transition class already on
  the root is never removed; with them it stays until the first transition
  that uses that class removes it (its `add` does nothing, its `remove` still
  runs), as `LightboxProperties.PresetOpenClassOnRoot` shows for open.
  `LightboxProperties.InitialStateConsistent` and
  `LightboxProperties.ActivatedStatesKeepInvariants` state that assumption.

Each `WorkLightbox.Lightbox` method is proved to leave the state its
specification function describes (`Rendered`, `Updated`, `Finished`,
`Transitioned`, `Opened`, `Closed`, `Moved`, `AfterKeyDown`, `AfterEvent`),
and `WorkLightbox.Activate` is proved against `CanActivate` and
`InitialState`; so a method's row below covers its specification function
as well, and the `LightboxProperties` rows state what those functions
promise.

## Model

| member | source | states |
|---|---|---|
| LoopedIndex.JsRemainder | src/main.ts:59 | JavaScript's `%` on a positive divisor: the remainder lies strictly between `-b` and `b` and has the sign of the dividend |
| LoopedIndex.NonNegativeRemainder | src/main.ts:59 | for a non-negative dividend the JavaScript remainder is the Euclidean residue |
| LoopedIndex.RemainderIsOdd | src/main.ts:59 | negating the dividend negates the JavaScript remainder |
| LoopedIndex.JsRemainderTruncates | src/main.ts:59 | the JavaScript remainder is the truncated remainder: `a % b` for `a >= 0`, `-((-a) % b)` otherwise |
| LoopedIndex.LoopDivisor | src/main.ts:58 | the divisor is 1 for an empty list and the count otherwise, so it is at least 1 |
| LoopedIndex.ToLoopedIndex | src/main.ts:57-60 | the looped index lies strictly between `-d` and `d`; it is in `[0, d)` for targets at or above `-d`, and non-positive below |
| LoopedIndex.LoopedIndexIsResidue | src/main.ts:57-60 | for targets at or above `-d` the looped index is the Euclidean residue modulo `d` |
| LoopedIndex.InRangeIsFixed | src/main.ts:57-60 | an index already in `[0, d)` is unchanged |
| LoopedIndex.LoopedIndexPeriodic | src/main.ts:57-60 | adding the count does not change the looped index, for every target at or above `-count` |
| LoopedIndex.PreviousOfFirstIsLast | src/main.ts:57-60 | `-1` loops to `count - 1` |
| LoopedIndex.NextOfLastIsFirst | src/main.ts:57-60 | `count` loops to `0` |
| LoopedIndex.EmptyListLoopsToZero | src/main.ts:57-60 | with no images every target loops to index 0 |
| LoopedIndex.BelowRangeLeavesRange | src/main.ts:57-60 | for count at least 2, `-1 - count` loops to `-1`, outside the range, and periodicity fails there |
| LoopedIndex.NextIndex | src/main.ts:57-60 | one step forward from an index in range is the next index, or 0 after the last |
| LoopedIndex.PreviousIndex | src/main.ts:57-60 | one step back from an index in range is the previous index, or the last from 0 |
| LoopedIndex.StepsUndoEachOther | src/main.ts:57-60 | a step forward then back, or back then forward, returns to the same index |
| LoopedIndex.FullCountReturns | src/main.ts:57-60 | moving by the full count from an index in range returns to it |
| ImagePaths.TriggerPath | src/main.ts:70-73 | a trigger contributes a path exactly when it has an image whose `src` is present and non-empty, and then contributes that `src` |
| ImagePaths.PathList | src/main.ts:69-74 | the path list is no longer than the trigger list and holds no empty path |
| ImagePaths.PathListIsFilter | src/main.ts:69-74 | the path list is the in-order subsequence of the triggers' paths: entry `k` comes from trigger `PathSources[k]`, those indices strictly increase, and every trigger with a path is among them |
| ImagePaths.PathListAligned | src/main.ts:69-74 | when every trigger has a path, the path list has one entry per trigger, in trigger order |
| ImagePaths.ThumbnailImageAt | src/main.ts:80-86 | the lookup yields a thumbnail exactly when the index is a trigger index whose trigger holds an image, and identifies it by that index |
| WorkLightbox.InitialThumbnailNames | src/main.ts:14 | the thumbnails' inline transition names, which are page state when the triggers are first queried, are keyed by exactly the triggers that hold an image |
| WorkLightbox.Lightbox.constructor | src/main.ts:69-75 | set-up records the triggers and their path list, starts at index 0, and takes the overlay's and images' state from the page |
| WorkLightbox.Activate | src/main.ts:62-68 | a controller exists exactly when there is a trigger, the overlay, its image and both navigation buttons; it then starts from the page's state |
| WorkLightbox.Lightbox.SetThumbnailName | src/main.ts:104-107 | setting a looked-up thumbnail's transition name changes that name and nothing else |
| WorkLightbox.Lightbox.RenderImage | src/main.ts:91-98 | the new state is `Rendered` of the old: the looped index is stored and the path there shown, the source left alone when there is no path |
| WorkLightbox.Lightbox.ApplyUpdate | src/main.ts:108-165 | the new state is `Updated` of the old: each `updateDom` callback of open, close or move makes its writes in source order |
| WorkLightbox.Lightbox.ApplyFinish | src/main.ts:120-124 | the new state is `Finished` of the old: the `onFinished` callback clears the looked-up thumbnail's transition name, or nothing happens when there is no callback |
| WorkLightbox.Lightbox.RunTransition | src/main.ts:32-52 | the new state is `Transitioned` of the old: without view transitions the wrapper updates then finishes; with them it also adds and later removes the transition class, when one is given |
| WorkLightbox.Lightbox.Open | src/main.ts:103-126 | the new state is `Opened` of the old: the looked-up thumbnail is tagged, then the open update and finish run inside the open transition |
| WorkLightbox.Lightbox.Close | src/main.ts:131-151 | the new state is `Closed` of the old: the thumbnail is looked up by the current index, then the close update and finish run inside the close transition |
| WorkLightbox.Lightbox.Move | src/main.ts:156-165 | the new state is `Moved` of the old: a render at the current index plus the offset, inside the next transition for positive offsets and the previous one otherwise |
| WorkLightbox.Lightbox.OnKeyDown | src/main.ts:187-200 | the new state is `AfterKeyDown` of the old: a key press while hidden changes nothing; otherwise ArrowLeft moves back, ArrowRight moves forward and Escape closes |
| WorkLightbox.Lightbox.Dispatch | src/main.ts:167-200 | the new state is `AfterEvent` of the old: each click or key press is delivered to the handler registered for it |
| LightboxProperties.RenderShowsLoopedPath | src/main.ts:91-98 | rendering a target at or above `-count` stores its looped index, which is in range, and shows the path there; with no paths the index is 0 and the source is kept; nothing else changes |
| LightboxProperties.UpdatedKeepsRootClasses | src/main.ts:108-165 | no `updateDom` callback touches the document root's classes |
| LightboxProperties.TransitionedSettles | src/main.ts:32-52 | a settled transition is the update followed by the finish callback, with the transition class removed from the root when the animated path ran |
| LightboxProperties.AnimatedPathMatchesFallback | src/main.ts:32-52 | the animated and immediate paths end in the same state whenever the transition class was not already on the root |
| LightboxProperties.OpenedSettles | src/main.ts:103-126 | open equals the rendered target with the thumbnail's name cleared, the overlay image tagged, the overlay visible and the body class added |
| LightboxProperties.OpenedShowsTarget | src/main.ts:103-126 | after open the overlay is visible on all three markers, the overlay image carries the shared name, the opened thumbnail's name is cleared, and the looped target's image is shown |
| LightboxProperties.PresetOpenClassOnRoot | src/main.ts:42-49 | with the open class already on the root, open keeps it without view transitions and removes it with them |
| LightboxProperties.PresetOpenClassSeparatesPaths | src/main.ts:37-49 | with the open class already on the root, opening with and without view transitions ends in different states |
| LightboxProperties.ClosedHidesOverlay | src/main.ts:131-151 | after close the overlay is hidden on all three markers, the overlay image's name is empty, the current thumbnail's name is cleared, and index and source are kept |
| LightboxProperties.CloseLookupWithinTriggers | src/main.ts:132 | the index close looks the thumbnail up with is always a trigger index |
| LightboxProperties.OpenThenCloseRestoresVisibility | src/main.ts:103-151 | opening then closing a hidden overlay whose markers are synced restores `hidden`, `aria-hidden` and the body classes |
| LightboxProperties.MovedIsRendered | src/main.ts:156-165 | with no transition class lingering, a move is a render at the current index plus the offset and leaves no class behind |
| LightboxProperties.MoveStep | src/main.ts:156-165 | a move lands on the looped index and shows the path there, changing nothing else |
| LightboxProperties.NextThenPreviousRestores | src/main.ts:156-165 | next then previous restores the whole state |
| LightboxProperties.PreviousThenNextRestores | src/main.ts:156-165 | previous then next restores the whole state |
| LightboxProperties.NextStepAhead | src/main.ts:156-165 | one more press of next moves from `k - 1` to `k` steps ahead, wrapping at the end |
| LightboxProperties.MovedForwardLandsAhead | src/main.ts:156-165 | `k` presses of next, for `k` up to the count, land `k` images further on, wrapping once |
| LightboxProperties.FullLoopReturns | src/main.ts:156-165 | as many presses of next as there are images restore the whole state |
| LightboxProperties.KeyDownDispatch | src/main.ts:187-200 | keydown while hidden is a no-op; otherwise ArrowLeft is a move back, ArrowRight a move forward, Escape a close, and any other key a no-op |
| LightboxProperties.OpenKeepsInvariants | src/main.ts:103-126 | open keeps the index in range, no transition class on the root and the thumbnail names keyed by the image triggers, and leaves the overlay synced and showing |
| LightboxProperties.CloseKeepsInvariants | src/main.ts:131-151 | close keeps the consistency invariant, syncs the visibility markers and keeps the image shown |
| LightboxProperties.MoveKeepsInvariants | src/main.ts:156-165 | moves keep the consistency invariant and the visibility markers, and show the new index's image |
| LightboxProperties.EventKeepsInvariants | src/main.ts:167-200 | every event keeps the consistency invariant, and keeps synced and showing states so; a thumbnail click establishes both |
| LightboxProperties.ReachableStatesKeepInvariants | src/main.ts:167-200 | from any consistent state, any sequence of events keeps the consistency invariant and synced visibility markers |
| LightboxProperties.InitialStateConsistent | src/main.ts:62-75 | the state set-up leaves behind is consistent, and its path list holds no empty path, provided the page's root carries no transition class |
| LightboxProperties.ActivatedStatesKeepInvariants | src/main.ts:62-200 | from set-up on a page whose root carries no transition class, any sequence of events keeps the consistency invariant, and synced markers stay synced |
| LightboxProperties.CloseTargetsShownThumbnail | src/main.ts:132 | when every trigger has a source, close looks up the very thumbnail whose image is shown |
| LightboxProperties.MissingSourceShiftsShownImage | src/main.ts:69-74 | with the first of three thumbnails lacking a source, opening the second ("a.jpg") shows "b.jpg" |
| LightboxProperties.NextShowsFollowingImage | src/main.ts:156-165 | next from a consistent state shows the following image, wrapping from last to first |
| LightboxProperties.EscapeClosesVisibleOverlay | src/main.ts:197-199 | Escape on a visible overlay hides it on all three markers and keeps index and image |
| LightboxProperties.ThreeImageWalk | src/main.ts:167-200 | over "a.jpg", "b.jpg", "c.jpg": open the first, then next three times, shows a, b, c, a, and Escape then hides the overlay showing "a.jpg" at index 0 |
| LightboxProperties.ThreeImageWalkthrough | src/main.ts:167-200 | the same walk driven through a `Lightbox`'s methods gives the same images and final state |

## Left out

- The stylesheet import (`src/main.ts:1`) and the CSS the classes drive are not modelled.
- DOM querying and `addEventListener` wiring are not modelled. The page's markup is a `Page` value, and the listeners are the `Event` datatype delivered by `Dispatch`.
- Element identity is simplified. The overlay image is taken to be none of the thumbnail images, and a thumbnail is identified by its trigger index.
- Only the settled outcome of a view transition is modelled. Its asynchronous timing is not: the `finished` callback runs at once. Overlapping transitions from rapid input, which the script neither serialises nor cancels, are not modelled.
- Image loading after `src` is set is not modelled.
- JavaScript numbers are modelled as integers. Fractional, `NaN` and very large indices never arise from the script's own calls and are not modelled.
- Capability detection (`"startViewTransition" in document`) is the `viewTransitions` flag of the page.
