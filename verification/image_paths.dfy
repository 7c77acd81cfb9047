/**
 * The thumbnail triggers of the works grid and the image path list the
 * lightbox derives from them once, when it is set up.
 */
module ImagePaths {

  datatype Option<+T> = None | Some(value: T)

  /** The nested `.media-frame__image` element of a trigger: its `src`
      attribute (absent or a string) and its inline `viewTransitionName`. */
  datatype ThumbnailImage = ThumbnailImage(src: Option<string>, transitionName: string)

  /** A `.work__item` trigger, which may or may not contain a thumbnail image. */
  datatype Trigger = Trigger(image: Option<ThumbnailImage>)

  /** The path a trigger contributes: its image's `src` when that is truthy,
      that is, present and not the empty string. */
  function TriggerPath(trigger: Trigger): (path: Option<string>)
    ensures path.Some? <==> trigger.image.Some? && trigger.image.value.src.Some? && trigger.image.value.src.value != ""
    ensures path.Some? ==> path.value == trigger.image.value.src.value
  {
    match trigger.image
    case None => None
    case Some(image) =>
      match image.src
      case None => None
      case Some(src) => if src != "" then Some(src) else None
  }

  /** The `flatMap` callback: a one-element list for a trigger with a path,
      the empty list otherwise. */
  function PathsOf(trigger: Trigger): seq<string>
  {
    match TriggerPath(trigger)
    case Some(path) => [path]
    case None => []
  }

  /** `workImagePathList`: the triggers' paths, in trigger order, dropping the
      triggers that have none. */
  function PathList(triggers: seq<Trigger>): (paths: seq<string>)
    ensures |paths| <= |triggers|
    ensures forall k :: 0 <= k < |paths| ==> paths[k] != ""
  {
    if triggers == [] then [] else PathsOf(triggers[0]) + PathList(triggers[1..])
  }

  /** The trigger indices, from `from` on, whose trigger contributes a path. */
  function SourcesFrom(triggers: seq<Trigger>, from: nat): seq<nat>
    requires from <= |triggers|
    decreases |triggers| - from
  {
    if from == |triggers| then []
    else (if TriggerPath(triggers[from]).Some? then [from] else []) + SourcesFrom(triggers, from + 1)
  }

  /** For each entry of the path list, the index of the trigger it came from. */
  function PathSources(triggers: seq<Trigger>): seq<nat>
  {
    SourcesFrom(triggers, 0)
  }

  lemma {:induction false} SourcesFromIsFilter(triggers: seq<Trigger>, from: nat)
    requires from <= |triggers|
    ensures |SourcesFrom(triggers, from)| == |PathList(triggers[from..])|
    ensures forall k :: 0 <= k < |SourcesFrom(triggers, from)| ==>
      from <= SourcesFrom(triggers, from)[k] < |triggers| &&
      TriggerPath(triggers[SourcesFrom(triggers, from)[k]]) == Some(PathList(triggers[from..])[k])
    ensures forall j, k :: 0 <= j < k < |SourcesFrom(triggers, from)| ==>
      SourcesFrom(triggers, from)[j] < SourcesFrom(triggers, from)[k]
    ensures forall i :: from <= i < |triggers| && TriggerPath(triggers[i]).Some? ==> i in SourcesFrom(triggers, from)
    decreases |triggers| - from
  {
    if from < |triggers| {
      SourcesFromIsFilter(triggers, from + 1);
      assert triggers[from..][1..] == triggers[from + 1..];
      assert triggers[from..][0] == triggers[from];
    }
  }

  /** The path list is exactly the in-order subsequence of the triggers' paths:
      entry `k` is the path of trigger `PathSources[k]`, those trigger indices
      strictly increase, and every trigger with a path is among them. */
  lemma PathListIsFilter(triggers: seq<Trigger>)
    ensures |PathSources(triggers)| == |PathList(triggers)|
    ensures forall k :: 0 <= k < |PathList(triggers)| ==>
      PathSources(triggers)[k] < |triggers| &&
      TriggerPath(triggers[PathSources(triggers)[k]]) == Some(PathList(triggers)[k])
    ensures forall j, k :: 0 <= j < k < |PathSources(triggers)| ==>
      PathSources(triggers)[j] < PathSources(triggers)[k]
    ensures forall i :: 0 <= i < |triggers| && TriggerPath(triggers[i]).Some? ==> i in PathSources(triggers)
  {
    SourcesFromIsFilter(triggers, 0);
    assert triggers[0..] == triggers;
  }

  /** When every trigger has a path, path index and trigger index coincide. */
  lemma {:induction false} PathListAligned(triggers: seq<Trigger>)
    requires forall i :: 0 <= i < |triggers| ==> TriggerPath(triggers[i]).Some?
    ensures |PathList(triggers)| == |triggers|
    ensures forall k :: 0 <= k < |triggers| ==> Some(PathList(triggers)[k]) == TriggerPath(triggers[k])
  {
    if triggers != [] {
      PathListAligned(triggers[1..]);
    }
  }

  /** `getWorkThumbnailImageElement`: the thumbnail image of trigger `index`,
      identified by that index, or nothing when the index is outside the
      trigger list or the trigger has no nested image. */
  function ThumbnailImageAt(triggers: seq<Trigger>, index: int): (thumbnail: Option<nat>)
    ensures thumbnail.Some? <==> 0 <= index < |triggers| && triggers[index].image.Some?
    ensures thumbnail.Some? ==> thumbnail.value == index
  {
    if 0 <= index < |triggers| && triggers[index].image.Some? then Some(index) else None
  }

  /** The indices of the triggers that carry a thumbnail image. */
  function ThumbnailIndices(triggers: seq<Trigger>): set<nat>
  {
    set i: nat | i < |triggers| && triggers[i].image.Some?
  }
}
