/** The photobox component's state and its handlers as one transition function.
    Each handler runs atomically; the browser's answers (permission granted, a
    2D context available, the frame the canvas encoded) arrive with the event. */
module Booth {
  import opened PhotoList

  /** A snapshot of the component: the photo list, whether a camera stream is
      held, whether the video element's preview source is bound to it, whether
      the video element is mounted, and the photo-count option. */
  datatype State = State(
    photos: seq<string>,
    streamHeld: bool,
    previewBound: bool,
    videoPresent: bool,
    option: int)

  /** The component's event handlers, with the browser's results as data. */
  datatype Event =
    | StartWebcam(granted: bool)
    | StopWebcam
    | Capture(contextAvailable: bool, frame: DataUrl)
    | Delete(index: nat)
    | DecrementOption
    | IncrementOption

  /** The list never exceeds the capacity and holds only real frames, and the
      preview is bound exactly when a stream is held and there is a video
      element to bind it to. */
  predicate Inv(s: State)
  {
    && |s.photos| <= Capacity
    && NonEmptyFrames(s.photos)
    && s.previewBound == (s.streamHeld && s.videoPresent)
  }

  /** The state right after mounting: no photos, no stream, option 4. */
  function Init(videoPresent: bool): (s: State)
    ensures Inv(s)
    ensures s.photos == [] && !s.streamHeld && s.option == 4
  {
    State([], false, false, videoPresent, 4)
  }

  /** The capture button is enabled exactly when a stream is held and the list
      is not full. */
  predicate CaptureEnabled(s: State)
  {
    s.streamHeld && |s.photos| < Capacity
  }

  /** One handler applied to a state. */
  function Step(s: State, e: Event): (r: State)
    ensures Inv(s) ==> Inv(r)
    ensures r.videoPresent == s.videoPresent
  {
    match e
    case StartWebcam(granted) =>
      // a refused request is only logged
      if !granted then s
      else s.(streamHeld := true, previewBound := if s.videoPresent then true else s.previewBound)
    case StopWebcam =>
      s.(streamHeld := false, previewBound := if s.videoPresent then false else s.previewBound)
    case Capture(contextAvailable, frame) =>
      if !s.videoPresent || |s.photos| >= Capacity then s
      // no 2D context: silently nothing
      else if !contextAvailable then s
      else s.(photos := AppendCapped(s.photos, frame))
    case Delete(index) =>
      s.(photos := RemoveAt(s.photos, index))
    case DecrementOption =>
      s.(option := s.option - 1)
    case IncrementOption =>
      s.(option := s.option + 1)
  }

  /** A sequence of handlers applied in order. */
  function Run(s: State, es: seq<Event>): (r: State)
    decreases |es|
  {
    if es == [] then s else Run(Step(s, es[0]), es[1..])
  }

  /** Every sequence of handlers keeps the invariant. */
  lemma {:induction false} RunPreservesInv(s: State, es: seq<Event>)
    requires Inv(s)
    ensures Inv(Run(s, es))
    decreases |es|
  {
    if es != [] {
      RunPreservesInv(Step(s, es[0]), es[1..]);
    }
  }

  /** From the freshly mounted component, no sequence of captures and deletes
      (or any other handlers) ever holds more than four photos. */
  lemma BoundFromMount(videoPresent: bool, es: seq<Event>)
    ensures |Run(Init(videoPresent), es).photos| <= Capacity
  {
    RunPreservesInv(Init(videoPresent), es);
  }

  /** A capture that passes the guard and gets a context appends the frame at
      the end: earlier entries keep their positions, the length grows by one,
      and nothing else changes. */
  lemma CaptureAppends(s: State, frame: DataUrl)
    requires s.videoPresent && |s.photos| < Capacity
    ensures Step(s, Capture(true, frame)) == s.(photos := s.photos + [frame])
    ensures |Step(s, Capture(true, frame)).photos| == |s.photos| + 1
    ensures Step(s, Capture(true, frame)).photos[..|s.photos|] == s.photos
  {
  }

  /** A capture with a full list, without a video element, or without a 2D
      context changes nothing, and reports nothing. */
  lemma CaptureGuarded(s: State, contextAvailable: bool, frame: DataUrl)
    requires !s.videoPresent || |s.photos| >= Capacity || !contextAvailable
    ensures Step(s, Capture(contextAvailable, frame)) == s
  {
  }

  /** The handler itself does not look at the stream: only the button's
      `disabled` rule does. With a video element and no stream, a capture
      still appends whatever frame the canvas produced. */
  lemma CaptureIgnoresStream(s: State, frame: DataUrl)
    requires !s.streamHeld && s.videoPresent && |s.photos| < Capacity
    ensures !CaptureEnabled(s)
    ensures Step(s, Capture(true, frame)).photos == s.photos + [frame]
  {
  }

  /** When the button is enabled, a click with a video element and a context
      grows the list by one; when it is disabled because the list is full, the
      handler is a no-op as well. */
  lemma EnabledCaptureGrows(s: State, frame: DataUrl)
    requires s.videoPresent
    ensures CaptureEnabled(s) ==> Step(s, Capture(true, frame)).photos == s.photos + [frame]
    ensures |s.photos| >= Capacity ==> !CaptureEnabled(s) && Step(s, Capture(true, frame)) == s
  {
  }

  /** The capacity does not come from the option counter: a capture acts the
      same whatever the option is. */
  lemma CaptureIgnoresOption(s: State, option: int, contextAvailable: bool, frame: DataUrl)
    ensures Step(s.(option := option), Capture(contextAvailable, frame)).photos
         == Step(s, Capture(contextAvailable, frame)).photos
  {
  }

  /** Successful captures of each frame in turn. */
  function Captures(frames: seq<DataUrl>): (es: seq<Event>)
    ensures |es| == |frames|
  {
    if frames == [] then [] else [Capture(true, frames[0])] + Captures(frames[1..])
  }

  /** Running a sequence runs its first handler, then the rest. */
  lemma RunFirst(s: State, e: Event, es: seq<Event>)
    ensures Run(s, [e] + es) == Run(Step(s, e), es)
  {
    assert ([e] + es)[1..] == es;
  }

  /** Captures that fit append their frames in order, one each. */
  lemma {:induction false} CapturesAppend(s: State, frames: seq<DataUrl>)
    requires s.videoPresent && |s.photos| + |frames| <= Capacity
    ensures Run(s, Captures(frames)) == s.(photos := s.photos + frames)
    decreases |frames|
  {
    if frames != [] {
      var f, rest := frames[0], frames[1..];
      var t := s.(photos := s.photos + [f]);
      RunFirst(s, Capture(true, f), Captures(rest));
      CaptureAppends(s, f);
      CapturesAppend(t, rest);
      assert t.photos + rest == s.photos + frames;
    }
  }

  /** After mounting and a granted camera request the capture button is
      enabled; four successful captures then fill the list with exactly those
      frames, in capture order, the stream still held. The full list disables
      the button, and a further capture is a no-op until a photo is deleted. */
  lemma FillFromMount(frames: seq<DataUrl>, extra: DataUrl, contextAvailable: bool)
    requires |frames| == Capacity
    ensures CaptureEnabled(Step(Init(true), StartWebcam(true)))
    ensures Run(Init(true), [StartWebcam(true)] + Captures(frames)).photos == frames
    ensures Run(Init(true), [StartWebcam(true)] + Captures(frames)).streamHeld
    ensures !CaptureEnabled(Run(Init(true), [StartWebcam(true)] + Captures(frames)))
    ensures Step(Run(Init(true), [StartWebcam(true)] + Captures(frames)), Capture(contextAvailable, extra))
         == Run(Init(true), [StartWebcam(true)] + Captures(frames))
  {
    var started := Step(Init(true), StartWebcam(true));
    RunFirst(Init(true), StartWebcam(true), Captures(frames));
    CapturesAppend(started, frames);
    assert [] + frames == frames;
  }

  /** Deleting a held index removes exactly that entry: earlier entries stay,
      later ones move down by one, the length drops by one, and nothing but the
      list changes. Deleting past the end changes nothing. */
  lemma DeleteRemovesOne(s: State, i: nat)
    ensures Step(s, Delete(i)) == s.(photos := RemoveAt(s.photos, i))
    ensures i < |s.photos| ==> |Step(s, Delete(i)).photos| == |s.photos| - 1
    ensures i < |s.photos| ==>
      multiset(Step(s, Delete(i)).photos) + multiset{s.photos[i]} == multiset(s.photos)
    ensures i >= |s.photos| ==> Step(s, Delete(i)) == s
  {
    if i < |s.photos| {
      RemoveAtMultiset(s.photos, i);
    }
  }

  /** Stopping leaves no stream and no bound preview. */
  lemma StopReleases(s: State)
    requires Inv(s)
    ensures !Step(s, StopWebcam).streamHeld && !Step(s, StopWebcam).previewBound
    ensures Step(s, StopWebcam).photos == s.photos && Step(s, StopWebcam).option == s.option
  {
  }

  /** Stopping without a held stream changes nothing, so stopping twice is the
      same as stopping once. */
  lemma StopIdempotent(s: State)
    requires Inv(s)
    ensures !s.streamHeld ==> Step(s, StopWebcam) == s
    ensures Step(Step(s, StopWebcam), StopWebcam) == Step(s, StopWebcam)
  {
  }

  /** A refused camera request leaves the state as it was; a granted one holds
      the stream, binds the preview when a video element exists, and changes
      nothing else. */
  lemma StartWebcamOutcome(s: State)
    ensures Step(s, StartWebcam(false)) == s
    ensures Step(s, StartWebcam(true))
         == s.(streamHeld := true, previewBound := s.videoPresent || s.previewBound)
  {
  }

  /** Every preview slot of a reachable state shows its list entry, or "Empty"
      past the end of the list. */
  lemma {:induction false} SlotsFromMount(videoPresent: bool, es: seq<Event>, k: nat)
    ensures k < |Run(Init(videoPresent), es).photos| ==>
      SlotView(Run(Init(videoPresent), es).photos, k) == Shows(Run(Init(videoPresent), es).photos[k])
    ensures k >= |Run(Init(videoPresent), es).photos| ==>
      SlotView(Run(Init(videoPresent), es).photos, k) == Empty
  {
    RunPreservesInv(Init(videoPresent), es);
    SlotsShowList(Run(Init(videoPresent), es).photos, k);
  }

  /** `n` presses of one option button. */
  function Presses(e: Event, n: nat): (es: seq<Event>)
    ensures |es| == n
    ensures forall i :: 0 <= i < n ==> es[i] == e
  {
    if n == 0 then [] else [e] + Presses(e, n - 1)
  }

  /** The option counter moves by exactly one per press, with no lower or
      upper bound, and touches nothing else. */
  lemma {:induction false} OptionUnbounded(s: State, n: nat)
    ensures Run(s, Presses(IncrementOption, n)) == s.(option := s.option + n)
    ensures Run(s, Presses(DecrementOption, n)) == s.(option := s.option - n)
    decreases n
  {
    if n > 0 {
      assert Presses(IncrementOption, n)[1..] == Presses(IncrementOption, n - 1);
      assert Presses(DecrementOption, n)[1..] == Presses(DecrementOption, n - 1);
      OptionUnbounded(s.(option := s.option + 1), n - 1);
      OptionUnbounded(s.(option := s.option - 1), n - 1);
    }
  }
}
