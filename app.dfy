/** The photobox component as an object whose handlers replace its state. */
module AppComponent {
  import opened PhotoList
  import opened Booth

  class App {
    /** `capturedPhotos` */
    var photos: seq<string>
    /** `mediaStream !== null` */
    var streamHeld: bool
    /** `videoRef.current.srcObject !== null` */
    var previewBound: bool
    /** `videoRef.current !== null`; fixed once the component is mounted */
    var videoPresent: bool
    /** `option`, the photo-count counter */
    var option: int

    /** The component's state as a value. */
    function Snapshot(): State
      reads this
    {
      State(photos, streamHeld, previewBound, videoPresent, option)
    }

    ghost predicate Valid()
      reads this
    {
      Inv(Snapshot())
    }

    /** Mounting: the initial `useState` values. */
    constructor (videoPresent: bool)
      ensures Valid()
      ensures Snapshot() == Init(videoPresent)
    {
      photos := [];
      streamHeld := false;
      previewBound := false;
      this.videoPresent := videoPresent;
      option := 4;
    }

    /** `startWebcam`: `granted` is whether the camera request resolved. */
    method StartWebcam(granted: bool)
      requires Valid()
      modifies this
      ensures Valid()
      ensures Snapshot() == Step(old(Snapshot()), Event.StartWebcam(granted))
      ensures streamHeld == (old(streamHeld) || granted)
      ensures previewBound == (streamHeld && videoPresent)
      ensures photos == old(photos) && option == old(option) && videoPresent == old(videoPresent)
    {
      if !granted {
        return;
      }
      if videoPresent {
        previewBound := true;
      }
      streamHeld := true;
    }

    /** `stopWebcam`: release the stream if one is held, then unbind the
        preview if there is a video element. */
    method StopWebcam()
      requires Valid()
      modifies this
      ensures Valid()
      ensures Snapshot() == Step(old(Snapshot()), Event.StopWebcam)
      ensures !streamHeld && !previewBound
      ensures photos == old(photos) && option == old(option) && videoPresent == old(videoPresent)
      ensures !old(streamHeld) ==> Snapshot() == old(Snapshot())
    {
      if streamHeld {
        streamHeld := false;
      }
      if videoPresent {
        previewBound := false;
      }
    }

    /** `captureImage`: `contextAvailable` is whether the canvas gave a 2D
        context, `frame` the data URL it encoded. */
    method CaptureImage(contextAvailable: bool, frame: DataUrl)
      requires Valid()
      modifies this
      ensures Valid()
      ensures Snapshot() == Step(old(Snapshot()), Capture(contextAvailable, frame))
      ensures photos == if videoPresent && |old(photos)| < Capacity && contextAvailable
                        then old(photos) + [frame] else old(photos)
      ensures streamHeld == old(streamHeld) && previewBound == old(previewBound)
      ensures option == old(option) && videoPresent == old(videoPresent)
    {
      if !videoPresent || |photos| >= Capacity {
        return;
      }
      if contextAvailable {
        photos := AppendCapped(photos, frame);
      }
    }

    /** `handleDeletePhoto(index)`. */
    method DeletePhoto(index: nat)
      requires Valid()
      modifies this
      ensures Valid()
      ensures Snapshot() == Step(old(Snapshot()), Delete(index))
      ensures photos == RemoveAt(old(photos), index)
      ensures index < |old(photos)| ==> |photos| == |old(photos)| - 1
      ensures streamHeld == old(streamHeld) && previewBound == old(previewBound)
      ensures option == old(option) && videoPresent == old(videoPresent)
    {
      photos := RemoveAt(photos, index);
    }

    /** The "-" option button. */
    method DecrementOption()
      requires Valid()
      modifies this
      ensures Valid()
      ensures Snapshot() == Step(old(Snapshot()), Event.DecrementOption)
      ensures option == old(option) - 1
      ensures photos == old(photos) && streamHeld == old(streamHeld)
      ensures previewBound == old(previewBound) && videoPresent == old(videoPresent)
    {
      option := option - 1;
    }

    /** The "+" option button. */
    method IncrementOption()
      requires Valid()
      modifies this
      ensures Valid()
      ensures Snapshot() == Step(old(Snapshot()), Event.IncrementOption)
      ensures option == old(option) + 1
      ensures photos == old(photos) && streamHeld == old(streamHeld)
      ensures previewBound == old(previewBound) && videoPresent == old(videoPresent)
    {
      option := option + 1;
    }

    /** The capture button's enable rule, `!(!mediaStream || capturedPhotos.length >= 4)`. */
    method CaptureButtonEnabled() returns (enabled: bool)
      ensures enabled == CaptureEnabled(Snapshot())
      ensures enabled ==> |photos| < Capacity
    {
      enabled := !(!streamHeld || |photos| >= Capacity);
    }

    /** What preview slot `k` renders. */
    method PreviewSlot(k: nat) returns (v: Slot)
      requires Valid()
      ensures v == if k < |photos| then Shows(photos[k]) else Empty
    {
      v := SlotView(photos, k);
      SlotsShowList(photos, k);
    }
  }
}
