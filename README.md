# photobox: the photo-slot state machine

This project models the state logic of photobox's single React component,
`App` in `src/App.tsx`. The component keeps three pieces of state:

- the ordered list of captured frames, `capturedPhotos`;
- an optional camera stream, `mediaStream`;
- a photo-count counter, `option`.

Six handlers change that state:

- `startWebcam` and `stopWebcam` acquire and release the camera stream;
- `captureImage` draws the current video frame and appends it to the list;
- `handleDeletePhoto` removes one entry by index;
- the "-" and "+" buttons move the counter.

Besides displaying `option` (`src/App.tsx:148`), the view derives two things
from the state: the capture button's `disabled` rule and the four preview
slots.

The model has three modules:

- `PhotoList` (`photo_list.dfy`) holds the pure list updaters:
  - `AppendCapped`, the capture updater `[...prev, frame].slice(0, 4)`;
  - `RemoveAt`, the delete updater "copy, then `splice(index, 1)`";
  - `SlotView`, the preview-slot lookup.
- `Booth` (`booth.dfy`) holds the component's state as a value (`State`). Each
  handler is an `Event`, and the browser's answers travel with the event:
  permission granted, a 2D context available, the encoded frame. `Step`
  applies one handler and `Run` applies a sequence of them. The lemmas about
  whole sequences of handlers are here.
- `AppComponent` (`app.dfy`) holds the class `App`. Its fields are `photos`,
  `streamHeld`, `previewBound` (the video element's `srcObject` is set),
  `videoPresent` (`videoRef.current` is set) and `option`. Each handler is a
  method that updates those fields in place. Each method states the new value
  of every field and proves that its new state is `Step` of the old state.

Facts about the code that shape the model:

- The capacity is the literal 4 in the capture guard (`src/App.tsx:40`), the
  capture updater (`:55`) and the button's `disabled` rule (`:100`). The
  preview always renders four slots, indices `[0, 1, 2, 3]` (`:111`). The
  capacity does not depend on `option`.
- `option` starts at 4, and its "-" and "+" buttons change it by one with no
  bound in either direction. Apart from its display at `:148`, nothing reads
  it.
- The timer `<select>` and the "Print your photos" button have no handlers.
  So there is no countdown and no collage to model.
- `captureImage` does not check for a camera stream. Only the capture
  button's `disabled` attribute does.

## Model

| member | source | states |
|---|---|---|
| PhotoList.Take | src/App.tsx:55 | `slice(0, n)` keeps the first `n` entries, or all entries when there are fewer; the result is a prefix of the input |
| PhotoList.AppendCapped | src/App.tsx:55 | the capture updater never yields more than 4 entries and yields a prefix of `prev + [frame]`; below capacity it is exactly `prev + [frame]`, so the truncation drops nothing; it adds no empty frame to a list without one |
| PhotoList.RemoveAt | src/App.tsx:60-65 | deleting a held index drops the length by one, keeps the entries before it and shifts the later ones down by one; an index at or past the end leaves the list equal; no empty frame appears |
| PhotoList.RemoveAtMultiset | src/App.tsx:62-64 | `splice(index, 1)` on a held index removes exactly that one frame: the result plus the removed frame is the original multiset |
| PhotoList.SlotView | src/App.tsx:111-135 | a slot shows a photo exactly when its index is inside the list and the entry is truthy (non-empty), and then it shows that entry; otherwise it shows "Empty" |
| PhotoList.SlotsShowList | src/App.tsx:111-135 | with real (non-empty) frames, slot `k` shows `photos[k]` when `k < \|photos\|` and "Empty" otherwise |
| PhotoList.DeleteOfferedOnlyForHeld | src/App.tsx:119-131 | the delete button is only on a slot that shows a photo, so its index is held and deleting it removes exactly one frame |
| PhotoList.DeleteShiftsSlots | src/App.tsx:60-65 | after deleting slot `k`, slots before `k` show what they showed, and slot `j >= k` shows what slot `j + 1` showed |
| Booth.Init | src/App.tsx:4-9 | the mounted component starts with no photos, no stream and option 4, and satisfies the invariant |
| Booth.Step | src/App.tsx:11-65 | every handler keeps the invariant: at most 4 photos, none of them the empty string, and the preview bound exactly when a stream is held and a video element exists |
| Booth.RunPreservesInv | src/App.tsx:39-65 | every sequence of handlers from a state satisfying the invariant keeps it |
| Booth.BoundFromMount | src/App.tsx:5 | from mount, no sequence of captures, deletes or other handlers ever holds more than 4 photos |
| Booth.CaptureAppends | src/App.tsx:40-55 | a capture with a video element, fewer than 4 photos and a context appends the frame at the end; earlier entries keep their places, the length grows by exactly one and nothing else changes |
| Booth.CaptureGuarded | src/App.tsx:40-50 | a capture with 4 photos, without a video element or without a context leaves the whole state unchanged |
| Booth.CaptureIgnoresStream | src/App.tsx:39-40 | the capture handler does not check the stream: with no stream the button is disabled, yet the handler still appends |
| Booth.EnabledCaptureGrows | src/App.tsx:100 | an enabled button's capture (video element present, context available) grows the list by the frame; a full list disables the button and the capture is a no-op |
| Booth.CaptureIgnoresOption | src/App.tsx:40 | the capture's effect on the list does not depend on `option` |
| Booth.CapturesAppend | src/App.tsx:39-56 | captures that fit within the capacity append their frames one each, in order |
| Booth.FillFromMount | src/App.tsx:11-55 | after mount and a granted camera request the capture button is enabled; four captures then hold exactly those frames in capture order with the stream still held, so the full list disables the button, and any further capture is a no-op |
| Booth.DeleteRemovesOne | src/App.tsx:60-65 | deleting a held index drops exactly that frame and the length by one, changing only the list; deleting past the end changes nothing |
| Booth.StopReleases | src/App.tsx:26-37 | after `stopWebcam` no stream is held and no preview is bound; photos and option are untouched |
| Booth.StopIdempotent | src/App.tsx:26-37 | `stopWebcam` without a held stream changes nothing, so stopping twice equals stopping once |
| Booth.StartWebcamOutcome | src/App.tsx:11-23 | a refused request leaves the state unchanged; a granted one holds the stream, binds the preview when a video element exists, and changes nothing else |
| Booth.SlotsFromMount | src/App.tsx:111-135 | in every state reachable from mount, slot `k` shows `photos[k]` when `k < \|photos\|` and "Empty" otherwise |
| Booth.OptionUnbounded | src/App.tsx:142-154 | `n` presses of "+" (or "-") move `option` by exactly `+n` (or `-n`) with no bound and change nothing else |
| AppComponent.App.constructor | src/App.tsx:4-9 | the new object's state is `Init` |
| AppComponent.App.StartWebcam | src/App.tsx:11-23 | the stream is held afterwards iff it was held before or the request was granted; the preview is bound iff a stream is held and a video element exists; the new state is the `Step` of the old |
| AppComponent.App.StopWebcam | src/App.tsx:26-37 | no stream is held and no preview is bound afterwards; without a held stream the state is unchanged; the new state is the `Step` of the old |
| AppComponent.App.CaptureImage | src/App.tsx:39-57 | the list gains the frame at its end exactly when a video element exists, fewer than 4 photos are held and a context is available; otherwise it is unchanged; the other fields are unchanged |
| AppComponent.App.DeletePhoto | src/App.tsx:60-66 | the list becomes `RemoveAt` of the old list; a held index shortens it by one; the other fields are unchanged |
| AppComponent.App.DecrementOption | src/App.tsx:144 | `option` decreases by exactly one and nothing else changes |
| AppComponent.App.IncrementOption | src/App.tsx:151 | `option` increases by exactly one and nothing else changes |
| AppComponent.App.CaptureButtonEnabled | src/App.tsx:100 | the button is enabled iff a stream is held and fewer than 4 photos exist |
| AppComponent.App.PreviewSlot | src/App.tsx:111-135 | for a valid component, slot `k` renders `photos[k]` when `k < \|photos\|` and "Empty" otherwise |

## Left out

- The camera request (`getUserMedia`), its promise, and `track.stop()` on each track are left out. They are browser device I/O. A request is modelled as a granted/refused parameter, and the stream as a held/not-held flag. Because of this flag, the model cannot show that a second granted `startWebcam` replaces the held stream without stopping its tracks.
- The error log on a refused camera request is left out. It is console output and changes no state.
- Canvas creation, `drawImage` and `toDataURL` are left out. They are a foreign raster API. The encoded frame is a parameter of type `DataUrl`, a string known only to be non-empty. The 2D context's existence is a boolean parameter.
- The JSX layout, the styling, the mirrored transform and the binding of the `videoRef` DOM element are left out. They are presentation. Whether a video element is mounted is a field fixed at construction.
- React's rendering and `setState` batching are left out. Each handler is applied atomically, in order. So the model does not capture two captures that both read a stale `capturedPhotos.length` before either updater runs.
- The timer `<select>` and the "Print your photos" button are left out. Neither has any behaviour in the code.
- Negative delete indices, which `splice` counts from the end, are left out. Delete indices come only from the slot list `[0, 1, 2, 3]`, so the index is a `nat`.
- There is no teardown on unmount: the component registers no cleanup. So the model has no unmount event.
- Booth.OptionUnbounded, AppComponent.App.IncrementOption, AppComponent.App.DecrementOption: `option` is a JavaScript number, an IEEE double, but the model uses an unbounded integer. Beyond 2^53 in magnitude, `prev + 1` rounds back to `prev`, so the exact ±1 steps stated here do not match the program there.
