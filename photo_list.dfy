/** The pure list updaters of the photobox component: the capture updater, the
    delete updater and the preview-slot lookup, on an ordered list of captured
    frames. A frame is the opaque data URL the canvas produced. */
module PhotoList {

  /** Number of photos the component keeps; a literal at every place it is used. */
  const Capacity: nat := 4

  /** What `canvas.toDataURL("image/png")` returns. The frame's content is
      opaque here; all that matters to the component is that a data URL is
      never the empty string (a canvas with no pixels still yields "data:,"). */
  type DataUrl = s: string | |s| > 0 witness "data:,"

  /** `xs.slice(0, n)` for a non-negative `n`: the first `n` entries, or all of
      them when there are fewer. */
  function Take(s: seq<string>, n: nat): (r: seq<string>)
    ensures |r| == if |s| <= n then |s| else n
    ensures r <= s
  {
    if |s| <= n then s else s[..n]
  }

  /** The capture updater `[...prev, frame].slice(0, 4)`: append the new frame,
      then keep at most `Capacity` entries. */
  function AppendCapped(prev: seq<string>, frame: string): (r: seq<string>)
    ensures |r| <= Capacity
    ensures r <= prev + [frame]
    ensures |prev| < Capacity ==> r == prev + [frame]
    ensures |prev| >= Capacity ==> r == prev[..Capacity]
    ensures NonEmptyFrames(prev) && frame != "" ==> NonEmptyFrames(r)
  {
    Take(prev + [frame], Capacity)
  }

  /** The delete updater: copy the list, then `splice(index, 1)` on the copy.
      A splice that starts at or past the end removes nothing. */
  function RemoveAt(s: seq<string>, index: nat): (r: seq<string>)
    ensures index < |s| ==> |r| == |s| - 1
    ensures index < |s| ==> r[..index] == s[..index]
    ensures index < |s| ==> forall j :: index <= j < |r| ==> r[j] == s[j + 1]
    ensures index >= |s| ==> r == s
    ensures NonEmptyFrames(s) ==> NonEmptyFrames(r)
  {
    if index < |s| then s[..index] + s[index + 1..] else s
  }

  /** Deleting a held entry removes exactly that one frame and nothing else. */
  lemma RemoveAtMultiset(s: seq<string>, index: nat)
    requires index < |s|
    ensures multiset(RemoveAt(s, index)) + multiset{s[index]} == multiset(s)
  {
    assert s == s[..index] + [s[index]] + s[index + 1..];
  }

  /** What one preview slot renders. */
  datatype Slot = Empty | Shows(photo: string)

  /** Preview slot `k`: `capturedPhotos[k]` is rendered when it is truthy, the
      "Empty" label otherwise. Indexing past the end yields `undefined`, and the
      empty string is falsy, so both show "Empty". */
  function SlotView(photos: seq<string>, k: nat): (v: Slot)
    ensures v.Shows? <==> k < |photos| && photos[k] != ""
    ensures v.Shows? ==> v.photo == photos[k]
  {
    if k < |photos| && photos[k] != "" then Shows(photos[k]) else Empty
  }

  /** True when no held frame is the empty string, as holds for a list of
      data URLs. */
  predicate NonEmptyFrames(photos: seq<string>)
  {
    forall i :: 0 <= i < |photos| ==> photos[i] != ""
  }

  /** With real frames, the four preview slots show the list in order, and
      exactly the slots past its end show "Empty". */
  lemma SlotsShowList(photos: seq<string>, k: nat)
    requires NonEmptyFrames(photos)
    ensures k < |photos| ==> SlotView(photos, k) == Shows(photos[k])
    ensures k >= |photos| ==> SlotView(photos, k) == Empty
  {
  }

  /** The delete button is only rendered on a slot that shows a photo, so the
      index it passes always names a held entry. */
  lemma DeleteOfferedOnlyForHeld(photos: seq<string>, k: nat)
    requires SlotView(photos, k).Shows?
    ensures k < |photos|
    ensures |RemoveAt(photos, k)| == |photos| - 1
    ensures multiset(RemoveAt(photos, k)) + multiset{photos[k]} == multiset(photos)
  {
    RemoveAtMultiset(photos, k);
  }

  /** Deleting slot `k` and then looking at slot `j`: slots before `k` keep
      their photo, later ones show the photo that was one slot to the right. */
  lemma DeleteShiftsSlots(photos: seq<string>, k: nat, j: nat)
    requires k < |photos|
    ensures j < k ==> SlotView(RemoveAt(photos, k), j) == SlotView(photos, j)
    ensures j >= k ==> SlotView(RemoveAt(photos, k), j) == SlotView(photos, j + 1)
  {
  }
}
