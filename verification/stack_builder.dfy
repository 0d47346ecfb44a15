/** The default stack builder, `createAndAddStack`: it expands a display set's
    ordered images into an ordered list of image ids, one per frame of a
    multi-frame image and one per other image, and hands one metadata record
    per id to the metadata store.

    The id generator `getImageId` is an opaque collaborator and appears here as
    the function parameter `idFor`. The metadata store `addMetaData` is an
    output: the builder returns the ordered trace of submissions it made. */
module StackBuilder {
  import opened Wrappers

  type ImageId = string

  /** An image of a display set. `numFrames` is absent when the image carries
      no frame count. */
  datatype Image = Image(sopInstanceUid: string, numFrames: Option<int>)

  datatype Study = Study(studyInstanceUid: string)

  datatype DisplaySet = DisplaySet(displaySetInstanceUid: string, images: seq<Image>)

  /** The metadata record as it stands when it is handed to the store.
      `imageIndex` is the 1-based position of the source image; `frame` is
      present only for the frames of a multi-frame image. */
  datatype Record = Record(
    instance: Image,
    series: DisplaySet,
    study: Study,
    numImages: nat,
    imageIndex: nat,
    frame: Option<nat>)

  /** One call `addMetaData(imageId, record)`. */
  datatype Submission = Submission(imageId: ImageId, record: Record)

  /** `getImageId(image)` is `idFor(image, None)`; `getImageId(image, i)` is
      `idFor(image, Some(i))`. */
  type IdGenerator = (Image, Option<nat>) -> ImageId

  /** What one run of the builder produces: the returned ids and the
      submissions made to the metadata store, in call order. */
  datatype Built = Built(imageIds: seq<ImageId>, trace: seq<Submission>)

  /** `numFrames > 1`; an absent count compares false. */
  predicate IsMultiFrame(image: Image)
  {
    image.numFrames.Some? && image.numFrames.value > 1
  }

  /** How many ids the builder produces for one image. */
  function FrameCount(image: Image): nat
  {
    if IsMultiFrame(image) then image.numFrames.value else 1
  }

  /** The number of ids the builder produces for a list of images. */
  function TotalFrames(images: seq<Image>): nat
  {
    if |images| == 0 then 0
    else TotalFrames(images[..|images| - 1]) + FrameCount(images[|images| - 1])
  }

  /** The position in the output of the first id of the image at 0-based
      position `p`. */
  function Offset(images: seq<Image>, p: nat): nat
    requires p <= |images|
  {
    TotalFrames(images[..p])
  }

  /** The ids of a trace, in order. */
  function IdsOf(trace: seq<Submission>): seq<ImageId>
  {
    seq(|trace|, k requires 0 <= k < |trace| => trace[k].imageId)
  }

  // ---------------------------------------------------------------------------
  // The expansion, written the way the source iterates.
  // ---------------------------------------------------------------------------

  /** The record built once per image before any frame is looked at. */
  function BaseRecord(study: Study, ds: DisplaySet, p: nat): Record
    requires p < |ds.images|
  {
    Record(ds.images[p], ds, study, |ds.images|, p + 1, None)
  }

  /** The submissions of frames `0 .. i-1` of a multi-frame image: the shared
      record has `frame` set to the current frame at each call. */
  function FrameSubmissions(idFor: IdGenerator, image: Image, base: Record, i: nat): seq<Submission>
  {
    if i == 0 then []
    else
      FrameSubmissions(idFor, image, base, i - 1)
      + [Submission(idFor(image, Some(i - 1)), base.(frame := Some(i - 1)))]
  }

  /** The submissions made for the image at 0-based position `p`. */
  function ImageSubmissions(idFor: IdGenerator, study: Study, ds: DisplaySet, p: nat): seq<Submission>
    requires p < |ds.images|
  {
    var image := ds.images[p];
    var base := BaseRecord(study, ds, p);
    if IsMultiFrame(image) then FrameSubmissions(idFor, image, base, image.numFrames.value)
    else [Submission(idFor(image, None), base)]
  }

  /** The submissions made for the first `n` images. */
  function Expand(idFor: IdGenerator, study: Study, ds: DisplaySet, n: nat): seq<Submission>
    requires n <= |ds.images|
  {
    if n == 0 then []
    else Expand(idFor, study, ds, n - 1) + ImageSubmissions(idFor, study, ds, n - 1)
  }

  /** The whole run of `createAndAddStack(stackMap, study, displaySet)`. */
  function Build(idFor: IdGenerator, study: Study, ds: DisplaySet): Built
  {
    var trace := Expand(idFor, study, ds, |ds.images|);
    Built(IdsOf(trace), trace)
  }

  // ---------------------------------------------------------------------------
  // An independent description: what belongs at each output position.
  // ---------------------------------------------------------------------------

  /** The submission that belongs to frame `f` of the image at position `p`
      (for a single-frame image, `f` is 0). */
  function SlotSubmission(idFor: IdGenerator, study: Study, ds: DisplaySet, p: nat, f: nat): Submission
    requires p < |ds.images| && f < FrameCount(ds.images[p])
  {
    var image := ds.images[p];
    var frame := if IsMultiFrame(image) then Some(f) else None;
    Submission(idFor(image, frame), Record(image, ds, study, |ds.images|, p + 1, frame))
  }

  /** Every slot `(p, f)` of the display set holds its submission at output
      position `Offset(p) + f`. */
  ghost predicate MatchesSlots(idFor: IdGenerator, study: Study, ds: DisplaySet, trace: seq<Submission>)
  {
    forall p: nat, f: nat | p < |ds.images| && f < FrameCount(ds.images[p]) ::
      Offset(ds.images, p) + f < |trace| && trace[Offset(ds.images, p) + f] == SlotSubmission(idFor, study, ds, p, f)
  }

  // ---------------------------------------------------------------------------
  // Arithmetic of positions.
  // ---------------------------------------------------------------------------

  lemma {:induction false} OffsetStep(images: seq<Image>, p: nat)
    requires p < |images|
    ensures Offset(images, p + 1) == Offset(images, p) + FrameCount(images[p])
  {
    assert images[..p + 1][..p] == images[..p];
  }

  lemma {:induction false} OffsetMonotone(images: seq<Image>, p: nat, q: nat)
    requires p <= q <= |images|
    ensures Offset(images, p) <= Offset(images, q)
    decreases q - p
  {
    if p < q {
      OffsetStep(images, q - 1);
      OffsetMonotone(images, p, q - 1);
    }
  }

  /** The output position `k` belongs to exactly one slot; this finds it. */
  function Locate(images: seq<Image>, k: nat): (slot: (nat, nat))
    requires k < TotalFrames(images)
    ensures slot.0 < |images| && slot.1 < FrameCount(images[slot.0])
    ensures Offset(images, slot.0) + slot.1 == k
  {
    var last := |images| - 1;
    var prefix := images[..last];
    if k >= TotalFrames(prefix) then
      assert images[..last] == prefix;
      (last, k - TotalFrames(prefix))
    else
      var slot := Locate(prefix, k);
      assert images[..slot.0] == prefix[..slot.0];
      slot
  }

  /** Output positions are ordered as the slots are: by image, then by frame. */
  lemma {:induction false} SlotsDisjoint(images: seq<Image>, p1: nat, f1: nat, p2: nat, f2: nat)
    requires p1 < |images| && f1 < FrameCount(images[p1])
    requires p2 < |images| && f2 < FrameCount(images[p2])
    requires Offset(images, p1) + f1 <= Offset(images, p2) + f2
    ensures p1 <= p2
    ensures p1 == p2 ==> f1 <= f2
  {
    if p2 < p1 {
      OffsetStep(images, p2);
      OffsetMonotone(images, p2 + 1, p1);
    }
  }

  // ---------------------------------------------------------------------------
  // The expansion agrees with the slot description.
  // ---------------------------------------------------------------------------

  lemma {:induction false} FrameSubmissionsAt(idFor: IdGenerator, image: Image, base: Record, i: nat, k: nat)
    requires k < i
    ensures |FrameSubmissions(idFor, image, base, i)| == i
    ensures FrameSubmissions(idFor, image, base, i)[k]
         == Submission(idFor(image, Some(k)), base.(frame := Some(k)))
  {
    if k < i - 1 {
      FrameSubmissionsAt(idFor, image, base, i - 1, k);
    } else if i > 1 {
      FrameSubmissionsAt(idFor, image, base, i - 1, 0);
    }
  }

  lemma ImageSubmissionsAt(idFor: IdGenerator, study: Study, ds: DisplaySet, p: nat, f: nat)
    requires p < |ds.images| && f < FrameCount(ds.images[p])
    ensures |ImageSubmissions(idFor, study, ds, p)| == FrameCount(ds.images[p])
    ensures ImageSubmissions(idFor, study, ds, p)[f] == SlotSubmission(idFor, study, ds, p, f)
  {
    var image := ds.images[p];
    if IsMultiFrame(image) {
      FrameSubmissionsAt(idFor, image, BaseRecord(study, ds, p), image.numFrames.value, f);
    }
  }

  lemma {:induction false} ExpandLength(idFor: IdGenerator, study: Study, ds: DisplaySet, n: nat)
    requires n <= |ds.images|
    ensures |Expand(idFor, study, ds, n)| == Offset(ds.images, n)
  {
    if n > 0 {
      ExpandLength(idFor, study, ds, n - 1);
      OffsetStep(ds.images, n - 1);
      ImageSubmissionsAt(idFor, study, ds, n - 1, 0);
    }
  }

  lemma {:induction false} ExpandSlot(idFor: IdGenerator, study: Study, ds: DisplaySet, n: nat, p: nat, f: nat)
    requires p < n <= |ds.images| && f < FrameCount(ds.images[p])
    ensures Offset(ds.images, p) + f < |Expand(idFor, study, ds, n)|
    ensures Expand(idFor, study, ds, n)[Offset(ds.images, p) + f] == SlotSubmission(idFor, study, ds, p, f)
  {
    var before := Expand(idFor, study, ds, n - 1);
    var here := ImageSubmissions(idFor, study, ds, n - 1);
    assert Expand(idFor, study, ds, n) == before + here;
    ExpandLength(idFor, study, ds, n - 1);
    ImageSubmissionsAt(idFor, study, ds, n - 1, 0);
    var k := Offset(ds.images, p) + f;
    if p < n - 1 {
      OffsetStep(ds.images, p);
      OffsetMonotone(ds.images, p + 1, n - 1);
      ExpandSlot(idFor, study, ds, n - 1, p, f);
      assert (before + here)[k] == before[k];
    } else {
      ImageSubmissionsAt(idFor, study, ds, p, f);
      assert (before + here)[k] == here[f];
    }
  }

  // ---------------------------------------------------------------------------
  // Properties of the builder.
  // ---------------------------------------------------------------------------

  /** One id per frame of each multi-frame image and one per other image; one
      submission per id, with the same id, in the same order; nothing at all for
      an empty display set. */
  lemma BuildLength(idFor: IdGenerator, study: Study, ds: DisplaySet)
    ensures |Build(idFor, study, ds).imageIds| == TotalFrames(ds.images)
    ensures |Build(idFor, study, ds).trace| == |Build(idFor, study, ds).imageIds|
    ensures forall k :: 0 <= k < |Build(idFor, study, ds).trace| ==>
              Build(idFor, study, ds).trace[k].imageId == Build(idFor, study, ds).imageIds[k]
    ensures |ds.images| == 0 ==> Build(idFor, study, ds) == Built([], [])
  {
    ExpandLength(idFor, study, ds, |ds.images|);
    assert ds.images[..|ds.images|] == ds.images;
  }

  /** The position of frame `f` of image `p` in the output, and what is
      emitted there. */
  lemma BuildSlot(idFor: IdGenerator, study: Study, ds: DisplaySet, p: nat, f: nat)
    requires p < |ds.images| && f < FrameCount(ds.images[p])
    ensures var out := Build(idFor, study, ds);
            var k := Offset(ds.images, p) + f;
            var image := ds.images[p];
            && k < |out.imageIds| == |out.trace|
            && out.imageIds[k] == out.trace[k].imageId
            && out.trace[k].record.instance == image
            && out.trace[k].record.series == ds
            && out.trace[k].record.study == study
            && out.trace[k].record.numImages == |ds.images|
            && out.trace[k].record.imageIndex == p + 1
            && (IsMultiFrame(image) ==>
                  out.imageIds[k] == idFor(image, Some(f)) && out.trace[k].record.frame == Some(f))
            && (!IsMultiFrame(image) ==>
                  f == 0 && out.imageIds[k] == idFor(image, None) && out.trace[k].record.frame == None)
  {
    BuildLength(idFor, study, ds);
    ExpandSlot(idFor, study, ds, |ds.images|, p, f);
  }

  /** The builder's trace has the slot description's contents, and any trace
      of the right length with those contents is the builder's trace. */
  lemma BuildMatchesSlots(idFor: IdGenerator, study: Study, ds: DisplaySet)
    ensures MatchesSlots(idFor, study, ds, Build(idFor, study, ds).trace)
  {
    forall p: nat, f: nat | p < |ds.images| && f < FrameCount(ds.images[p])
      ensures Offset(ds.images, p) + f < |Build(idFor, study, ds).trace|
      ensures Build(idFor, study, ds).trace[Offset(ds.images, p) + f] == SlotSubmission(idFor, study, ds, p, f)
    {
      ExpandSlot(idFor, study, ds, |ds.images|, p, f);
    }
  }

  lemma SlotsDetermineBuild(idFor: IdGenerator, study: Study, ds: DisplaySet, trace: seq<Submission>)
    requires |trace| == TotalFrames(ds.images)
    requires MatchesSlots(idFor, study, ds, trace)
    ensures trace == Build(idFor, study, ds).trace
  {
    var out := Build(idFor, study, ds).trace;
    BuildLength(idFor, study, ds);
    BuildMatchesSlots(idFor, study, ds);
    forall k | 0 <= k < |trace|
      ensures trace[k] == out[k]
    {
      var slot := Locate(ds.images, k);
      assert trace[Offset(ds.images, slot.0) + slot.1] == SlotSubmission(idFor, study, ds, slot.0, slot.1);
      assert out[Offset(ds.images, slot.0) + slot.1] == SlotSubmission(idFor, study, ds, slot.0, slot.1);
    }
  }

  /** Every record carries the number of source images (not of frames), a
      1-based image index within range, and the display set and study it came
      from. */
  lemma BuildRecordsShared(idFor: IdGenerator, study: Study, ds: DisplaySet)
    ensures forall k :: 0 <= k < |Build(idFor, study, ds).trace| ==>
              && Build(idFor, study, ds).trace[k].record.numImages == |ds.images|
              && 1 <= Build(idFor, study, ds).trace[k].record.imageIndex <= |ds.images|
              && Build(idFor, study, ds).trace[k].record.series == ds
              && Build(idFor, study, ds).trace[k].record.study == study
  {
    var out := Build(idFor, study, ds);
    BuildLength(idFor, study, ds);
    forall k | 0 <= k < |out.trace|
      ensures out.trace[k].record.numImages == |ds.images|
      ensures 1 <= out.trace[k].record.imageIndex <= |ds.images|
      ensures out.trace[k].record.series == ds && out.trace[k].record.study == study
    {
      var slot := Locate(ds.images, k);
      BuildSlot(idFor, study, ds, slot.0, slot.1);
    }
  }

  /** Display-set order is kept: image indices never decrease along the
      output, and within one multi-frame image the frames ascend. */
  lemma BuildOrder(idFor: IdGenerator, study: Study, ds: DisplaySet, k1: nat, k2: nat)
    requires k1 < k2 < |Build(idFor, study, ds).trace|
    ensures var r1 := Build(idFor, study, ds).trace[k1].record;
            var r2 := Build(idFor, study, ds).trace[k2].record;
            && r1.imageIndex <= r2.imageIndex
            && (r1.imageIndex == r2.imageIndex ==>
                  r1.frame.Some? && r2.frame.Some? && r1.frame.value < r2.frame.value)
  {
    BuildLength(idFor, study, ds);
    var s1 := Locate(ds.images, k1);
    var s2 := Locate(ds.images, k2);
    BuildSlot(idFor, study, ds, s1.0, s1.1);
    BuildSlot(idFor, study, ds, s2.0, s2.1);
    SlotsDisjoint(ds.images, s1.0, s1.1, s2.0, s2.1);
  }

  // ---------------------------------------------------------------------------
  // The builder as the source writes it: a loop over images, an inner loop
  // over frames, one record object per image whose `frame` is overwritten.
  // ---------------------------------------------------------------------------

  method CreateAndAddStack(idFor: IdGenerator, study: Study, ds: DisplaySet)
    returns (imageIds: seq<ImageId>, trace: seq<Submission>)
    ensures Built(imageIds, trace) == Build(idFor, study, ds)
    ensures |imageIds| == |trace| == TotalFrames(ds.images)
    ensures MatchesSlots(idFor, study, ds, trace)
  {
    var numImages := |ds.images|;
    imageIds := [];
    trace := [];
    var p := 0;
    while p < numImages
      invariant p <= numImages
      invariant trace == Expand(idFor, study, ds, p)
      invariant imageIds == IdsOf(trace)
    {
      var image := ds.images[p];
      var metaData := Record(image, ds, study, numImages, p + 1, None);
      ghost var base := metaData;
      if image.numFrames.Some? && image.numFrames.value > 1 {
        var numFrames := image.numFrames.value;
        var i := 0;
        while i < numFrames
          invariant i <= numFrames
          invariant metaData.(frame := None) == base
          invariant trace == Expand(idFor, study, ds, p) + FrameSubmissions(idFor, image, base, i)
          invariant imageIds == IdsOf(trace)
        {
          metaData := metaData.(frame := Some(i));
          var imageId := idFor(image, Some(i));
          imageIds := imageIds + [imageId];
          trace := trace + [Submission(imageId, metaData)];
          i := i + 1;
        }
      } else {
        var imageId := idFor(image, None);
        imageIds := imageIds + [imageId];
        trace := trace + [Submission(imageId, metaData)];
      }
      p := p + 1;
    }
    assert trace == Build(idFor, study, ds).trace;
    BuildLength(idFor, study, ds);
    BuildMatchesSlots(idFor, study, ds);
  }

  // ---------------------------------------------------------------------------
  // A worked example: one single-frame image followed by a three-frame one.
  // ---------------------------------------------------------------------------

  lemma TwoImageScenario(idFor: IdGenerator, study: Study, a: Image, b: Image, key: string)
    requires a.numFrames == Some(1) && b.numFrames == Some(3)
    ensures var ds := DisplaySet(key, [a, b]);
            var out := Build(idFor, study, ds);
            && out.imageIds == [idFor(a, None), idFor(b, Some(0)), idFor(b, Some(1)), idFor(b, Some(2))]
            && [out.trace[0].record.imageIndex, out.trace[1].record.imageIndex,
                out.trace[2].record.imageIndex, out.trace[3].record.imageIndex] == [1, 2, 2, 2]
            && [out.trace[0].record.frame, out.trace[1].record.frame,
                out.trace[2].record.frame, out.trace[3].record.frame] == [None, Some(0), Some(1), Some(2)]
            && (forall k :: 0 <= k < 4 ==> out.trace[k].record.numImages == 2)
  {
    var ds := DisplaySet(key, [a, b]);
    assert ds.images[..0] == [] && ds.images[..1] == [a];
    assert Offset(ds.images, 0) == 0 && Offset(ds.images, 1) == 1;
    BuildLength(idFor, study, ds);
    BuildSlot(idFor, study, ds, 0, 0);
    BuildSlot(idFor, study, ds, 1, 0);
    BuildSlot(idFor, study, ds, 1, 1);
    BuildSlot(idFor, study, ds, 1, 2);
  }
}
