/** The tensor backend (`TensorServer.CallAPI`): a batch of tiles becomes one
    tensor request, and the detector's output tensor is decoded and mapped back
    from each tile onto the image region it was cut from. */
module TensorServers {
  import opened Wrappers
  import opened Numeric
  import opened Boxes
  import opened TensorProcessor

  /** A tile of a batch (`ImageBatchItem`): the pixels it carries and the
      region of the original image it stands for. */
  datatype ImageBatchItem = ImageBatchItem(image: Image, originalX: int, originalY: int,
                                           originalWidth: int, originalHeight: int)

  /** The one-argument `ImageBatchItem` constructor: the whole image, at the origin. */
  function WholeImage(image: Image): (item: ImageBatchItem)
    ensures item.image == image && item.originalX == 0 && item.originalY == 0
    ensures item.originalWidth == image.width && item.originalHeight == ImageHeight(image)
  {
    ImageBatchItem(image, 0, 0, image.width, ImageHeight(image))
  }

  /** One output of the response (`TensorAPIOutput`); JSON nulls are None. */
  datatype TensorOutput = TensorOutput(shape: Option<seq<int>>, data: Option<seq<real>>)

  /** The parsed response body (`TensorAPIResponse`). */
  datatype TensorResponse = TensorResponse(outputs: Option<seq<TensorOutput>>)

  /** What the backend answered: a non-success status, or a success whose body
      parsed to a response or to null. */
  datatype HttpReply = NonSuccess | Success(body: Option<TensorResponse>)

  /** `TensorResponse?.outputs?.FirstOrDefault()`. */
  function FirstOutput(body: Option<TensorResponse>): (r: Option<TensorOutput>)
    ensures r.Some? <==> body.Some? && body.value.outputs.Some? && |body.value.outputs.value| > 0
    ensures r.Some? ==> r.value == body.value.outputs.value[0]
  {
    if body.Some? && body.value.outputs.Some? && |body.value.outputs.value| > 0
    then Some(body.value.outputs.value[0])
    else None
  }

  /** An output the decoder accepts: data present and at least three dimensions. */
  predicate Usable(output: Option<TensorOutput>) {
    output.Some? && output.value.data.Some? && output.value.shape.Some? &&
    |output.value.shape.value| >= 3
  }

  /** The decoder's arguments for such an output: its first three dimensions,
      the server's labels and minimum confidence 0. */
  function DecodingOf(output: TensorOutput, labels: seq<string>): Decoding
    requires output.data.Some? && output.shape.Some? && |output.shape.value| >= 3
  {
    var shape := output.shape.value;
    Decoding(output.data.value, shape[0], shape[1], shape[2], labels, 0.0)
  }

  /** The scale `OriginalHeight / Image.Height` of a tile, an integer division. */
  function HeightRatio(item: ImageBatchItem): int
    requires ImageHeight(item.image) != 0
  {
    CsDiv(item.originalHeight, ImageHeight(item.image))
  }

  /** A detection the mapping step handles without an exception: one without a
      batch index is left alone; otherwise the index names a tile of the batch
      and that tile has a height to divide by. */
  predicate Restorable(items: seq<ImageBatchItem>, d: Detection) {
    d.batchNumber.None? ||
    (0 <= d.batchNumber.value < |items| && ImageHeight(items[d.batchNumber.value].image) != 0)
  }

  /** The detection moved back onto its tile's region: shifted by the region's
      origin, then scaled by the height ratio (`OffsetAndScale`). */
  function Restore(items: seq<ImageBatchItem>, d: Detection): (r: Detection)
    requires Restorable(items, d)
    ensures SameMetadata(r, d)
    ensures d.batchNumber.None? ==> r == d
  {
    if d.batchNumber.None? then d
    else
      var item := items[d.batchNumber.value];
      ShiftThenRescale(d, item.originalX, item.originalY, HeightRatio(item) as real)
  }

  /** The mapping loop of `CallAPI`: every detection in turn is moved back onto
      its tile's region; a detection whose tile is missing or empty throws. */
  method RestoreAll(items: seq<ImageBatchItem>, detections: seq<Detection>)
    returns (r: Result<seq<Detection>>)
    ensures r.Ok? <==> forall i :: 0 <= i < |detections| ==> Restorable(items, detections[i])
    ensures r.Ok? ==> |r.value| == |detections| &&
                      forall i :: 0 <= i < |detections| ==> r.value[i] == Restore(items, detections[i])
  {
    var restored := detections;
    for i := 0 to |detections|
      invariant |restored| == |detections|
      invariant forall k :: 0 <= k < i ==> Restorable(items, detections[k])
      invariant forall k :: 0 <= k < i ==> restored[k] == Restore(items, detections[k])
      invariant forall k :: i <= k < |detections| ==> restored[k] == detections[k]
    {
      var detection := restored[i];
      if detection.batchNumber.Some? {
        var batch := detection.batchNumber.value;
        if !(0 <= batch < |items|) {
          return Fail("batch index outside the batch");
        }
        if ImageHeight(items[batch].image) == 0 {
          return Fail("division by zero");
        }
        var item := items[batch];
        restored := restored[i := ShiftThenRescale(detection, item.originalX, item.originalY,
                                                   CsDiv(item.originalHeight, ImageHeight(item.image)) as real)];
      }
    }
    r := Ok(restored);
  }

  /** `CallAPI(Images)` of the tensor backend, given the backend's reply. The
      request is one tensor of shape [count, 3, h, w] built from the tiles,
      where h and w are the first tile's size. It throws (Fail) when there is no
      tile or a tile is smaller than the first; it returns null (Ok(None)) on a
      non-success status; it throws when the reply has no usable output, when
      decoding throws, or when a detection cannot be mapped back. Otherwise the
      predictions are the decoded detections, each moved back onto its tile's
      region, in decoding order. */
  method CallAPI(items: seq<ImageBatchItem>, labels: seq<string>, reply: HttpReply)
    returns (r: Result<Option<seq<Detection>>>)
    requires forall i :: 0 <= i < |items| ==> Rectangular(items[i].image)
    ensures |items| == 0 ==> r.Fail?
    ensures (|items| > 0 &&
             exists i :: 0 <= i < |items| && !Fits(items[i].image, ImageHeight(items[0].image), items[0].image.width))
            ==> r.Fail?
    ensures r.Ok? && r.value.None? <==>
              |items| > 0 && reply.NonSuccess? &&
              forall i :: 0 <= i < |items| ==> Fits(items[i].image, ImageHeight(items[0].image), items[0].image.width)
    ensures reply.Success? && !Usable(FirstOutput(reply.body)) ==> r.Fail?
    ensures (reply.Success? && Usable(FirstOutput(reply.body)) &&
             !Decodable(DecodingOf(FirstOutput(reply.body).value, labels)))
            ==> r.Fail?
    ensures r.Ok? && r.value.Some? ==>
              reply.Success? && Usable(FirstOutput(reply.body)) &&
              var o := DecodingOf(FirstOutput(reply.body).value, labels);
              Decodable(o) && |r.value.value| == |Detections(o)| &&
              forall i :: 0 <= i < |Detections(o)| ==>
                Restorable(items, Detections(o)[i]) && r.value.value[i] == Restore(items, Detections(o)[i])
    ensures (|items| > 0 && reply.Success? && Usable(FirstOutput(reply.body)) &&
             (forall i :: 0 <= i < |items| ==> Fits(items[i].image, ImageHeight(items[0].image), items[0].image.width)) &&
             var o := DecodingOf(FirstOutput(reply.body).value, labels);
             Decodable(o) && forall i :: 0 <= i < |Detections(o)| ==> Restorable(items, Detections(o)[i]))
            ==> r.Ok? && r.value.Some?
  {
    if |items| == 0 {
      return Fail("no image in the batch");
    }
    var images := seq(|items|, i requires 0 <= i < |items| => items[i].image);
    assert forall i :: 0 <= i < |items| ==> images[i] == items[i].image;
    var tensorInput := CreateTensorInput(images, 3, ImageHeight(items[0].image), items[0].image.width);
    if tensorInput.Fail? {
      return Fail(tensorInput.reason);
    }
    if reply.NonSuccess? {
      return Ok(None);
    }
    var output := FirstOutput(reply.body);
    if !Usable(output) {
      return Fail("No valid output received from Tensor API.");
    }
    var shape := output.value.shape.value;
    var decoded := DecodeDetections(output.value.data.value, shape[0], shape[1], shape[2], 0.5, labels, 0.0);
    if decoded.Fail? {
      return Fail(decoded.reason);
    }
    var restored := RestoreAll(items, decoded.value);
    if restored.Fail? {
      return Fail(restored.reason);
    }
    r := Ok(Some(restored.value));
  }

  /** `CallAPI(Image)`: a whole image is a batch of one tile at the origin. */
  method CallAPISingle(image: Image, labels: seq<string>, reply: HttpReply)
    returns (r: Result<Option<seq<Detection>>>)
    requires Rectangular(image)
    ensures r.Ok? && r.value.None? <==> reply.NonSuccess?
    ensures r.Ok? && r.value.Some? ==>
              reply.Success? && Usable(FirstOutput(reply.body)) &&
              var o := DecodingOf(FirstOutput(reply.body).value, labels);
              Decodable(o) && |r.value.value| == |Detections(o)| &&
              forall i :: 0 <= i < |Detections(o)| ==>
                Restorable([WholeImage(image)], Detections(o)[i]) &&
                r.value.value[i] == Restore([WholeImage(image)], Detections(o)[i])
    ensures reply.Success? && !Usable(FirstOutput(reply.body)) ==> r.Fail?
    ensures (reply.Success? && Usable(FirstOutput(reply.body)) &&
             !Decodable(DecodingOf(FirstOutput(reply.body).value, labels)))
            ==> r.Fail?
    ensures (reply.Success? && Usable(FirstOutput(reply.body)) &&
             var o := DecodingOf(FirstOutput(reply.body).value, labels);
             Decodable(o) && forall i :: 0 <= i < |Detections(o)| ==> Restorable([WholeImage(image)], Detections(o)[i]))
            ==> r.Ok? && r.value.Some?
  {
    assert Fits(WholeImage(image).image, ImageHeight(image), image.width);
    r := CallAPI([WholeImage(image)], labels, reply);
  }

  /** For a whole image the mapping back changes nothing: the offset is zero
      and the height ratio one. */
  lemma RestoreWholeImage(image: Image, d: Detection)
    requires Restorable([WholeImage(image)], d)
    ensures Restore([WholeImage(image)], d) == d
  {
    if d.batchNumber.Some? {
      var h := ImageHeight(image);
      DivModUnique(h, h, 1, 0);
      assert HeightRatio(WholeImage(image)) == 1;
      ShiftThenRescaleIdentity(d);
    }
  }

  /** A tile cut from a region k times its height maps back exactly: each
      coordinate is moved by the region's origin and multiplied by k. */
  lemma RestoreIntegralRatio(items: seq<ImageBatchItem>, d: Detection, k: nat)
    requires d.batchNumber.Some? && 0 <= d.batchNumber.value < |items|
    requires ImageHeight(items[d.batchNumber.value].image) > 0
    requires items[d.batchNumber.value].originalHeight == k * ImageHeight(items[d.batchNumber.value].image)
    ensures Restorable(items, d)
    ensures var item := items[d.batchNumber.value];
            var r := Restore(items, d);
            r.xMin == (d.xMin + item.originalX) * k && r.xMax == (d.xMax + item.originalX) * k &&
            r.yMin == (d.yMin + item.originalY) * k && r.yMax == (d.yMax + item.originalY) * k
  {
    var item := items[d.batchNumber.value];
    DivModUnique(item.originalHeight, ImageHeight(item.image), k, 0);
    assert HeightRatio(item) == k;
    RescaleByInteger(Shift(d, item.originalX, item.originalY), k);
  }
}
