/** The tensor backend's payload and its output: images laid out as a
    batch x channel x height x width tensor of floats, flattened row-major, and
    the YOLO-style decoding of the detector's output tensor. */
module TensorProcessor {
  import opened Wrappers
  import opened Numeric
  import opened Boxes

  // ---------------------------------------------------------------------------
  // Row-major index arithmetic.

  /** The flat position of element [b, c, h, w] of a tensor with C channels,
      height H and width W. */
  function FlatIndex(b: nat, c: nat, h: nat, w: nat, B: nat, C: nat, H: nat, W: nat): (i: nat)
    requires b < B && c < C && h < H && w < W
    ensures i < B * C * H * W
  {
    IndexBelow(b, c, B, C);
    IndexBelow(b * C + c, h, B * C, H);
    IndexBelow((b * C + c) * H + h, w, B * C * H, W);
    ((b * C + c) * H + h) * W + w
  }

  /** The element a flat position stands for, as `FlattenTensor` computes it:
      `w = i % W`, `h = (i / W) % H`, `c = (i / (W * H)) % C`, `b = i / (W * H * C)`. */
  datatype Position = Position(b: int, c: int, h: int, w: int)

  function Decompose(i: nat, C: nat, H: nat, W: nat): Position
    requires C > 0 && H > 0 && W > 0
  {
    Position(i / (W * H * C), (i / (W * H)) % C, (i / W) % H, i % W)
  }

  lemma ProductPositive(a: int, b: int)
    requires a > 0 && b > 0
    ensures a * b > 0
  {
  }

  lemma ZeroFactor(a: int, b: int)
    ensures a == 0 || b == 0 ==> a * b == 0
  {
  }

  /** A quotient by W of a number below N * W is below N. */
  lemma DivBelow(i: nat, W: nat, N: int)
    requires W > 0 && i < N * W
    ensures i / W < N
  {
    var q := i / W;
    assert q * W <= i;
    assert (N - q) * W == N * W - q * W;
    assert (N - q) * W > 0;
  }

  /** Dividing by W and then by H is dividing by W * H. */
  lemma DivDiv(i: nat, W: nat, H: nat)
    requires W > 0 && H > 0
    ensures W * H > 0 && i / (W * H) == (i / W) / H
  {
    ProductPositive(W, H);
    var q := i / W;
    var r := i % W;
    var q2 := q / H;
    var r2 := q % H;
    assert i == q * W + r;
    assert q == q2 * H + r2;
    assert i == q2 * (W * H) + (r2 * W + r) by {
      assert q * W == q2 * (H * W) + r2 * W;
      assert H * W == W * H;
    }
    assert r2 * W <= (H - 1) * W by { MulMonotone(r2, W, H - 1, W); }
    assert (H - 1) * W == W * H - W;
    DivModUnique(i, W * H, q2, r2 * W + r);
  }

  /** Every flat position below B * C * H * W stands for an element inside the
      tensor, and that element's flat position is the one we started from. */
  lemma DecomposeInBox(i: nat, B: nat, C: nat, H: nat, W: nat)
    requires C > 0 && H > 0 && W > 0 && i < B * C * H * W
    ensures var p := Decompose(i, C, H, W);
            0 <= p.b < B && 0 <= p.c < C && 0 <= p.h < H && 0 <= p.w < W &&
            FlatIndex(p.b, p.c, p.h, p.w, B, C, H, W) == i
  {
    var p := Decompose(i, C, H, W);
    DecomposeDigits(i, C, H, W);
    DecomposeLeading(i, B, C, H, W);
    FlatIndexOfDigits(p.b, p.c, p.h, p.w, B, C, H, W, i / (W * H), i / W, i);
  }

  /** The digits of the decomposition, each below its dimension, and the
      quotients they are taken from. */
  lemma DecomposeDigits(i: nat, C: nat, H: nat, W: nat)
    requires C > 0 && H > 0 && W > 0
    ensures W * H > 0
    ensures var p := Decompose(i, C, H, W);
            0 <= p.c < C && 0 <= p.h < H && 0 <= p.w < W &&
            i / (W * H) == p.b * C + p.c && i / W == (i / (W * H)) * H + p.h && i == (i / W) * W + p.w
  {
    DivDiv(i, W, H);
    DivDiv(i, W * H, C);
    DivModSplit(i / (W * H), C);
    DivModSplit(i / W, H);
    DivModSplit(i, W);
  }

  /** The leading digit of a position below B * C * H * W is below B. */
  lemma DecomposeLeading(i: nat, B: nat, C: nat, H: nat, W: nat)
    requires C > 0 && H > 0 && W > 0 && i < B * C * H * W
    ensures 0 <= Decompose(i, C, H, W).b < B
  {
    NestedQuotientBelow(i, B, C, H, W);
    NestedQuotient(i, C, H, W);
  }

  lemma NestedQuotientBelow(i: nat, B: nat, C: nat, H: nat, W: nat)
    requires C > 0 && H > 0 && W > 0 && i < B * C * H * W
    ensures ((i / W) / H) / C < B
  {
    DivBelow(i, W, B * C * H);
    DivBelow(i / W, H, B * C);
    DivBelow((i / W) / H, C, B);
  }

  lemma NestedQuotient(i: nat, C: nat, H: nat, W: nat)
    requires C > 0 && H > 0 && W > 0
    ensures W * H * C > 0 && i / (W * H * C) == ((i / W) / H) / C
  {
    DivDiv(i, W, H);
    DivDiv(i, W * H, C);
  }

  /** Digits that multiply back to i give the flat position i. */
  lemma FlatIndexOfDigits(b: nat, c: nat, h: nat, w: nat, B: nat, C: nat, H: nat, W: nat,
                          q2: int, q1: int, i: int)
    requires b < B && c < C && h < H && w < W
    requires q2 == b * C + c && q1 == q2 * H + h && i == q1 * W + w
    ensures FlatIndex(b, c, h, w, B, C, H, W) == i
  {
  }

  /** Conversely an element inside the tensor is recovered from its flat
      position: the decomposition is a bijection between the flat range and
      the index box. */
  lemma FlatIndexInverse(b: nat, c: nat, h: nat, w: nat, B: nat, C: nat, H: nat, W: nat)
    requires b < B && c < C && h < H && w < W
    ensures Decompose(FlatIndex(b, c, h, w, B, C, H, W), C, H, W) == Position(b, c, h, w)
  {
    var q2 := b * C + c;
    var q1 := q2 * H + h;
    var i := FlatIndex(b, c, h, w, B, C, H, W);
    assert i == q1 * W + w;
    DivModUnique(i, W, q1, w);
    DivModUnique(q1, H, q2, h);
    DivModUnique(q2, C, b, c);
    DivDiv(i, W, H);
    DivDiv(i, W * H, C);
  }

  /** One step of the row-major numbering stays inside the box. */
  lemma IndexBelow(q: nat, r: nat, N: nat, D: nat)
    requires q < N && r < D
    ensures 0 <= q * D + r < N * D
  {
    MulMonotone(q, D, N - 1, D);
    assert (N - 1) * D == N * D - D;
  }

  // ---------------------------------------------------------------------------
  // Flattening.

  /** `FlattenTensor`: element [b, c, h, w] goes to position
      ((b * C + c) * H + h) * W + w of a fresh array of B * C * H * W floats. */
  method FlattenTensor(tensor: array4<real>) returns (flat: array<real>)
    ensures fresh(flat)
    ensures flat.Length == tensor.Length0 * tensor.Length1 * tensor.Length2 * tensor.Length3
    ensures forall b, c, h, w :: (0 <= b < tensor.Length0 && 0 <= c < tensor.Length1 &&
              0 <= h < tensor.Length2 && 0 <= w < tensor.Length3) ==>
              flat[FlatIndex(b, c, h, w, tensor.Length0, tensor.Length1, tensor.Length2, tensor.Length3)]
                == tensor[b, c, h, w]
  {
    var batch, channels, height, width := tensor.Length0, tensor.Length1, tensor.Length2, tensor.Length3;
    var total := batch * channels * height * width;
    flat := new real[total];
    for i := 0 to total
      invariant forall j :: 0 <= j < i ==> flat[j] == Element(tensor, j)
    {
      ProductPositiveFactors(batch, channels, height, width, i);
      DecomposeInBox(i, batch, channels, height, width);
      var w := i % width;
      var h := (i / width) % height;
      var c := (i / (width * height)) % channels;
      var b := i / (width * height * channels);
      flat[i] := tensor[b, c, h, w];
    }
    forall b, c, h, w | 0 <= b < batch && 0 <= c < channels && 0 <= h < height && 0 <= w < width
      ensures flat[FlatIndex(b, c, h, w, batch, channels, height, width)] == tensor[b, c, h, w]
    {
      FlatIndexInverse(b, c, h, w, batch, channels, height, width);
    }
  }

  /** The element of the tensor that flat position i stands for. */
  function Element(tensor: array4<real>, i: nat): real
    reads tensor
    requires i < tensor.Length0 * tensor.Length1 * tensor.Length2 * tensor.Length3
  {
    ProductPositiveFactors(tensor.Length0, tensor.Length1, tensor.Length2, tensor.Length3, i);
    DecomposeInBox(i, tensor.Length0, tensor.Length1, tensor.Length2, tensor.Length3);
    var p := Decompose(i, tensor.Length1, tensor.Length2, tensor.Length3);
    tensor[p.b, p.c, p.h, p.w]
  }

  /** A position exists below B * C * H * W only when no dimension is zero. */
  lemma ProductPositiveFactors(B: nat, C: nat, H: nat, W: nat, i: nat)
    requires i < B * C * H * W
    ensures B > 0 && C > 0 && H > 0 && W > 0
  {
    ZeroFactor(B, C);
    ZeroFactor(B * C, H);
    ZeroFactor(B * C * H, W);
  }

  // ---------------------------------------------------------------------------
  // Images and the input tensor.

  newtype byte = x: int | 0 <= x < 256

  datatype Rgba = Rgba(r: byte, g: byte, b: byte, a: byte)

  /** An image as its rows of pixels, top to bottom. */
  datatype Image = Image(width: nat, rows: seq<seq<Rgba>>)

  function ImageHeight(img: Image): nat { |img.rows| }

  /** Every row has the image's width. */
  predicate Rectangular(img: Image) {
    forall y :: 0 <= y < |img.rows| ==> |img.rows[y]| == img.width
  }

  /** `PrepareImageDirect` reads rows 0 .. height - 1 and, when there is any
      row to read, pixels 0 .. width - 1 of each. */
  predicate Fits(img: Image, height: nat, width: nat) {
    height <= ImageHeight(img) && (height == 0 || width <= img.width)
  }

  /** Channel c (0 red, 1 green, 2 blue) of a pixel, scaled into [0, 1]. */
  function ChannelValue(p: Rgba, c: nat): real
    requires c < 3
  {
    (if c == 0 then p.r else if c == 1 then p.g else p.b) as real * (1.0 / 255.0)
  }

  /** Element [b, c, h, w] is one that `PrepareImageDirect(_, _, batchIndex,
      height, width)` writes. */
  predicate Target(b: int, c: int, h: int, w: int, batchIndex: int, height: int, width: int) {
    b == batchIndex && 0 <= c < 3 && 0 <= h < height && 0 <= w < width
  }

  /** `PrepareImageDirect`: channels 0, 1 and 2 of slot `batchIndex` receive the
      red, green and blue values of each pixel in the top-left height x width
      corner of the image, scaled by 1/255; nothing else changes. */
  method PrepareImageDirect(image: Image, batchInput: array4<real>, batchIndex: nat, targetHeight: nat, targetWidth: nat)
    requires Rectangular(image) && Fits(image, targetHeight, targetWidth)
    requires batchIndex < batchInput.Length0 && 3 <= batchInput.Length1
    requires targetHeight <= batchInput.Length2 && targetWidth <= batchInput.Length3
    modifies batchInput
    ensures forall b, c, h, w :: (0 <= b < batchInput.Length0 && 0 <= c < batchInput.Length1 &&
              0 <= h < batchInput.Length2 && 0 <= w < batchInput.Length3) ==>
              batchInput[b, c, h, w] ==
                if Target(b, c, h, w, batchIndex, targetHeight, targetWidth)
                then ChannelValue(image.rows[h][w], c)
                else old(batchInput[b, c, h, w])
  {
    for y := 0 to targetHeight
      invariant forall b, c, h, w :: (0 <= b < batchInput.Length0 && 0 <= c < batchInput.Length1 &&
                  0 <= h < batchInput.Length2 && 0 <= w < batchInput.Length3) ==>
                  batchInput[b, c, h, w] ==
                    if Target(b, c, h, w, batchIndex, y, targetWidth)
                    then ChannelValue(image.rows[h][w], c)
                    else old(batchInput[b, c, h, w])
    {
      var pixels := image.rows[y];
      for x := 0 to targetWidth
        invariant forall b, c, h, w :: (0 <= b < batchInput.Length0 && 0 <= c < batchInput.Length1 &&
                    0 <= h < batchInput.Length2 && 0 <= w < batchInput.Length3) ==>
                    batchInput[b, c, h, w] ==
                      if Target(b, c, h, w, batchIndex, y, targetWidth) ||
                         Target(b, c, h, w, batchIndex, y + 1, x)
                      then ChannelValue(image.rows[h][w], c)
                      else old(batchInput[b, c, h, w])
      {
        var pixel := pixels[x];
        batchInput[batchIndex, 0, y, x] := pixel.r as real * (1.0 / 255.0);
        batchInput[batchIndex, 1, y, x] := pixel.g as real * (1.0 / 255.0);
        batchInput[batchIndex, 2, y, x] := pixel.b as real * (1.0 / 255.0);
      }
    }
  }

  /** One input of the request (`TensorAPIInput`). */
  datatype TensorInput = TensorInput(name: string, dataType: string, shape: seq<int>, data: seq<real>)

  /** The request body (`TensorAPIRequest`). */
  datatype TensorRequest = TensorRequest(inputs: seq<TensorInput>)

  /** The value `CreateTensorInput` puts at [b, c, h, w]: the scaled colour
      channel for the first three channels, 0 for any further one. */
  function InputValue(images: seq<Image>, b: nat, c: nat, h: nat, w: nat, height: nat, width: nat): real
    requires b < |images| && Rectangular(images[b]) && Fits(images[b], height, width)
    requires h < height && w < width
  {
    if c < 3 then ChannelValue(images[b].rows[h][w], c) else 0.0
  }

  /** `CreateTensorInput(images, channels, height, width)`: one input named
      "images" of type FP32, shaped [count, channels, height, width], holding
      the images' pixels in row-major order. Filling the tensor fails (an
      exception in the source) when an image is smaller than the tensor, or when
      there is any pixel to write and fewer than three channels. */
  method CreateTensorInput(images: seq<Image>, channels: nat, height: nat, width: nat)
    returns (r: Result<TensorRequest>)
    requires forall i :: 0 <= i < |images| ==> Rectangular(images[i])
    ensures r.Fail? <==> (exists i :: 0 <= i < |images| && !Fits(images[i], height, width)) ||
                         (channels < 3 && |images| > 0 && height > 0 && width > 0)
    ensures r.Ok? ==> |r.value.inputs| == 1 &&
                      r.value.inputs[0].name == "images" && r.value.inputs[0].dataType == "FP32" &&
                      r.value.inputs[0].shape == [|images|, channels, height, width] &&
                      |r.value.inputs[0].data| == |images| * channels * height * width
    ensures r.Ok? ==> forall b, c, h, w :: (0 <= b < |images| && 0 <= c < channels &&
                        0 <= h < height && 0 <= w < width) ==>
                        r.value.inputs[0].data[FlatIndex(b, c, h, w, |images|, channels, height, width)]
                          == InputValue(images, b, c, h, w, height, width)
  {
    var batchSize := |images|;
    if exists i :: 0 <= i < batchSize && !Fits(images[i], height, width) {
      return Fail("an image is smaller than the tensor");
    }
    if channels < 3 && batchSize > 0 && height > 0 && width > 0 {
      return Fail("fewer than three channels");
    }
    if channels < 3 {
      // Nothing is written: some dimension is zero, and so is the tensor.
      var flat := new real[0];
      assert batchSize * channels * height * width == 0 by {
        ZeroFactor(batchSize, channels);
        ZeroFactor(batchSize * channels, height);
        ZeroFactor(batchSize * channels * height, width);
      }
      return Ok(TensorRequest([TensorInput("images", "FP32", [batchSize, channels, height, width], flat[..])]));
    }
    var batchInput := new real[batchSize, channels, height, width]((b, c, h, w) => 0.0);
    for i := 0 to batchSize
      invariant forall b, c, h, w :: (0 <= b < batchSize && 0 <= c < channels &&
                  0 <= h < height && 0 <= w < width) ==>
                  batchInput[b, c, h, w] == if b < i then InputValue(images, b, c, h, w, height, width) else 0.0
    {
      PrepareImageDirect(images[i], batchInput, i, height, width);
    }
    var flattened := FlattenTensor(batchInput);
    r := Ok(TensorRequest([TensorInput("images", "FP32", [batchSize, channels, height, width], flattened[..])]));
  }

  // ---------------------------------------------------------------------------
  // Decoding the detector's output.

  /** `float.MinValue`, the starting maximum of the class search. */
  const FloatMin: real := -340282346638528859811704183484516925440.0

  /** A dimension of the output as a loop bound: a negative one runs no iteration. */
  function Count(n: int): nat { if n < 0 then 0 else n }

  /** The arguments `DecodeDetections` decodes: the output data of shape
      [batchSize, features, numBoxes], the label table and the minimum confidence. */
  datatype Decoding = Decoding(data: seq<real>, batchSize: int, features: int, numBoxes: int,
                               labels: seq<string>, minConfidence: real)

  /** The position of feature f of box j in batch image b. */
  function FeatureIndex(o: Decoding, b: int, f: int, j: int): int {
    b * o.features * o.numBoxes + f * o.numBoxes + j
  }

  /** The first m reads for box j of image b are inside the data. */
  predicate ReadableUpTo(o: Decoding, b: int, j: int, m: int) {
    forall f :: 0 <= f < m ==> 0 <= FeatureIndex(o, b, f, j) < |o.data|
  }

  /** Every read made for box j of image b is inside the data: the four box
      features, then the class scores at features 4 .. features - 1. */
  predicate BoxReadable(o: Decoding, b: int, j: int) {
    ReadableUpTo(o, b, j, Max(4, o.features))
  }

  /** The first m class scores of box j of image b. */
  function ScoresUpTo(o: Decoding, b: int, j: int, m: nat): (s: seq<real>)
    requires ReadableUpTo(o, b, j, 4 + m)
    ensures |s| == m
  {
    seq(m, i requires 0 <= i < m => o.data[FeatureIndex(o, b, i + 4, j)])
  }

  /** All class scores of box j of image b. */
  function Scores(o: Decoding, b: int, j: int): seq<real>
    requires BoxReadable(o, b, j)
  {
    ScoresUpTo(o, b, j, Max(4, o.features) - 4)
  }

  /** A class index (-1 for none) and its score. */
  datatype Argmax = Argmax(classId: int, maxScore: real)

  /** The class search of `DecodeDetections`: starting from -1 and
      `float.MinValue`, a score replaces the current best only when strictly
      greater. */
  function Best(s: seq<real>): Argmax
    decreases |s|
  {
    if s == [] then Argmax(-1, FloatMin)
    else
      var n := |s| - 1;
      var p := Best(s[..n]);
      if s[n] > p.maxScore then Argmax(n, s[n]) else p
  }

  /** The search finds the first index of the largest score, or -1 when no
      score exceeds `float.MinValue`. */
  lemma {:induction false} BestSpec(s: seq<real>)
    ensures Best(s).classId == -1 <==> forall i :: 0 <= i < |s| ==> s[i] <= FloatMin
    ensures Best(s).classId == -1 ==> Best(s).maxScore == FloatMin
    ensures Best(s).classId != -1 ==>
              0 <= Best(s).classId < |s| && Best(s).maxScore == s[Best(s).classId] && Best(s).maxScore > FloatMin
    ensures forall i :: 0 <= i < |s| ==> s[i] <= Best(s).maxScore
    ensures Best(s).classId != -1 ==> forall i :: 0 <= i < Best(s).classId ==> s[i] < Best(s).maxScore
    decreases |s|
  {
    if s != [] {
      var n := |s| - 1;
      BestSpec(s[..n]);
      assert forall i :: 0 <= i < n ==> s[..n][i] == s[i];
    }
  }

  /** The class chosen for box j of image b. */
  function Choice(o: Decoding, b: int, j: int): Argmax
    requires BoxReadable(o, b, j)
  {
    Best(Scores(o, b, j))
  }

  /** Box j of image b is reported: its best score is at least the minimum confidence. */
  predicate Kept(o: Decoding, b: int, j: int)
    requires BoxReadable(o, b, j)
  {
    Choice(o, b, j).maxScore >= o.minConfidence
  }

  /** Box j of image b decodes without an exception: its reads are inside the
      data and, when it is reported, its class indexes the label table. */
  predicate BoxDecodable(o: Decoding, b: int, j: int) {
    BoxReadable(o, b, j) && (Kept(o, b, j) ==> 0 <= Choice(o, b, j).classId < |o.labels|)
  }

  /** The detection reported for box j of image b: the centre-and-size box
      turned into truncated corners, the best class's label and score, and the
      batch image's index. */
  function Emit(o: Decoding, b: int, j: int): Detection
    requires BoxDecodable(o, b, j) && Kept(o, b, j)
  {
    var xCenter := o.data[FeatureIndex(o, b, 0, j)];
    var yCenter := o.data[FeatureIndex(o, b, 1, j)];
    var width := o.data[FeatureIndex(o, b, 2, j)];
    var height := o.data[FeatureIndex(o, b, 3, j)];
    var c := Choice(o, b, j);
    Detection(c.maxScore, o.labels[c.classId],
              Trunc(xCenter - width / 2.0), Trunc(yCenter - height / 2.0),
              Trunc(xCenter + width / 2.0), Trunc(yCenter + height / 2.0),
              Some(b), "")
  }

  function BoxDetections(o: Decoding, b: int, j: int): seq<Detection>
    requires BoxDecodable(o, b, j)
  {
    if Kept(o, b, j) then [Emit(o, b, j)] else []
  }

  /** The first n boxes of image b decode without an exception. */
  predicate RowDecodable(o: Decoding, b: int, n: int) {
    forall j :: 0 <= j < n ==> BoxDecodable(o, b, j)
  }

  /** The detections of the first n boxes of image b, in box order. */
  function RowDetections(o: Decoding, b: int, n: nat): seq<Detection>
    requires RowDecodable(o, b, n)
  {
    if n == 0 then [] else RowDetections(o, b, n - 1) + BoxDetections(o, b, n - 1)
  }

  /** Every box of the first m images decodes without an exception. */
  predicate DecodableUpTo(o: Decoding, m: int) {
    forall b, j :: 0 <= b < m && 0 <= j < o.numBoxes ==> BoxDecodable(o, b, j)
  }

  /** The detections of the first m images, image by image. */
  function DetectionsUpTo(o: Decoding, m: nat): seq<Detection>
    requires DecodableUpTo(o, m)
  {
    if m == 0 then []
    else
      assert RowDecodable(o, m - 1, Count(o.numBoxes));
      DetectionsUpTo(o, m - 1) + RowDetections(o, m - 1, Count(o.numBoxes))
  }

  /** `DecodeDetections` returns instead of throwing. */
  predicate Decodable(o: Decoding) {
    DecodableUpTo(o, o.batchSize)
  }

  function Detections(o: Decoding): seq<Detection>
    requires Decodable(o)
  {
    DetectionsUpTo(o, Count(o.batchSize))
  }

  /** One more class score extends the search by one step. */
  lemma BestStep(o: Decoding, b: int, j: int, m: nat)
    requires ReadableUpTo(o, b, j, 4 + m + 1)
    ensures var x := o.data[FeatureIndex(o, b, 4 + m, j)];
            var p := Best(ScoresUpTo(o, b, j, m));
            Best(ScoresUpTo(o, b, j, m + 1)) == if x > p.maxScore then Argmax(m, x) else p
  {
    assert ScoresUpTo(o, b, j, m + 1)[..m] == ScoresUpTo(o, b, j, m);
  }

  /** Adding box n to the first n boxes of a row. */
  lemma RowStep(o: Decoding, b: int, n: nat)
    requires RowDecodable(o, b, n) && BoxDecodable(o, b, n)
    ensures RowDecodable(o, b, n + 1)
    ensures RowDetections(o, b, n + 1) == RowDetections(o, b, n) + BoxDetections(o, b, n)
  {
  }

  /** One box that cannot be decoded makes the whole output undecodable. */
  lemma UndecodableBox(o: Decoding, b: int, j: int)
    requires 0 <= b < o.batchSize && 0 <= j < o.numBoxes && !BoxDecodable(o, b, j)
    ensures !Decodable(o)
  {
  }

  /** Adding image m to the first m images. */
  lemma BatchStep(o: Decoding, m: nat)
    requires DecodableUpTo(o, m) && RowDecodable(o, m, Count(o.numBoxes))
    ensures DecodableUpTo(o, m + 1)
    ensures DetectionsUpTo(o, m + 1) == DetectionsUpTo(o, m) + RowDetections(o, m, Count(o.numBoxes))
  {
  }

  /** The class loop of `DecodeDetections` for box j of image b: scan the
      scores, keeping the first strictly greatest one. */
  method SearchClass(o: Decoding, b: int, j: int) returns (r: Option<Argmax>)
    requires ReadableUpTo(o, b, j, 4)
    ensures r.Some? <==> BoxReadable(o, b, j)
    ensures r.Some? ==> r.value == Choice(o, b, j)
  {
    var classId := -1;
    var maxScore := FloatMin;
    var c := 4;
    while c < o.features
      invariant 4 <= c <= Max(4, o.features)
      invariant ReadableUpTo(o, b, j, c)
      invariant Argmax(classId, maxScore) == Best(ScoresUpTo(o, b, j, c - 4))
    {
      var i := FeatureIndex(o, b, c, j);
      if !(0 <= i < |o.data|) {
        assert !BoxReadable(o, b, j);
        return None;
      }
      BestStep(o, b, j, c - 4);
      var score := o.data[i];
      if score > maxScore {
        maxScore := score;
        classId := c - 4;
      }
      c := c + 1;
    }
    return Some(Argmax(classId, maxScore));
  }

  /** The body of the box loop of `DecodeDetections`: the reads, the class
      search and the report for box j of image b. */
  method DecodeBox(o: Decoding, b: int, j: int) returns (r: Result<seq<Detection>>)
    ensures r.Ok? <==> BoxDecodable(o, b, j)
    ensures r.Ok? ==> r.value == BoxDetections(o, b, j)
  {
    var data := o.data;
    var iX, iY := FeatureIndex(o, b, 0, j), FeatureIndex(o, b, 1, j);
    var iW, iH := FeatureIndex(o, b, 2, j), FeatureIndex(o, b, 3, j);
    if !(0 <= iX < |data| && 0 <= iY < |data| && 0 <= iW < |data| && 0 <= iH < |data|) {
      assert !BoxReadable(o, b, j);
      return Fail("index outside the output data");
    }
    var xCenter, yCenter, width, height := data[iX], data[iY], data[iW], data[iH];
    assert ReadableUpTo(o, b, j, 4);
    var best := SearchClass(o, b, j);
    if best.None? {
      return Fail("index outside the output data");
    }
    var classId, maxScore := best.value.classId, best.value.maxScore;
    if maxScore >= o.minConfidence {
      if !(0 <= classId < |o.labels|) {
        return Fail("class index outside the label table");
      }
      r := Ok([Detection(maxScore, o.labels[classId],
                         Trunc(xCenter - width / 2.0), Trunc(yCenter - height / 2.0),
                         Trunc(xCenter + width / 2.0), Trunc(yCenter + height / 2.0),
                         Some(b), "")]);
    } else {
      r := Ok([]);
    }
  }

  /** `DecodeDetections(data, batchSize, features, numBoxes, confThreshold,
      labels, minConfidence)`: for every image and every box, the class with the
      highest score is found; a box whose score reaches the minimum confidence
      is reported. The method fails (the source throws) exactly when some read
      falls outside the data or a reported class is not in the label table;
      otherwise it returns the detections in image-then-box order. The
      confidence threshold is not used. */
  method DecodeDetections(data: seq<real>, batchSize: int, features: int, numBoxes: int,
                          confThreshold: real, labels: seq<string>, minConfidence: real)
    returns (r: Result<seq<Detection>>)
    ensures var o := Decoding(data, batchSize, features, numBoxes, labels, minConfidence);
            (r.Ok? <==> Decodable(o)) && (r.Ok? ==> r.value == Detections(o))
  {
    var o := Decoding(data, batchSize, features, numBoxes, labels, minConfidence);
    var detections: seq<Detection> := [];
    var batch := 0;
    while batch < batchSize
      invariant 0 <= batch <= Count(batchSize)
      invariant DecodableUpTo(o, batch) && detections == DetectionsUpTo(o, batch)
    {
      var box := 0;
      while box < numBoxes
        invariant 0 <= box <= Count(numBoxes)
        invariant RowDecodable(o, batch, box)
        invariant detections == DetectionsUpTo(o, batch) + RowDetections(o, batch, box)
      {
        var found := DecodeBox(o, batch, box);
        if found.Fail? {
          UndecodableBox(o, batch, box);
          return found;
        }
        RowStep(o, batch, box);
        ghost var before, row := DetectionsUpTo(o, batch), RowDetections(o, batch, box);
        assert detections + found.value == before + (row + found.value);
        detections := detections + found.value;
        box := box + 1;
      }
      assert box == Count(numBoxes);
      BatchStep(o, batch);
      batch := batch + 1;
    }
    r := Ok(detections);
  }

  // ---------------------------------------------------------------------------
  // Properties of the decoding.

  /** The outputs f(0), ..., f(n - 1), one after another. */
  function Joined(f: nat -> seq<Detection>, n: nat): seq<Detection> {
    if n == 0 then [] else Joined(f, n - 1) + f(n - 1)
  }

  /** A detection of the joined outputs is in one of them. */
  lemma {:induction false} JoinedSound(f: nat -> seq<Detection>, n: nat, d: Detection) returns (j: nat)
    requires d in Joined(f, n)
    ensures j < n && d in f(j)
  {
    assert n > 0;
    var before := Joined(f, n - 1);
    assert Joined(f, n) == before + f(n - 1);
    if d in f(n - 1) {
      j := n - 1;
    } else {
      j := JoinedSound(f, n - 1, d);
    }
  }

  /** A detection of one of the outputs is in the joined outputs. */
  lemma {:induction false} JoinedComplete(f: nat -> seq<Detection>, n: nat, j: nat, d: Detection)
    requires j < n && d in f(j)
    ensures d in Joined(f, n)
  {
    var before := Joined(f, n - 1);
    assert Joined(f, n) == before + f(n - 1);
    if j < n - 1 {
      JoinedComplete(f, n - 1, j, d);
    }
  }

  /** The detections of the images, image by image. */
  function RowsOf(o: Decoding): nat -> seq<Detection> {
    b => if RowDecodable(o, b, Count(o.numBoxes)) then RowDetections(o, b, Count(o.numBoxes)) else []
  }

  /** d is the report of one of the first n boxes of image b. */
  predicate ReportedInRow(o: Decoding, b: int, n: int, d: Detection) {
    exists j :: 0 <= j < n && BoxDecodable(o, b, j) && d in BoxDetections(o, b, j)
  }

  lemma {:induction false} RowMembership(o: Decoding, b: int, n: nat, d: Detection)
    requires RowDecodable(o, b, n)
    ensures d in RowDetections(o, b, n) <==> ReportedInRow(o, b, n, d)
  {
    if n > 0 {
      assert RowDecodable(o, b, n - 1);
      RowMembership(o, b, n - 1, d);
      var before, box := RowDetections(o, b, n - 1), BoxDetections(o, b, n - 1);
      assert RowDetections(o, b, n) == before + box;
      assert d in before + box <==> d in before || d in box;
      ReportedInRowStep(o, b, n, d);
    }
  }

  /** Reported among the first n boxes: among the first n - 1, or by box n - 1. */
  lemma ReportedInRowStep(o: Decoding, b: int, n: nat, d: Detection)
    requires n > 0 && RowDecodable(o, b, n)
    ensures ReportedInRow(o, b, n, d) <==> ReportedInRow(o, b, n - 1, d) || d in BoxDetections(o, b, n - 1)
  {
    if ReportedInRow(o, b, n, d) {
      var j :| 0 <= j < n && BoxDecodable(o, b, j) && d in BoxDetections(o, b, j);
      if j < n - 1 {
        assert ReportedInRow(o, b, n - 1, d);
      }
    }
    if ReportedInRow(o, b, n - 1, d) {
      var j :| 0 <= j < n - 1 && BoxDecodable(o, b, j) && d in BoxDetections(o, b, j);
      assert ReportedInRow(o, b, n, d);
    }
    if d in BoxDetections(o, b, n - 1) {
      assert BoxDecodable(o, b, n - 1);
      assert ReportedInRow(o, b, n, d);
    }
  }

  lemma RowsOfDecodable(o: Decoding, b: nat)
    requires RowDecodable(o, b, Count(o.numBoxes))
    ensures RowsOf(o)(b) == RowDetections(o, b, Count(o.numBoxes))
  {
  }

  lemma {:induction false} UpToIsJoined(o: Decoding, m: nat)
    requires DecodableUpTo(o, m)
    ensures DetectionsUpTo(o, m) == Joined(RowsOf(o), m)
  {
    if m > 0 {
      assert DecodableUpTo(o, m - 1) && RowDecodable(o, m - 1, Count(o.numBoxes));
      UpToIsJoined(o, m - 1);
      var before, row := DetectionsUpTo(o, m - 1), RowDetections(o, m - 1, Count(o.numBoxes));
      RowsOfDecodable(o, m - 1);
      assert DetectionsUpTo(o, m) == before + row;
      assert Joined(RowsOf(o), m) == Joined(RowsOf(o), m - 1) + RowsOf(o)(m - 1);
    }
  }

  /** A box's detections are its report when it is kept, and nothing otherwise. */
  lemma BoxMembership(o: Decoding, b: int, j: int, d: Detection)
    requires BoxDecodable(o, b, j)
    ensures d in BoxDetections(o, b, j) <==> Kept(o, b, j) && d == Emit(o, b, j)
  {
  }

  /** A decoded detection is the report of a kept box. */
  lemma DetectionSound(o: Decoding, d: Detection) returns (b: int, j: int)
    requires Decodable(o) && d in Detections(o)
    ensures 0 <= b < o.batchSize && 0 <= j < o.numBoxes
    ensures BoxDecodable(o, b, j) && Kept(o, b, j) && d == Emit(o, b, j)
  {
    var batches, boxes := Count(o.batchSize), Count(o.numBoxes);
    UpToIsJoined(o, batches);
    b := JoinedSound(RowsOf(o), batches, d);
    assert RowDecodable(o, b, boxes);
    RowsOfDecodable(o, b);
    RowMembership(o, b, boxes, d);
    j :| 0 <= j < boxes && BoxDecodable(o, b, j) && d in BoxDetections(o, b, j);
    BoxMembership(o, b, j, d);
  }

  /** The report of a kept box is among the decoded detections. */
  lemma DetectionComplete(o: Decoding, b: int, j: int)
    requires Decodable(o) && 0 <= b < o.batchSize && 0 <= j < o.numBoxes
    requires BoxDecodable(o, b, j) && Kept(o, b, j)
    ensures Emit(o, b, j) in Detections(o)
  {
    var batches, boxes := Count(o.batchSize), Count(o.numBoxes);
    var d := Emit(o, b, j);
    UpToIsJoined(o, batches);
    BoxMembership(o, b, j, d);
    assert ReportedInRow(o, b, boxes, d);
    assert RowDecodable(o, b, boxes);
    RowMembership(o, b, boxes, d);
    RowsOfDecodable(o, b);
    JoinedComplete(RowsOf(o), batches, b, d);
  }

  /** The decoded detections are exactly the reports of the boxes whose best
      score reaches the minimum confidence, one per such box. */
  lemma DetectionsAreReports(o: Decoding, d: Detection)
    requires Decodable(o)
    ensures d in Detections(o) <==>
              exists b, j :: 0 <= b < o.batchSize && 0 <= j < o.numBoxes &&
                             BoxDecodable(o, b, j) && Kept(o, b, j) && d == Emit(o, b, j)
  {
    if d in Detections(o) {
      var b, j := DetectionSound(o, d);
    }
    if exists b, j :: 0 <= b < o.batchSize && 0 <= j < o.numBoxes &&
                      BoxDecodable(o, b, j) && Kept(o, b, j) && d == Emit(o, b, j) {
      var b, j :| 0 <= b < o.batchSize && 0 <= j < o.numBoxes &&
                  BoxDecodable(o, b, j) && Kept(o, b, j) && d == Emit(o, b, j);
      DetectionComplete(o, b, j);
    }
  }

  /** What a report says: its confidence is its box's highest class score and
      at least the minimum confidence, its label is that class's entry of the
      label table, it carries the image's index and no server name, and a box of
      non-negative size has ordered corners. */
  lemma ReportProperties(o: Decoding, b: int, j: int)
    requires BoxDecodable(o, b, j) && Kept(o, b, j)
    ensures var e := Emit(o, b, j);
            var s := Scores(o, b, j);
            e.confidence >= o.minConfidence &&
            (forall i :: 0 <= i < |s| ==> s[i] <= e.confidence) &&
            0 <= Choice(o, b, j).classId < |s| && e.confidence == s[Choice(o, b, j).classId] &&
            e.labelName == o.labels[Choice(o, b, j).classId] &&
            e.batchNumber == Some(b) && e.serverName == ""
    ensures o.data[FeatureIndex(o, b, 2, j)] >= 0.0 ==> Emit(o, b, j).xMin <= Emit(o, b, j).xMax
    ensures o.data[FeatureIndex(o, b, 3, j)] >= 0.0 ==> Emit(o, b, j).yMin <= Emit(o, b, j).yMax
  {
    var xCenter := o.data[FeatureIndex(o, b, 0, j)];
    var yCenter := o.data[FeatureIndex(o, b, 1, j)];
    var width := o.data[FeatureIndex(o, b, 2, j)];
    var height := o.data[FeatureIndex(o, b, 3, j)];
    BestSpec(Scores(o, b, j));
    if width >= 0.0 {
      TruncMonotone(xCenter - width / 2.0, xCenter + width / 2.0);
    }
    if height >= 0.0 {
      TruncMonotone(yCenter - height / 2.0, yCenter + height / 2.0);
    }
  }

  lemma {:induction false} RowCount(o: Decoding, b: int, n: nat)
    requires RowDecodable(o, b, n)
    ensures |RowDetections(o, b, n)| <= n
  {
    if n > 0 {
      assert RowDecodable(o, b, n - 1);
      RowCount(o, b, n - 1);
      BoxCount(o, b, n - 1);
      assert RowDetections(o, b, n) == RowDetections(o, b, n - 1) + BoxDetections(o, b, n - 1);
    } else {
      assert RowDetections(o, b, n) == [];
    }
  }

  lemma BoxCount(o: Decoding, b: int, j: int)
    requires BoxDecodable(o, b, j)
    ensures |BoxDetections(o, b, j)| <= 1
  {
    if Kept(o, b, j) {
      assert BoxDetections(o, b, j) == [Emit(o, b, j)];
    }
  }

  /** n parts of at most k detections each join to at most n * k detections. */
  lemma {:induction false} JoinedLength(f: nat -> seq<Detection>, n: nat, k: nat)
    requires forall j: nat :: j < n ==> |f(j)| <= k
    ensures |Joined(f, n)| <= n * k
  {
    if n > 0 {
      JoinedLength(f, n - 1, k);
      assert Joined(f, n) == Joined(f, n - 1) + f(n - 1);
      MulSucc(n - 1, k);
    }
  }

  lemma UpToCount(o: Decoding, m: nat)
    requires DecodableUpTo(o, m)
    ensures |DetectionsUpTo(o, m)| <= m * Count(o.numBoxes)
  {
    var n := Count(o.numBoxes);
    UpToIsJoined(o, m);
    forall j: nat | j < m
      ensures |RowsOf(o)(j)| <= n
    {
      assert RowDecodable(o, j, n);
      RowsOfDecodable(o, j);
      RowCount(o, j, n);
    }
    JoinedLength(RowsOf(o), m, n);
  }

  lemma MulSucc(k: nat, n: nat)
    ensures k * n + n == (k + 1) * n
  {
  }

  /** At most one detection per box. */
  lemma DetectionsCount(o: Decoding)
    requires Decodable(o)
    ensures |Detections(o)| <= Count(o.batchSize) * Count(o.numBoxes)
  {
    UpToCount(o, Count(o.batchSize));
  }

  /** Every detection names an image below m, and the images never go back. */
  predicate InBatchOrder(s: seq<Detection>, m: int) {
    (forall i :: 0 <= i < |s| ==> s[i].batchNumber.Some? && 0 <= s[i].batchNumber.value < m) &&
    (forall i, k :: 0 <= i < k < |s| ==> s[i].batchNumber.value <= s[k].batchNumber.value)
  }

  lemma {:induction false} RowBatch(o: Decoding, b: int, n: nat)
    requires RowDecodable(o, b, n)
    ensures forall i :: 0 <= i < |RowDetections(o, b, n)| ==> RowDetections(o, b, n)[i].batchNumber == Some(b)
  {
    if n > 0 {
      RowBatch(o, b, n - 1);
    }
  }

  lemma {:induction false} UpToOrder(o: Decoding, m: nat)
    requires DecodableUpTo(o, m)
    ensures InBatchOrder(DetectionsUpTo(o, m), m)
  {
    if m > 0 {
      var n := Count(o.numBoxes);
      assert DecodableUpTo(o, m - 1) && RowDecodable(o, m - 1, n);
      UpToOrder(o, m - 1);
      RowBatch(o, m - 1, n);
      var before, row := DetectionsUpTo(o, m - 1), RowDetections(o, m - 1, n);
      assert DetectionsUpTo(o, m) == before + row;
      OrderAppend(before, row, m);
    }
  }

  /** Detections of image m - 1 may follow detections in order below m - 1. */
  lemma OrderAppend(before: seq<Detection>, row: seq<Detection>, m: int)
    requires m > 0 && InBatchOrder(before, m - 1)
    requires forall i :: 0 <= i < |row| ==> row[i].batchNumber == Some(m - 1)
    ensures InBatchOrder(before + row, m)
  {
    var s := before + row;
    forall i | 0 <= i < |s|
      ensures s[i].batchNumber.Some? && 0 <= s[i].batchNumber.value < m
    {
      if i >= |before| {
        assert s[i] == row[i - |before|];
      }
    }
    forall i, k | 0 <= i < k < |s|
      ensures s[i].batchNumber.value <= s[k].batchNumber.value
    {
      if k < |before| {
        assert s[i] == before[i] && s[k] == before[k];
      } else if i < |before| {
        assert s[i] == before[i] && s[k] == row[k - |before|];
      } else {
        assert s[i] == row[i - |before|] && s[k] == row[k - |before|];
      }
    }
  }

  /** The detections come image by image: each carries the index of an image
      of the batch, and these indices never decrease. */
  lemma DetectionsInBatchOrder(o: Decoding)
    requires Decodable(o)
    ensures InBatchOrder(Detections(o), o.batchSize)
  {
    UpToOrder(o, Count(o.batchSize));
  }

  /** Feature f of box j of image b lies inside an output of shape [B, F, N]. */
  lemma FeatureIndexInShape(o: Decoding, b: int, f: int, j: int)
    requires 0 <= b < o.batchSize && 0 <= f < o.features && 0 <= j < o.numBoxes
    ensures 0 <= FeatureIndex(o, b, f, j) < o.batchSize * o.features * o.numBoxes
  {
    var B, F, N := o.batchSize, o.features, o.numBoxes;
    IndexBelow(b, f, B, F);
    IndexBelow(b * F + f, j, B * F, N);
    assert FeatureIndex(o, b, f, j) == (b * F + f) * N + j;
  }

  /** The source throws on no well-formed output: when the data holds the whole
      [batchSize, features, numBoxes] tensor with at least the four box
      features, the label table has a label for every class and the minimum
      confidence is above `float.MinValue`, decoding succeeds. */
  lemma DecodableWhenShaped(o: Decoding)
    requires o.features >= 4 && o.batchSize * o.features * o.numBoxes <= |o.data|
    requires o.features - 4 <= |o.labels| && o.minConfidence > FloatMin
    ensures Decodable(o)
  {
    forall b, j | 0 <= b < o.batchSize && 0 <= j < o.numBoxes
      ensures BoxDecodable(o, b, j)
    {
      forall f | 0 <= f < Max(4, o.features)
        ensures 0 <= FeatureIndex(o, b, f, j) < |o.data|
      {
        FeatureIndexInShape(o, b, f, j);
      }
      assert BoxReadable(o, b, j);
      BestSpec(Scores(o, b, j));
    }
  }

  lemma {:induction false} RowNothingKept(o: Decoding, b: int, n: nat)
    requires RowDecodable(o, b, n)
    requires forall j :: 0 <= j < n && BoxDecodable(o, b, j) ==> !Kept(o, b, j)
    ensures RowDetections(o, b, n) == []
  {
    if n > 0 {
      RowNothingKept(o, b, n - 1);
    }
  }

  lemma {:induction false} UpToNothingKept(o: Decoding, m: nat)
    requires DecodableUpTo(o, m)
    requires forall b, j :: 0 <= b < m && 0 <= j < o.numBoxes && BoxDecodable(o, b, j) ==> !Kept(o, b, j)
    ensures DetectionsUpTo(o, m) == []
  {
    if m > 0 {
      UpToNothingKept(o, m - 1);
      assert RowDecodable(o, m - 1, Count(o.numBoxes));
      RowNothingKept(o, m - 1, Count(o.numBoxes));
    }
  }

  /** An output without class scores (at most four features) reports nothing
      when the minimum confidence is above `float.MinValue`, and throws (the
      class index -1 is looked up) when it is not and there is any box. */
  lemma NoClassesNoDetections(o: Decoding)
    requires o.features <= 4
    ensures o.minConfidence > FloatMin && Decodable(o) ==> Detections(o) == []
    ensures o.minConfidence <= FloatMin && o.batchSize > 0 && o.numBoxes > 0 ==> !Decodable(o)
  {
    if o.minConfidence > FloatMin && Decodable(o) {
      forall b, j | 0 <= b < Count(o.batchSize) && 0 <= j < o.numBoxes
        ensures BoxDecodable(o, b, j) && !Kept(o, b, j)
      {
        assert BoxDecodable(o, b, j);
        assert Scores(o, b, j) == [];
      }
      UpToNothingKept(o, Count(o.batchSize));
    }
    if o.minConfidence <= FloatMin && o.batchSize > 0 && o.numBoxes > 0 {
      assert !BoxDecodable(o, 0, 0);
    }
  }
}
