/** Mapping detections from a scaled, cropped tile back into the coordinates
    of the full image, with a 10-pixel margin kept from the image border. */
module DetectionMapper {
  import opened Wrappers
  import opened Numeric
  import opened Boxes
  import opened DynamicProcessor

  /** The margin the mapped box is clamped to. */
  const Margin: int := 10

  /** A tile-local coordinate in full-image coordinates, before clamping:
      `(int)(v * (1 / scale)) + origin`. */
  function Unscale(v: int, scale: real, origin: int): int
    requires scale != 0.0
  {
    Trunc(v as real * (1.0 / scale)) + origin
  }

  /** `MapToFullImage`: a fresh detection with the input's confidence, label,
      batch and server; each corner is unscaled and moved by the tile origin,
      then the minima are raised to at least 10 and the maxima lowered to at
      most the image size minus 10. Each clamp is one-sided. */
  function MapToFullImage(d: Detection, tile: Tile, imageWidth: int, imageHeight: int): (r: Detection)
    requires tile.scale != 0.0
    ensures SameMetadata(r, d)
    ensures var x := Unscale(d.xMin, tile.scale, tile.xStart);
            r.xMin >= Margin && r.xMin >= x && (r.xMin == Margin || r.xMin == x)
    ensures var y := Unscale(d.yMin, tile.scale, tile.yStart);
            r.yMin >= Margin && r.yMin >= y && (r.yMin == Margin || r.yMin == y)
    ensures var x := Unscale(d.xMax, tile.scale, tile.xStart);
            r.xMax <= imageWidth - Margin && r.xMax <= x && (r.xMax == imageWidth - Margin || r.xMax == x)
    ensures var y := Unscale(d.yMax, tile.scale, tile.yStart);
            r.yMax <= imageHeight - Margin && r.yMax <= y && (r.yMax == imageHeight - Margin || r.yMax == y)
  {
    var xMin := Unscale(d.xMin, tile.scale, tile.xStart);
    var xMax := Unscale(d.xMax, tile.scale, tile.xStart);
    var yMin := Unscale(d.yMin, tile.scale, tile.yStart);
    var yMax := Unscale(d.yMax, tile.scale, tile.yStart);
    Detection(d.confidence, d.labelName,
              Max(Margin, xMin), Max(Margin, yMin),
              Min(imageWidth - Margin, xMax), Min(imageHeight - Margin, yMax),
              d.batchNumber, d.serverName)
  }

  /** `MapAllToFullImage`: map every detection of a tile, keeping the order. */
  method MapAllToFullImage(detections: seq<Detection>, tile: Tile, imageWidth: int, imageHeight: int)
    returns (results: seq<Detection>)
    requires tile.scale != 0.0
    ensures |results| == |detections|
    ensures forall i :: 0 <= i < |detections| ==>
              results[i] == MapToFullImage(detections[i], tile, imageWidth, imageHeight)
  {
    results := [];
    for i := 0 to |detections|
      invariant |results| == i
      invariant forall k :: 0 <= k < i ==>
                  results[k] == MapToFullImage(detections[k], tile, imageWidth, imageHeight)
    {
      results := results + [MapToFullImage(detections[i], tile, imageWidth, imageHeight)];
    }
  }

  /** At scale 1 the unscaling is exact: a corner only moves by the tile origin. */
  lemma UnscaleAtUnitScale(v: int, origin: int)
    ensures Unscale(v, 1.0, origin) == v + origin
  {
    assert v as real * (1.0 / 1.0) == v as real;
    TruncOfInt(v);
  }

  /** At scale 1 the mapping is a translation by the tile origin followed by
      the margin clamps. */
  lemma MapAtUnitScale(d: Detection, tile: Tile, imageWidth: int, imageHeight: int)
    requires tile.scale == 1.0
    ensures var r := MapToFullImage(d, tile, imageWidth, imageHeight);
            r.xMin == Max(Margin, d.xMin + tile.xStart) &&
            r.yMin == Max(Margin, d.yMin + tile.yStart) &&
            r.xMax == Min(imageWidth - Margin, d.xMax + tile.xStart) &&
            r.yMax == Min(imageHeight - Margin, d.yMax + tile.yStart)
  {
    UnscaleAtUnitScale(d.xMin, tile.xStart);
    UnscaleAtUnitScale(d.yMin, tile.yStart);
    UnscaleAtUnitScale(d.xMax, tile.xStart);
    UnscaleAtUnitScale(d.yMax, tile.yStart);
  }

  /** A tile at the origin at scale 1 leaves every box that already keeps the
      margins unchanged. */
  lemma MapKeepsBoxInsideMargins(d: Detection, tile: Tile, imageWidth: int, imageHeight: int)
    requires tile.scale == 1.0 && tile.xStart == 0 && tile.yStart == 0
    requires Margin <= d.xMin && d.xMax <= imageWidth - Margin
    requires Margin <= d.yMin && d.yMax <= imageHeight - Margin
    ensures MapToFullImage(d, tile, imageWidth, imageHeight) == d
  {
    MapAtUnitScale(d, tile, imageWidth, imageHeight);
  }

  /** Through such a tile, mapping twice is mapping once: the clamps are idempotent. */
  lemma MapIdempotentAtOrigin(d: Detection, tile: Tile, imageWidth: int, imageHeight: int)
    requires tile.scale == 1.0 && tile.xStart == 0 && tile.yStart == 0
    ensures var r := MapToFullImage(d, tile, imageWidth, imageHeight);
            MapToFullImage(r, tile, imageWidth, imageHeight) == r
  {
    var r := MapToFullImage(d, tile, imageWidth, imageHeight);
    MapAtUnitScale(d, tile, imageWidth, imageHeight);
    MapAtUnitScale(r, tile, imageWidth, imageHeight);
  }

  /** Unscaling a tile shrunk by an integral factor k multiplies by k exactly. */
  lemma UnscaleInverse(v: int, k: int, origin: int)
    requires k > 0
    ensures Unscale(v, 1.0 / k as real, origin) == v * k + origin
  {
    var s := 1.0 / k as real;
    assert s * k as real == 1.0;
    assert 1.0 / s == k as real;
    ScaleCoordByInteger(v, k);
  }

  /** A tile shrunk by an integral factor k (scale 1/k) maps back exactly:
      each corner is multiplied by k, moved by the origin and clamped. */
  lemma MapUndoesIntegralShrink(d: Detection, tile: Tile, k: int, imageWidth: int, imageHeight: int)
    requires k > 0 && tile.scale == 1.0 / k as real
    ensures var r := MapToFullImage(d, tile, imageWidth, imageHeight);
            r.xMin == Max(Margin, d.xMin * k + tile.xStart) &&
            r.yMin == Max(Margin, d.yMin * k + tile.yStart) &&
            r.xMax == Min(imageWidth - Margin, d.xMax * k + tile.xStart) &&
            r.yMax == Min(imageHeight - Margin, d.yMax * k + tile.yStart)
  {
    UnscaleInverse(d.xMin, k, tile.xStart);
    UnscaleInverse(d.yMin, k, tile.yStart);
    UnscaleInverse(d.xMax, k, tile.xStart);
    UnscaleInverse(d.yMax, k, tile.yStart);
  }

  /** The clamps can turn a box inside out: a box lying in the left margin ends
      with X_min 10 above its X_max. */
  lemma MapCanInvertBox()
    ensures var d := Detection(0.5, "car", 0, 20, 5, 30, None, "local");
            var r := MapToFullImage(d, Tile(0, 0, 100, 100, 1.0), 100, 100);
            r.xMin == 10 && r.xMax == 5
  {
    var d := Detection(0.5, "car", 0, 20, 5, 30, None, "local");
    MapAtUnitScale(d, Tile(0, 0, 100, 100, 1.0), 100, 100);
  }
}
