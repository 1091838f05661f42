/** The detection record shared by the whole pipeline, as a value, and the
    coordinate edits that both C# `DetectionResult` classes apply in place.
    The two classes (one with `x_min` fields, one with `X_min` fields) carry
    the same data; this one datatype stands for both. */
module Boxes {
  import opened Wrappers
  import opened Numeric

  /** A detected object: confidence, class labelName, an axis-aligned box in pixel
      coordinates, the index of the batch image it came from (if any) and the
      name of the backend that produced it. */
  datatype Detection = Detection(
    confidence: real,
    labelName: string,
    xMin: int,
    yMin: int,
    xMax: int,
    yMax: int,
    batchNumber: Option<int>,
    serverName: string)

  /** The fields a coordinate edit must not touch. */
  predicate SameMetadata(a: Detection, b: Detection) {
    a.confidence == b.confidence && a.labelName == b.labelName &&
    a.batchNumber == b.batchNumber && a.serverName == b.serverName
  }

  function Width(d: Detection): int { d.xMax - d.xMin }
  function Height(d: Detection): int { d.yMax - d.yMin }

  /** `Offset(dx, dy)`: translate the box. */
  function Shift(d: Detection, dx: int, dy: int): (r: Detection)
    ensures SameMetadata(r, d)
    ensures Width(r) == Width(d) && Height(r) == Height(d)
  {
    d.(xMin := d.xMin + dx, xMax := d.xMax + dx, yMin := d.yMin + dy, yMax := d.yMax + dy)
  }

  /** `Scale(s)`: every coordinate v becomes `(int)(v * s)`. */
  function Rescale(d: Detection, s: real): (r: Detection)
    ensures SameMetadata(r, d)
  {
    d.(xMin := ScaleCoord(d.xMin, s), xMax := ScaleCoord(d.xMax, s),
       yMin := ScaleCoord(d.yMin, s), yMax := ScaleCoord(d.yMax, s))
  }

  /** `OffsetAndScale(dx, dy, s)`: `Offset` first, then `Scale`, so the offset
      is scaled too. */
  function ShiftThenRescale(d: Detection, dx: int, dy: int, s: real): (r: Detection)
    ensures SameMetadata(r, d)
  {
    Rescale(Shift(d, dx, dy), s)
  }

  /** Translating back by the opposite offset restores every field. */
  lemma ShiftInverse(d: Detection, dx: int, dy: int)
    ensures Shift(Shift(d, dx, dy), -dx, -dy) == d
  {
  }

  /** Two translations compose into one. */
  lemma ShiftCompose(d: Detection, dx1: int, dy1: int, dx2: int, dy2: int)
    ensures Shift(Shift(d, dx1, dy1), dx2, dy2) == Shift(d, dx1 + dx2, dy1 + dy2)
  {
  }

  /** Scaling by an integral factor k is exact: no coordinate is truncated. */
  lemma RescaleByInteger(d: Detection, k: int)
    ensures Rescale(d, k as real) == d.(xMin := d.xMin * k, xMax := d.xMax * k,
                                        yMin := d.yMin * k, yMax := d.yMax * k)
  {
    ScaleCoordByInteger(d.xMin, k);
    ScaleCoordByInteger(d.xMax, k);
    ScaleCoordByInteger(d.yMin, k);
    ScaleCoordByInteger(d.yMax, k);
  }

  /** With offset zero and scale one, `OffsetAndScale` changes nothing. */
  lemma ShiftThenRescaleIdentity(d: Detection)
    ensures ShiftThenRescale(d, 0, 0, 1.0) == d
  {
    RescaleByInteger(Shift(d, 0, 0), 1);
  }

  /** A non-negative scale keeps a box's corners in order. */
  lemma RescaleKeepsOrder(d: Detection, s: real)
    requires s >= 0.0
    requires d.xMin <= d.xMax && d.yMin <= d.yMax
    ensures var r := Rescale(d, s); r.xMin <= r.xMax && r.yMin <= r.yMax
  {
    ScaleCoordMonotone(d.xMin, d.xMax, s);
    ScaleCoordMonotone(d.yMin, d.yMax, s);
  }
}
