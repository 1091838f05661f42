/** `DetectionResult` (snake-case copy, `x_min`...): a mutable detection whose
    coordinate methods update the object in place. */
module DetectionResults {
  import opened Wrappers
  import opened Boxes
  import Numeric

  class DetectionResult {
    var confidence: real
    var labelName: string
    var xMin: int
    var yMin: int
    var xMax: int
    var yMax: int
    var batchNumber: Option<int>
    var serverName: string

    /** The object's current value. */
    function Value(): Detection
      reads this
    {
      Detection(confidence, labelName, xMin, yMin, xMax, yMax, batchNumber, serverName)
    }

    /** An object initialised from a value (the C# object initialiser). */
    constructor (d: Detection)
      ensures Value() == d
    {
      confidence, labelName := d.confidence, d.labelName;
      xMin, yMin, xMax, yMax := d.xMin, d.yMin, d.xMax, d.yMax;
      batchNumber, serverName := d.batchNumber, d.serverName;
    }

    /** Shift the bounding box by (dx, dy). */
    method Offset(dx: int, dy: int)
      modifies this
      ensures Value() == Shift(old(Value()), dx, dy)
    {
      xMin := xMin + dx;
      xMax := xMax + dx;
      yMin := yMin + dy;
      yMax := yMax + dy;
    }

    /** Multiply every coordinate by `scaleBy`, truncating toward zero. */
    method Scale(scaleBy: real)
      modifies this
      ensures Value() == Rescale(old(Value()), scaleBy)
    {
      xMin := Numeric.ScaleCoord(xMin, scaleBy);
      xMax := Numeric.ScaleCoord(xMax, scaleBy);
      yMin := Numeric.ScaleCoord(yMin, scaleBy);
      yMax := Numeric.ScaleCoord(yMax, scaleBy);
    }

    /** `Offset` then `Scale`. */
    method OffsetAndScale(dx: int, dy: int, scaleBy: real)
      modifies this
      ensures Value() == ShiftThenRescale(old(Value()), dx, dy, scaleBy)
    {
      Offset(dx, dy);
      Scale(scaleBy);
    }
  }
}
