/** The tile planner: each configured row of a tile plan is cut into
    overlapping tiles, left to right, and the rows' tiles are pooled.
    Only the geometry of a tile is modelled, not its pixels. */
module DynamicProcessor {
  import opened Wrappers
  import opened Numeric

  /** One row of a tile plan (`TilePlan`). `xStartPercent` and `xEndPercent`
      are checked by the configuration validator only; the tiler never reads them. */
  datatype TilePlan = TilePlan(
    y: int,
    height: int,
    width: int,
    overlapFactor: real,
    scaleWidth: int,
    xStartPercent: Option<real>,
    xEndPercent: Option<real>)

  /** A named plan (`DynamicTilePlan`): the rows to cut and the image size it expects. */
  datatype DynamicTilePlan = DynamicTilePlan(
    tilePlanId: int,
    tilePlanName: string,
    imageWidthExpected: int,
    imageHeightExpected: int,
    tilePlans: seq<TilePlan>)

  /** A tile's geometry (`TileInfo`): its origin and extent in the original
      image and the scale applied to it before it is sent to a backend. */
  datatype Tile = Tile(xStart: int, yStart: int, width: int, height: int, scale: real)

  function XEnd(t: Tile): int { t.xStart + t.width }
  function YEnd(t: Tile): int { t.yStart + t.height }

  /** Distance between consecutive tile origins:
      `(int)(Tw * (1 - 2f)) + (int)(Tw * f)`. */
  function Step(tileWidth: int, overlapFactor: real): int {
    Trunc(tileWidth as real * (1.0 - 2.0 * overlapFactor)) + Trunc(tileWidth as real * overlapFactor)
  }

  /** A positive tile width and an overlap in [0, 0.5) give a non-negative step. */
  lemma StepNonNegative(tileWidth: int, overlapFactor: real)
    requires tileWidth > 0 && 0.0 <= overlapFactor < 0.5
    ensures Step(tileWidth, overlapFactor) >= 0
  {
    var w := tileWidth as real;
    ProductNonNegative(w, 1.0 - 2.0 * overlapFactor);
    ProductNonNegative(w, overlapFactor);
    TruncBounds(w * (1.0 - 2.0 * overlapFactor));
    TruncBounds(w * overlapFactor);
  }

  /** The scale of every tile of a row: `ScaleWidth / (float)Width`. */
  function RowScale(row: TilePlan): real
    requires row.width != 0
  {
    row.scaleWidth as real / row.width as real
  }

  /** The tile whose origin is x in a row, clamped at the image's right and bottom edges. */
  function TileAt(imageWidth: int, imageHeight: int, tileWidth: int, yStart: int,
                  height: int, scale: real, x: int): Tile
  {
    Tile(x, yStart, Min(tileWidth, imageWidth - x), Min(height, imageHeight - yStart), scale)
  }

  /** A tile is clamped at the image's right and bottom edges: it keeps the
      origin and the scale, ends inside the image, and is full-size unless
      an edge cuts it. */
  lemma TileAtClamps(imageWidth: int, imageHeight: int, tileWidth: int, yStart: int,
                     height: int, scale: real, x: int)
    ensures var t := TileAt(imageWidth, imageHeight, tileWidth, yStart, height, scale, x);
            t.xStart == x && t.yStart == yStart && t.scale == scale &&
            t.width <= tileWidth && XEnd(t) <= imageWidth &&
            (t.width == tileWidth || XEnd(t) == imageWidth) &&
            t.height <= height && YEnd(t) <= imageHeight &&
            (t.height == height || YEnd(t) == imageHeight)
  {
  }

  /** The tiles with origins x, x + step, ... below the image width. */
  function TilesFrom(imageWidth: int, imageHeight: int, tileWidth: int, yStart: int,
                     height: int, scale: real, step: int, x: int): seq<Tile>
    requires step > 0
    decreases imageWidth - x
  {
    if x >= imageWidth then []
    else [TileAt(imageWidth, imageHeight, tileWidth, yStart, height, scale, x)]
         + TilesFrom(imageWidth, imageHeight, tileWidth, yStart, height, scale, step, x + step)
  }

  /** The loop terminates only when the step is positive or the image is empty. */
  predicate Terminates(imageWidth: int, tileWidth: int, overlapFactor: real) {
    imageWidth <= 0 || Step(tileWidth, overlapFactor) > 0
  }

  /** The tiles `CropAndSplitWithOverlap` produces for one row. */
  function RowTiles(imageWidth: int, imageHeight: int, tileWidth: int, yStart: int,
                    height: int, scale: real, overlapFactor: real): seq<Tile>
    requires Terminates(imageWidth, tileWidth, overlapFactor)
  {
    if imageWidth <= 0 then []
    else TilesFrom(imageWidth, imageHeight, tileWidth, yStart, height, scale,
                   Step(tileWidth, overlapFactor), 0)
  }

  /** `Crop(new Rectangle(x, y, w, h))` succeeds only for a non-empty
      rectangle inside the image; ImageSharp throws otherwise. */
  predicate CropFits(imageWidth: int, imageHeight: int, t: Tile) {
    0 <= t.xStart && 0 <= t.yStart && t.width > 0 && t.height > 0 &&
    XEnd(t) <= imageWidth && YEnd(t) <= imageHeight
  }

  /** Every tile of the list can be cropped from the image. */
  predicate AllCropsFit(imageWidth: int, imageHeight: int, tiles: seq<Tile>) {
    forall k :: 0 <= k < |tiles| ==> CropFits(imageWidth, imageHeight, tiles[k])
  }

  /** The reason every failed crop reports. It is ImageSharp's text for a
      rectangle outside the image. A rectangle of zero width or height inside
      the image fails a different argument check with another message. The
      model does not tell the two apart: it models only that the crop throws. */
  const CropError: string := "Crop rectangle should be smaller than the source bounds."

  /** The row loop ends, normally or by a throw: the step is positive or the
      image empty; or the step is negative, so the second origin lies left of
      the image and its crop throws; or the step is zero and the first crop
      throws. It runs forever only for step zero and a first tile that fits. */
  predicate Halts(imageWidth: int, imageHeight: int, tileWidth: int, yStart: int,
                  height: int, scale: real, overlapFactor: real) {
    Terminates(imageWidth, tileWidth, overlapFactor) || Step(tileWidth, overlapFactor) < 0 ||
    !CropFits(imageWidth, imageHeight, TileAt(imageWidth, imageHeight, tileWidth, yStart, height, scale, 0))
  }

  /** The first tile from x, followed by the tiles from the next origin. */
  lemma TilesFromUnfold(imageWidth: int, imageHeight: int, tileWidth: int, yStart: int,
                        height: int, scale: real, step: int, x: int)
    requires step > 0 && x < imageWidth
    ensures TilesFrom(imageWidth, imageHeight, tileWidth, yStart, height, scale, step, x)
            == [Tile(x, yStart, Min(tileWidth, imageWidth - x), Min(height, imageHeight - yStart), scale)]
               + TilesFrom(imageWidth, imageHeight, tileWidth, yStart, height, scale, step, x + step)
  {
  }

  /** Moving the next element of a split list to the finished part. */
  lemma AdvanceSplit<T>(done: seq<T>, t: T, rest: seq<T>, all: seq<T>)
    requires done + ([t] + rest) == all
    ensures |done| < |all| && all[|done|] == t && (done + [t]) + rest == all
  {
    assert done + ([t] + rest) == (done + [t]) + rest;
  }

  /** Appending a tile that fits keeps every crop fitting. */
  lemma AllCropsFitAppend(imageWidth: int, imageHeight: int, tiles: seq<Tile>, t: Tile)
    requires AllCropsFit(imageWidth, imageHeight, tiles) && CropFits(imageWidth, imageHeight, t)
    ensures AllCropsFit(imageWidth, imageHeight, tiles + [t])
  {
    forall k | 0 <= k < |tiles + [t]| ensures CropFits(imageWidth, imageHeight, (tiles + [t])[k]) {
      if k < |tiles| {
        assert (tiles + [t])[k] == tiles[k];
      }
    }
  }

  /** Cut one row into tiles: a `for` loop advancing x by the step, cropping
      and appending. The first crop outside the image throws (Fail). */
  method CropAndSplitWithOverlap(imageWidth: int, imageHeight: int, widthPerTile: int,
                                 yStart: int, height: int, scale: real, overlapFactor: real)
    returns (r: Result<seq<Tile>>)
    requires Halts(imageWidth, imageHeight, widthPerTile, yStart, height, scale, overlapFactor)
    ensures Terminates(imageWidth, widthPerTile, overlapFactor) ==>
              var tiles := RowTiles(imageWidth, imageHeight, widthPerTile, yStart, height, scale, overlapFactor);
              (r.Fail? <==> !AllCropsFit(imageWidth, imageHeight, tiles)) &&
              (r.Ok? ==> r.value == tiles)
    ensures !Terminates(imageWidth, widthPerTile, overlapFactor) ==> r.Fail?
    ensures r.Fail? ==> r.reason == CropError
  {
    var newTiles := [];
    var actualWidthPerTile := Trunc(widthPerTile as real * (1.0 - 2.0 * overlapFactor));
    var actualOverlapPixels := Trunc(widthPerTile as real * overlapFactor);
    var x := 0;
    if imageWidth <= 0 {
      return Ok(newTiles);
    }
    ghost var step := actualWidthPerTile + actualOverlapPixels;
    ghost var tiles := if step > 0 then RowTiles(imageWidth, imageHeight, widthPerTile, yStart, height, scale, overlapFactor)
                       else [];
    while x < imageWidth
      invariant step == Step(widthPerTile, overlapFactor)
      invariant step > 0 ==>
                  newTiles + TilesFrom(imageWidth, imageHeight, widthPerTile, yStart, height, scale, step, x)
                  == tiles
      invariant AllCropsFit(imageWidth, imageHeight, newTiles)
      invariant step <= 0 ==> x == |newTiles| * step < imageWidth && |newTiles| <= 1 &&
                              (step == 0 ==> newTiles == [])
      decreases if step > 0 then imageWidth - x else 1 - |newTiles|
    {
      var actualWidth := Min(widthPerTile, imageWidth - x);
      var actualHeight := Min(height, imageHeight - yStart);
      var tile := Tile(x, yStart, actualWidth, actualHeight, scale);
      if step > 0 {
        TilesFromUnfold(imageWidth, imageHeight, widthPerTile, yStart, height, scale, step, x);
        AdvanceSplit(newTiles, tile,
                     TilesFrom(imageWidth, imageHeight, widthPerTile, yStart, height, scale, step, x + step), tiles);
      }
      if !CropFits(imageWidth, imageHeight, tile) {
        return Fail(CropError);
      }
      AllCropsFitAppend(imageWidth, imageHeight, newTiles, tile);
      newTiles := newTiles + [tile];
      x := x + actualWidthPerTile + actualOverlapPixels;
    }
    assert newTiles == tiles;
    r := Ok(newTiles);
  }

  /** The crops of a row all succeed exactly when the image is empty, or the
      tile width and row height are positive and the row's y lies in the image. */
  lemma RowCropsFit(imageWidth: int, imageHeight: int, tileWidth: int, yStart: int,
                    height: int, scale: real, overlapFactor: real)
    requires Terminates(imageWidth, tileWidth, overlapFactor)
    ensures AllCropsFit(imageWidth, imageHeight,
                        RowTiles(imageWidth, imageHeight, tileWidth, yStart, height, scale, overlapFactor))
            <==> imageWidth <= 0 || (tileWidth > 0 && height > 0 && 0 <= yStart < imageHeight)
  {
    var tiles := RowTiles(imageWidth, imageHeight, tileWidth, yStart, height, scale, overlapFactor);
    if imageWidth > 0 {
      RowTileOrigins(imageWidth, imageHeight, tileWidth, yStart, height, scale, overlapFactor);
      var step := Step(tileWidth, overlapFactor);
      assert |tiles| >= 1 by {
        CeilDivCovers(imageWidth, step);
      }
      RowTileExtents(imageWidth, imageHeight, tileWidth, yStart, height, scale, overlapFactor, 0);
      if tileWidth > 0 && height > 0 && 0 <= yStart < imageHeight {
        forall k | 0 <= k < |tiles| ensures CropFits(imageWidth, imageHeight, tiles[k]) {
          RowTileExtents(imageWidth, imageHeight, tileWidth, yStart, height, scale, overlapFactor, k);
        }
      }
    }
  }

  /** Every row of a plan can be cut: non-zero width (for the scale) and a terminating loop. */
  predicate RowsCuttable(imageWidth: int, rows: seq<TilePlan>) {
    forall i :: 0 <= i < |rows| ==>
      rows[i].width != 0 && Terminates(imageWidth, rows[i].width, rows[i].overlapFactor)
  }

  /** The tiles of one plan row in the image. */
  function TilesOfRow(imageWidth: int, imageHeight: int, row: TilePlan): seq<Tile>
    requires row.width != 0 && Terminates(imageWidth, row.width, row.overlapFactor)
  {
    RowTiles(imageWidth, imageHeight, row.width, row.y, row.height, RowScale(row), row.overlapFactor)
  }

  /** The concatenation of every row's tiles, in plan order. */
  function TilesOfRows(imageWidth: int, imageHeight: int, rows: seq<TilePlan>): seq<Tile>
    requires RowsCuttable(imageWidth, rows)
  {
    if rows == [] then []
    else TilesOfRow(imageWidth, imageHeight, rows[0]) + TilesOfRows(imageWidth, imageHeight, rows[1..])
  }

  /** The rows after the first of a cuttable plan are cuttable. */
  lemma RowsCuttableTail(imageWidth: int, rows: seq<TilePlan>)
    requires rows != [] && RowsCuttable(imageWidth, rows)
    ensures RowsCuttable(imageWidth, rows[1..])
  {
    forall i | 0 <= i < |rows[1..]|
      ensures rows[1..][i].width != 0 && Terminates(imageWidth, rows[1..][i].width, rows[1..][i].overlapFactor)
    {
      assert rows[1..][i] == rows[i + 1];
    }
  }

  /** A row whose crops all succeed: an empty image, or a non-negative step,
      a positive tile width and height and a y inside the image. */
  predicate RowFits(imageWidth: int, imageHeight: int, row: TilePlan) {
    imageWidth <= 0 ||
    (Step(row.width, row.overlapFactor) >= 0 && row.width > 0 && row.height > 0 && 0 <= row.y < imageHeight)
  }

  /** Every row of a plan can be split: non-zero width (for the scale) and a
      loop that ends, normally or by a throw. */
  predicate RowsSplittable(imageWidth: int, imageHeight: int, rows: seq<TilePlan>) {
    forall i :: 0 <= i < |rows| ==>
      rows[i].width != 0 &&
      Halts(imageWidth, imageHeight, rows[i].width, rows[i].y, rows[i].height, RowScale(rows[i]), rows[i].overlapFactor)
  }

  /** A row whose loop ends but not normally always throws. */
  lemma StalledRowFails(imageWidth: int, imageHeight: int, row: TilePlan)
    requires row.width != 0
    requires Halts(imageWidth, imageHeight, row.width, row.y, row.height, RowScale(row), row.overlapFactor)
    requires !Terminates(imageWidth, row.width, row.overlapFactor)
    ensures !RowFits(imageWidth, imageHeight, row)
  {
    TileAtClamps(imageWidth, imageHeight, row.width, row.y, row.height, RowScale(row), 0);
  }

  /** The rows of a splittable plan whose rows all fit have loops that end
      normally, so the plan is cuttable. */
  lemma FittingRowsCuttable(imageWidth: int, imageHeight: int, rows: seq<TilePlan>)
    requires RowsSplittable(imageWidth, imageHeight, rows)
    requires forall i :: 0 <= i < |rows| ==> RowFits(imageWidth, imageHeight, rows[i])
    ensures RowsCuttable(imageWidth, rows)
  {
    forall i | 0 <= i < |rows| ensures Terminates(imageWidth, rows[i].width, rows[i].overlapFactor) {
      if !Terminates(imageWidth, rows[i].width, rows[i].overlapFactor) {
        StalledRowFails(imageWidth, imageHeight, rows[i]);
      }
    }
  }

  /** `SplitAdaptive`: every row's tiles, pooled. It throws when a crop of some
      row falls outside the image. The source runs the rows through an
      unordered parallel query, so only the multiset of tiles is fixed; this
      model lists the rows in plan order. */
  function SplitAdaptive(imageWidth: int, imageHeight: int, rows: seq<TilePlan>): (r: Result<seq<Tile>>)
    requires RowsSplittable(imageWidth, imageHeight, rows)
    ensures r.Fail? <==> exists i :: 0 <= i < |rows| && !RowFits(imageWidth, imageHeight, rows[i])
    ensures r.Fail? ==> r.reason == CropError
    ensures r.Ok? ==> RowsCuttable(imageWidth, rows) && r.value == TilesOfRows(imageWidth, imageHeight, rows)
  {
    if rows == [] then Ok([])
    else
      var row := rows[0];
      assert forall i :: 1 <= i < |rows| ==> rows[i] == rows[1..][i - 1];
      var rest := SplitAdaptive(imageWidth, imageHeight, rows[1..]);
      if !Terminates(imageWidth, row.width, row.overlapFactor) then
        StalledRowFails(imageWidth, imageHeight, row);
        Fail(CropError)
      else
        RowCropsFit(imageWidth, imageHeight, row.width, row.y, row.height, RowScale(row), row.overlapFactor);
        if !AllCropsFit(imageWidth, imageHeight, TilesOfRow(imageWidth, imageHeight, row)) then Fail(CropError)
        else if rest.Fail? then rest
        else
          FittingRowsCuttable(imageWidth, imageHeight, rows);
          Ok(TilesOfRow(imageWidth, imageHeight, row) + rest.value)
  }

  // ---------------------------------------------------------------------------
  // Properties of a row.

  /** Some tile's span [xStart, xEnd) contains column p. */
  predicate Covers(tiles: seq<Tile>, p: int) {
    exists k :: 0 <= k < |tiles| && tiles[k].xStart <= p < XEnd(tiles[k])
  }

  /** The k-th tile from x starts at x + k * step and lies left of the image edge;
      it is the clamped tile at that origin. */
  lemma {:induction false} TilesFromAt(imageWidth: int, imageHeight: int, tileWidth: int, yStart: int,
                                       height: int, scale: real, step: int, x: int, k: int)
    requires step > 0
    requires 0 <= k < |TilesFrom(imageWidth, imageHeight, tileWidth, yStart, height, scale, step, x)|
    ensures var t := TilesFrom(imageWidth, imageHeight, tileWidth, yStart, height, scale, step, x)[k];
            t == TileAt(imageWidth, imageHeight, tileWidth, yStart, height, scale, x + k * step) &&
            x + k * step < imageWidth
    decreases imageWidth - x
  {
    if k > 0 {
      TilesFromAt(imageWidth, imageHeight, tileWidth, yStart, height, scale, step, x + step, k - 1);
      assert x + step + (k - 1) * step == x + k * step;
    }
  }

  /** There are ceil((W - x) / step) tiles from x. */
  lemma {:induction false} TilesFromCount(imageWidth: int, imageHeight: int, tileWidth: int, yStart: int,
                                          height: int, scale: real, step: int, x: int)
    requires step > 0
    ensures |TilesFrom(imageWidth, imageHeight, tileWidth, yStart, height, scale, step, x)|
            == if x >= imageWidth then 0 else (imageWidth - x + step - 1) / step
    decreases imageWidth - x
  {
    if x < imageWidth {
      TilesFromCount(imageWidth, imageHeight, tileWidth, yStart, height, scale, step, x + step);
      var n := imageWidth - x;
      if x + step >= imageWidth {
        DivModUnique(n + step - 1, step, 1, n - 1);
      } else {
        var q := (n - step + step - 1) / step;
        var r := (n - step + step - 1) % step;
        assert n - step + step - 1 == q * step + r;
        DivModUnique(n + step - 1, step, q + 1, r);
      }
    }
  }

  /** The origins of a row's tiles are exactly 0, step, 2 step, ... and all lie
      left of the image edge; there are ceil(W / step) of them, and the next
      origin would not. */
  lemma RowTileOrigins(imageWidth: int, imageHeight: int, tileWidth: int, yStart: int,
                       height: int, scale: real, overlapFactor: real)
    requires Terminates(imageWidth, tileWidth, overlapFactor)
    ensures var r := RowTiles(imageWidth, imageHeight, tileWidth, yStart, height, scale, overlapFactor);
            var step := Step(tileWidth, overlapFactor);
            (imageWidth <= 0 ==> r == []) &&
            (imageWidth > 0 ==>
               |r| == (imageWidth + step - 1) / step &&
               |r| * step >= imageWidth &&
               forall k :: 0 <= k < |r| ==> r[k].xStart == k * step && r[k].xStart < imageWidth)
  {
    if imageWidth > 0 {
      var step := Step(tileWidth, overlapFactor);
      var r := RowTiles(imageWidth, imageHeight, tileWidth, yStart, height, scale, overlapFactor);
      TilesFromCount(imageWidth, imageHeight, tileWidth, yStart, height, scale, step, 0);
      forall k | 0 <= k < |r| ensures r[k].xStart == k * step && r[k].xStart < imageWidth {
        TilesFromAt(imageWidth, imageHeight, tileWidth, yStart, height, scale, step, 0, k);
      }
      CeilDivCovers(imageWidth, step);
    }
  }

  /** ceil(n / d) copies of d reach at least n. */
  lemma CeilDivCovers(n: int, d: int)
    requires n > 0 && d > 0
    ensures ((n + d - 1) / d) * d >= n
  {
    DivModSplit(n + d - 1, d);
  }

  /** Each tile of a row has width `min(Tw, W - x)`, so 1 <= width <= Tw and it
      ends inside the image; it starts at the row's y with height
      `min(rowHeight, H - y)`, which is positive and ends inside the image
      only when the row's y lies above the image's bottom edge, and it
      carries the row's scale. */
  lemma RowTileExtents(imageWidth: int, imageHeight: int, tileWidth: int, yStart: int,
                       height: int, scale: real, overlapFactor: real, k: int)
    requires Terminates(imageWidth, tileWidth, overlapFactor)
    requires 0 <= k < |RowTiles(imageWidth, imageHeight, tileWidth, yStart, height, scale, overlapFactor)|
    ensures var t := RowTiles(imageWidth, imageHeight, tileWidth, yStart, height, scale, overlapFactor)[k];
            t.width == Min(tileWidth, imageWidth - t.xStart) &&
            (tileWidth > 0 ==> 1 <= t.width <= tileWidth) &&
            XEnd(t) <= imageWidth &&
            t.yStart == yStart && t.height == Min(height, imageHeight - yStart) &&
            (height > 0 && yStart < imageHeight ==> 1 <= t.height && YEnd(t) <= imageHeight) &&
            t.scale == scale
  {
    TilesFromAt(imageWidth, imageHeight, tileWidth, yStart, height, scale,
                Step(tileWidth, overlapFactor), 0, k);
  }

  /** For a positive tile width and an overlap in [0, 0.5) the step is at most the tile width. */
  lemma StepAtMostTileWidth(tileWidth: int, overlapFactor: real)
    requires tileWidth > 0 && 0.0 <= overlapFactor < 0.5
    ensures Step(tileWidth, overlapFactor) <= tileWidth
  {
    var a := tileWidth as real * (1.0 - 2.0 * overlapFactor);
    var b := tileWidth as real * overlapFactor;
    assert a >= 0.0 && b >= 0.0;
    TruncBounds(a);
    TruncBounds(b);
    assert a + b == tileWidth as real * (1.0 - overlapFactor);
    assert a + b <= tileWidth as real;
  }

  lemma {:induction false} TilesFromCover(imageWidth: int, imageHeight: int, tileWidth: int, yStart: int,
                                          height: int, scale: real, step: int, x: int, p: int)
    requires 0 < step <= tileWidth
    requires x <= p < imageWidth
    ensures Covers(TilesFrom(imageWidth, imageHeight, tileWidth, yStart, height, scale, step, x), p)
    decreases imageWidth - x
  {
    var r := TilesFrom(imageWidth, imageHeight, tileWidth, yStart, height, scale, step, x);
    assert r == [TileAt(imageWidth, imageHeight, tileWidth, yStart, height, scale, x)]
                + TilesFrom(imageWidth, imageHeight, tileWidth, yStart, height, scale, step, x + step);
    if p < x + step {
      assert r[0].xStart <= p < XEnd(r[0]);
    } else {
      TilesFromCover(imageWidth, imageHeight, tileWidth, yStart, height, scale, step, x + step, p);
      var r' := TilesFrom(imageWidth, imageHeight, tileWidth, yStart, height, scale, step, x + step);
      var k :| 0 <= k < |r'| && r'[k].xStart <= p < XEnd(r'[k]);
      assert r[k + 1] == r'[k];
      assert r[k + 1].xStart <= p < XEnd(r[k + 1]);
    }
  }

  /** With a validated tile width and overlap, the spans [x, x + width) of a
      row's tiles leave no gap in [0, W). */
  lemma RowTilesCover(imageWidth: int, imageHeight: int, tileWidth: int, yStart: int,
                      height: int, scale: real, overlapFactor: real, p: int)
    requires tileWidth > 0 && 0.0 <= overlapFactor < 0.5
    requires Terminates(imageWidth, tileWidth, overlapFactor)
    requires 0 <= p < imageWidth
    ensures Covers(RowTiles(imageWidth, imageHeight, tileWidth, yStart, height, scale, overlapFactor), p)
  {
    StepAtMostTileWidth(tileWidth, overlapFactor);
    TilesFromCover(imageWidth, imageHeight, tileWidth, yStart, height, scale,
                   Step(tileWidth, overlapFactor), 0, p);
    assert RowTiles(imageWidth, imageHeight, tileWidth, yStart, height, scale, overlapFactor)
        == TilesFrom(imageWidth, imageHeight, tileWidth, yStart, height, scale, Step(tileWidth, overlapFactor), 0);
  }

  /** The worked example: a 1000 x 500 image and one row of 600-pixel tiles with
      overlap 0.1 step by 480 + 60 = 540 and give two tiles, at 0 (600 wide)
      and at 540 (460 wide). */
  lemma TwoTileExample()
    ensures Step(600, 0.1) == 540
    ensures RowTiles(1000, 500, 600, 0, 500, 1.0, 0.1)
            == [Tile(0, 0, 600, 500, 1.0), Tile(540, 0, 460, 500, 1.0)]
  {
    assert Trunc(600.0 * (1.0 - 2.0 * 0.1)) == 480;
    assert Trunc(600.0 * 0.1) == 60;
    assert TilesFrom(1000, 500, 600, 0, 500, 1.0, 540, 1080) == [];
    assert TilesFrom(1000, 500, 600, 0, 500, 1.0, 540, 540) == [Tile(540, 0, 460, 500, 1.0)];
  }

  /** A one-pixel tile width with overlap 0.25 has step zero: a row that the
      configuration validator accepts makes the loop run forever when its
      first tile fits, here a 1 x 10 tile at the top of a 1 x 100 image. */
  lemma NarrowRowStalls()
    ensures Step(1, 0.25) == 0
    ensures !Halts(1, 100, 1, 0, 10, 1.0, 0.25)
  {
    assert Trunc(1.0 * (1.0 - 2.0 * 0.25)) == 0;
    assert Trunc(1.0 * 0.25) == 0;
  }

  /** With step zero the loop still ends when its first crop throws: the same
      one-pixel row placed below a 500-high image fails at x = 0. */
  lemma NarrowRowBelowImageThrows()
    ensures var row := TilePlan(600, 10, 1, 0.25, 1, None, None);
            RowsSplittable(1000, 500, [row]) && SplitAdaptive(1000, 500, [row]) == Fail(CropError)
  {
    var row := TilePlan(600, 10, 1, 0.25, 1, None, None);
    assert Trunc(1.0 * (1.0 - 2.0 * 0.25)) == 0;
    assert Trunc(1.0 * 0.25) == 0;
    assert !CropFits(1000, 500, TileAt(1000, 500, 1, 600, 10, RowScale(row), 0));
    assert RowsSplittable(1000, 500, [row]);
    assert !RowFits(1000, 500, [row][0]);
  }

  /** A row placed below the bottom of the uploaded image: the first crop
      throws, though the plan only states the image size it expects. */
  lemma RowBelowImageThrows()
    ensures var row := TilePlan(600, 100, 600, 0.1, 600, None, None);
            SplitAdaptive(1000, 500, [row]) == Fail(CropError)
  {
    var row := TilePlan(600, 100, 600, 0.1, 600, None, None);
    assert Trunc(600.0 * (1.0 - 2.0 * 0.1)) == 480;
    assert Trunc(600.0 * 0.1) == 60;
    assert RowsCuttable(1000, [row]);
    var r := SplitAdaptive(1000, 500, [row]);
    assert !RowFits(1000, 500, [row][0]);
    assert r.Fail?;
  }

  // ---------------------------------------------------------------------------
  // Properties of a whole plan.

  /** A tile is among the plan's tiles exactly when it is a tile of one of the
      plan's rows, and the output's multiset is the sum of the rows' multisets. */
  lemma {:induction false} SplitAdaptiveIsUnionOfRows(imageWidth: int, imageHeight: int,
                                                      rows: seq<TilePlan>, t: Tile)
    requires RowsCuttable(imageWidth, rows)
    ensures t in TilesOfRows(imageWidth, imageHeight, rows) <==>
            exists i :: 0 <= i < |rows| && t in TilesOfRow(imageWidth, imageHeight, rows[i])
    ensures rows != [] ==>
            multiset(TilesOfRows(imageWidth, imageHeight, rows))
            == multiset(TilesOfRow(imageWidth, imageHeight, rows[0]))
               + multiset(TilesOfRows(imageWidth, imageHeight, rows[1..]))
  {
    if rows != [] {
      RowsCuttableTail(imageWidth, rows);
      SplitAdaptiveIsUnionOfRows(imageWidth, imageHeight, rows[1..], t);
      if t in TilesOfRows(imageWidth, imageHeight, rows[1..]) {
        var i :| 0 <= i < |rows[1..]| && t in TilesOfRow(imageWidth, imageHeight, rows[1..][i]);
        assert rows[1..][i] == rows[i + 1];
      }
      if exists i :: 0 <= i < |rows| && t in TilesOfRow(imageWidth, imageHeight, rows[i]) {
        var i :| 0 <= i < |rows| && t in TilesOfRow(imageWidth, imageHeight, rows[i]);
        if i > 0 {
          assert rows[1..][i - 1] == rows[i];
        }
      }
    }
  }

  /** Every tile of a plan has the scale `ScaleWidth / Width` of some row whose
      y it starts at. */
  lemma SplitAdaptiveScales(imageWidth: int, imageHeight: int, rows: seq<TilePlan>, t: Tile)
    requires RowsCuttable(imageWidth, rows)
    requires t in TilesOfRows(imageWidth, imageHeight, rows)
    ensures exists i :: 0 <= i < |rows| && t.scale == RowScale(rows[i]) && t.yStart == rows[i].y
  {
    SplitAdaptiveIsUnionOfRows(imageWidth, imageHeight, rows, t);
    var i :| 0 <= i < |rows| && t in TilesOfRow(imageWidth, imageHeight, rows[i]);
    var r := TilesOfRow(imageWidth, imageHeight, rows[i]);
    var k :| 0 <= k < |r| && r[k] == t;
    RowTileExtents(imageWidth, imageHeight, rows[i].width, rows[i].y, rows[i].height,
                   RowScale(rows[i]), rows[i].overlapFactor, k);
  }
}
