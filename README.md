# DynamicTileFlow core, modelled in Dafny

DynamicTileFlow is an HTTP service for object detection on large images. A tile
plan cuts the image into rows of overlapping tiles. Each tile goes to the
detection backend the load balancer picks: a CodeProjectAI server, or a tensor
server to which the service sends a batch x channel x height x width tensor and
whose YOLO-style output tensor it decodes. The detections are mapped back from
tile coordinates onto the full image, clamped to a 10-pixel margin, flattened
and merged per label by non-maximum suppression. Every backend keeps
statistics: calls in flight, a moving average of its round-trip time,
activity, and the time it last answered. On these the balancer orders the
active servers, and a health sweep probes the inactive ones.

This project models the logic between the HTTP layer and the pixel work:

- `dynamic_processor.dfy`: the row tiler's geometry.
- `nms.dfy`: intersection over union and the three suppression variants.
- `boxes.dfy`, `detection_result.dfy`, `json_detection_result.dfy`: the
  detection record and its in-place coordinate edits.
  - Both copies of `DetectionResult` are classes over one `Detection` value.
- `detection_mapper.dfy`: the tile-to-image mapping.
- `ai_server.dfy`: the server statistics as a class.
- `ai_server_list.dfy`: the balancer's selection rule and the sweep's
  eligibility test.
- `tensor_processor.dfy`: tensor layout, flattening and decoding.
- `tensor_server.dfy`: the tensor backend's validation and its batch
  back-mapping.
- `detection_controller.dfy`: the controller's post-processing:
  - the interval-union time measure;
  - the per-tile filter, stamp and map;
  - the `dynamic-tiler` endpoint's assembly.
- `program.dfy`: start-up validation and server construction.

`numeric.dfy`, `sequences.dfy` and `wrappers.dfy` hold helpers:
- truncation toward zero for the C# `(int)` cast;
- the C# integer division;
- subsequences;
- `Option`/`Result`.

Floats are reals. Backend calls, clocks and probes are parameters: a call's
outcome (it threw, it returned null, or it returned a response), the elapsed
milliseconds, and the time it ended.

Where the code does something a reader might not expect, the model follows
it:

- `IoU` is total. A union area of zero gives NaN, or an infinity, as the float
  division does. NaN compares false with every threshold, so such a box is
  suppressed (`NMS.NmsSuppressesOnNaN`).
- `MaximumSuppressionByName` never updates `Y_max`, because `X_max` is
  assigned twice. Its merge group excludes `current`, so a box can shrink to
  its group (`NMS.MergeShrinksToGroup`).
- The row tiler's loop does not end when the step is zero and the row's first
  tile fits the image. Start-up validation accepts such a plan
  (`Startup.AcceptedPlanMayStall`). With step zero and a first tile outside the
  image, the first crop throws and the request fails
  (`DynamicProcessor.NarrowRowBelowImageThrows`).
- A plan's rows are never compared with the uploaded image. A row at or below the image's bottom edge makes the crop throw, and the request fails (`DynamicProcessor.RowBelowImageThrows`).
- `InferenceMs` is always 0, because the list of call intervals is never
  filled.

## Model

| member | source | states |
|---|---|---|
| Boxes.Shift | DynamicTileFlow/Classes/JSON/DetectionResult.cs:17-23 | translating a box moves all four corners, keeps its width and height, and touches no other field |
| Boxes.Rescale | DynamicTileFlow/Classes/JSON/DetectionResult.cs:24-30 | scaling touches only the coordinates |
| Boxes.ShiftThenRescale | DynamicTileFlow/Classes/JSON/DetectionResult.cs:31-35 | offset-then-scale touches only the coordinates |
| Boxes.ShiftInverse | DynamicTileFlow/Classes/DetectionResult.cs:17-23 | `Offset(-dx, -dy)` after `Offset(dx, dy)` restores the detection |
| Boxes.ShiftCompose | DynamicTileFlow/Classes/DetectionResult.cs:17-23 | two offsets compose into one offset by the sum |
| Boxes.RescaleByInteger | DynamicTileFlow/Classes/DetectionResult.cs:24-30 | scaling by an integral factor multiplies every coordinate exactly |
| Boxes.ShiftThenRescaleIdentity | DynamicTileFlow/Classes/DetectionResult.cs:31-35 | offset 0 and scale 1 leave the detection unchanged |
| Boxes.RescaleKeepsOrder | DynamicTileFlow/Classes/DetectionResult.cs:24-30 | a non-negative scale keeps the corners of an ordered box in order |
| DetectionResults.DetectionResult.constructor | DynamicTileFlow/Classes/DetectionResult.cs:7-14 | the object holds the given field values |
| DetectionResults.DetectionResult.Offset | DynamicTileFlow/Classes/DetectionResult.cs:17-23 | the new value is the old one translated by (dx, dy) |
| DetectionResults.DetectionResult.Scale | DynamicTileFlow/Classes/DetectionResult.cs:24-30 | each coordinate becomes `(int)(v * scaleBy)` truncated toward zero, other fields unchanged |
| DetectionResults.DetectionResult.OffsetAndScale | DynamicTileFlow/Classes/DetectionResult.cs:31-35 | the offset is applied first and then scaled, so x becomes `(int)((x + dx) * s)` |
| JsonDetectionResults.DetectionResult.constructor | DynamicTileFlow/Classes/JSON/DetectionResult.cs:7-14 | the object holds the given field values |
| JsonDetectionResults.DetectionResult.Offset | DynamicTileFlow/Classes/JSON/DetectionResult.cs:17-23 | the new value is the old one translated by (dx, dy) |
| JsonDetectionResults.DetectionResult.Scale | DynamicTileFlow/Classes/JSON/DetectionResult.cs:24-30 | each coordinate becomes `(int)(v * scaleBy)`, other fields unchanged |
| JsonDetectionResults.DetectionResult.OffsetAndScale | DynamicTileFlow/Classes/JSON/DetectionResult.cs:31-35 | `Offset` then `Scale` |
| DetectionMapper.MapToFullImage | DynamicTileFlow/Classes/DetectionMapper.cs:10-40 | a fresh detection with the input's confidence, label, batch and server. Each corner is `(int)(v * (1 / scale))` plus the tile origin, then clamped one-sided: the minima to at least 10, the maxima to at most W - 10 and H - 10 |
| DetectionMapper.MapAllToFullImage | DynamicTileFlow/Classes/DetectionMapper.cs:45-57 | the result has the input's length and order; element i is the mapping of detection i |
| DetectionMapper.UnscaleAtUnitScale | DynamicTileFlow/Classes/DetectionMapper.cs:25-31 | at scale 1 a corner moves only by the tile origin |
| DetectionMapper.MapAtUnitScale | DynamicTileFlow/Classes/DetectionMapper.cs:25-37 | at scale 1 each corner is its clamp of the corner plus the origin, e.g. `max(10, x_min + XStart)` |
| DetectionMapper.MapKeepsBoxInsideMargins | DynamicTileFlow/Classes/DetectionMapper.cs:25-37 | through a unit tile at the origin, a box already inside the margins is unchanged |
| DetectionMapper.MapIdempotentAtOrigin | DynamicTileFlow/Classes/DetectionMapper.cs:34-37 | through such a tile, mapping twice equals mapping once |
| DetectionMapper.UnscaleInverse | DynamicTileFlow/Classes/DetectionMapper.cs:25-31 | unscaling a tile shrunk by an integral k multiplies by k exactly |
| DetectionMapper.MapUndoesIntegralShrink | DynamicTileFlow/Classes/DetectionMapper.cs:25-37 | a box of a tile shrunk by k maps to k times its corners plus the origin, then clamped |
| DetectionMapper.MapCanInvertBox | DynamicTileFlow/Classes/DetectionMapper.cs:34-37 | the one-sided clamps can turn a box in the left margin inside out (x_min > x_max) |
| DynamicProcessor.TileAt | DynamicTileFlow/Classes/DynamicTiler/DynamicProcessor.cs:47-73 | defines one tile: origin x and the row's y, width `min(Tw, W - x)`, height `min(rowHeight, H - y)`, the row's scale; `TileAtClamps` states its bounds |
| DynamicProcessor.TileAtClamps | DynamicTileFlow/Classes/DynamicTiler/DynamicProcessor.cs:47-73 | a tile keeps its origin and scale, ends inside the image, and is full-size unless the right or bottom edge cuts it |
| DynamicProcessor.RowTiles | DynamicTileFlow/Classes/DynamicTiler/DynamicProcessor.cs:41-76 | defines a row's tile rectangles: one per origin 0, step, 2 step, ... below W; its properties are in `RowTileOrigins`, `RowTileExtents` and `RowTilesCover` |
| DynamicProcessor.CropFits | DynamicTileFlow/Classes/DynamicTiler/DynamicProcessor.cs:51-56 | defines when `Crop` succeeds: a non-empty rectangle inside the image |
| DynamicProcessor.Halts | DynamicTileFlow/Classes/DynamicTiler/DynamicProcessor.cs:41-56 | defines when the row loop ends, normally or by a throw: a positive step or an empty image, a negative step (the second crop starts left of the image), or a first crop that throws |
| DynamicProcessor.CropAndSplitWithOverlap | DynamicTileFlow/Classes/DynamicTiler/DynamicProcessor.cs:30-76 | on every row whose loop ends: with a positive step, the loop throws (Fail with `CropError`) exactly when some tile of the row cannot be cropped from the image, and otherwise returns exactly the row's tiles (`RowTiles`); with a zero or negative step it always throws |
| DynamicProcessor.RowCropsFit | DynamicTileFlow/Classes/DynamicTiler/DynamicProcessor.cs:45-56 | every crop of a row succeeds exactly when the image is empty, or the tile width and row height are positive and 0 <= Y < H |
| DynamicProcessor.RowBelowImageThrows | DynamicTileFlow/Classes/DynamicTiler/DynamicProcessor.cs:49-56 | a row at Y 600 of a 500-pixel-high image makes `SplitAdaptive` throw |
| DynamicProcessor.TilesFromAt | DynamicTileFlow/Classes/DynamicTiler/DynamicProcessor.cs:45-49 | the k-th tile from x starts at x + k * step, left of the image edge, with clamped width and height |
| DynamicProcessor.TilesFromCount | DynamicTileFlow/Classes/DynamicTiler/DynamicProcessor.cs:45 | there are ceil((W - x) / step) tiles from x |
| DynamicProcessor.RowTileOrigins | DynamicTileFlow/Classes/DynamicTiler/DynamicProcessor.cs:41-45 | with `step = (int)(Tw * (1 - 2f)) + (int)(Tw * f)`, tile i starts at i * step < W, and a row has ceil(W / step) tiles |
| DynamicProcessor.RowTileExtents | DynamicTileFlow/Classes/DynamicTiler/DynamicProcessor.cs:48-73 | a tile's width is `min(Tw, W - x)`, so 1 <= width <= Tw and XEnd <= W. YStart is the row's Y and the height `min(rowHeight, H - Y)`, which is at least 1 with YEnd <= H when the row height is positive and Y < H. The scale is the row's scale |
| DynamicProcessor.StepAtMostTileWidth | DynamicTileFlow/Classes/DynamicTiler/DynamicProcessor.cs:41-42 | for Tw > 0 and overlap in [0, 0.5) the step is at most Tw |
| DynamicProcessor.TilesFromCover | DynamicTileFlow/Classes/DynamicTiler/DynamicProcessor.cs:41-48 | with 0 < step <= Tw the tiles from x cover every column from x to W - 1 |
| DynamicProcessor.RowTilesCover | DynamicTileFlow/Classes/DynamicTiler/DynamicProcessor.cs:41-48 | for a validated row, the spans [x, XEnd) cover [0, W) with no gap |
| DynamicProcessor.TwoTileExample | DynamicTileFlow/Classes/DynamicTiler/DynamicProcessor.cs:41-73 | a 1000-pixel image with 600-pixel tiles at overlap 0.1 has step 540, giving tiles at 0 (width 600) and 540 (width 460) |
| DynamicProcessor.NarrowRowStalls | DynamicTileFlow/Classes/DynamicTiler/DynamicProcessor.cs:41-56 | width 1 with overlap 0.25 gives step 0; when its first tile fits (a 1 x 10 tile at the top of a 1 x 100 image) the loop does not end |
| DynamicProcessor.NarrowRowBelowImageThrows | DynamicTileFlow/Classes/DynamicTiler/DynamicProcessor.cs:41-56 | the same step-0 row at Y 600 of a 1000 x 500 image is handled, and `SplitAdaptive` throws at the first crop |
| DynamicProcessor.SplitAdaptive | DynamicTileFlow/Classes/DynamicTiler/DynamicProcessor.cs:14-29 | for rows whose loops end, it throws (Fail with `CropError`) exactly when some row does not fit the image (`RowFits`); otherwise every row's loop ends normally and the result is the tiles of all rows (`TilesOfRows`) |
| DynamicProcessor.TilesOfRows | DynamicTileFlow/Classes/DynamicTiler/DynamicProcessor.cs:16-26 | defines the pooled tiles: each row's tiles, rows in plan order |
| DynamicProcessor.RowFits | DynamicTileFlow/Classes/DynamicTiler/DynamicProcessor.cs:41-56 | defines a row whose crops succeed: an empty image, or a non-negative step, positive tile width and height, and 0 <= Y < H |
| DynamicProcessor.StalledRowFails | DynamicTileFlow/Classes/DynamicTiler/DynamicProcessor.cs:41-56 | a row whose loop ends without a positive step does not fit: its first or second crop throws |
| DynamicProcessor.FittingRowsCuttable | DynamicTileFlow/Classes/DynamicTiler/DynamicProcessor.cs:41-56 | when every row of a plan fits, every row's loop ends normally |
| DynamicProcessor.StepNonNegative | DynamicTileFlow/Classes/DynamicTiler/DynamicProcessor.cs:41-42 | a positive tile width and an overlap in [0, 0.5) give a step of at least 0 |
| DynamicProcessor.SplitAdaptiveIsUnionOfRows | DynamicTileFlow/Classes/DynamicTiler/DynamicProcessor.cs:14-29 | a tile is among the plan's tiles exactly when it is a tile of one of the rows; the multiset is the sum of the rows' |
| DynamicProcessor.SplitAdaptiveScales | DynamicTileFlow/Classes/DynamicTiler/DynamicProcessor.cs:24 | every tile carries `ScaleWidth / Width` and the Y of some row |
| NMS.IoU | DynamicTileFlow/Classes/NMS.cs:91-106 | defines IoU as the float quotient of intersection and union area, NaN or an infinity when the union is 0; its properties are in the lemmas below |
| NMS.IoUSymmetric | DynamicTileFlow/Classes/NMS.cs:91-106 | `IoU(a, b) == IoU(b, a)` |
| NMS.IoUSelf | DynamicTileFlow/Classes/NMS.cs:91-106 | a box of positive area has IoU 1 with itself |
| NMS.IoUApart | DynamicTileFlow/Classes/NMS.cs:98-105 | boxes not intersecting have IoU 0, or NaN when the union is empty too |
| NMS.InterAreaBounded | DynamicTileFlow/Classes/NMS.cs:93-103 | the intersection of well-formed boxes is no larger than either box |
| NMS.IoURange | DynamicTileFlow/Classes/NMS.cs:98-105 | for well-formed boxes IoU is in [0, 1], or NaN exactly when both boxes have zero area |
| NMS.SortByConfidence | DynamicTileFlow/Classes/NMS.cs:12 | `OrderByDescending(Confidence)` is a permutation in non-increasing confidence order |
| NMS.InsertAddsOne | DynamicTileFlow/Classes/NMS.cs:12 | one insertion step of the sort adds exactly the inserted box |
| NMS.InsertSorted | DynamicTileFlow/Classes/NMS.cs:12 | inserting into a sorted list keeps it sorted |
| NMS.InsertStable | DynamicTileFlow/Classes/NMS.cs:12 | insertion puts the box before every box of equal confidence, so inserting each head into the sorted tail keeps input order |
| NMS.SortStable | DynamicTileFlow/Classes/NMS.cs:12 | the sort is stable: boxes of equal confidence keep their input order |
| NMS.SubseqWithConfidence | DynamicTileFlow/Classes/NMS.cs:12-22 | restricting to one confidence preserves the subsequence relation |
| NMS.SubseqSorted | DynamicTileFlow/Classes/NMS.cs:12-22 | a subsequence of a sorted list is sorted |
| NMS.KeepBelow | DynamicTileFlow/Classes/NMS.cs:21 | the filter keeps exactly the boxes whose IoU with `current` is below the threshold |
| NMS.KeepBelowSubseq | DynamicTileFlow/Classes/NMS.cs:21 | the filter keeps boxes in order |
| NMS.Nms | DynamicTileFlow/Classes/NMS.cs:7-25 | defines global suppression: sort by confidence, then keep the head and drop the boxes overlapping it, repeatedly; its meaning is in `NmsSelectsInOrder`, `NmsPairwise` and `NmsDropped` |
| NMS.NonMaximumSuppression | DynamicTileFlow/Classes/NMS.cs:7-25 | the loop's result is `Nms(boxes, iouThreshold)` |
| NMS.SuppressStep | DynamicTileFlow/Classes/NMS.cs:14-22 | one loop round keeps the head, shrinks the list, and leaves the same final result |
| NMS.SuppressSortedSubseq | DynamicTileFlow/Classes/NMS.cs:14-22 | the suppression loop keeps a subsequence of its input |
| NMS.NmsSelectsInOrder | DynamicTileFlow/Classes/NMS.cs:7-25 | each output box is an input box used at most once; the output is no longer than the input, sorted by confidence, stable for ties |
| NMS.SuppressSortedPairwise | DynamicTileFlow/Classes/NMS.cs:14-22 | every kept box has IoU below the threshold with every later kept box |
| NMS.NmsPairwise | DynamicTileFlow/Classes/NMS.cs:14-22 | no two output boxes have IoU at or above the threshold, in either order |
| NMS.SuppressSortedDropped | DynamicTileFlow/Classes/NMS.cs:14-22 | every dropped box overlaps a kept box of at least its confidence (IoU not below the threshold) |
| NMS.NmsDropped | DynamicTileFlow/Classes/NMS.cs:14-22 | every dropped input box overlaps a kept box of equal or higher confidence |
| NMS.WithLabelSpec | DynamicTileFlow/Classes/NMS.cs:32 | `Where(Label == label)` keeps only input boxes, and only boxes with the label |
| NMS.WithLabelCount | DynamicTileFlow/Classes/NMS.cs:32 | it keeps every copy of every box with the label |
| NMS.WithLabelConcat | DynamicTileFlow/Classes/NMS.cs:32 | the filter distributes over concatenation |
| NMS.WithLabelUniform | DynamicTileFlow/Classes/NMS.cs:32 | a list of one label is kept whole for that label and dropped for any other |
| NMS.FirstIndex | DynamicTileFlow/Classes/NMS.cs:30 | the index of a label's first appearance |
| NMS.DistinctFrom | DynamicTileFlow/Classes/NMS.cs:30 | the labels first appearing at or after i, in order of first appearance |
| NMS.DistinctFromHas | DynamicTileFlow/Classes/NMS.cs:30 | every label first appearing at or after i is listed |
| NMS.DistinctLabelsSpec | DynamicTileFlow/Classes/NMS.cs:30 | `Select(Label).Distinct()` lists each present label once, in order of first appearance, and no other |
| NMS.SuppressEachLabel | DynamicTileFlow/Classes/NMS.cs:30-43 | the label loop produces each label's suppression, concatenated |
| NMS.NmsPerLabelAppend | DynamicTileFlow/Classes/NMS.cs:34-43 | one more label appends that label's suppression to the result |
| NMS.NmsByName | DynamicTileFlow/Classes/NMS.cs:26-46 | defines per-label suppression: `Nms` of each distinct label's boxes, concatenated in order of first appearance; its meaning is in `NmsByNameIsolatesLabels`, `NmsByNameGrouped` and `NmsByNameSelects` |
| NMS.NonMaximumSuppressionByName | DynamicTileFlow/Classes/NMS.cs:26-46 | the method's result is `NmsByName(boxes, iouThreshold)` |
| NMS.NmsMembers | DynamicTileFlow/Classes/NMS.cs:7-25 | every output box is an input box |
| NMS.NmsOfLabel | DynamicTileFlow/Classes/NMS.cs:32-42 | suppressing one label's boxes yields only boxes of that label |
| NMS.NmsPerLabelIsolates | DynamicTileFlow/Classes/NMS.cs:30-43 | restricted to a label l, the per-label concatenation is l's suppression when l is listed, else empty |
| NMS.NmsByNameIsolatesLabels | DynamicTileFlow/Classes/NMS.cs:26-46 | restricted to any label, the result equals global suppression of that label's boxes: one label never suppresses another |
| NMS.NmsPerLabelGrouped | DynamicTileFlow/Classes/NMS.cs:30-43 | the output comes in label groups, in the given order of first appearance |
| NMS.NmsByNameGrouped | DynamicTileFlow/Classes/NMS.cs:26-46 | the output is grouped by label, groups in order of each label's first appearance |
| NMS.NmsByNameSelects | DynamicTileFlow/Classes/NMS.cs:26-46 | each output box is an input box used at most once, and the output is no longer than the input |
| NMS.OverlapGroup | DynamicTileFlow/Classes/NMS.cs:62-63 | the group is exactly the remaining boxes with IoU above 0.66 with `current`, so not `current` itself |
| NMS.DropNearDuplicates | DynamicTileFlow/Classes/NMS.cs:77 | `RemoveAll` keeps exactly the boxes whose IoU is not above 0.85 |
| NMS.DropNearDuplicatesSubseq | DynamicTileFlow/Classes/NMS.cs:77 | the removal keeps the rest in order |
| NMS.MinXMin | DynamicTileFlow/Classes/NMS.cs:67 | the group's smallest `X_min`, attained by a member |
| NMS.MinYMin | DynamicTileFlow/Classes/NMS.cs:68 | the group's smallest `Y_min`, attained by a member |
| NMS.MaxXMax | DynamicTileFlow/Classes/NMS.cs:69 | the group's largest `X_max`, attained by a member |
| NMS.MaxConfidence | DynamicTileFlow/Classes/NMS.cs:71 | the group's largest confidence, attained by a member |
| NMS.Absorb | DynamicTileFlow/Classes/NMS.cs:78-82 | the updated box takes the group's X_min, Y_min and X_max and its maximum confidence. Y_max and the other fields are kept |
| NMS.MergeSorted | DynamicTileFlow/Classes/NMS.cs:56-85 | defines the merge loop on a sorted list: emit the head absorbed into its overlap group, drop the near-duplicates, repeat; `MergeHead` states one round |
| NMS.MergeOfLabel | DynamicTileFlow/Classes/NMS.cs:54-85 | defines one label's merge: `MergeSorted` of the label's boxes sorted by confidence |
| NMS.MergeLabel | DynamicTileFlow/Classes/NMS.cs:54-85 | the merge loop for one label yields `MergeOfLabel` |
| NMS.MergeEachLabel | DynamicTileFlow/Classes/NMS.cs:52-86 | the label loop yields each label's merge, concatenated |
| NMS.MergePerLabelAppend | DynamicTileFlow/Classes/NMS.cs:56-86 | one more label appends that label's merge to the result |
| NMS.MergeByName | DynamicTileFlow/Classes/NMS.cs:48-89 | defines the merge variant: each distinct label's merge, concatenated; its meaning is in `MergeByNameIsolatesLabels`, `MergeByNameDescends` and `MergeByNameLength` |
| NMS.MaximumSuppressionByName | DynamicTileFlow/Classes/NMS.cs:48-89 | the method's result is `MergeByName(boxes)`; the threshold argument is ignored |
| NMS.MergeHead | DynamicTileFlow/Classes/NMS.cs:56-85 | with an empty group the head is emitted unchanged. Otherwise it is emitted absorbed into its group, with Y_max kept and confidence no higher, and exactly the later boxes of IoU above 0.85 are removed |
| NMS.MergeSortedDescends | DynamicTileFlow/Classes/NMS.cs:56-85 | on a sorted list the merge emits at most one box per input box, each descending from an input box |
| NMS.MergeOfLabelDescends | DynamicTileFlow/Classes/NMS.cs:54-85 | a label's merge emits no more boxes than the label has, all of that label |
| NMS.MergePerLabelIsolates | DynamicTileFlow/Classes/NMS.cs:52-86 | restricted to a listed label, the concatenation is that label's merge |
| NMS.MergeByNameIsolatesLabels | DynamicTileFlow/Classes/NMS.cs:48-89 | labels are merged independently |
| NMS.MergeByNameDescends | DynamicTileFlow/Classes/NMS.cs:48-89 | every output box has an input box's label, batch, server and Y_max, at no higher confidence |
| NMS.MergedBoxDescends | DynamicTileFlow/Classes/NMS.cs:48-89 | each output box descends from some input box |
| NMS.MergedBoxOfItsLabel | DynamicTileFlow/Classes/NMS.cs:52-86 | each output box belongs to the merge of its own label |
| NMS.LabelMergeDescends | DynamicTileFlow/Classes/NMS.cs:54-85 | a box of one label's merge descends from an input box |
| NMS.WithLabelsCount | DynamicTileFlow/Classes/NMS.cs:52-54 | the boxes of distinct labels are the input's boxes of those labels, as often as in the input |
| NMS.MergePerLabelLength | DynamicTileFlow/Classes/NMS.cs:52-86 | the per-label merge is no longer than the boxes of the labels |
| NMS.MergeByNameLength | DynamicTileFlow/Classes/NMS.cs:48-89 | the merge never emits more boxes than it was given |
| NMS.PairLabels | DynamicTileFlow/Classes/NMS.cs:52 | two boxes of one label have that label as their only distinct label |
| NMS.PairWithLabel | DynamicTileFlow/Classes/NMS.cs:54 | both boxes of that label are selected, in order |
| NMS.PairSorted | DynamicTileFlow/Classes/NMS.cs:54 | two boxes already in non-increasing confidence stay in order |
| NMS.PairMerge | DynamicTileFlow/Classes/NMS.cs:52-56 | two ordered boxes of one label are merged as they stand |
| NMS.PairMergeOverlapping | DynamicTileFlow/Classes/NMS.cs:62-83 | a second box of IoU above 0.66 joins the group; it stays when its IoU is at most 0.85 and is removed otherwise |
| NMS.MergeKeepsModerateOverlap | DynamicTileFlow/Classes/NMS.cs:62-83 | at IoU 0.8 both boxes are emitted, the first with the second's confidence |
| NMS.MergeShrinksToGroup | DynamicTileFlow/Classes/NMS.cs:62-83 | at IoU 0.9 the first box takes the second's X_min, since the group excludes `current` |
| NMS.MergeKeepsOwnYMax | DynamicTileFlow/Classes/NMS.cs:78-82 | the merged box keeps its own Y_max although the absorbed box reaches lower |
| NMS.NmsSuppressesOnNaN | DynamicTileFlow/Classes/NMS.cs:14-22 | two disjoint zero-width boxes have IoU NaN, and the less confident one is suppressed |
| AIServers.AIServer.constructor | DynamicTileFlow/Classes/Servers/AIServer.cs:27-38 | a new server is active, with no call in flight, no average, no calls and no last-active time, and holds the given settings |
| AIServers.AIServer.WebTestURL | DynamicTileFlow/Classes/Servers/AIServer.cs:18 | the scheme is "https" exactly when the server uses SSL, and it is followed by "://", the host, ":" and the port |
| AIServers.AIServer.ServiceUrl | DynamicTileFlow/Classes/Servers/AIServer.cs:17 | `ServiceUrl` is `WebTestURL` followed by the endpoint |
| AIServers.AIServer.IncrementActiveCalls | DynamicTileFlow/Classes/Servers/AIServer.cs:99 | calls in flight go up by one, nothing else changes |
| AIServers.AIServer.DecrementActiveCalls | DynamicTileFlow/Classes/Servers/AIServer.cs:100 | calls in flight go down by one, nothing else changes |
| AIServers.AIServer.Activate | DynamicTileFlow/Classes/Servers/AIServer.cs:101-105 | active, last active at `now` |
| AIServers.AIServer.Deactivate | DynamicTileFlow/Classes/Servers/AIServer.cs:106-111 | inactive, average and its call count 0 |
| AIServers.AIServer.AddRoundTripStat | DynamicTileFlow/Classes/Servers/AIServer.cs:112-123 | the average becomes the sample when it was 0, else `(int)((1 - a) * avg + a * ms)`. `TotalCalls` goes up by one |
| AIServers.NextAverage | DynamicTileFlow/Classes/Servers/AIServer.cs:112-121 | defines the moving average: the sample when the average is 0, else the truncated weighted mean; bounded by `NextAverageBetween` |
| AIServers.WithRoundTrip | DynamicTileFlow/Classes/Servers/AIServer.cs:112-123 | defines the statistics after `AddRoundTripStat`: the next average and one more call |
| AIServers.AfterSend | DynamicTileFlow/Classes/Servers/AIServer.cs:41-64 | defines the statistics after a request for each outcome; `SendOutcomes` and `SendKeepsNonNegative` state its cases |
| AIServers.AfterProbe | DynamicTileFlow/Classes/Servers/AIServer.cs:124-146 | defines the statistics after a status probe; `ProbeDecidesActivity` states it |
| AIServers.AIServer.Call | DynamicTileFlow/Classes/Servers/AIServer.cs:41-66 | the shared body of `SendRequest`: the state afterwards is `AfterSend`, the response is the call's response or null |
| AIServers.AIServer.SendRequest | DynamicTileFlow/Classes/Servers/AIServer.cs:39-67 | as `Call`, with the truncated elapsed milliseconds as the sample |
| AIServers.AIServer.SendBatchRequest | DynamicTileFlow/Classes/Servers/AIServer.cs:68-96 | as `Call`, with the elapsed milliseconds divided by the image count as the sample |
| AIServers.AIServer.CheckStatus | DynamicTileFlow/Classes/Servers/AIServer.cs:124-146 | a successful probe activates; a non-success or an exception deactivates |
| AIServers.NextAverageBetween | DynamicTileFlow/Classes/Servers/AIServer.cs:112-121 | for a weight in (0, 1] and non-negative values the new average lies between old and sample; it is the sample when the old average is 0 or the weight is 1 |
| AIServers.WeightedBetween | DynamicTileFlow/Classes/Servers/AIServer.cs:120 | the untruncated weighted mean lies between its two values |
| AIServers.SendKeepsNonNegative | DynamicTileFlow/Classes/Servers/AIServer.cs:41-59 | on every path a request keeps the statistics non-negative and leaves the calls in flight as on entry |
| AIServers.SendOutcomes | DynamicTileFlow/Classes/Servers/AIServer.cs:45-64 | a call that threw deactivates and clears the average. One that returned, even null, keeps activity and adds one sample. Only a response moves the last-active time, to `now` |
| AIServers.ProbeDecidesActivity | DynamicTileFlow/Classes/Servers/AIServer.cs:124-146 | after a probe the server is active exactly when the probe succeeded |
| AIServerLists.Select | DynamicTileFlow/Classes/Servers/AIServerList.cs:30-32 | None exactly when no server is active. Otherwise an active server that no active server sorts before (by load, then calls in flight), and that sorts strictly before every earlier active server |
| AIServerLists.SelectUnique | DynamicTileFlow/Classes/Servers/AIServerList.cs:30-32 | the stable order's first element is the only index with those properties |
| AIServerLists.SelectPrefersIdle | DynamicTileFlow/Classes/Servers/AIServerList.cs:32 | with non-negative statistics, when an active server is idle the chosen one is idle |
| AIServerLists.SweepEligible | DynamicTileFlow/Classes/Servers/AIServerList.cs:17-22 | defines the sweep's filter: inactive, no probe running, and never active or last active more than 30 s ago |
| AIServerLists.SweepAfterRequest | DynamicTileFlow/Classes/Servers/AIServerList.cs:19-22 | after a request the sweep probes the server exactly when the request threw, no probe runs, and the server never answered or answered more than 30 s ago |
| AIServerLists.AIServerList.constructor | DynamicTileFlow/Classes/Servers/AIServerList.cs:8-12 | the list holds the servers and stores the interval |
| AIServerLists.AIServerList.Snapshot | DynamicTileFlow/Classes/Servers/AIServerList.cs:13 | the servers' statistics in list order |
| AIServerLists.AIServerList.Configs | DynamicTileFlow/Classes/Servers/AIServerList.cs:13 | the servers' settings in list order |
| AIServerLists.AIServerList.GetAIEndpoint | DynamicTileFlow/Classes/Servers/AIServerList.cs:14-35 | null exactly when no server is active; otherwise the active server `Select` picks. Reads only |
| TensorProcessor.FlatIndex | DynamicTileFlow/Classes/TensorProcessor.cs:52-65 | the row-major position of [b, c, h, w] lies below B * C * H * W |
| TensorProcessor.DecomposeInBox | DynamicTileFlow/Classes/TensorProcessor.cs:60-63 | each flat position below B * C * H * W decomposes into an element of the tensor whose position is that one |
| TensorProcessor.DecomposeDigits | DynamicTileFlow/Classes/TensorProcessor.cs:60-63 | each digit of the decomposition is below its dimension |
| TensorProcessor.FlatIndexInverse | DynamicTileFlow/Classes/TensorProcessor.cs:60-63 | decomposing an element's position gives back the element: a bijection between flat range and index box |
| TensorProcessor.FlattenTensor | DynamicTileFlow/Classes/TensorProcessor.cs:45-68 | a fresh array of length B * C * H * W with `flat[((b*C + c)*H + h)*W + w] == tensor[b, c, h, w]` |
| TensorProcessor.PrepareImageDirect | DynamicTileFlow/Classes/TensorProcessor.cs:69-83 | channels 0, 1 and 2 of slot `batchIndex` get R, G and B / 255 of each pixel in the top-left corner; no other element changes |
| TensorProcessor.CreateTensorInput | DynamicTileFlow/Classes/TensorProcessor.cs:12-44 | one input "images" of type "FP32" shaped [count, channels, height, width], holding the flattened pixels. It fails exactly when an image is too small, or there are pixels and fewer than 3 channels |
| TensorProcessor.ScoresUpTo | DynamicTileFlow/Classes/TensorProcessor.cs:124-126 | the first m class scores of a box, read at the source's offsets |
| TensorProcessor.Best | DynamicTileFlow/Classes/TensorProcessor.cs:122-132 | defines the class search: the running maximum with a strict `>`, starting at -1 and `float.MinValue`; `BestSpec` states its meaning |
| TensorProcessor.BestSpec | DynamicTileFlow/Classes/TensorProcessor.cs:122-132 | the strict `>` search yields the first index of the maximum. It yields -1 and `float.MinValue` when no score exceeds `float.MinValue` |
| TensorProcessor.SearchClass | DynamicTileFlow/Classes/TensorProcessor.cs:122-132 | the class loop computes the search over the box's scores, failing exactly when a read is out of range |
| TensorProcessor.DecodeBox | DynamicTileFlow/Classes/TensorProcessor.cs:114-146 | one box's reads, class search and report; fails exactly when a read is out of range or the label index is |
| TensorProcessor.Detections | DynamicTileFlow/Classes/TensorProcessor.cs:98-151 | defines the decoded detections: the kept boxes' reports, image by image; `DetectionsAreReports`, `ReportProperties` and `DetectionsInBatchOrder` state its meaning |
| TensorProcessor.DecodeDetections | DynamicTileFlow/Classes/TensorProcessor.cs:98-151 | fails exactly when some read or label lookup is out of range; otherwise the detections of all boxes, image by image |
| TensorProcessor.JoinedSound | DynamicTileFlow/Classes/TensorProcessor.cs:109-148 | a detection of the concatenated outputs comes from one of them |
| TensorProcessor.JoinedComplete | DynamicTileFlow/Classes/TensorProcessor.cs:109-148 | every detection of one output is in the concatenation |
| TensorProcessor.RowMembership | DynamicTileFlow/Classes/TensorProcessor.cs:112-147 | a row's detections are exactly its kept boxes' reports |
| TensorProcessor.BoxMembership | DynamicTileFlow/Classes/TensorProcessor.cs:134-146 | a box contributes its report exactly when kept, otherwise nothing |
| TensorProcessor.DetectionsAreReports | DynamicTileFlow/Classes/TensorProcessor.cs:109-148 | the output holds exactly the reports of boxes whose best score reaches `minConfidence` |
| TensorProcessor.DetectionSound | DynamicTileFlow/Classes/TensorProcessor.cs:109-148 | every decoded detection is the report of some box, in range, whose best score reaches `minConfidence` |
| TensorProcessor.DetectionComplete | DynamicTileFlow/Classes/TensorProcessor.cs:109-148 | every in-range box whose best score reaches `minConfidence` has its report among the decoded detections |
| TensorProcessor.ReportProperties | DynamicTileFlow/Classes/TensorProcessor.cs:134-145 | a report has the box's maximum score as confidence, that class's label, the image index and corners `(int)(centre -/+ size / 2)`; a non-negative size gives ordered corners |
| TensorProcessor.RowCount | DynamicTileFlow/Classes/TensorProcessor.cs:112-147 | at most one detection per box of a row |
| TensorProcessor.BoxCount | DynamicTileFlow/Classes/TensorProcessor.cs:134-146 | a box yields at most one detection |
| TensorProcessor.DetectionsCount | DynamicTileFlow/Classes/TensorProcessor.cs:109-148 | at most batchSize * numBoxes detections |
| TensorProcessor.RowBatch | DynamicTileFlow/Classes/TensorProcessor.cs:144 | a row's detections carry the row's image index |
| TensorProcessor.DetectionsInBatchOrder | DynamicTileFlow/Classes/TensorProcessor.cs:109-148 | detections come image by image, with non-decreasing image indices below batchSize |
| TensorProcessor.FeatureIndexInShape | DynamicTileFlow/Classes/TensorProcessor.cs:114-126 | reads of a [B, F, N] output stay within B * F * N |
| TensorProcessor.DecodableWhenShaped | DynamicTileFlow/Classes/TensorProcessor.cs:109-148 | decoding succeeds when a full tensor with at least 4 features, labels for every class and a minimum above `float.MinValue` are given |
| TensorProcessor.NoClassesNoDetections | DynamicTileFlow/Classes/TensorProcessor.cs:122-142 | without class scores nothing is reported. With a minimum at or below `float.MinValue`, label -1 is looked up and decoding throws |
| TensorServers.WholeImage | DynamicTileFlow/Classes/ImageBatchItem.cs:13-20 | the one-argument item is the whole image at the origin |
| TensorServers.FirstOutput | DynamicTileFlow/Classes/Servers/TensorServer.cs:73 | the first output when the body, its outputs and a first output exist, else null |
| TensorServers.Restore | DynamicTileFlow/Classes/Servers/TensorServer.cs:89-97 | a detection with a batch index is offset by its item's origin and scaled by the integer height ratio; without an index it is unchanged |
| TensorServers.RestoreAll | DynamicTileFlow/Classes/Servers/TensorServer.cs:87-98 | fails exactly when some detection names a missing or empty tile; otherwise each detection is restored, in order |
| TensorServers.CallAPI | DynamicTileFlow/Classes/Servers/TensorServer.cs:51-108 | throws on no tile or too small a tile, null on a non-success status, and throws on a missing or short output or a failed decode. Otherwise the predictions are the decoded detections restored, count and order kept |
| TensorServers.CallAPISingle | DynamicTileFlow/Classes/Servers/TensorServer.cs:109-112 | null exactly on a non-success status. It throws on a missing or short output or a failed decode. A successful reply with a usable, decodable output whose detections all restore gives predictions: the decoded detections restored against the whole image |
| TensorServers.RestoreWholeImage | DynamicTileFlow/Classes/Servers/TensorServer.cs:109-112 | for a whole image restoring changes nothing, so coordinates equal the decoded ones |
| TensorServers.RestoreIntegralRatio | DynamicTileFlow/Classes/Servers/TensorServer.cs:93-96 | for a region k times the tile's height each corner becomes (v + origin) * k |
| DetectionController.OrderByStart | DynamicTileFlow/Controllers/DetectionController.cs:324-327 | `OrderBy(Start)` is a permutation sorted by start |
| DetectionController.InsertByStartAddsOne | DynamicTileFlow/Controllers/DetectionController.cs:326 | a sort step adds exactly the inserted interval |
| DetectionController.InsertByStartSorted | DynamicTileFlow/Controllers/DetectionController.cs:326 | a sort step keeps the list sorted |
| DetectionController.SpanCard | DynamicTileFlow/Controllers/DetectionController.cs:351 | an interval covers End - Start ticks |
| DetectionController.CoveredAppend | DynamicTileFlow/Controllers/DetectionController.cs:332-351 | the union grows by each appended interval |
| DetectionController.CoveredPermutation | DynamicTileFlow/Controllers/DetectionController.cs:324-327 | sorting does not change the union |
| DetectionController.RunsInit | DynamicTileFlow/Controllers/DetectionController.cs:332-334 | the loop starts with the first interval as the current run |
| DetectionController.ExtendRun | DynamicTileFlow/Controllers/DetectionController.cs:338-341 | an interval starting at or before the current end extends the run, so touching intervals count once |
| DetectionController.CloseRun | DynamicTileFlow/Controllers/DetectionController.cs:342-347 | a later interval closes the run and opens a new one |
| DetectionController.RunsFinal | DynamicTileFlow/Controllers/DetectionController.cs:349 | the last run closes; the merged runs cover the union, separated by gaps |
| DetectionController.MergeOverlapping | DynamicTileFlow/Controllers/DetectionController.cs:332-349 | merged runs are sorted by start with positive gaps and cover the union; for proper intervals their total length is the union's size |
| DetectionController.GetTotalNonOverlappingTime | DynamicTileFlow/Controllers/DetectionController.cs:322-352 | 0 for no interval; for proper intervals the measure of their union |
| DetectionController.CoveredAtMostTotal | DynamicTileFlow/Controllers/DetectionController.cs:322-352 | the union is no longer than the sum of the lengths |
| DetectionController.CoveredAtLeastEach | DynamicTileFlow/Controllers/DetectionController.cs:322-352 | the union is at least as long as each interval |
| DetectionController.UnionBounds | DynamicTileFlow/Controllers/DetectionController.cs:322-352 | the measure lies between the longest interval and the sum of lengths |
| DetectionController.Kept | DynamicTileFlow/Controllers/DetectionController.cs:302 | defines the confidence filter `Where(p => p.Confidence >= threshold)`; `KeptSpec` states its meaning |
| DetectionController.Mapped | DynamicTileFlow/Controllers/DetectionController.cs:302-308 | defines a tile's output: the kept predictions stamped with the server's name and mapped onto the image; `MappedProperties` states its meaning |
| DetectionController.KeptConcat | DynamicTileFlow/Controllers/DetectionController.cs:302 | the confidence filter distributes over concatenation |
| DetectionController.KeptSpec | DynamicTileFlow/Controllers/DetectionController.cs:302 | kept predictions are those with confidence at or above the threshold, in order, each as often as in the input |
| DetectionController.MappedStep | DynamicTileFlow/Controllers/DetectionController.cs:302-307 | one more prediction adds its stamped, mapped copy exactly when it is kept |
| DetectionController.MapPredictions | DynamicTileFlow/Controllers/DetectionController.cs:299-308 | the loop yields the kept predictions stamped with the server's name and mapped onto the image |
| DetectionController.MappedProperties | DynamicTileFlow/Controllers/DetectionController.cs:302-308 | each mapped prediction meets the threshold, lies inside the margins and names the server; no more than the server returned |
| DetectionController.TileStep | DynamicTileFlow/Controllers/DetectionController.cs:285-313 | one tile leaves as many statistics as servers |
| DetectionController.TileStepCases | DynamicTileFlow/Controllers/DetectionController.cs:288-312 | no server, or a null or failed call, gives an empty list. Without a server nothing changes; otherwise only the chosen server's statistics change |
| DetectionController.TileStepPredictions | DynamicTileFlow/Controllers/DetectionController.cs:296-308 | every prediction of a tile is reported by the tile's chosen server |
| DetectionController.Run | DynamicTileFlow/Controllers/DetectionController.cs:281-320 | the tiles in turn on evolving statistics keep one statistic per server |
| DetectionController.RunResponses | DynamicTileFlow/Controllers/DetectionController.cs:281-320 | exactly one response per tile, in tile order; response i is what tile i yields from the statistics left before it |
| DetectionController.RunPredictions | DynamicTileFlow/Controllers/DetectionController.cs:281-320 | every prediction of every response is reported by a configured server |
| DetectionController.RunWithoutServers | DynamicTileFlow/Controllers/DetectionController.cs:288-312 | with no active server every response is empty and no statistic changes |
| DetectionController.ServeTile | DynamicTileFlow/Controllers/DetectionController.cs:285-313 | on the shared list one tile's body updates the list and answers as `TileStep` says |
| DetectionController.SendOn | DynamicTileFlow/Controllers/DetectionController.cs:294 | sending on the k-th server answers as the call did and updates only that server's statistics |
| DetectionController.GetDetections | DynamicTileFlow/Controllers/DetectionController.cs:272-321 | the responses and the new statistics are `Run` of the tiles in order |
| DetectionController.PlanIndex | DynamicTileFlow/Controllers/DetectionController.cs:223 | the first plan with the id, or null when none has it |
| DetectionController.RowScaleNonZero | DynamicTileFlow/Classes/DynamicTiler/DynamicProcessor.cs:24 | a row with non-zero width and scale width has a non-zero scale `ScaleWidth / Width` |
| DetectionController.PlanTiles | DynamicTileFlow/Controllers/DetectionController.cs:227-231 | every tile of a valid plan has a non-zero scale |
| DetectionController.Flatten | DynamicTileFlow/Controllers/DetectionController.cs:241 | defines `Select(r => r.Predictions).SelectMany(r => r)`; `FlattenMembers` states its meaning |
| DetectionController.FlattenMembers | DynamicTileFlow/Controllers/DetectionController.cs:241 | the flattened list holds exactly the responses' predictions |
| DetectionController.DynamicTiler | DynamicTileFlow/Controllers/DetectionController.cs:199-271 | an unknown plan is a bad request. A selected plan with a row that does not fit the image throws in `SplitAdaptive`. Otherwise the response carries the per-label suppression of the flattened predictions, code 200, "detect", success, the tile count and inference time 0 |
| DetectionController.FinalPredictions | DynamicTileFlow/Controllers/DetectionController.cs:237-245 | every final prediction meets the minimum confidence, lies in the margins and names a configured server; no more than were returned |
| DetectionController.NoServerNoPredictions | DynamicTileFlow/Controllers/DetectionController.cs:237-245 | with no active server there is no prediction |
| DetectionController.FlattenOfEmpty | DynamicTileFlow/Controllers/DetectionController.cs:241 | responses without predictions flatten to nothing |
| Startup.RowCheck | DynamicTileFlow/Program.cs:45-96 | defines a row's checks in the source's order, each yielding its error; `RowCheckIsFirstFailing` and `RowCheckAccepts` state them |
| Startup.RowCheckIsFirstFailing | DynamicTileFlow/Program.cs:45-96 | a row's reported check is the first failing one in source order |
| Startup.RowCheckAccepts | DynamicTileFlow/Program.cs:45-96 | a row passes exactly when: percentages, when present, lie in range with start before end; Height, Width and ScaleWidth are positive; overlap is in [0, 0.5) |
| Startup.RowsCheck | DynamicTileFlow/Program.cs:45-96 | no error exactly when every row passes |
| Startup.RowsCheckAt | DynamicTileFlow/Program.cs:45-96 | the first failing row decides the error |
| Startup.PlanCheckOf | DynamicTileFlow/Program.cs:31-96 | a plan passes exactly when both expected sizes are positive and every row passes |
| Startup.FirstPlanError | DynamicTileFlow/Program.cs:29-97 | no error exactly when every plan passes |
| Startup.ValidateRows | DynamicTileFlow/Program.cs:45-96 | the row loop reports the first failing row's check |
| Startup.ValidatePlans | DynamicTileFlow/Program.cs:29-97 | the plan loop reports the first failing plan's error |
| Startup.FirstPlanErrorAt | DynamicTileFlow/Program.cs:29-97 | the first failing plan names the error |
| Startup.AcceptedPlanTileable | DynamicTileFlow/Program.cs:68-95 | the rows of an accepted plan have positive widths and scale widths and a non-negative step; once their loops end it can be split and mapped |
| Startup.AcceptedPlanMayStall | DynamicTileFlow/Program.cs:82-88 | validation accepts a one-pixel row at overlap 0.25, whose row loop does not end on a 1 x 100 image |
| Startup.ServerCheckOf | DynamicTileFlow/Program.cs:112-165 | defines a server configuration's checks in the source's order; `ServerCheckAccepts` states them |
| Startup.ServerCheckAccepts | DynamicTileFlow/Program.cs:112-165 | a configuration passes exactly when alpha is in (0, 1], the timeout positive, the port in [0, 65535] and the type known; each failure follows the checks before it passing |
| Startup.SettingsOf | DynamicTileFlow/Program.cs:132-158 | the built server's name and weight come from the config; only a tensor server has a batch size |
| Startup.FirstServerError | DynamicTileFlow/Program.cs:110-166 | no error exactly when every configuration passes |
| Startup.FirstServerErrorAt | DynamicTileFlow/Program.cs:110-166 | the first failing configuration names the error |
| Startup.BuildServers | DynamicTileFlow/Program.cs:106-167 | reports the first failing check. Otherwise one fresh, distinct, active, idle server per config, in order, of the kind its type selects |
| Startup.Start | DynamicTileFlow/Program.cs:25-169 | plans are checked before servers and the first failure stops start-up; otherwise the list holds one server per config, in order |

## Left out

- HTTP and JSON are not modelled: the multipart and tensor POSTs, deserialisation, and `DecodeTensorApiResponse`. `CodeProjectAIServer` is not part of this model: its JPEG encoding, its batch overload (which throws), and its own second `AddRoundTripStat` after a call. A backend call is an outcome parameter.
- Image work is not modelled: cropping, cloning and resizing tiles, drawing, fonts, PNG output and `Image.Load`. Images exist only as sizes, plus a grid of pixels for `PrepareImageDirect`. The `dynamic-tiler-image`, `simple` and status endpoints are left out.
- Concurrency is modelled as sequential loops: PLINQ in `SplitAdaptive`, `Parallel.For`, `Task.Run`/`Task.WhenAll`, `Interlocked`. No claim is made about interleavings. Each request's calls in flight go back to 0 before the next tile, so every load is 0 at each selection, and `Select` always picks the first active server. The source's balancing across calls that overlap in time is therefore not captured.
- The fire-and-forget health sweep is not scheduled. Only its eligibility test is modelled (`AIServerLists.SweepEligible`, `AIServerLists.SweepAfterRequest`).
- Floats are reals and `int` is unbounded. IEEE rounding is not modelled, and neither is 32-bit overflow; NaN and the infinities from a division by zero are modelled only in `IoU`.
- `DateTime.Now` is not modelled; times are parameters in milliseconds or ticks.
- The timing and string fields of `DetectionResponse` are left out: processing times, `ProcessedBy`, `Message`, the module fields and the image sizes. `InferenceMs` is modelled as the measure of the never-filled interval list, so it is 0.
- The configured plan percentages `XStartPercent` and `XEndPercent` are only validated; the tiler never reads them, as in the source.
- DynamicProcessor.SplitAdaptive: lists the rows' tiles in plan order; PLINQ gives no order, so only the membership lemma is meant to hold for the source.
- DynamicProcessor.CropAndSplitWithOverlap: requires the loop to end (`DynamicProcessor.Halts`). It excludes only step 0 with a first tile that fits the image, where the source loop never ends (`DynamicProcessor.NarrowRowStalls`). Failures of the `Resize` step are not modelled; only the crop's bounds check is. Every failed crop reports the out-of-bounds text (`CropError`), although ImageSharp rejects a zero-size rectangle with a different message.
- NMS.IoU: is total rather than taking a non-zero union as a precondition; a zero union gives NaN, as the float division does.
- NMS.MaximumSuppressionByName: is modelled on values. The in-place update of `current` is the emitted updated value; the aliasing of the caller's objects left out.
- DetectionMapper.MapToFullImage: requires a non-zero tile scale; the source would divide by zero into an infinite factor. Start-up validation makes every row scale positive.
- AIServers.AIServer.SendBatchRequest: requires a non-empty batch unless the call throws; every backend throws on an empty batch before the division.
- TensorProcessor.PrepareImageDirect: requires the image to cover the target corner and the slot to be inside the tensor. `TensorProcessor.CreateTensorInput` checks this first and fails where the source would throw.
- TensorServers.CallAPI: requires rectangular images. The tensor's size comes from the first tile, and a smaller later tile fails, as the source's indexing does.
- DetectionController.GetDetections: requires the list's servers to be distinct objects, which start-up guarantees (`Startup.BuildServers`).
- DetectionController.DynamicTiler: requires the selected plan, when there is one, to have rows whose loops end and non-zero scales (`Startup.AcceptedPlanTileable` gives this once its rows' loops end). Only a step-0 row whose first tile fits is excluded; the source never answers for it. The stamping of `ServerName` on the backend's own objects is modelled on copies.
- Null collections are absent: a null prediction list, and null plan or server sections (read as empty).
- `ActiveChecks` is declared by the server interface but never set; it is a field that stays 0.
