/** The controller's post-processing: the time measurement over server calls,
    the per-tile handling of the backend responses, and the assembly of the
    final response of the `dynamic-tiler` endpoint. */
module DetectionController {
  import opened Wrappers
  import opened Numeric
  import opened Boxes
  import opened Subsequences
  import opened DynamicProcessor
  import opened DetectionMapper
  import opened NMS
  import opened AIServers
  import opened AIServerLists

  // ---------------------------------------------------------------------------
  // `GetTotalNonOverlappingTime`: the measure of a union of time intervals.

  /** A server call's start and end time, in ticks. */
  datatype Interval = Interval(start: int, end: int)

  function Length(iv: Interval): int { iv.end - iv.start }

  /** Every interval ends no earlier than it starts. */
  predicate Proper(s: seq<Interval>) {
    forall i :: 0 <= i < |s| ==> s[i].start <= s[i].end
  }

  predicate SortedByStart(s: seq<Interval>) {
    forall i, j :: 0 <= i < j < |s| ==> s[i].start <= s[j].start
  }

  /** Put x before the first interval that does not start earlier. */
  function InsertByStart(x: Interval, s: seq<Interval>): seq<Interval>
  {
    if s == [] then [x]
    else if s[0].start < x.start then [s[0]] + InsertByStart(x, s[1..])
    else [x] + s
  }

  /** Insertion adds exactly x. */
  lemma {:induction false} InsertByStartAddsOne(x: Interval, s: seq<Interval>)
    ensures multiset(InsertByStart(x, s)) == multiset{x} + multiset(s)
    ensures |InsertByStart(x, s)| == |s| + 1
  {
    if s != [] && s[0].start < x.start {
      assert s == [s[0]] + s[1..];
      InsertByStartAddsOne(x, s[1..]);
    }
  }

  lemma {:induction false} InsertByStartSorted(x: Interval, s: seq<Interval>)
    requires SortedByStart(s)
    ensures SortedByStart(InsertByStart(x, s))
    ensures s != [] ==> InsertByStart(x, s)[0] in {x, s[0]}
  {
    if s != [] && s[0].start < x.start {
      var r' := InsertByStart(x, s[1..]);
      var r := InsertByStart(x, s);
      assert r == [s[0]] + r';
      InsertByStartSorted(x, s[1..]);
      if s[1..] != [] {
        assert r'[0] in {x, s[1]};
      }
      assert r'[0].start >= s[0].start;
      SortedByStartCons(s[0], r');
    }
  }

  /** An interval starting no later than the head of a sorted list can go before it. */
  lemma SortedByStartCons(h: Interval, t: seq<Interval>)
    requires SortedByStart(t) && (t != [] ==> h.start <= t[0].start)
    ensures SortedByStart([h] + t)
  {
    var r := [h] + t;
    forall i, j | 0 <= i < j < |r| ensures r[i].start <= r[j].start {
      assert r[j] == t[j - 1];
      if i > 0 {
        assert r[i] == t[i - 1];
      }
    }
  }

  /** `OrderBy(t => t.Start)`: the intervals sorted by start time. */
  function OrderByStart(s: seq<Interval>): (r: seq<Interval>)
    ensures multiset(r) == multiset(s) && |r| == |s|
    ensures SortedByStart(r)
  {
    if s == [] then []
    else
      assert s == [s[0]] + s[1..];
      InsertByStartSorted(s[0], OrderByStart(s[1..]));
      InsertByStartAddsOne(s[0], OrderByStart(s[1..]));
      InsertByStart(s[0], OrderByStart(s[1..]))
  }

  predicate Within(t: int, start: int, end: int) { start <= t < end }

  /** The ticks t with start <= t < end. */
  ghost function Span(start: int, end: int): set<int> {
    set t | start <= t < end && Within(t, start, end)
  }

  /** The ticks covered by at least one interval of s. */
  ghost function Covered(s: seq<Interval>): set<int> {
    set iv, t | iv in s && iv.start <= t < iv.end && Within(t, iv.start, iv.end) :: t
  }

  /** `Merged.Sum(i => (i.End - i.Start).Ticks)`. */
  function TotalLength(s: seq<Interval>): int {
    if s == [] then 0 else TotalLength(s[..|s| - 1]) + Length(s[|s| - 1])
  }

  lemma {:induction false} SpanCard(start: int, end: int)
    requires start <= end
    ensures |Span(start, end)| == end - start
    decreases end - start
  {
    if start < end {
      SpanCard(start, end - 1);
      assert Span(start, end) == Span(start, end - 1) + {end - 1};
    } else {
      assert Span(start, end) == {};
    }
  }

  lemma CoveredAppend(s: seq<Interval>, x: Interval)
    ensures Covered(s + [x]) == Covered(s) + Span(x.start, x.end)
  {
    forall t ensures t in Covered(s + [x]) <==> t in Covered(s) + Span(x.start, x.end) {
      if t in Covered(s + [x]) {
        var iv :| iv in s + [x] && iv.start <= t < iv.end;
        if iv in s {
          assert Within(t, iv.start, iv.end);
          assert t in Covered(s);
        }
      }
      if t in Covered(s) {
        var iv :| iv in s && iv.start <= t < iv.end;
        assert iv in s + [x] && Within(t, iv.start, iv.end);
      }
    }
  }

  lemma CoveredOfLast(s: seq<Interval>)
    requires s != []
    ensures Covered(s) == Covered(s[..|s| - 1]) + Span(s[|s| - 1].start, s[|s| - 1].end)
  {
    assert s == s[..|s| - 1] + [s[|s| - 1]];
    CoveredAppend(s[..|s| - 1], s[|s| - 1]);
  }

  /** The covered ticks depend only on which intervals there are. */
  lemma CoveredPermutation(a: seq<Interval>, b: seq<Interval>)
    requires multiset(a) == multiset(b)
    ensures Covered(a) == Covered(b)
  {
    forall iv ensures iv in a <==> iv in b {
      assert iv in a <==> iv in multiset(a);
      assert iv in b <==> iv in multiset(b);
    }
  }

  /** The merged intervals: starts in order, and each ends strictly before the
      next one starts. */
  predicate Gapped(m: seq<Interval>) {
    forall i :: 0 <= i < |m| - 1 ==> m[i].start <= m[i + 1].start && m[i].end < m[i + 1].start
  }

  /** Every covered tick lies before t. */
  ghost predicate CoveredBelow(s: seq<Interval>, t: int) {
    forall u :: u in Covered(s) ==> u < t
  }

  /** The state of the merge loop after the first k intervals: the closed runs
      and the current run (cs, ce) together cover what those intervals cover;
      the closed runs are gapped and lie before the current run. */
  ghost predicate Runs(intervals: seq<Interval>, k: nat, merged: seq<Interval>, cs: int, ce: int) {
    1 <= k <= |intervals| &&
    Covered(intervals[..k]) == Covered(merged) + Span(cs, ce) &&
    cs <= intervals[k - 1].start &&
    CoveredBelow(merged, cs) &&
    Gapped(merged) &&
    (merged != [] ==> merged[|merged| - 1].start <= cs && merged[|merged| - 1].end < cs) &&
    (Proper(intervals) ==> Proper(merged) && cs <= ce && TotalLength(merged) == |Covered(merged)|)
  }

  lemma RunsInit(intervals: seq<Interval>)
    requires intervals != []
    ensures Runs(intervals, 1, [], intervals[0].start, intervals[0].end)
  {
    assert intervals[..1] == [] + [intervals[0]];
    CoveredAppend([], intervals[0]);
    assert Covered([]) == {};
  }

  /** An interval starting no later than the current run's end extends the run. */
  lemma ExtendRun(intervals: seq<Interval>, k: nat, merged: seq<Interval>, cs: int, ce: int)
    requires Runs(intervals, k, merged, cs, ce) && k < |intervals| && SortedByStart(intervals)
    requires intervals[k].start <= ce
    ensures Runs(intervals, k + 1, merged, cs, if intervals[k].end > ce then intervals[k].end else ce)
  {
    var iv := intervals[k];
    var ce' := if iv.end > ce then iv.end else ce;
    assert intervals[..k + 1] == intervals[..k] + [iv];
    CoveredAppend(intervals[..k], iv);
    assert cs <= iv.start by {
      assert intervals[k - 1].start <= iv.start;
    }
    SpanJoin(cs, ce, iv.start, iv.end);
    assert Covered(intervals[..k + 1]) == Covered(merged) + Span(cs, ce');
    if Proper(intervals) {
      assert iv.start <= iv.end;
    }
  }

  /** A span starting inside another one joins it into a single span. */
  lemma SpanJoin(cs: int, ce: int, s: int, e: int)
    requires cs <= s <= ce
    ensures Span(cs, ce) + Span(s, e) == Span(cs, if e > ce then e else ce)
  {
  }

  /** Any other interval closes the current run and opens a new one. */
  lemma CloseRun(intervals: seq<Interval>, k: nat, merged: seq<Interval>, cs: int, ce: int)
    requires Runs(intervals, k, merged, cs, ce) && k < |intervals| && SortedByStart(intervals)
    requires intervals[k].start > ce
    ensures Runs(intervals, k + 1, merged + [Interval(cs, ce)], intervals[k].start, intervals[k].end)
  {
    var iv := intervals[k];
    var m := merged + [Interval(cs, ce)];
    assert cs <= iv.start by {
      assert intervals[k - 1].start <= iv.start;
    }
    assert Covered(intervals[..k + 1]) == Covered(m) + Span(iv.start, iv.end) by {
      assert intervals[..k + 1] == intervals[..k] + [iv];
      CoveredAppend(intervals[..k], iv);
      CoveredAppend(merged, Interval(cs, ce));
    }
    CloseBelow(merged, cs, ce, iv.start);
    AppendGapped(merged, Interval(cs, ce));
    if Proper(intervals) {
      assert iv.start <= iv.end;
      CloseTotal(merged, cs, ce);
      AppendProper(merged, Interval(cs, ce));
    }
  }

  lemma AppendGapped(m: seq<Interval>, x: Interval)
    requires Gapped(m)
    requires m != [] ==> m[|m| - 1].start <= x.start && m[|m| - 1].end < x.start
    ensures Gapped(m + [x])
  {
    var r := m + [x];
    forall i | 0 <= i < |r| - 1 ensures r[i].start <= r[i + 1].start && r[i].end < r[i + 1].start {
      if i < |m| - 1 {
        assert r[i] == m[i] && r[i + 1] == m[i + 1];
      }
    }
  }

  lemma AppendProper(m: seq<Interval>, x: Interval)
    requires Proper(m) && x.start <= x.end
    ensures Proper(m + [x])
  {
    var r := m + [x];
    forall i | 0 <= i < |r| ensures r[i].start <= r[i].end {
      if i < |m| {
        assert r[i] == m[i];
      }
    }
  }

  /** Appending the current run (cs, ce) to the closed runs keeps every
      covered tick below any s beyond ce. */
  lemma CloseBelow(merged: seq<Interval>, cs: int, ce: int, s: int)
    requires CoveredBelow(merged, cs) && ce < s && cs <= s
    ensures CoveredBelow(merged + [Interval(cs, ce)], s)
  {
    CoveredAppend(merged, Interval(cs, ce));
  }

  /** Appending a run that lies beyond every covered tick adds its length. */
  lemma CloseTotal(merged: seq<Interval>, cs: int, ce: int)
    requires CoveredBelow(merged, cs) && cs <= ce
    requires TotalLength(merged) == |Covered(merged)|
    ensures TotalLength(merged + [Interval(cs, ce)]) == |Covered(merged + [Interval(cs, ce)])|
  {
    var m := merged + [Interval(cs, ce)];
    CoveredAppend(merged, Interval(cs, ce));
    assert m[..|m| - 1] == merged;
    SpanCard(cs, ce);
    assert Covered(merged) * Span(cs, ce) == {} by {
      forall u | u in Covered(merged) ensures u !in Span(cs, ce) {
        assert u < cs;
      }
    }
  }

  /** After the last interval the current run is closed too. */
  lemma RunsFinal(intervals: seq<Interval>, merged: seq<Interval>, cs: int, ce: int)
    requires Runs(intervals, |intervals|, merged, cs, ce)
    ensures var m := merged + [Interval(cs, ce)];
            m != [] && Gapped(m) && Covered(m) == Covered(intervals) &&
            (Proper(intervals) ==> Proper(m) && TotalLength(m) == |Covered(intervals)|)
  {
    assert intervals[..|intervals|] == intervals;
    var m := merged + [Interval(cs, ce)];
    CoveredAppend(merged, Interval(cs, ce));
    AppendGapped(merged, Interval(cs, ce));
    if Proper(intervals) {
      CloseTotal(merged, cs, ce);
      AppendProper(merged, Interval(cs, ce));
    }
  }

  /** The merge loop of `GetTotalNonOverlappingTime` over intervals sorted by
      start: an interval starting no later than the current run's end extends
      the run, any other closes it and opens a new one. The runs are gapped, so
      intervals that merely touch count once, and they cover the same ticks as
      the input. */
  method MergeOverlapping(intervals: seq<Interval>) returns (merged: seq<Interval>)
    requires intervals != [] && SortedByStart(intervals)
    ensures merged != [] && Gapped(merged)
    ensures Covered(merged) == Covered(intervals)
    ensures Proper(intervals) ==> Proper(merged) && TotalLength(merged) == |Covered(intervals)|
  {
    merged := [];
    var currentStart, currentEnd := intervals[0].start, intervals[0].end;
    RunsInit(intervals);
    var k := 1;
    while k < |intervals|
      invariant Runs(intervals, k, merged, currentStart, currentEnd)
      decreases |intervals| - k
    {
      var interval := intervals[k];
      if interval.start <= currentEnd {
        ExtendRun(intervals, k, merged, currentStart, currentEnd);
        currentEnd := if interval.end > currentEnd then interval.end else currentEnd;
      } else {
        CloseRun(intervals, k, merged, currentStart, currentEnd);
        merged := merged + [Interval(currentStart, currentEnd)];
        currentStart, currentEnd := interval.start, interval.end;
      }
      k := k + 1;
    }
    RunsFinal(intervals, merged, currentStart, currentEnd);
    merged := merged + [Interval(currentStart, currentEnd)];
  }

  /** `GetTotalNonOverlappingTime`: the number of ticks during which at least one
      call was running; zero without calls. */
  method GetTotalNonOverlappingTime(times: seq<Interval>) returns (ticks: int)
    ensures times == [] ==> ticks == 0
    ensures Proper(times) ==> ticks == |Covered(times)|
  {
    var intervals := OrderByStart(times);
    if |intervals| == 0 {
      assert Covered(times) == {};
      return 0;
    }
    CoveredPermutation(intervals, times);
    var merged := MergeOverlapping(intervals);
    if Proper(times) {
      forall i | 0 <= i < |intervals| ensures intervals[i].start <= intervals[i].end {
        assert intervals[i] in multiset(times);
        var j :| 0 <= j < |times| && times[j] == intervals[i];
      }
    }
    ticks := TotalLength(merged);
  }

  lemma {:induction false} CoveredAtMostTotal(s: seq<Interval>)
    requires Proper(s)
    ensures |Covered(s)| <= TotalLength(s)
  {
    if s == [] {
      assert Covered(s) == {};
    } else {
      var n := |s| - 1;
      CoveredOfLast(s);
      CoveredAtMostTotal(s[..n]);
      SpanCard(s[n].start, s[n].end);
    }
  }

  lemma CoveredAtLeastEach(s: seq<Interval>, i: nat)
    requires i < |s| && s[i].start <= s[i].end
    ensures Length(s[i]) <= |Covered(s)|
  {
    var sp := Span(s[i].start, s[i].end);
    assert sp <= Covered(s);
    assert Covered(s) == sp + (Covered(s) - sp);
    SpanCard(s[i].start, s[i].end);
  }

  /** The union of the intervals is no longer than their total length and no
      shorter than the longest of them. */
  lemma UnionBounds(s: seq<Interval>)
    requires Proper(s)
    ensures |Covered(s)| <= TotalLength(s)
    ensures forall i :: 0 <= i < |s| ==> Length(s[i]) <= |Covered(s)|
  {
    CoveredAtMostTotal(s);
    forall i | 0 <= i < |s| ensures Length(s[i]) <= |Covered(s)| {
      CoveredAtLeastEach(s, i);
    }
  }

  // ---------------------------------------------------------------------------
  // `GetDetections`: the body run for each tile.

  /** `Predictions.Where(p => p.Confidence >= threshold)`. */
  function Kept(preds: seq<Detection>, threshold: real): seq<Detection> {
    if preds == [] then []
    else (if preds[0].confidence >= threshold then [preds[0]] else []) + Kept(preds[1..], threshold)
  }

  lemma {:induction false} KeptConcat(a: seq<Detection>, b: seq<Detection>, threshold: real)
    ensures Kept(a + b, threshold) == Kept(a, threshold) + Kept(b, threshold)
  {
    if a == [] {
      assert a + b == b;
    } else {
      var h: seq<Detection> := if a[0].confidence >= threshold then [a[0]] else [];
      var t := a[1..];
      assert (a + b)[0] == a[0] && (a + b)[1..] == t + b;
      assert Kept(a + b, threshold) == h + Kept(t + b, threshold);
      assert Kept(a, threshold) == h + Kept(t, threshold);
      KeptConcat(t, b, threshold);
    }
  }

  /** The kept predictions are exactly those meeting the threshold, in order:
      a subsequence of the input holding every qualifying prediction as often
      as the input does, and no other. */
  lemma {:induction false} KeptSpec(preds: seq<Detection>, threshold: real)
    ensures IsSubseq(Kept(preds, threshold), preds)
    ensures forall i :: 0 <= i < |Kept(preds, threshold)| ==> Kept(preds, threshold)[i].confidence >= threshold
    ensures forall x :: multiset(Kept(preds, threshold))[x] ==
                        if x.confidence >= threshold then multiset(preds)[x] else 0
  {
    if preds != [] {
      var tail := Kept(preds[1..], threshold);
      KeptSpec(preds[1..], threshold);
      assert preds == [preds[0]] + preds[1..];
      if preds[0].confidence >= threshold {
        SubseqCons(preds[0], tail, preds[1..]);
        assert Kept(preds, threshold) == [preds[0]] + tail;
      } else {
        SubseqOfTail(tail, preds);
        assert Kept(preds, threshold) == tail;
      }
    }
  }

  /** What a tile contributes from the predictions of the server named name:
      the kept predictions, each stamped with that name and mapped onto the
      full image. */
  function Mapped(preds: seq<Detection>, name: string, tile: Tile, threshold: real,
                  imageWidth: int, imageHeight: int): seq<Detection>
    requires tile.scale != 0.0
  {
    var k := Kept(preds, threshold);
    seq(|k|, i requires 0 <= i < |k| => MapToFullImage(k[i].(serverName := name), tile, imageWidth, imageHeight))
  }

  lemma MappedStep(preds: seq<Detection>, i: nat, name: string, tile: Tile, threshold: real,
                   imageWidth: int, imageHeight: int)
    requires i < |preds| && tile.scale != 0.0
    ensures Mapped(preds[..i + 1], name, tile, threshold, imageWidth, imageHeight) ==
            Mapped(preds[..i], name, tile, threshold, imageWidth, imageHeight) +
            (if preds[i].confidence >= threshold
             then [MapToFullImage(preds[i].(serverName := name), tile, imageWidth, imageHeight)]
             else [])
  {
    assert preds[..i + 1] == preds[..i] + [preds[i]];
    KeptConcat(preds[..i], [preds[i]], threshold);
    assert Kept([preds[i]], threshold) == (if preds[i].confidence >= threshold then [preds[i]] else []) + Kept([], threshold);
  }

  /** The filter, stamp and map loop of one tile. */
  method MapPredictions(preds: seq<Detection>, name: string, tile: Tile, threshold: real,
                        imageWidth: int, imageHeight: int)
    returns (mapped: seq<Detection>)
    requires tile.scale != 0.0
    ensures mapped == Mapped(preds, name, tile, threshold, imageWidth, imageHeight)
  {
    mapped := [];
    for i := 0 to |preds|
      invariant mapped == Mapped(preds[..i], name, tile, threshold, imageWidth, imageHeight)
    {
      MappedStep(preds, i, name, tile, threshold, imageWidth, imageHeight);
      var detection := preds[i];
      if detection.confidence >= threshold {
        detection := detection.(serverName := name);
        mapped := mapped + [MapToFullImage(detection, tile, imageWidth, imageHeight)];
      }
    }
    assert preds[..|preds|] == preds;
  }

  /** A prediction as the controller reports it: confident enough, inside the
      10-pixel margins and attributed to the server named name. */
  predicate Reported(d: Detection, name: string, threshold: real, imageWidth: int, imageHeight: int) {
    d.confidence >= threshold && d.serverName == name &&
    d.xMin >= Margin && d.yMin >= Margin &&
    d.xMax <= imageWidth - Margin && d.yMax <= imageHeight - Margin
  }

  /** Every mapped prediction is reported as such, and each comes from a kept
      prediction of the server: no more of them than the server returned. */
  lemma MappedProperties(preds: seq<Detection>, name: string, tile: Tile, threshold: real,
                         imageWidth: int, imageHeight: int)
    requires tile.scale != 0.0
    ensures |Mapped(preds, name, tile, threshold, imageWidth, imageHeight)| <= |preds|
    ensures forall d :: d in Mapped(preds, name, tile, threshold, imageWidth, imageHeight) ==>
              Reported(d, name, threshold, imageWidth, imageHeight) &&
              exists p :: p in preds && d == MapToFullImage(p.(serverName := name), tile, imageWidth, imageHeight)
  {
    var k := Kept(preds, threshold);
    var m := Mapped(preds, name, tile, threshold, imageWidth, imageHeight);
    KeptSpec(preds, threshold);
    SubseqLength(k, preds);
    forall d | d in m
      ensures Reported(d, name, threshold, imageWidth, imageHeight)
      ensures exists p :: p in preds && d == MapToFullImage(p.(serverName := name), tile, imageWidth, imageHeight)
    {
      var i :| 0 <= i < |m| && m[i] == d;
      SubseqMembers(k, preds, k[i]);
    }
  }

  /** How a tile's backend call ends, with the milliseconds it took and the
      time it returned. */
  datatype TileCall = TileCall(outcome: CallOutcome, elapsedMs: real, now: int)

  /** The statistics of the servers after a tile, and the tile's response. */
  datatype Round = Round(stats: seq<Stats>, response: ApiResponse)

  /** One tile: `GetAIEndpoint` picks a server; without one the tile yields an
      empty response. Otherwise `SendRequest` updates that server's statistics,
      and a null response yields an empty response, any other the mapped
      predictions. The settings cs (name, weight) never change. */
  function TileStep(ss: seq<Stats>, cs: seq<Config>, call: TileCall, tile: Tile, threshold: real,
                    imageWidth: int, imageHeight: int): (r: Round)
    requires |cs| == |ss| && tile.scale != 0.0
    ensures |r.stats| == |ss|
  {
    match Select(ss)
    case None => Round(ss, ApiResponse([]))
    case Some(k) =>
      var after := ss[k := AfterSend(ss[k], cs[k].movingAverageAlpha, call.outcome, Trunc(call.elapsedMs), call.now)];
      match ResponseOf(call.outcome)
      case None => Round(after, ApiResponse([]))
      case Some(response) =>
        Round(after, ApiResponse(Mapped(response.predictions, cs[k].name, tile, threshold, imageWidth, imageHeight)))
  }

  /** Without an active server, or when the chosen one returns null or throws,
      the tile contributes no prediction; without an active server no
      statistic changes. Otherwise only the chosen server's statistics change. */
  lemma TileStepCases(ss: seq<Stats>, cs: seq<Config>, call: TileCall, tile: Tile, threshold: real,
                      imageWidth: int, imageHeight: int)
    requires |cs| == |ss| && tile.scale != 0.0
    ensures var r := TileStep(ss, cs, call, tile, threshold, imageWidth, imageHeight);
            (Select(ss).None? ==> r.stats == ss && r.response.predictions == []) &&
            (!call.outcome.Returned? ==> r.response.predictions == []) &&
            (Select(ss).Some? ==> forall i :: 0 <= i < |ss| && i != Select(ss).value ==> r.stats[i] == ss[i])
  {
  }

  /** Every prediction of a tile's response is reported and attributed to the
      server chosen for the tile. */
  lemma TileStepPredictions(ss: seq<Stats>, cs: seq<Config>, call: TileCall, tile: Tile, threshold: real,
                            imageWidth: int, imageHeight: int)
    requires |cs| == |ss| && tile.scale != 0.0
    ensures var r := TileStep(ss, cs, call, tile, threshold, imageWidth, imageHeight);
            forall d :: d in r.response.predictions ==>
              Select(ss).Some? && Reported(d, cs[Select(ss).value].name, threshold, imageWidth, imageHeight)
  {
    if Select(ss).Some? && call.outcome.Returned? {
      var k := Select(ss).value;
      MappedProperties(call.outcome.response.predictions, cs[k].name, tile, threshold, imageWidth, imageHeight);
    }
  }

  /** Every tile has a non-zero scale. */
  predicate Scaled(tiles: seq<Tile>) {
    forall i :: 0 <= i < |tiles| ==> tiles[i].scale != 0.0
  }

  /** The statistics after the tiles and the responses, one per tile. */
  datatype Rounds = Rounds(stats: seq<Stats>, responses: seq<ApiResponse>)

  /** The tiles handled one after the other; tile i ends as calls(i) says. */
  function Run(ss: seq<Stats>, cs: seq<Config>, calls: nat -> TileCall, tiles: seq<Tile>, threshold: real,
               imageWidth: int, imageHeight: int): (r: Rounds)
    requires |cs| == |ss| && Scaled(tiles)
    ensures |r.stats| == |ss|
    decreases |tiles|
  {
    if tiles == [] then Rounds(ss, [])
    else
      var n := |tiles| - 1;
      assert tiles[n].scale != 0.0;
      var before := Run(ss, cs, calls, tiles[..n], threshold, imageWidth, imageHeight);
      var round := TileStep(before.stats, cs, calls(n), tiles[n], threshold, imageWidth, imageHeight);
      Rounds(round.stats, before.responses + [round.response])
  }

  /** response is what tile i yields from the statistics left by the tiles before it. */
  predicate RoundAt(ss: seq<Stats>, cs: seq<Config>, calls: nat -> TileCall, tiles: seq<Tile>, i: nat,
                    threshold: real, imageWidth: int, imageHeight: int, response: ApiResponse)
    requires |cs| == |ss| && Scaled(tiles) && i < |tiles|
  {
    assert Scaled(tiles[..i]) by {
      assert forall k :: 0 <= k < i ==> tiles[..i][k] == tiles[k];
    }
    response == TileStep(Run(ss, cs, calls, tiles[..i], threshold, imageWidth, imageHeight).stats,
                         cs, calls(i), tiles[i], threshold, imageWidth, imageHeight).response
  }

  /** Exactly one response per tile, in tile order: response i is what tile i
      yields from the statistics left by the tiles before it. */
  lemma {:induction false} RunResponses(ss: seq<Stats>, cs: seq<Config>, calls: nat -> TileCall, tiles: seq<Tile>,
                                        threshold: real, imageWidth: int, imageHeight: int)
    requires |cs| == |ss| && Scaled(tiles)
    ensures var r := Run(ss, cs, calls, tiles, threshold, imageWidth, imageHeight);
            |r.responses| == |tiles| &&
            forall i :: 0 <= i < |tiles| ==>
              RoundAt(ss, cs, calls, tiles, i, threshold, imageWidth, imageHeight, r.responses[i])
    decreases |tiles|
  {
    if tiles != [] {
      var n := |tiles| - 1;
      var prefix := tiles[..n];
      var before := Run(ss, cs, calls, prefix, threshold, imageWidth, imageHeight);
      var r := Run(ss, cs, calls, tiles, threshold, imageWidth, imageHeight);
      RunResponses(ss, cs, calls, prefix, threshold, imageWidth, imageHeight);
      var last := TileStep(before.stats, cs, calls(n), tiles[n], threshold, imageWidth, imageHeight).response;
      assert r.responses == before.responses + [last];
      forall i | 0 <= i < |tiles|
        ensures RoundAt(ss, cs, calls, tiles, i, threshold, imageWidth, imageHeight, r.responses[i])
      {
        if i < n {
          assert prefix[..i] == tiles[..i] && prefix[i] == tiles[i];
          assert RoundAt(ss, cs, calls, prefix, i, threshold, imageWidth, imageHeight, before.responses[i]);
          assert r.responses[i] == before.responses[i];
        } else {
          assert r.responses[i] == last;
        }
      }
    }
  }

  /** d is reported and attributed to one of the configured servers. */
  predicate ReportedBySome(d: Detection, cs: seq<Config>, threshold: real, imageWidth: int, imageHeight: int) {
    exists k :: 0 <= k < |cs| && Reported(d, cs[k].name, threshold, imageWidth, imageHeight)
  }

  predicate AllReported(responses: seq<ApiResponse>, cs: seq<Config>, threshold: real,
                        imageWidth: int, imageHeight: int) {
    forall i, d :: 0 <= i < |responses| && d in responses[i].predictions ==>
      ReportedBySome(d, cs, threshold, imageWidth, imageHeight)
  }

  /** Every prediction of every response is reported and attributed to one of
      the configured servers. */
  lemma {:induction false} RunPredictions(ss: seq<Stats>, cs: seq<Config>, calls: nat -> TileCall, tiles: seq<Tile>,
                                          threshold: real, imageWidth: int, imageHeight: int)
    requires |cs| == |ss| && Scaled(tiles)
    ensures AllReported(Run(ss, cs, calls, tiles, threshold, imageWidth, imageHeight).responses,
                        cs, threshold, imageWidth, imageHeight)
    decreases |tiles|
  {
    if tiles != [] {
      var n := |tiles| - 1;
      var before := Run(ss, cs, calls, tiles[..n], threshold, imageWidth, imageHeight);
      RunPredictions(ss, cs, calls, tiles[..n], threshold, imageWidth, imageHeight);
      var round := TileStep(before.stats, cs, calls(n), tiles[n], threshold, imageWidth, imageHeight);
      TileStepPredictions(before.stats, cs, calls(n), tiles[n], threshold, imageWidth, imageHeight);
      var responses := before.responses + [round.response];
      assert Run(ss, cs, calls, tiles, threshold, imageWidth, imageHeight).responses == responses;
      forall i, d | 0 <= i < |responses| && d in responses[i].predictions
        ensures ReportedBySome(d, cs, threshold, imageWidth, imageHeight)
      {
        if i < |before.responses| {
          assert responses[i] == before.responses[i];
        } else {
          var k := Select(before.stats).value;
          assert 0 <= k < |cs| && Reported(d, cs[k].name, threshold, imageWidth, imageHeight);
        }
      }
    }
  }

  /** With no active server nothing is sent: every response is empty and no
      statistic changes. */
  lemma {:induction false} RunWithoutServers(ss: seq<Stats>, cs: seq<Config>, calls: nat -> TileCall, tiles: seq<Tile>,
                                             threshold: real, imageWidth: int, imageHeight: int)
    requires |cs| == |ss| && Scaled(tiles)
    requires forall i :: 0 <= i < |ss| ==> !ss[i].isActive
    ensures var r := Run(ss, cs, calls, tiles, threshold, imageWidth, imageHeight);
            r.stats == ss && forall i :: 0 <= i < |r.responses| ==> r.responses[i].predictions == []
    decreases |tiles|
  {
    if tiles != [] {
      var n := |tiles| - 1;
      RunWithoutServers(ss, cs, calls, tiles[..n], threshold, imageWidth, imageHeight);
    }
  }

  /** The body of `GetDetections` for one tile, on the shared server list. */
  method ServeTile(list: AIServerList, call: TileCall, tile: Tile, threshold: real,
                   imageWidth: int, imageHeight: int)
    returns (response: ApiResponse)
    requires list.Distinct() && tile.scale != 0.0
    modifies list.servers
    ensures Round(list.Snapshot(), response) ==
            TileStep(old(list.Snapshot()), old(list.Configs()), call, tile, threshold, imageWidth, imageHeight)
    ensures list.Configs() == old(list.Configs())
  {
    ghost var ss := list.Snapshot();
    ghost var cs := list.Configs();
    var server := list.GetAIEndpoint();
    response := ApiResponse([]);
    if server.Some? {
      var s := server.value;
      ghost var k := Select(ss).value;
      assert s.Settings() == cs[k];
      var result := SendOn(list, s, k, call);
      if result.Some? {
        var mapped := MapPredictions(result.value.predictions, s.name, tile, threshold, imageWidth, imageHeight);
        response := ApiResponse(mapped);
      }
    }
  }

  /** `server.SendRequest(...)` on the k-th server of the list: that server's
      statistics change as `AfterSend` says, and nothing else changes. */
  method SendOn(list: AIServerList, s: AIServer, ghost k: nat, call: TileCall) returns (result: Option<ApiResponse>)
    requires list.Distinct() && k < |list.servers| && list.servers[k] == s
    modifies s
    ensures result == ResponseOf(call.outcome)
    ensures s.Settings() == old(s.Settings())
    ensures list.Snapshot() ==
            old(list.Snapshot())[k := AfterSend(old(s.State()), s.movingAverageAlpha, call.outcome, Trunc(call.elapsedMs), call.now)]
    ensures list.Configs() == old(list.Configs())
  {
    ghost var ss := list.Snapshot();
    ghost var cs := list.Configs();
    result := s.SendRequest(call.outcome, call.elapsedMs, call.now);
    forall i | 0 <= i < |list.servers| && i != k
      ensures list.servers[i].State() == ss[i] && list.servers[i].Settings() == cs[i]
    {
      assert list.servers[i] != s;
    }
  }

  /** `GetDetections`: the tiles handled in order on the shared server list,
      one response per tile. */
  method GetDetections(tiles: seq<Tile>, list: AIServerList, calls: nat -> TileCall, threshold: real,
                       imageWidth: int, imageHeight: int)
    returns (results: seq<ApiResponse>)
    requires list.Distinct() && Scaled(tiles)
    modifies list.servers
    ensures Rounds(list.Snapshot(), results) ==
            Run(old(list.Snapshot()), old(list.Configs()), calls, tiles, threshold, imageWidth, imageHeight)
    ensures list.Configs() == old(list.Configs())
  {
    results := [];
    for i := 0 to |tiles|
      invariant list.Configs() == old(list.Configs())
      invariant Rounds(list.Snapshot(), results) ==
                Run(old(list.Snapshot()), old(list.Configs()), calls, tiles[..i], threshold, imageWidth, imageHeight)
    {
      assert tiles[..i + 1][..i] == tiles[..i];
      var response := ServeTile(list, calls(i), tiles[i], threshold, imageWidth, imageHeight);
      results := results + [response];
    }
    assert tiles[..|tiles|] == tiles;
  }

  // ---------------------------------------------------------------------------
  // `DynamicTiler`: plan lookup, the calls, flatten and suppression.

  /** The fields of `DetectionResponse` that the tiler sets from the pipeline;
      `Count` is the number of predictions. */
  datatype DetectionResponse = DetectionResponse(
    predictions: seq<Detection>,
    code: int,
    command: string,
    success: bool,
    tileCount: int,
    inferenceMs: int)

  /** `DynamicTilePlans.Where(d => d.TilePlanId == id).FirstOrDefault()`: the
      index of the first plan with that id, or None for null. */
  function PlanIndex(plans: seq<DynamicTilePlan>, id: int): (r: Option<nat>)
    ensures r.None? <==> forall i :: 0 <= i < |plans| ==> plans[i].tilePlanId != id
    ensures r.Some? ==> r.value < |plans| && plans[r.value].tilePlanId == id &&
                        forall i :: 0 <= i < r.value ==> plans[i].tilePlanId != id
  {
    if plans == [] then None
    else if plans[0].tilePlanId == id then Some(0)
    else
      var r := PlanIndex(plans[1..], id);
      assert forall i :: 1 <= i < |plans| ==> plans[i] == plans[1..][i - 1];
      if r.None? then None else Some(r.value + 1)
  }

  /** Every row of the plan has a non-zero `ScaleWidth`, so its tiles can be mapped back. */
  predicate ScalesNonZero(plan: DynamicTilePlan) {
    forall i :: 0 <= i < |plan.tilePlans| ==> plan.tilePlans[i].scaleWidth != 0
  }

  /** A plan the tiler handles: every row's loop ends, normally or by a throw,
      and its tiles can be mapped back. */
  predicate Tileable(imageWidth: int, imageHeight: int, plan: DynamicTilePlan) {
    RowsSplittable(imageWidth, imageHeight, plan.tilePlans) && ScalesNonZero(plan)
  }

  lemma RowScaleNonZero(row: TilePlan)
    requires row.width != 0 && row.scaleWidth != 0
    ensures RowScale(row) != 0.0
  {
    var q := RowScale(row);
    assert q * row.width as real == row.scaleWidth as real;
  }

  /** The tiles `SplitAdaptive(image, plan)` returns when no crop throws:
      every tile of such a plan has a non-zero scale. */
  function PlanTiles(imageWidth: int, imageHeight: int, plan: DynamicTilePlan): (tiles: seq<Tile>)
    requires RowsCuttable(imageWidth, plan.tilePlans) && ScalesNonZero(plan)
    ensures Scaled(tiles)
  {
    var tiles := TilesOfRows(imageWidth, imageHeight, plan.tilePlans);
    assert Scaled(tiles) by {
      forall i | 0 <= i < |tiles| ensures tiles[i].scale != 0.0 {
        SplitAdaptiveScales(imageWidth, imageHeight, plan.tilePlans, tiles[i]);
        var j :| 0 <= j < |plan.tilePlans| && tiles[i].scale == RowScale(plan.tilePlans[j]) &&
                 tiles[i].yStart == plan.tilePlans[j].y;
        RowScaleNonZero(plan.tilePlans[j]);
      }
    }
    tiles
  }

  /** `AllResults.Select(r => r.Predictions).SelectMany(r => r)`. */
  function Flatten(responses: seq<ApiResponse>): seq<Detection> {
    if responses == [] then []
    else responses[0].predictions + Flatten(responses[1..])
  }

  /** The flattened list holds exactly the predictions of the responses. */
  lemma {:induction false} FlattenMembers(responses: seq<ApiResponse>, d: Detection)
    ensures d in Flatten(responses) <==> exists i :: 0 <= i < |responses| && d in responses[i].predictions
  {
    if responses != [] {
      FlattenMembers(responses[1..], d);
      if d in Flatten(responses[1..]) {
        var i :| 0 <= i < |responses[1..]| && d in responses[1..][i].predictions;
        assert d in responses[i + 1].predictions;
      }
      if exists i :: 0 <= i < |responses| && d in responses[i].predictions {
        var i :| 0 <= i < |responses| && d in responses[i].predictions;
        if i > 0 {
          assert d in responses[1..][i - 1].predictions;
        }
      }
    }
  }

  /** The response to an unknown plan id. */
  const InvalidStrategy: string := "Invalid tiling strategy"

  /** The `dynamic-tiler` endpoint after the image is loaded: an unknown plan
      id is a bad request (Fail with `InvalidStrategy`), and a plan with a row
      that does not fit the image throws in `SplitAdaptive` (Fail with
      `CropError`). Otherwise the plan's tiles are sent in turn, the
      predictions flattened and suppressed per label, and the response
      carries them with code 200, command "detect", success, the number of
      tiles and the inference time, which is 0 because the list of call
      intervals is never filled. */
  method DynamicTiler(plans: seq<DynamicTilePlan>, tileStrategy: int, imageWidth: int, imageHeight: int,
                      list: AIServerList, calls: nat -> TileCall, minConfidence: real, iouThreshold: real)
    returns (r: Result<DetectionResponse>)
    requires list.Distinct()
    requires PlanIndex(plans, tileStrategy).Some? ==>
               Tileable(imageWidth, imageHeight, plans[PlanIndex(plans, tileStrategy).value])
    modifies list.servers
    ensures PlanIndex(plans, tileStrategy).None? ==> r == Fail(InvalidStrategy)
    ensures PlanIndex(plans, tileStrategy).Some? ==>
              var rows := plans[PlanIndex(plans, tileStrategy).value].tilePlans;
              (r.Fail? <==> exists i :: 0 <= i < |rows| && !RowFits(imageWidth, imageHeight, rows[i])) &&
              (r.Fail? ==> r == Fail(CropError))
    ensures r.Fail? ==> list.Snapshot() == old(list.Snapshot())
    ensures r.Ok? ==> RowsCuttable(imageWidth, plans[PlanIndex(plans, tileStrategy).value].tilePlans)
    ensures r.Ok? ==>
              var tiles := PlanTiles(imageWidth, imageHeight, plans[PlanIndex(plans, tileStrategy).value]);
              var run := Run(old(list.Snapshot()), old(list.Configs()), calls, tiles, minConfidence,
                             imageWidth, imageHeight);
              r.value == DetectionResponse(NmsByName(Flatten(run.responses), iouThreshold), 200, "detect",
                                           true, |tiles|, 0) &&
              list.Snapshot() == run.stats
    ensures list.Configs() == old(list.Configs())
  {
    var index := PlanIndex(plans, tileStrategy);
    if index.None? {
      return Fail(InvalidStrategy);
    }
    var split := SplitAdaptive(imageWidth, imageHeight, plans[index.value].tilePlans);
    if split.Fail? {
      assert PlanIndex(plans, tileStrategy) == index;
      return Fail(split.reason);
    }
    var tiles := split.value;
    assert tiles == PlanTiles(imageWidth, imageHeight, plans[index.value]);
    var allResults := GetDetections(tiles, list, calls, minConfidence, imageWidth, imageHeight);
    var detections := Flatten(allResults);
    var predictions := NonMaximumSuppressionByName(detections, iouThreshold);
    var ticks := GetTotalNonOverlappingTime([]);
    r := Ok(DetectionResponse(predictions, 200, "detect", true, |tiles|, Trunc(ticks as real / 10000.0)));
  }

  /** Every final prediction is one of the tiles' predictions, so it meets the
      minimum confidence, lies inside the 10-pixel margins and names one of
      the configured servers; there are no more of them than the tiles returned. */
  lemma FinalPredictions(ss: seq<Stats>, cs: seq<Config>, calls: nat -> TileCall, tiles: seq<Tile>,
                         minConfidence: real, iouThreshold: real, imageWidth: int, imageHeight: int)
    requires |cs| == |ss| && Scaled(tiles)
    ensures var all := Flatten(Run(ss, cs, calls, tiles, minConfidence, imageWidth, imageHeight).responses);
            |NmsByName(all, iouThreshold)| <= |all| &&
            forall d :: d in NmsByName(all, iouThreshold) ==>
              ReportedBySome(d, cs, minConfidence, imageWidth, imageHeight)
  {
    var responses := Run(ss, cs, calls, tiles, minConfidence, imageWidth, imageHeight).responses;
    var all := Flatten(responses);
    NmsByNameSelects(all, iouThreshold);
    RunPredictions(ss, cs, calls, tiles, minConfidence, imageWidth, imageHeight);
    forall d | d in NmsByName(all, iouThreshold)
      ensures ReportedBySome(d, cs, minConfidence, imageWidth, imageHeight)
    {
      assert d in multiset(NmsByName(all, iouThreshold));
      assert d in multiset(all);
      FlattenMembers(responses, d);
      var i :| 0 <= i < |responses| && d in responses[i].predictions;
    }
  }

  /** With no active server the tiler reports no prediction. */
  lemma NoServerNoPredictions(ss: seq<Stats>, cs: seq<Config>, calls: nat -> TileCall, tiles: seq<Tile>,
                              minConfidence: real, iouThreshold: real, imageWidth: int, imageHeight: int)
    requires |cs| == |ss| && Scaled(tiles)
    requires forall i :: 0 <= i < |ss| ==> !ss[i].isActive
    ensures NmsByName(Flatten(Run(ss, cs, calls, tiles, minConfidence, imageWidth, imageHeight).responses),
                      iouThreshold) == []
  {
    var responses := Run(ss, cs, calls, tiles, minConfidence, imageWidth, imageHeight).responses;
    RunWithoutServers(ss, cs, calls, tiles, minConfidence, imageWidth, imageHeight);
    FlattenOfEmpty(responses);
    assert DistinctLabels([]) == [];
  }

  lemma {:induction false} FlattenOfEmpty(responses: seq<ApiResponse>)
    requires forall i :: 0 <= i < |responses| ==> responses[i].predictions == []
    ensures Flatten(responses) == []
  {
    if responses != [] {
      assert responses[0].predictions == [];
      FlattenOfEmpty(responses[1..]);
    }
  }
}
