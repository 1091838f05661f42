/** Detection merging: intersection over union and the three suppression
    variants (global, per label, and the per-label box-union merge). */
module NMS {
  import opened Wrappers
  import opened Numeric
  import opened Boxes
  import opened Subsequences

  // ---------------------------------------------------------------------------
  // Intersection over union.

  function InterWidth(a: Detection, b: Detection): int {
    Max(0, Min(a.xMax, b.xMax) - Max(a.xMin, b.xMin))
  }

  function InterHeight(a: Detection, b: Detection): int {
    Max(0, Min(a.yMax, b.yMax) - Max(a.yMin, b.yMin))
  }

  function InterArea(a: Detection, b: Detection): int {
    InterWidth(a, b) * InterHeight(a, b)
  }

  function Area(a: Detection): int {
    (a.xMax - a.xMin) * (a.yMax - a.yMin)
  }

  /** The denominator of `IoU`; the C# code does not guard it. */
  function UnionArea(a: Detection, b: Detection): int {
    Area(a) + Area(b) - InterArea(a, b)
  }

  /** The value of a float division of two integers: a finite quotient, an
      infinity when a non-zero number is divided by zero, or NaN for 0 / 0. */
  datatype Quotient = Finite(value: real) | PosInfinity | NegInfinity | NaN

  function Divide(x: int, y: int): Quotient {
    if y != 0 then Finite(x as real / y as real)
    else if x > 0 then PosInfinity
    else if x < 0 then NegInfinity
    else NaN
  }

  /** The float comparisons `q < t` and `q > t`: false whenever q is NaN. */
  predicate Below(q: Quotient, t: real) {
    (q.Finite? && q.value < t) || q.NegInfinity?
  }

  predicate Above(q: Quotient, t: real) {
    (q.Finite? && q.value > t) || q.PosInfinity?
  }

  /** `IoU(a, b)`: intersection area over union area, as the float division computes it. */
  function IoU(a: Detection, b: Detection): Quotient {
    Divide(InterArea(a, b), UnionArea(a, b))
  }

  /** Corners in order. */
  predicate WellFormed(d: Detection) {
    d.xMin <= d.xMax && d.yMin <= d.yMax
  }

  /** The boxes do not overlap in some axis. */
  predicate Apart(a: Detection, b: Detection) {
    a.xMax <= b.xMin || b.xMax <= a.xMin || a.yMax <= b.yMin || b.yMax <= a.yMin
  }

  /** `IoU` is symmetric. */
  lemma IoUSymmetric(a: Detection, b: Detection)
    ensures UnionArea(a, b) == UnionArea(b, a)
    ensures IoU(a, b) == IoU(b, a)
  {
    assert InterWidth(a, b) == InterWidth(b, a);
    assert InterHeight(a, b) == InterHeight(b, a);
  }

  /** A box of positive area overlaps itself completely. */
  lemma IoUSelf(a: Detection)
    requires a.xMin < a.xMax && a.yMin < a.yMax
    ensures UnionArea(a, a) == Area(a) > 0
    ensures IoU(a, a) == Finite(1.0)
  {
    assert InterWidth(a, a) == a.xMax - a.xMin && InterHeight(a, a) == a.yMax - a.yMin;
    MulMonotone(1, 1, a.xMax - a.xMin, a.yMax - a.yMin);
  }

  /** Boxes that do not intersect have `IoU` zero, or NaN when the union is empty too. */
  lemma IoUApart(a: Detection, b: Detection)
    requires Apart(a, b)
    ensures InterArea(a, b) == 0
    ensures IoU(a, b) == if UnionArea(a, b) == 0 then NaN else Finite(0.0)
  {
    assert InterWidth(a, b) == 0 || InterHeight(a, b) == 0;
  }

  /** The overlap of two well-formed boxes is no larger than either box. */
  lemma InterAreaBounded(a: Detection, b: Detection)
    requires WellFormed(a) && WellFormed(b)
    ensures 0 <= InterArea(a, b) <= Area(a) && InterArea(a, b) <= Area(b)
  {
    MulMonotone(InterWidth(a, b), InterHeight(a, b), a.xMax - a.xMin, a.yMax - a.yMin);
    MulMonotone(InterWidth(a, b), InterHeight(a, b), b.xMax - b.xMin, b.yMax - b.yMin);
  }

  /** For well-formed boxes `IoU` is a number in [0, 1], except that two boxes
      of zero area give NaN, which compares false with every threshold. */
  lemma IoURange(a: Detection, b: Detection)
    requires WellFormed(a) && WellFormed(b)
    ensures IoU(a, b).Finite? || IoU(a, b).NaN?
    ensures IoU(a, b).Finite? ==> 0.0 <= IoU(a, b).value <= 1.0
    ensures IoU(a, b).NaN? <==> Area(a) == 0 && Area(b) == 0
  {
    InterAreaBounded(a, b);
    MulMonotone(0, 0, a.xMax - a.xMin, a.yMax - a.yMin);
    MulMonotone(0, 0, b.xMax - b.xMin, b.yMax - b.yMin);
    if UnionArea(a, b) != 0 {
      RatioInUnit(InterArea(a, b) as real, UnionArea(a, b) as real);
    }
  }

  // ---------------------------------------------------------------------------
  // `OrderByDescending(b => b.Confidence)`: a stable sort, highest confidence first.

  predicate SortedByConfidence(s: seq<Detection>) {
    forall i, j :: 0 <= i < j < |s| ==> s[i].confidence >= s[j].confidence
  }

  /** Put x after every box of strictly higher confidence and before the rest. */
  function InsertByConfidence(x: Detection, s: seq<Detection>): seq<Detection>
  {
    if s == [] then [x]
    else if s[0].confidence > x.confidence then [s[0]] + InsertByConfidence(x, s[1..])
    else [x] + s
  }

  /** Insertion adds exactly x. */
  lemma {:induction false} InsertAddsOne(x: Detection, s: seq<Detection>)
    ensures multiset(InsertByConfidence(x, s)) == multiset{x} + multiset(s)
    ensures |InsertByConfidence(x, s)| == |s| + 1
  {
    if s != [] && s[0].confidence > x.confidence {
      assert s == [s[0]] + s[1..];
      InsertAddsOne(x, s[1..]);
    }
  }

  lemma {:induction false} InsertSorted(x: Detection, s: seq<Detection>)
    requires SortedByConfidence(s)
    ensures SortedByConfidence(InsertByConfidence(x, s))
    ensures s != [] ==> InsertByConfidence(x, s)[0] in {x, s[0]}
  {
    if s != [] && s[0].confidence > x.confidence {
      var r' := InsertByConfidence(x, s[1..]);
      var r := InsertByConfidence(x, s);
      assert r == [s[0]] + r';
      InsertSorted(x, s[1..]);
      if s[1..] != [] {
        assert r'[0] in {x, s[1]};
      }
      assert r'[0].confidence <= s[0].confidence;
      SortedCons(s[0], r');
    }
  }

  /** A box no less confident than the head of a sorted list can go before it. */
  lemma SortedCons(h: Detection, t: seq<Detection>)
    requires SortedByConfidence(t) && (t != [] ==> t[0].confidence <= h.confidence)
    ensures SortedByConfidence([h] + t)
  {
    var r := [h] + t;
    forall i, j | 0 <= i < j < |r| ensures r[i].confidence >= r[j].confidence {
      assert r[j] == t[j - 1];
      if i > 0 {
        assert r[i] == t[i - 1];
      }
    }
  }

  function SortByConfidence(s: seq<Detection>): (r: seq<Detection>)
    ensures multiset(r) == multiset(s) && |r| == |s|
    ensures SortedByConfidence(r)
  {
    if s == [] then []
    else
      assert s == [s[0]] + s[1..];
      InsertSorted(s[0], SortByConfidence(s[1..]));
      InsertAddsOne(s[0], SortByConfidence(s[1..]));
      InsertByConfidence(s[0], SortByConfidence(s[1..]))
  }

  /** The boxes of confidence exactly c, in order. */
  function WithConfidence(s: seq<Detection>, c: real): seq<Detection> {
    if s == [] then []
    else (if s[0].confidence == c then [s[0]] else []) + WithConfidence(s[1..], c)
  }

  lemma {:induction false} InsertStable(x: Detection, s: seq<Detection>, c: real)
    ensures WithConfidence(InsertByConfidence(x, s), c)
            == (if x.confidence == c then [x] else []) + WithConfidence(s, c)
  {
    if s == [] {
      WithConfidenceCons(x, [], c);
    } else if s[0].confidence > x.confidence {
      var r' := InsertByConfidence(x, s[1..]);
      var hx: seq<Detection> := if x.confidence == c then [x] else [];
      var h0: seq<Detection> := if s[0].confidence == c then [s[0]] else [];
      var w := WithConfidence(s[1..], c);
      assert InsertByConfidence(x, s) == [s[0]] + r';
      InsertStable(x, s[1..], c);
      WithConfidenceCons(s[0], r', c);
      WithConfidenceCons(s[0], s[1..], c);
      assert s == [s[0]] + s[1..];
      assert WithConfidence([s[0]] + r', c) == h0 + (hx + w);
      SwapPrefixes(h0, hx, w);
    } else {
      assert InsertByConfidence(x, s) == [x] + s;
      WithConfidenceCons(x, s, c);
    }
  }

  /** Two prefixes commute when one of them is empty. */
  lemma SwapPrefixes(a: seq<Detection>, b: seq<Detection>, w: seq<Detection>)
    requires a == [] || b == []
    ensures a + (b + w) == b + (a + w)
  {
    if a == [] {
      assert a + (b + w) == b + w && a + w == w;
    } else {
      assert b + (a + w) == a + w && b + w == w;
    }
  }

  lemma WithConfidenceCons(h: Detection, t: seq<Detection>, c: real)
    ensures WithConfidence([h] + t, c) == (if h.confidence == c then [h] else []) + WithConfidence(t, c)
  {
    assert ([h] + t)[0] == h && ([h] + t)[1..] == t;
  }

  /** The sort is stable: boxes of equal confidence keep their input order. */
  lemma {:induction false} SortStable(s: seq<Detection>, c: real)
    ensures WithConfidence(SortByConfidence(s), c) == WithConfidence(s, c)
  {
    if s != [] {
      SortStable(s[1..], c);
      InsertStable(s[0], SortByConfidence(s[1..]), c);
    }
  }

  lemma {:induction false} SubseqWithConfidence(a: seq<Detection>, b: seq<Detection>, c: real)
    requires IsSubseq(a, b)
    ensures IsSubseq(WithConfidence(a, c), WithConfidence(b, c))
    decreases |b|
  {
    if a == [] {
    } else {
      var wb := WithConfidence(b[1..], c);
      assert WithConfidence(b, c) == (if b[0].confidence == c then [b[0]] else []) + wb;
      if a[0] == b[0] {
        var wa := WithConfidence(a[1..], c);
        assert WithConfidence(a, c) == (if a[0].confidence == c then [a[0]] else []) + wa;
        SubseqWithConfidence(a[1..], b[1..], c);
        if b[0].confidence == c {
          SubseqCons(b[0], wa, wb);
        } else {
          assert WithConfidence(a, c) == wa && WithConfidence(b, c) == wb;
        }
      } else {
        SubseqWithConfidence(a, b[1..], c);
        if b[0].confidence == c {
          assert ([b[0]] + wb)[1..] == wb;
          SubseqOfTail(WithConfidence(a, c), [b[0]] + wb);
        } else {
          assert WithConfidence(b, c) == wb;
        }
      }
    }
  }

  lemma {:induction false} SubseqSorted(a: seq<Detection>, b: seq<Detection>)
    requires IsSubseq(a, b) && SortedByConfidence(b)
    ensures SortedByConfidence(a)
    decreases |b|
  {
    if a == [] {
    } else if a[0] == b[0] {
      SubseqSorted(a[1..], b[1..]);
      forall j | 0 < j < |a| ensures a[0].confidence >= a[j].confidence {
        SubseqMembers(a[1..], b[1..], a[j]);
      }
    } else {
      SubseqSorted(a, b[1..]);
    }
  }

  // ---------------------------------------------------------------------------
  // Global non-maximum suppression.

  /** `Where(box => IoU(current, box) < iouThreshold)`. */
  function KeepBelow(rest: seq<Detection>, current: Detection, threshold: real): (r: seq<Detection>)
    ensures forall b :: b in r <==> b in rest && Below(IoU(current, b), threshold)
    ensures multiset(r) <= multiset(rest) && |r| <= |rest|
  {
    if rest == [] then []
    else
      assert rest == [rest[0]] + rest[1..];
      (if Below(IoU(current, rest[0]), threshold) then [rest[0]] else []) + KeepBelow(rest[1..], current, threshold)
  }

  lemma {:induction false} KeepBelowSubseq(rest: seq<Detection>, current: Detection, threshold: real)
    ensures IsSubseq(KeepBelow(rest, current, threshold), rest)
  {
    if rest != [] {
      KeepBelowSubseq(rest[1..], current, threshold);
      var k := KeepBelow(rest[1..], current, threshold);
      if Below(IoU(current, rest[0]), threshold) {
        assert KeepBelow(rest, current, threshold) == [rest[0]] + k;
        SubseqCons(rest[0], k, rest[1..]);
        assert [rest[0]] + rest[1..] == rest;
      } else {
        assert KeepBelow(rest, current, threshold) == k;
        SubseqOfTail(k, rest);
      }
    }
  }

  /** The suppression loop on an already sorted list: keep the head, drop every
      later box whose IoU with it is not below the threshold, repeat. */
  function SuppressSorted(s: seq<Detection>, threshold: real): seq<Detection>
    decreases |s|
  {
    if s == [] then []
    else
      var rest := KeepBelow(s[1..], s[0], threshold);
      [s[0]] + SuppressSorted(rest, threshold)
  }

  /** `NonMaximumSuppression(boxes, iouThreshold)` as a value. */
  function Nms(boxes: seq<Detection>, threshold: real): seq<Detection>
  {
    SuppressSorted(SortByConfidence(boxes), threshold)
  }

  /** Sort by confidence, then repeatedly move the head to the result and
      filter out everything overlapping it. */
  method NonMaximumSuppression(boxes: seq<Detection>, iouThreshold: real) returns (result: seq<Detection>)
    ensures result == Nms(boxes, iouThreshold)
  {
    result := [];
    var sortedBoxes := SortByConfidence(boxes);
    while |sortedBoxes| > 0
      invariant result + SuppressSorted(sortedBoxes, iouThreshold) == Nms(boxes, iouThreshold)
      decreases |sortedBoxes|
    {
      var current := sortedBoxes[0];
      SuppressStep(sortedBoxes, iouThreshold);
      result := result + [current];
      sortedBoxes := KeepBelow(sortedBoxes[1..], current, iouThreshold);
    }
  }

  /** One round of the suppression loop: the first box is kept and the rest
      are those of the remaining boxes that survive it, suppressed in turn. */
  lemma SuppressStep(s: seq<Detection>, threshold: real)
    requires s != []
    ensures |KeepBelow(s[1..], s[0], threshold)| < |s|
    ensures forall r :: r + SuppressSorted(s, threshold)
                     == (r + [s[0]]) + SuppressSorted(KeepBelow(s[1..], s[0], threshold), threshold)
  {
  }

  // Properties of global suppression.

  lemma {:induction false} SuppressSortedSubseq(s: seq<Detection>, threshold: real)
    ensures IsSubseq(SuppressSorted(s, threshold), s)
    decreases |s|
  {
    if s != [] {
      var rest := KeepBelow(s[1..], s[0], threshold);
      SuppressSortedSubseq(rest, threshold);
      KeepBelowSubseq(s[1..], s[0], threshold);
      SubseqTrans(SuppressSorted(rest, threshold), rest, s[1..]);
      SubseqCons(s[0], SuppressSorted(rest, threshold), s[1..]);
      assert [s[0]] + s[1..] == s;
    }
  }

  /** The output consists of input boxes, each used at most once, so it is no
      longer than the input; it is in non-increasing confidence order, and
      boxes of equal confidence appear in their input order. */
  lemma NmsSelectsInOrder(boxes: seq<Detection>, threshold: real)
    ensures multiset(Nms(boxes, threshold)) <= multiset(boxes)
    ensures |Nms(boxes, threshold)| <= |boxes|
    ensures SortedByConfidence(Nms(boxes, threshold))
    ensures forall c :: IsSubseq(WithConfidence(Nms(boxes, threshold), c), WithConfidence(boxes, c))
  {
    var sorted := SortByConfidence(boxes);
    var r := Nms(boxes, threshold);
    SuppressSortedSubseq(sorted, threshold);
    assert r == SuppressSorted(sorted, threshold);
    SubseqMultiset(r, sorted);
    SubseqLength(r, sorted);
    SubseqSorted(r, sorted);
    forall c ensures IsSubseq(WithConfidence(r, c), WithConfidence(boxes, c)) {
      SubseqWithConfidence(r, sorted, c);
      SortStable(boxes, c);
    }
  }

  /** Each box of `r` has IoU below the threshold with every later one. */
  predicate Separated(r: seq<Detection>, threshold: real) {
    forall i, j :: 0 <= i < j < |r| ==> Below(IoU(r[i], r[j]), threshold)
  }

  lemma SeparatedCons(x: Detection, tail: seq<Detection>, threshold: real)
    requires Separated(tail, threshold)
    requires forall b :: b in tail ==> Below(IoU(x, b), threshold)
    ensures Separated([x] + tail, threshold)
  {
    var r := [x] + tail;
    forall i, j | 0 <= i < j < |r|
      ensures Below(IoU(r[i], r[j]), threshold)
    {
      assert r[j] == tail[j - 1];
      if i > 0 {
        assert r[i] == tail[i - 1];
      }
    }
  }

  /** Every pair of kept boxes has IoU below the threshold. */
  lemma {:induction false} SuppressSortedPairwise(s: seq<Detection>, threshold: real)
    ensures Separated(SuppressSorted(s, threshold), threshold)
    decreases |s|
  {
    if s != [] {
      var rest := KeepBelow(s[1..], s[0], threshold);
      SuppressSortedPairwise(rest, threshold);
      SuppressSortedSubseq(rest, threshold);
      var tail := SuppressSorted(rest, threshold);
      assert SuppressSorted(s, threshold) == [s[0]] + tail;
      forall b | b in tail ensures Below(IoU(s[0], b), threshold) {
        SubseqMembers(tail, rest, b);
      }
      SeparatedCons(s[0], tail, threshold);
    }
  }

  /** Kept boxes have IoU below the threshold with each other, in either order. */
  lemma NmsPairwise(boxes: seq<Detection>, threshold: real)
    ensures Separated(Nms(boxes, threshold), threshold)
    ensures var r := Nms(boxes, threshold);
            forall i, j :: 0 <= i < j < |r| ==> Below(IoU(r[j], r[i]), threshold)
  {
    SuppressSortedPairwise(SortByConfidence(boxes), threshold);
    var r := Nms(boxes, threshold);
    forall i, j | 0 <= i < j < |r| ensures Below(IoU(r[j], r[i]), threshold) {
      IoUSymmetric(r[i], r[j]);
    }
  }

  /** Some box of `r` with confidence at least x's has an IoU with x that is not
      below the threshold (at least the threshold, or NaN). */
  predicate SuppressedBy(r: seq<Detection>, x: Detection, threshold: real) {
    exists k :: 0 <= k < |r| && !Below(IoU(r[k], x), threshold) &&
                r[k].confidence >= x.confidence
  }

  lemma SuppressedByCons(y: Detection, r: seq<Detection>, x: Detection, threshold: real)
    requires SuppressedBy(r, x, threshold) || (!Below(IoU(y, x), threshold) && y.confidence >= x.confidence)
    ensures SuppressedBy([y] + r, x, threshold)
  {
    var r' := [y] + r;
    if !Below(IoU(y, x), threshold) && y.confidence >= x.confidence {
      assert r'[0] == y;
    } else {
      var k :| 0 <= k < |r| && !Below(IoU(r[k], x), threshold) &&
               r[k].confidence >= x.confidence;
      assert r'[k + 1] == r[k];
    }
  }

  /** Every box that is not in the output has an IoU not below the threshold
      with a kept box of equal or higher confidence. */
  lemma {:induction false} SuppressSortedDropped(s: seq<Detection>, threshold: real, x: Detection)
    requires SortedByConfidence(s)
    requires x in s && x !in SuppressSorted(s, threshold)
    ensures SuppressedBy(SuppressSorted(s, threshold), x, threshold)
    decreases |s|
  {
    var rest := KeepBelow(s[1..], s[0], threshold);
    var tail := SuppressSorted(rest, threshold);
    assert SuppressSorted(s, threshold) == [s[0]] + tail;
    assert x != s[0];
    assert x in s[1..] by {
      assert s == [s[0]] + s[1..];
    }
    assert s[0].confidence >= x.confidence by {
      var ix :| 0 <= ix < |s[1..]| && s[1..][ix] == x;
      assert s[ix + 1] == x;
    }
    if Below(IoU(s[0], x), threshold) {
      KeepBelowSubseq(s[1..], s[0], threshold);
      SubseqSorted(rest, s[1..]);
      SuppressSortedDropped(rest, threshold, x);
    }
    SuppressedByCons(s[0], tail, x, threshold);
  }

  lemma NmsDropped(boxes: seq<Detection>, threshold: real, x: Detection)
    requires x in boxes && x !in Nms(boxes, threshold)
    ensures SuppressedBy(Nms(boxes, threshold), x, threshold)
  {
    var sorted := SortByConfidence(boxes);
    assert x in multiset(sorted);
    SuppressSortedDropped(sorted, threshold, x);
  }

  // ---------------------------------------------------------------------------
  // Labels: `boxes.Where(b => b.Label == label)` and `boxes.Select(b => b.Label).Distinct()`.

  /** Every box of r carries label l. */
  predicate AllLabeled(r: seq<Detection>, l: string) {
    forall i :: 0 <= i < |r| ==> r[i].labelName == l
  }

  /** The boxes carrying label l, in order. */
  function WithLabel(s: seq<Detection>, l: string): seq<Detection>
  {
    if s == [] then []
    else (if s[0].labelName == l then [s[0]] else []) + WithLabel(s[1..], l)
  }

  /** The filter keeps only boxes of s, and only boxes carrying the label. */
  lemma {:induction false} WithLabelSpec(s: seq<Detection>, l: string)
    ensures multiset(WithLabel(s, l)) <= multiset(s)
    ensures AllLabeled(WithLabel(s, l), l)
  {
    if s != [] {
      assert s == [s[0]] + s[1..];
      WithLabelSpec(s[1..], l);
      var h: seq<Detection> := if s[0].labelName == l then [s[0]] else [];
      var t := WithLabel(s[1..], l);
      assert WithLabel(s, l) == h + t;
      forall i | 0 <= i < |h + t| ensures (h + t)[i].labelName == l {
        if i >= |h| {
          assert (h + t)[i] == t[i - |h|];
        }
      }
    }
  }

  /** The filter keeps every copy of every box carrying the label. */
  lemma {:induction false} WithLabelCount(s: seq<Detection>, l: string, x: Detection)
    ensures multiset(WithLabel(s, l))[x] == if x.labelName == l then multiset(s)[x] else 0
  {
    if s != [] {
      assert s == [s[0]] + s[1..];
      WithLabelCount(s[1..], l, x);
    }
  }

  lemma {:induction false} WithLabelConcat(a: seq<Detection>, b: seq<Detection>, l: string)
    ensures WithLabel(a + b, l) == WithLabel(a, l) + WithLabel(b, l)
  {
    if a != [] {
      var h := if a[0].labelName == l then [a[0]] else [];
      assert (a + b)[0] == a[0] && (a + b)[1..] == a[1..] + b;
      assert WithLabel(a + b, l) == h + WithLabel(a[1..] + b, l);
      assert WithLabel(a, l) == h + WithLabel(a[1..], l);
      WithLabelConcat(a[1..], b, l);
    } else {
      assert a + b == b;
    }
  }

  /** Filtering a list whose boxes all carry label l' keeps all of it for l'
      and nothing of it for any other label. */
  lemma {:induction false} WithLabelUniform(s: seq<Detection>, l': string, l: string)
    requires AllLabeled(s, l')
    ensures WithLabel(s, l) == if l == l' then s else []
  {
    if s != [] {
      WithLabelUniform(s[1..], l', l);
      assert s == [s[0]] + s[1..];
    }
  }

  /** Index of the first box with label l, or |s| when there is none. */
  function FirstIndex(s: seq<Detection>, l: string): (r: nat)
    ensures r <= |s|
    ensures r < |s| ==> s[r].labelName == l
    ensures forall k :: 0 <= k < r ==> s[k].labelName != l
  {
    if s == [] then 0
    else if s[0].labelName == l then 0
    else
      var r' := FirstIndex(s[1..], l);
      assert forall k :: 0 < k < 1 + r' ==> s[k] == s[1..][k - 1];
      1 + r'
  }

  /** The labels first appearing at index i or later, in order of first appearance. */
  function DistinctFrom(s: seq<Detection>, i: nat): (r: seq<string>)
    requires i <= |s|
    ensures forall j :: 0 <= j < |r| ==> i <= FirstIndex(s, r[j]) < |s|
    ensures forall j, k :: 0 <= j < k < |r| ==> FirstIndex(s, r[j]) < FirstIndex(s, r[k])
    decreases |s| - i
  {
    if i == |s| then []
    else
      var rest := DistinctFrom(s, i + 1);
      if FirstIndex(s, s[i].labelName) == i then
        var r := [s[i].labelName] + rest;
        assert forall j :: 0 < j < |r| ==> r[j] == rest[j - 1];
        r
      else rest
  }

  lemma {:induction false} DistinctFromHas(s: seq<Detection>, i: nat, k: nat)
    requires i <= k < |s| && FirstIndex(s, s[k].labelName) == k
    ensures s[k].labelName in DistinctFrom(s, i)
    decreases k - i
  {
    if i < k {
      DistinctFromHas(s, i + 1, k);
    }
  }

  function DistinctLabels(s: seq<Detection>): seq<string> {
    DistinctFrom(s, 0)
  }

  /** `Distinct` keeps every label once, in order of first appearance. */
  lemma DistinctLabelsSpec(s: seq<Detection>)
    ensures forall l :: l in DistinctLabels(s) <==> exists i :: 0 <= i < |s| && s[i].labelName == l
    ensures NoDuplicates(DistinctLabels(s))
    ensures InFirstAppearanceOrder(s, DistinctLabels(s))
  {
    var d := DistinctLabels(s);
    forall l ensures l in d <==> exists i :: 0 <= i < |s| && s[i].labelName == l {
      if exists i :: 0 <= i < |s| && s[i].labelName == l {
        var k := FirstIndex(s, l);
        DistinctFromHas(s, 0, k);
      }
      if l in d {
        var j :| 0 <= j < |d| && d[j] == l;
        assert s[FirstIndex(s, l)].labelName == l;
      }
    }
  }

  /** The labels of r come in the order in which they first appear in `boxes`. */
  predicate GroupedInOrder(boxes: seq<Detection>, r: seq<Detection>) {
    forall i, j :: 0 <= i < j < |r| ==> FirstIndex(boxes, r[i].labelName) <= FirstIndex(boxes, r[j].labelName)
  }

  lemma GroupedAppend(boxes: seq<Detection>, chunk: seq<Detection>, l: string, tail: seq<Detection>)
    requires AllLabeled(chunk, l)
    requires forall i :: 0 <= i < |tail| ==> FirstIndex(boxes, l) < FirstIndex(boxes, tail[i].labelName)
    requires GroupedInOrder(boxes, tail)
    ensures GroupedInOrder(boxes, chunk + tail)
  {
    var r := chunk + tail;
    forall i, j | 0 <= i < j < |r|
      ensures FirstIndex(boxes, r[i].labelName) <= FirstIndex(boxes, r[j].labelName)
    {
      if j < |chunk| {
      } else if i < |chunk| {
        assert r[j] == tail[j - |chunk|];
      } else {
        assert r[i] == tail[i - |chunk|] && r[j] == tail[j - |chunk|];
      }
    }
  }

  // ---------------------------------------------------------------------------
  // Per-label non-maximum suppression.

  /** Suppression run separately for each label of ls, results concatenated. */
  function NmsPerLabel(boxes: seq<Detection>, ls: seq<string>, threshold: real): seq<Detection>
  {
    if ls == [] then []
    else
      Nms(WithLabel(boxes, ls[0]), threshold) + NmsPerLabel(boxes, ls[1..], threshold)
  }

  /** `NonMaximumSuppressionByName(boxes, iouThreshold)` as a value. */
  function NmsByName(boxes: seq<Detection>, threshold: real): seq<Detection>
  {
    NmsPerLabel(boxes, DistinctLabels(boxes), threshold)
  }

  lemma {:induction false} NmsPerLabelAppend(boxes: seq<Detection>, ls: seq<string>, l: string, threshold: real)
    ensures NmsPerLabel(boxes, ls + [l], threshold) == NmsPerLabel(boxes, ls, threshold) + Nms(WithLabel(boxes, l), threshold)
  {
    if ls == [] {
      assert ([] + [l])[1..] == [];
    } else {
      var t := ls[1..];
      assert (ls + [l])[0] == ls[0] && (ls + [l])[1..] == t + [l];
      var h := Nms(WithLabel(boxes, ls[0]), threshold);
      assert NmsPerLabel(boxes, ls + [l], threshold) == h + NmsPerLabel(boxes, t + [l], threshold);
      assert NmsPerLabel(boxes, ls, threshold) == h + NmsPerLabel(boxes, t, threshold);
      NmsPerLabelAppend(boxes, t, l, threshold);
    }
  }

  lemma NmsPerLabelPrefix(boxes: seq<Detection>, labels: seq<string>, k: nat, result: seq<Detection>,
                          kept: seq<Detection>, threshold: real)
    requires k < |labels|
    requires result == NmsPerLabel(boxes, labels[..k], threshold) && kept == Nms(WithLabel(boxes, labels[k]), threshold)
    ensures result + kept == NmsPerLabel(boxes, labels[..k + 1], threshold)
  {
    var pre := labels[..k];
    assert labels[..k + 1] == pre + [labels[k]];
    NmsPerLabelAppend(boxes, pre, labels[k], threshold);
  }

  /** For each label of `labels` in turn, the suppression loop of
      `NonMaximumSuppression` on that label's boxes. */
  method SuppressEachLabel(boxes: seq<Detection>, labels: seq<string>, iouThreshold: real) returns (result: seq<Detection>)
    ensures result == NmsPerLabel(boxes, labels, iouThreshold)
  {
    result := [];
    var k := 0;
    assert labels[..0] == [];
    while k < |labels|
      invariant 0 <= k <= |labels|
      invariant result == NmsPerLabel(boxes, labels[..k], iouThreshold)
    {
      var kept := NonMaximumSuppression(WithLabel(boxes, labels[k]), iouThreshold);
      NmsPerLabelPrefix(boxes, labels, k, result, kept, iouThreshold);
      result := result + kept;
      k := k + 1;
    }
    NmsPerLabelWhole(boxes, labels, result, iouThreshold);
  }

  lemma NmsPerLabelWhole(boxes: seq<Detection>, labels: seq<string>, result: seq<Detection>, threshold: real)
    requires result == NmsPerLabel(boxes, labels[..|labels|], threshold)
    ensures result == NmsPerLabel(boxes, labels, threshold)
  {
    assert labels[..|labels|] == labels;
  }

  /** Suppression label by label, labels in order of first appearance. */
  method NonMaximumSuppressionByName(boxes: seq<Detection>, iouThreshold: real) returns (result: seq<Detection>)
    ensures result == NmsByName(boxes, iouThreshold)
  {
    result := SuppressEachLabel(boxes, DistinctLabels(boxes), iouThreshold);
  }

  /** Every output box of r = Nms(s) lies in s. */
  lemma NmsMembers(s: seq<Detection>, threshold: real)
    ensures forall i :: 0 <= i < |Nms(s, threshold)| ==> Nms(s, threshold)[i] in s
  {
    NmsSelectsInOrder(s, threshold);
    var r := Nms(s, threshold);
    forall i | 0 <= i < |r| ensures r[i] in s {
      assert r[i] in multiset(r);
    }
  }

  lemma NmsOfLabel(boxes: seq<Detection>, l: string, threshold: real)
    ensures AllLabeled(Nms(WithLabel(boxes, l), threshold), l)
  {
    var w := WithLabel(boxes, l);
    WithLabelSpec(boxes, l);
    NmsMembers(w, threshold);
    MembersLabeled(w, Nms(w, threshold), l);
  }

  /** Boxes drawn from a list of one label carry that label. */
  lemma MembersLabeled(w: seq<Detection>, r: seq<Detection>, l: string)
    requires AllLabeled(w, l)
    requires forall i :: 0 <= i < |r| ==> r[i] in w
    ensures AllLabeled(r, l)
  {
    forall i | 0 <= i < |r| ensures r[i].labelName == l {
      var j :| 0 <= j < |w| && w[j] == r[i];
    }
  }

  predicate NoDuplicates(ls: seq<string>) {
    forall j, k :: 0 <= j < k < |ls| ==> ls[j] != ls[k]
  }

  lemma NoDuplicatesTail(ls: seq<string>, l: string)
    requires ls != [] && NoDuplicates(ls)
    ensures NoDuplicates(ls[1..])
    ensures l in ls <==> l == ls[0] || l in ls[1..]
    ensures l == ls[0] ==> l !in ls[1..]
  {
    assert ls == [ls[0]] + ls[1..];
    forall k | 0 <= k < |ls[1..]| ensures ls[1..][k] != ls[0] {
      assert ls[1..][k] == ls[k + 1];
    }
  }

  /** Filtering a chunk of one label followed by a tail. */
  lemma WithLabelChunk(chunk: seq<Detection>, l': string, tail: seq<Detection>, l: string)
    requires AllLabeled(chunk, l')
    ensures WithLabel(chunk + tail, l) == (if l == l' then chunk else []) + WithLabel(tail, l)
  {
    WithLabelConcat(chunk, tail, l);
    WithLabelUniform(chunk, l', l);
  }

  lemma {:induction false} NmsPerLabelIsolates(boxes: seq<Detection>, ls: seq<string>, threshold: real, l: string)
    requires NoDuplicates(ls)
    ensures WithLabel(NmsPerLabel(boxes, ls, threshold), l)
            == if l in ls then Nms(WithLabel(boxes, l), threshold) else []
  {
    if ls != [] {
      NmsOfLabel(boxes, ls[0], threshold);
      var chunk := Nms(WithLabel(boxes, ls[0]), threshold);
      var tail := NmsPerLabel(boxes, ls[1..], threshold);
      assert NmsPerLabel(boxes, ls, threshold) == chunk + tail;
      WithLabelChunk(chunk, ls[0], tail, l);
      NoDuplicatesTail(ls, l);
      NmsPerLabelIsolates(boxes, ls[1..], threshold, l);
    }
  }

  /** One label never suppresses another: restricted to any label, the per-label
      result is exactly global suppression of that label's boxes. */
  lemma NmsByNameIsolatesLabels(boxes: seq<Detection>, threshold: real, l: string)
    ensures WithLabel(NmsByName(boxes, threshold), l) == Nms(WithLabel(boxes, l), threshold)
  {
    WithLabelSpec(boxes, l);
    DistinctLabelsSpec(boxes);
    NmsPerLabelIsolates(boxes, DistinctLabels(boxes), threshold, l);
  }

  /** The labels of ls come in strictly increasing order of first appearance in `boxes`. */
  predicate InFirstAppearanceOrder(boxes: seq<Detection>, ls: seq<string>) {
    forall j, k :: 0 <= j < k < |ls| ==> FirstIndex(boxes, ls[j]) < FirstIndex(boxes, ls[k])
  }

  /** Every box of r carries one of the labels of ls. */
  predicate LabelsAmong(r: seq<Detection>, ls: seq<string>) {
    forall i :: 0 <= i < |r| ==> r[i].labelName in ls
  }

  lemma LaterLabels(boxes: seq<Detection>, ls: seq<string>, tail: seq<Detection>)
    requires ls != [] && InFirstAppearanceOrder(boxes, ls) && LabelsAmong(tail, ls[1..])
    ensures InFirstAppearanceOrder(boxes, ls[1..])
    ensures forall i :: 0 <= i < |tail| ==> FirstIndex(boxes, ls[0]) < FirstIndex(boxes, tail[i].labelName)
  {
    forall i | 0 <= i < |tail| ensures FirstIndex(boxes, ls[0]) < FirstIndex(boxes, tail[i].labelName) {
      var k :| 0 <= k < |ls[1..]| && ls[1..][k] == tail[i].labelName;
      assert ls[k + 1] == tail[i].labelName;
    }
    forall j, k | 0 <= j < k < |ls[1..]| ensures FirstIndex(boxes, ls[1..][j]) < FirstIndex(boxes, ls[1..][k]) {
      assert ls[1..][j] == ls[j + 1] && ls[1..][k] == ls[k + 1];
    }
  }

  lemma LabelsAmongAppend(chunk: seq<Detection>, tail: seq<Detection>, ls: seq<string>)
    requires ls != [] && AllLabeled(chunk, ls[0]) && LabelsAmong(tail, ls[1..])
    ensures LabelsAmong(chunk + tail, ls)
  {
    var r := chunk + tail;
    forall i | 0 <= i < |r| ensures r[i].labelName in ls {
      if i < |chunk| {
        assert r[i] == chunk[i];
      } else {
        assert r[i] == tail[i - |chunk|];
        assert r[i].labelName in ls[1..];
      }
    }
  }

  lemma {:induction false} NmsPerLabelGrouped(boxes: seq<Detection>, ls: seq<string>, threshold: real)
    requires InFirstAppearanceOrder(boxes, ls)
    ensures GroupedInOrder(boxes, NmsPerLabel(boxes, ls, threshold))
    ensures LabelsAmong(NmsPerLabel(boxes, ls, threshold), ls)
  {
    if ls != [] {
      NmsOfLabel(boxes, ls[0], threshold);
      var chunk := Nms(WithLabel(boxes, ls[0]), threshold);
      var tail := NmsPerLabel(boxes, ls[1..], threshold);
      assert NmsPerLabel(boxes, ls, threshold) == chunk + tail;
      assert InFirstAppearanceOrder(boxes, ls[1..]) by {
        LaterLabels(boxes, ls, []);
      }
      NmsPerLabelGrouped(boxes, ls[1..], threshold);
      LaterLabels(boxes, ls, tail);
      GroupedAppend(boxes, chunk, ls[0], tail);
      LabelsAmongAppend(chunk, tail, ls);
    }
  }

  /** The output comes in label groups, ordered by each label's first appearance. */
  lemma NmsByNameGrouped(boxes: seq<Detection>, threshold: real)
    ensures GroupedInOrder(boxes, NmsByName(boxes, threshold))
  {
    NmsPerLabelGrouped(boxes, DistinctLabels(boxes), threshold);
  }

  /** Every output box is an input box, used at most once. */
  lemma NmsByNameSelects(boxes: seq<Detection>, threshold: real)
    ensures multiset(NmsByName(boxes, threshold)) <= multiset(boxes)
    ensures |NmsByName(boxes, threshold)| <= |boxes|
  {
    var r := NmsByName(boxes, threshold);
    forall x ensures multiset(r)[x] <= multiset(boxes)[x] {
      var l := x.labelName;
      NmsByNameIsolatesLabels(boxes, threshold, l);
      NmsSelectsInOrder(WithLabel(boxes, l), threshold);
      WithLabelCount(boxes, l, x);
      WithLabelCount(r, l, x);
    }
    assert multiset(boxes) == multiset(r) + (multiset(boxes) - multiset(r));
  }

  // ---------------------------------------------------------------------------
  // `MaximumSuppressionByName`: per label, the head box absorbs the corners and
  // the confidence of the later boxes overlapping it by more than 0.66; only the
  // ones overlapping by more than 0.85 are then removed.

  const GroupIoU: real := 0.66
  const RemoveIoU: real := 0.85

  /** `sortedBoxes.Where(box => IoU(box, current) > 0.66)`. */
  function OverlapGroup(rest: seq<Detection>, current: Detection): (g: seq<Detection>)
    ensures forall b :: b in g <==> b in rest && Above(IoU(b, current), GroupIoU)
  {
    if rest == [] then []
    else
      assert rest == [rest[0]] + rest[1..];
      (if Above(IoU(rest[0], current), GroupIoU) then [rest[0]] else []) + OverlapGroup(rest[1..], current)
  }

  /** `sortedBoxes.RemoveAll(box => IoU(box, current) > 0.85)`. */
  function DropNearDuplicates(rest: seq<Detection>, current: Detection): (r: seq<Detection>)
    ensures forall b :: b in r <==> b in rest && !Above(IoU(b, current), RemoveIoU)
    ensures multiset(r) <= multiset(rest) && |r| <= |rest|
  {
    if rest == [] then []
    else
      assert rest == [rest[0]] + rest[1..];
      (if Above(IoU(rest[0], current), RemoveIoU) then [] else [rest[0]]) + DropNearDuplicates(rest[1..], current)
  }

  /** `g.Min(r => r.X_min)` and the other group aggregates. */
  function MinXMin(g: seq<Detection>): (m: int)
    requires g != []
    ensures exists i :: 0 <= i < |g| && g[i].xMin == m
    ensures forall i :: 0 <= i < |g| ==> m <= g[i].xMin
  {
    if |g| == 1 then g[0].xMin
    else
      var m' := MinXMin(g[1..]);
      assert forall i :: 1 <= i < |g| ==> g[i] == g[1..][i - 1];
      if g[0].xMin <= m' then g[0].xMin else m'
  }

  function MinYMin(g: seq<Detection>): (m: int)
    requires g != []
    ensures exists i :: 0 <= i < |g| && g[i].yMin == m
    ensures forall i :: 0 <= i < |g| ==> m <= g[i].yMin
  {
    if |g| == 1 then g[0].yMin
    else
      var m' := MinYMin(g[1..]);
      assert forall i :: 1 <= i < |g| ==> g[i] == g[1..][i - 1];
      if g[0].yMin <= m' then g[0].yMin else m'
  }

  function MaxXMax(g: seq<Detection>): (m: int)
    requires g != []
    ensures exists i :: 0 <= i < |g| && g[i].xMax == m
    ensures forall i :: 0 <= i < |g| ==> g[i].xMax <= m
  {
    if |g| == 1 then g[0].xMax
    else
      var m' := MaxXMax(g[1..]);
      assert forall i :: 1 <= i < |g| ==> g[i] == g[1..][i - 1];
      if g[0].xMax >= m' then g[0].xMax else m'
  }

  function MaxConfidence(g: seq<Detection>): (m: real)
    requires g != []
    ensures exists i :: 0 <= i < |g| && g[i].confidence == m
    ensures forall i :: 0 <= i < |g| ==> g[i].confidence <= m
  {
    if |g| == 1 then g[0].confidence
    else
      var m' := MaxConfidence(g[1..]);
      assert forall i :: 1 <= i < |g| ==> g[i] == g[1..][i - 1];
      if g[0].confidence >= m' then g[0].confidence else m'
  }

  /** The update of `current` from its group: X_min, Y_min and X_max from the
      group's extremes and Confidence from its maximum. `X_max` is assigned twice
      and `Y_max` not at all, and the group does not contain `current`. */
  function Absorb(current: Detection, g: seq<Detection>): (r: Detection)
    requires g != []
    ensures r.xMin == MinXMin(g) && r.yMin == MinYMin(g) && r.xMax == MaxXMax(g)
    ensures r.yMax == current.yMax
    ensures r.confidence == MaxConfidence(g)
    ensures r.labelName == current.labelName && r.batchNumber == current.batchNumber &&
            r.serverName == current.serverName
  {
    current.(xMin := MinXMin(g), yMin := MinYMin(g), xMax := MaxXMax(g), confidence := MaxConfidence(g))
  }

  /** The merge loop on one label's sorted boxes. */
  function MergeSorted(s: seq<Detection>): seq<Detection>
    decreases |s|
  {
    if s == [] then []
    else
      var current := s[0];
      var rest := s[1..];
      var g := OverlapGroup(rest, current);
      if g == [] then [current] + MergeSorted(rest)
      else
        var rest' := DropNearDuplicates(rest, current);
        [Absorb(current, g)] + MergeSorted(rest')
  }

  /** The merge of the boxes of one label, highest confidence first. */
  function MergeOfLabel(boxes: seq<Detection>, l: string): seq<Detection>
  {
    MergeSorted(SortByConfidence(WithLabel(boxes, l)))
  }

  function MergePerLabel(boxes: seq<Detection>, ls: seq<string>): seq<Detection>
  {
    if ls == [] then []
    else MergeOfLabel(boxes, ls[0]) + MergePerLabel(boxes, ls[1..])
  }

  /** `MaximumSuppressionByName(boxes, iouThreshold)` as a value; the threshold
      argument is not used by the source. */
  function MergeByName(boxes: seq<Detection>): seq<Detection>
  {
    MergePerLabel(boxes, DistinctLabels(boxes))
  }

  /** The merge loop for one label. The source appends `current` to the result
      and then updates its fields in place; appending the updated value gives
      the same list. */
  method MergeLabel(boxes: seq<Detection>, name: string) returns (result: seq<Detection>)
    ensures result == MergeOfLabel(boxes, name)
  {
    result := [];
    var sortedBoxes := SortByConfidence(WithLabel(boxes, name));
    while |sortedBoxes| > 0
      invariant result + MergeSorted(sortedBoxes) == MergeOfLabel(boxes, name)
      decreases |sortedBoxes|
    {
      var current := sortedBoxes[0];
      sortedBoxes := sortedBoxes[1..];
      var parentBox := OverlapGroup(sortedBoxes, current);
      if parentBox != [] {
        sortedBoxes := DropNearDuplicates(sortedBoxes, current);
        current := Absorb(current, parentBox);
      }
      result := result + [current];
    }
  }

  lemma {:induction false} MergePerLabelAppend(boxes: seq<Detection>, ls: seq<string>, l: string)
    ensures MergePerLabel(boxes, ls + [l]) == MergePerLabel(boxes, ls) + MergeOfLabel(boxes, l)
  {
    if ls == [] {
      assert ([] + [l])[1..] == [];
    } else {
      var t := ls[1..];
      assert (ls + [l])[0] == ls[0] && (ls + [l])[1..] == t + [l];
      var h := MergeOfLabel(boxes, ls[0]);
      assert MergePerLabel(boxes, ls + [l]) == h + MergePerLabel(boxes, t + [l]);
      assert MergePerLabel(boxes, ls) == h + MergePerLabel(boxes, t);
      MergePerLabelAppend(boxes, t, l);
    }
  }

  lemma MergePerLabelPrefix(boxes: seq<Detection>, labels: seq<string>, k: nat, result: seq<Detection>, merged: seq<Detection>)
    requires k < |labels|
    requires result == MergePerLabel(boxes, labels[..k]) && merged == MergeOfLabel(boxes, labels[k])
    ensures result + merged == MergePerLabel(boxes, labels[..k + 1])
  {
    var pre := labels[..k];
    assert labels[..k + 1] == pre + [labels[k]];
    MergePerLabelAppend(boxes, pre, labels[k]);
  }

  method MaximumSuppressionByName(boxes: seq<Detection>, iouThreshold: real) returns (result: seq<Detection>)
    ensures result == MergeByName(boxes)
  {
    result := MergeEachLabel(boxes, DistinctLabels(boxes));
  }

  method MergeEachLabel(boxes: seq<Detection>, labels: seq<string>) returns (result: seq<Detection>)
    ensures result == MergePerLabel(boxes, labels)
  {
    result := [];
    var k := 0;
    assert labels[..0] == [];
    while k < |labels|
      invariant 0 <= k <= |labels|
      invariant result == MergePerLabel(boxes, labels[..k])
    {
      var merged := MergeLabel(boxes, labels[k]);
      MergePerLabelPrefix(boxes, labels, k, result, merged);
      result := result + merged;
      k := k + 1;
    }
    MergePerLabelWhole(boxes, labels, result);
  }

  lemma MergePerLabelWhole(boxes: seq<Detection>, labels: seq<string>, result: seq<Detection>)
    requires result == MergePerLabel(boxes, labels[..|labels|])
    ensures result == MergePerLabel(boxes, labels)
  {
    assert labels[..|labels|] == labels;
  }


  // Properties of the merge.

  /** The head step: with an empty group the head is emitted unchanged and the
      rest is merged as is; otherwise the head is emitted updated from its group
      (Y_max kept, confidence no higher than before when the list is sorted),
      and exactly the later boxes overlapping it by more than 0.85 are dropped. */
  lemma MergeHead(s: seq<Detection>)
    requires s != [] && SortedByConfidence(s)
    ensures var g := OverlapGroup(s[1..], s[0]);
            var r := MergeSorted(s);
            r != [] &&
            (g == [] ==> r[0] == s[0] && r[1..] == MergeSorted(s[1..])) &&
            (g != [] ==> r[0] == Absorb(s[0], g) && r[0].yMax == s[0].yMax && r[0].confidence <= s[0].confidence &&
                         r[1..] == MergeSorted(DropNearDuplicates(s[1..], s[0])))
  {
    var g := OverlapGroup(s[1..], s[0]);
    if g == [] {
      assert MergeSorted(s) == [s[0]] + MergeSorted(s[1..]);
    } else {
      var rest' := DropNearDuplicates(s[1..], s[0]);
      assert MergeSorted(s) == [Absorb(s[0], g)] + MergeSorted(rest');
      var i :| 0 <= i < |g| && g[i].confidence == MaxConfidence(g);
      assert g[i] in s[1..];
      var j :| 0 <= j < |s[1..]| && s[1..][j] == g[i];
      assert s[j + 1] == g[i];
    }
  }

  lemma {:induction false} DropNearDuplicatesSubseq(rest: seq<Detection>, current: Detection)
    ensures IsSubseq(DropNearDuplicates(rest, current), rest)
  {
    if rest != [] {
      DropNearDuplicatesSubseq(rest[1..], current);
      var k := DropNearDuplicates(rest[1..], current);
      if Above(IoU(rest[0], current), RemoveIoU) {
        assert DropNearDuplicates(rest, current) == k;
        SubseqOfTail(k, rest);
      } else {
        assert DropNearDuplicates(rest, current) == [rest[0]] + k;
        SubseqCons(rest[0], k, rest[1..]);
        assert [rest[0]] + rest[1..] == rest;
      }
    }
  }

  /** `y` carries the label, batch, server and Y_max of `x`, at no higher
      confidence: what a merged box keeps of the box it was emitted from. */
  predicate DescendsFrom(y: Detection, x: Detection) {
    y.labelName == x.labelName && y.batchNumber == x.batchNumber &&
    y.serverName == x.serverName && y.yMax == x.yMax && y.confidence <= x.confidence
  }

  predicate AllDescend(r: seq<Detection>, s: seq<Detection>) {
    forall i :: 0 <= i < |r| ==> exists j :: 0 <= j < |s| && DescendsFrom(r[i], s[j])
  }

  lemma DescendCons(y: Detection, tail: seq<Detection>, s: seq<Detection>, t: seq<Detection>)
    requires s != [] && DescendsFrom(y, s[0])
    requires AllDescend(tail, t)
    requires forall b :: b in t ==> b in s
    ensures AllDescend([y] + tail, s)
  {
    var r := [y] + tail;
    forall i | 0 <= i < |r| ensures exists j :: 0 <= j < |s| && DescendsFrom(r[i], s[j]) {
      if i == 0 {
        assert DescendsFrom(r[i], s[0]);
      } else {
        assert r[i] == tail[i - 1];
        var j :| 0 <= j < |t| && DescendsFrom(tail[i - 1], t[j]);
        assert t[j] in s;
        var j' :| 0 <= j' < |s| && s[j'] == t[j];
        assert DescendsFrom(r[i], s[j']);
      }
    }
  }

  /** On a sorted list the merge emits at most one box per input box, and every
      emitted box descends from an input box. */
  lemma {:induction false} MergeSortedDescends(s: seq<Detection>)
    requires SortedByConfidence(s)
    ensures |MergeSorted(s)| <= |s|
    ensures AllDescend(MergeSorted(s), s)
    decreases |s|
  {
    if s != [] {
      MergeHead(s);
      var r := MergeSorted(s);
      var g := OverlapGroup(s[1..], s[0]);
      assert SortedByConfidence(s[1..]);
      if g == [] {
        MergeSortedDescends(s[1..]);
        assert r == [r[0]] + MergeSorted(s[1..]);
        DescendCons(r[0], MergeSorted(s[1..]), s, s[1..]);
      } else {
        var rest' := DropNearDuplicates(s[1..], s[0]);
        DropNearDuplicatesSubseq(s[1..], s[0]);
        SubseqSorted(rest', s[1..]);
        MergeSortedDescends(rest');
        assert r == [r[0]] + MergeSorted(rest');
        DescendCons(r[0], MergeSorted(rest'), s, rest');
      }
    }
  }

  /** The merge of one label emits at most as many boxes as the label has, each
      descending from one of them and so carrying that label. */
  lemma MergeOfLabelDescends(boxes: seq<Detection>, l: string)
    ensures |MergeOfLabel(boxes, l)| <= |WithLabel(boxes, l)|
    ensures AllDescend(MergeOfLabel(boxes, l), WithLabel(boxes, l))
    ensures AllLabeled(MergeOfLabel(boxes, l), l)
  {
    WithLabelSpec(boxes, l);
    var w := WithLabel(boxes, l);
    var sorted := SortByConfidence(w);
    MergeSortedDescends(sorted);
    var r := MergeOfLabel(boxes, l);
    forall b | b in sorted ensures b in w {
      assert b in multiset(sorted);
    }
    forall i | 0 <= i < |r| ensures exists j :: 0 <= j < |w| && DescendsFrom(r[i], w[j]) {
      var j :| 0 <= j < |sorted| && DescendsFrom(r[i], sorted[j]);
      assert sorted[j] in w;
      var j' :| 0 <= j' < |w| && w[j'] == sorted[j];
      assert DescendsFrom(r[i], w[j']);
    }
    forall i | 0 <= i < |r| ensures r[i].labelName == l {
      var j :| 0 <= j < |w| && DescendsFrom(r[i], w[j]);
    }
  }

  lemma {:induction false} MergePerLabelIsolates(boxes: seq<Detection>, ls: seq<string>, l: string)
    requires NoDuplicates(ls)
    ensures WithLabel(MergePerLabel(boxes, ls), l) == if l in ls then MergeOfLabel(boxes, l) else []
  {
    if ls != [] {
      MergeOfLabelDescends(boxes, ls[0]);
      var chunk := MergeOfLabel(boxes, ls[0]);
      var tail := MergePerLabel(boxes, ls[1..]);
      assert MergePerLabel(boxes, ls) == chunk + tail;
      WithLabelChunk(chunk, ls[0], tail, l);
      NoDuplicatesTail(ls, l);
      MergePerLabelIsolates(boxes, ls[1..], l);
    }
  }

  lemma {:induction false} WithLabelAbsent(s: seq<Detection>, l: string)
    requires forall i :: 0 <= i < |s| ==> s[i].labelName != l
    ensures WithLabel(s, l) == []
  {
    if s != [] {
      WithLabelAbsent(s[1..], l);
    }
  }

  /** Labels are merged independently: restricted to any label, the result is
      the merge of that label's boxes alone. */
  lemma MergeByNameIsolatesLabels(boxes: seq<Detection>, l: string)
    ensures WithLabel(MergeByName(boxes), l) == MergeOfLabel(boxes, l)
  {
    DistinctLabelsSpec(boxes);
    MergePerLabelIsolates(boxes, DistinctLabels(boxes), l);
    if l !in DistinctLabels(boxes) {
      WithLabelAbsent(boxes, l);
      assert SortByConfidence([]) == [];
      assert MergeSorted([]) == [];
    }
  }

  /** Every box of the merge descends from an input box: same label, batch,
      server and Y_max, no higher confidence. */
  lemma MergeByNameDescends(boxes: seq<Detection>)
    ensures AllDescend(MergeByName(boxes), boxes)
  {
    var r := MergeByName(boxes);
    forall i | 0 <= i < |r| ensures exists j :: 0 <= j < |boxes| && DescendsFrom(r[i], boxes[j]) {
      MergedBoxDescends(boxes, i);
    }
  }

  lemma MergedBoxDescends(boxes: seq<Detection>, i: nat)
    requires i < |MergeByName(boxes)|
    ensures exists j :: 0 <= j < |boxes| && DescendsFrom(MergeByName(boxes)[i], boxes[j])
  {
    var r := MergeByName(boxes);
    var l := r[i].labelName;
    MergedBoxOfItsLabel(boxes, i);
    LabelMergeDescends(boxes, l, r[i]);
  }

  /** A box of the merge is a box of the merge of its own label. */
  lemma MergedBoxOfItsLabel(boxes: seq<Detection>, i: nat)
    requires i < |MergeByName(boxes)|
    ensures MergeByName(boxes)[i] in MergeOfLabel(boxes, MergeByName(boxes)[i].labelName)
  {
    var r := MergeByName(boxes);
    var l := r[i].labelName;
    MergeByNameIsolatesLabels(boxes, l);
    WithLabelCount(r, l, r[i]);
    assert r[i] in multiset(WithLabel(r, l));
  }

  /** A box of the merge of one label descends from an input box. */
  lemma LabelMergeDescends(boxes: seq<Detection>, l: string, y: Detection)
    requires y in MergeOfLabel(boxes, l)
    ensures exists j :: 0 <= j < |boxes| && DescendsFrom(y, boxes[j])
  {
    var m := MergeOfLabel(boxes, l);
    var k :| 0 <= k < |m| && m[k] == y;
    MergeOfLabelDescends(boxes, l);
    var w := WithLabel(boxes, l);
    WithLabelSpec(boxes, l);
    var j :| 0 <= j < |w| && DescendsFrom(m[k], w[j]);
    assert w[j] in multiset(boxes);
    var j' :| 0 <= j' < |boxes| && boxes[j'] == w[j];
    assert DescendsFrom(y, boxes[j']);
  }

  /** The boxes of the given labels, one label after another. */
  function WithLabels(boxes: seq<Detection>, ls: seq<string>): seq<Detection>
  {
    if ls == [] then [] else WithLabel(boxes, ls[0]) + WithLabels(boxes, ls[1..])
  }

  lemma {:induction false} WithLabelsCount(boxes: seq<Detection>, ls: seq<string>, x: Detection)
    requires NoDuplicates(ls)
    ensures multiset(WithLabels(boxes, ls))[x] == if x.labelName in ls then multiset(boxes)[x] else 0
  {
    if ls != [] {
      WithLabelCount(boxes, ls[0], x);
      NoDuplicatesTail(ls, x.labelName);
      WithLabelsCount(boxes, ls[1..], x);
    }
  }

  lemma {:induction false} MergePerLabelLength(boxes: seq<Detection>, ls: seq<string>)
    ensures |MergePerLabel(boxes, ls)| <= |WithLabels(boxes, ls)|
  {
    if ls != [] {
      MergeOfLabelDescends(boxes, ls[0]);
      MergePerLabelLength(boxes, ls[1..]);
    }
  }

  /** The merge never emits more boxes than it was given. */
  lemma MergeByNameLength(boxes: seq<Detection>)
    ensures |MergeByName(boxes)| <= |boxes|
  {
    var ls := DistinctLabels(boxes);
    DistinctLabelsSpec(boxes);
    MergePerLabelLength(boxes, ls);
    var a := multiset(WithLabels(boxes, ls));
    var b := multiset(boxes);
    forall x ensures a[x] <= b[x] {
      WithLabelsCount(boxes, ls, x);
    }
    assert b == a + (b - a);
  }

  // ---------------------------------------------------------------------------
  // Worked examples on two boxes of one label, the first more confident.

  function Car(xMin: int, yMin: int, xMax: int, yMax: int, confidence: real): Detection {
    Detection(confidence, "car", xMin, yMin, xMax, yMax, None, "local")
  }

  lemma PairLabels(a: Detection, b: Detection)
    requires a.labelName == b.labelName
    ensures DistinctLabels([a, b]) == [a.labelName]
  {
    var s := [a, b];
    assert FirstIndex(s, a.labelName) == 0;
    assert DistinctFrom(s, 2) == [];
    assert DistinctFrom(s, 1) == [];
  }

  /** Two boxes of one label, already in order, are merged as they stand. */
  lemma PairMerge(a: Detection, b: Detection)
    requires a.labelName == b.labelName && a.confidence >= b.confidence
    ensures MergeByName([a, b]) == MergeSorted([a, b])
  {
    var l := a.labelName;
    PairLabels(a, b);
    PairWithLabel(a, b);
    PairSorted(a, b);
    assert MergeOfLabel([a, b], l) == MergeSorted([a, b]);
    assert MergeByName([a, b]) == MergeOfLabel([a, b], l) + MergePerLabel([a, b], []);
  }

  lemma PairWithLabel(a: Detection, b: Detection)
    requires a.labelName == b.labelName
    ensures WithLabel([a, b], a.labelName) == [a, b]
  {
    var l := a.labelName;
    assert [a, b][1..] == [b] && [b][1..] == [];
    assert WithLabel([b], l) == [b] + WithLabel([], l);
    assert WithLabel([a, b], l) == [a] + WithLabel([b], l);
  }

  lemma PairSorted(a: Detection, b: Detection)
    requires a.confidence >= b.confidence
    ensures SortByConfidence([a, b]) == [a, b]
  {
    assert [a, b][1..] == [b] && [b][1..] == [];
    assert SortByConfidence([b]) == InsertByConfidence(b, []) == [b];
    assert SortByConfidence([a, b]) == InsertByConfidence(a, [b]) == [a, b];
  }

  /** The second box joins the first one's group; it is kept when the overlap
      is at most 0.85 and removed otherwise. */
  lemma PairMergeOverlapping(a: Detection, b: Detection)
    requires Above(IoU(b, a), GroupIoU)
    ensures !Above(IoU(b, a), RemoveIoU) ==> MergeSorted([a, b]) == [Absorb(a, [b]), b]
    ensures Above(IoU(b, a), RemoveIoU) ==> MergeSorted([a, b]) == [Absorb(a, [b])]
  {
    assert [a, b][1..] == [b];
    assert OverlapGroup([b], a) == [b];
    if Above(IoU(b, a), RemoveIoU) {
      assert DropNearDuplicates([b], a) == [];
    } else {
      assert DropNearDuplicates([b], a) == [b];
      assert MergeSorted([b]) == [b];
    }
  }

  /** IoU 0.8: the second box joins the first one's group but is not removed,
      so both are emitted, and the first takes the group's confidence 0.8 (the
      group does not contain the box itself). */
  lemma MergeKeepsModerateOverlap()
    ensures MergeByName([Car(0, 0, 10, 10, 0.9), Car(0, 0, 10, 8, 0.8)])
            == [Car(0, 0, 10, 10, 0.8), Car(0, 0, 10, 8, 0.8)]
  {
    var a := Car(0, 0, 10, 10, 0.9);
    var b := Car(0, 0, 10, 8, 0.8);
    assert InterArea(b, a) == 80 && UnionArea(b, a) == 100;
    PairMerge(a, b);
    PairMergeOverlapping(a, b);
  }

  /** IoU 0.9: the second box is absorbed and removed; the first box shrinks to
      the second one's X_min, since its own corner is not part of the group. */
  lemma MergeShrinksToGroup()
    ensures MergeByName([Car(0, 0, 10, 10, 0.9), Car(1, 0, 10, 10, 0.8)])
            == [Car(1, 0, 10, 10, 0.8)]
  {
    var a := Car(0, 0, 10, 10, 0.9);
    var b := Car(1, 0, 10, 10, 0.8);
    assert InterArea(b, a) == 90 && UnionArea(b, a) == 100;
    PairMerge(a, b);
    PairMergeOverlapping(a, b);
  }

  /** IoU 100/110: the second box is removed, yet the merged box keeps
      Y_max 10, since Y_max is never taken from the group. */
  lemma MergeKeepsOwnYMax()
    ensures MergeByName([Car(0, 0, 10, 10, 0.9), Car(0, 0, 10, 11, 0.8)])
            == [Car(0, 0, 10, 10, 0.8)]
  {
    var a := Car(0, 0, 10, 10, 0.9);
    var b := Car(0, 0, 10, 11, 0.8);
    assert InterArea(b, a) == 100 && UnionArea(b, a) == 110;
    PairMerge(a, b);
    PairMergeOverlapping(a, b);
  }

  /** Two disjoint boxes of zero width have IoU 0/0 (NaN); NaN is not below
      any threshold, so the less confident one is suppressed. */
  lemma NmsSuppressesOnNaN()
    ensures Nms([Car(0, 0, 0, 10, 0.9), Car(5, 0, 5, 10, 0.8)], 0.5) == [Car(0, 0, 0, 10, 0.9)]
  {
    var a := Car(0, 0, 0, 10, 0.9);
    var b := Car(5, 0, 5, 10, 0.8);
    assert InterArea(a, b) == 0 && Area(a) == 0 && Area(b) == 0;
    assert IoU(a, b) == NaN;
    assert SortByConfidence([a, b]) == [a, b];
    assert KeepBelow([b], a, 0.5) == [];
  }
}
