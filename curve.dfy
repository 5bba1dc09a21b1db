/**
 * The XY drawing of the sketch: points drawn with the mouse over the XY plot
 * are mapped to [-1, 1] x [-1, 1] and the polyline through them is resampled
 * into 64 samples evenly spaced by arc length (`updateTablesFromXY`). The x of
 * each sample goes to the left table; the negated y goes to the right table at
 * the entry `(s * Math.round(ratio)) % 64`. The segment lengths come from
 * `dist`, a square root, and are taken as given.
 */
module Curve {
  import opened JsMath
  import opened Layout
  import opened Waveforms

  /** `{ x, y }`. */
  datatype Point = Point(x: real, y: real)

  /** `toNorm`: `map(..., true)` onto [-1, 1], clamped. */
  function ToNorm(p: Point): (q: Point)
    ensures -1.0 <= q.x <= 1.0 && -1.0 <= q.y <= 1.0
  {
    Point(Constrain(MapRange(p.x, XyX0, XyX0 + XySize, -1.0, 1.0), -1.0, 1.0),
          Constrain(MapRange(p.y, XyY0 + XySize, XyY0, 1.0, -1.0), -1.0, 1.0))
  }

  /**
   * The mapping's orientation: the left edge of the plot is x = -1 and the
   * right edge x = +1; the bottom edge is y = +1 and the top edge y = -1.
   */
  lemma ToNormEdges(x: real, y: real)
    ensures ToNorm(Point(XyX0, y)).x == -1.0 && ToNorm(Point(XyX0 + XySize, y)).x == 1.0
    ensures ToNorm(Point(x, XyY0 + XySize)).y == 1.0 && ToNorm(Point(x, XyY0)).y == -1.0
  {
  }

  /** `points.map(toNorm)`. */
  function Normalize(points: seq<Point>): (norm: seq<Point>)
    ensures |norm| == |points|
    ensures forall i :: 0 <= i < |norm| ==> norm[i] == ToNorm(points[i])
  {
    seq(|points|, i requires 0 <= i < |points| => ToNorm(points[i]))
  }

  /** Every point lies in [-1, 1] x [-1, 1]. */
  predicate InUnitSquare(norm: seq<Point>)
  {
    forall i :: 0 <= i < |norm| ==> -1.0 <= norm[i].x <= 1.0 && -1.0 <= norm[i].y <= 1.0
  }

  lemma NormalizeInUnitSquare(points: seq<Point>)
    ensures InUnitSquare(Normalize(points))
  {
  }

  function SqDist(a: Point, b: Point): real
  {
    (b.x - a.x) * (b.x - a.x) + (b.y - a.y) * (b.y - a.y)
  }

  /** One positive length per segment of the polyline, `seg[i]` from `norm[i]` to `norm[i + 1]`. */
  predicate SegmentLengths(norm: seq<Point>, seg: seq<real>)
  {
    && |norm| >= 2 && |seg| == |norm| - 1
    && forall i :: 0 <= i < |seg| ==> seg[i] > 0.0
  }

  /** The lengths are the Euclidean distances `dist(...)` between consecutive points. */
  predicate Distances(norm: seq<Point>, seg: seq<real>)
    requires SegmentLengths(norm, seg)
  {
    forall i :: 0 <= i < |seg| ==> seg[i] * seg[i] == SqDist(norm[i], norm[i + 1])
  }

  /** The arc length up to point `j`. */
  function Prefix(seg: seq<real>, j: nat): real
    requires j <= |seg|
  {
    Sum(seg[..j])
  }

  /** `tDist = s * step` with `step = total / (TABLE_SIZE - 1)`: the arc length of sample `s`. */
  function TDist(seg: seq<real>, s: int): real
  {
    s as real * (Sum(seg) / (TableSize - 1) as real)
  }

  /** The cursor loop stops at `j`: `!(acc + seg[j - 1] < tDist && j < seg.length)`. */
  predicate Stop(seg: seq<real>, j: nat, tDist: real)
    requires j <= |seg|
  {
    !(Prefix(seg, j) < tDist && j < |seg|)
  }

  /** Where the cursor loop stops when it starts at `j`. */
  function BracketFrom(seg: seq<real>, j: nat, tDist: real): (r: nat)
    requires 1 <= j <= |seg|
    ensures j <= r <= |seg| && Stop(seg, r, tDist)
    decreases |seg| - j
  {
    if Stop(seg, j, tDist) then j else BracketFrom(seg, j + 1, tDist)
  }

  /** The segment `seg[j - 1]` that holds arc length `tDist`: the first stop of the cursor. */
  function Bracket(seg: seq<real>, tDist: real): (j: nat)
    requires |seg| >= 1
    ensures 1 <= j <= |seg|
  {
    BracketFrom(seg, 1, tDist)
  }

  /** The cursor passes every index before its stop. */
  lemma {:induction false} BracketFromFirst(seg: seq<real>, j: nat, tDist: real)
    requires 1 <= j <= |seg|
    ensures forall k :: j <= k < BracketFrom(seg, j, tDist) ==> !Stop(seg, k, tDist)
    decreases |seg| - j
  {
    if !Stop(seg, j, tDist) {
      BracketFromFirst(seg, j + 1, tDist);
    }
  }

  /** Sample `s` of the resampled polyline: `lerp` along segment `Bracket - 1`. */
  function SampleAt(norm: seq<Point>, seg: seq<real>, s: int): Point
    requires SegmentLengths(norm, seg)
  {
    var t := TDist(seg, s);
    var j := Bracket(seg, t);
    var u := (t - Prefix(seg, j - 1)) / seg[j - 1];
    Point(Lerp(norm[j - 1].x, norm[j].x, u), Lerp(norm[j - 1].y, norm[j].y, u))
  }

  /** With the cursor at the stop for sample `s`, the sketch's `lerp` computes that sample. */
  lemma SampleFromCursor(norm: seq<Point>, seg: seq<real>, s: int, idx: nat, acc: real)
    requires SegmentLengths(norm, seg)
    requires idx == Bracket(seg, TDist(seg, s)) && acc == Prefix(seg, idx - 1)
    ensures var t := (TDist(seg, s) - acc) / seg[idx - 1];
      SampleAt(norm, seg, s) == Point(Lerp(norm[idx - 1].x, norm[idx].x, t), Lerp(norm[idx - 1].y, norm[idx].y, t))
  {
  }

  /** The interpolation parameter of sample `s` (the sketch's `t`). */
  function Param(norm: seq<Point>, seg: seq<real>, s: int): real
    requires SegmentLengths(norm, seg)
  {
    var t := TDist(seg, s);
    var j := Bracket(seg, t);
    (t - Prefix(seg, j - 1)) / seg[j - 1]
  }

  /** Arc lengths grow along the polyline, up to the total length. */
  lemma PrefixBounds(seg: seq<real>)
    requires forall i :: 0 <= i < |seg| ==> seg[i] > 0.0
    ensures Prefix(seg, 0) == 0.0
    ensures forall j :: 0 <= j < |seg| ==> Prefix(seg, j) < Sum(seg)
    ensures forall j :: 0 <= j < |seg| ==> Prefix(seg, j + 1) == Prefix(seg, j) + seg[j]
  {
    assert seg[..|seg|] == seg;
    forall j | 0 <= j < |seg|
      ensures Prefix(seg, j) < Sum(seg)
      ensures Prefix(seg, j + 1) == Prefix(seg, j) + seg[j]
    {
      SumPrefixStrict(seg, j, |seg|);
      SumPrefixStep(seg, j);
    }
  }

  /** The 64 sample positions run from the start to the end of the polyline. */
  lemma TDistBounds(seg: seq<real>, s: int)
    requires forall i :: 0 <= i < |seg| ==> seg[i] > 0.0
    requires 0 <= s < TableSize
    ensures 0.0 <= TDist(seg, s) <= Sum(seg)
  {
    SumPrefixMonotone(seg, 0, |seg|);
    assert seg[..|seg|] == seg;
    var total := Sum(seg);
    var step := total / (TableSize - 1) as real;
    assert step * (TableSize - 1) as real == total;
    MulLeft(step, 0.0, s as real);
    MulLeft(step, s as real, (TableSize - 1) as real);
  }

  /** The arc length of the next sample is no smaller, so the cursor never moves back. */
  lemma TDistGrows(seg: seq<real>, s: int, idx: nat)
    requires forall i :: 0 <= i < |seg| ==> seg[i] > 0.0
    requires 0 <= s < TableSize && idx <= |seg| + 1
    requires forall j :: 1 <= j < idx ==> !Stop(seg, j, TDist(seg, s))
    ensures forall j :: 1 <= j < idx ==> Prefix(seg, j) < TDist(seg, s + 1) && j < |seg|
  {
    SumPrefixMonotone(seg, 0, |seg|);
    assert seg[..0] == [] && seg[..|seg|] == seg;
    var step := Sum(seg) / (TableSize - 1) as real;
    assert 0.0 <= step;
    assert TDist(seg, s + 1) == TDist(seg, s) + step;
    forall j | 1 <= j < idx
      ensures Prefix(seg, j) < TDist(seg, s + 1) && j < |seg|
    {
      assert !Stop(seg, j, TDist(seg, s));
    }
  }

  /** The segment the cursor stops at holds the arc length it was looking for. */
  lemma BracketHolds(seg: seq<real>, t: real)
    requires |seg| >= 1 && forall i :: 0 <= i < |seg| ==> seg[i] > 0.0
    requires 0.0 <= t <= Sum(seg)
    ensures Prefix(seg, Bracket(seg, t) - 1) <= t <= Prefix(seg, Bracket(seg, t) - 1) + seg[Bracket(seg, t) - 1]
  {
    var j := Bracket(seg, t);
    PrefixBounds(seg);
    BracketFromFirst(seg, 1, t);
    if j > 1 {
      assert !Stop(seg, j - 1, t);
    }
    if j == |seg| {
      assert seg[..|seg|] == seg;
    }
  }

  /**
   * Every sample falls inside its segment: the parameter lies in [0, 1] for
   * each of the 64 samples.
   */
  lemma ParamInUnit(norm: seq<Point>, seg: seq<real>, s: int)
    requires SegmentLengths(norm, seg) && 0 <= s < TableSize
    ensures 0.0 <= Param(norm, seg, s) <= 1.0
  {
    var t := TDist(seg, s);
    var j := Bracket(seg, t);
    TDistBounds(seg, s);
    BracketHolds(seg, t);
    FractionInUnit(t - Prefix(seg, j - 1), seg[j - 1]);
  }

  /** Drawn inside the unit square, every sample stays inside it. */
  lemma SampleInUnitSquare(norm: seq<Point>, seg: seq<real>, s: int)
    requires SegmentLengths(norm, seg) && InUnitSquare(norm) && 0 <= s < TableSize
    ensures -1.0 <= SampleAt(norm, seg, s).x <= 1.0
    ensures -1.0 <= SampleAt(norm, seg, s).y <= 1.0
  {
    ParamInUnit(norm, seg, s);
    var j := Bracket(seg, TDist(seg, s));
    var u := Param(norm, seg, s);
    LerpBetween(norm[j - 1].x, norm[j].x, u, -1.0, 1.0);
    LerpBetween(norm[j - 1].y, norm[j].y, u, -1.0, 1.0);
  }

  /** The first sample is the first point. */
  lemma FirstSample(norm: seq<Point>, seg: seq<real>)
    requires SegmentLengths(norm, seg)
    ensures SampleAt(norm, seg, 0) == norm[0]
  {
    PrefixBounds(seg);
    assert Stop(seg, 1, TDist(seg, 0));
  }

  /** The last sample is the last point: sample 63 sits at the total length. */
  lemma LastSample(norm: seq<Point>, seg: seq<real>)
    requires SegmentLengths(norm, seg)
    ensures SampleAt(norm, seg, TableSize - 1) == norm[|norm| - 1]
  {
    var t := TDist(seg, TableSize - 1);
    assert t == Sum(seg);
    PrefixBounds(seg);
    var j := Bracket(seg, t);
    assert j == |seg|;
    var last := |seg| - 1;
    assert t - Prefix(seg, last) == seg[last];
    DivSelf(seg[last]);
  }

  /** The 64 samples `updateTablesFromXY` takes along the stroke, in order. */
  function Samples(norm: seq<Point>, seg: seq<real>): (r: seq<Point>)
    requires SegmentLengths(norm, seg)
    ensures |r| == TableSize
  {
    seq(TableSize, s => SampleAt(norm, seg, s))
  }

  /**
   * The samples of a stroke in the unit square start at its first point, end
   * at its last point and stay in the unit square.
   */
  lemma SamplesShape(norm: seq<Point>, seg: seq<real>)
    requires SegmentLengths(norm, seg) && InUnitSquare(norm)
    ensures Samples(norm, seg)[0] == norm[0]
    ensures Samples(norm, seg)[TableSize - 1] == norm[|norm| - 1]
    ensures forall s :: 0 <= s < TableSize ==>
      -1.0 <= Samples(norm, seg)[s].x <= 1.0 && -1.0 <= Samples(norm, seg)[s].y <= 1.0
  {
    FirstSample(norm, seg);
    LastSample(norm, seg);
    forall s | 0 <= s < TableSize
      ensures -1.0 <= Samples(norm, seg)[s].x <= 1.0 && -1.0 <= Samples(norm, seg)[s].y <= 1.0
    {
      SampleInUnitSquare(norm, seg, s);
    }
  }

  /** `(s * Math.round(ratio)) % TABLE_SIZE`, the right-table entry sample `s` goes to. */
  function RightTarget(s: int, k: int): int
  {
    RemInt(s * k, TableSize)
  }

  /**
   * The right table after the first `m` samples have been written: `-y` at
   * each sample's target, where a negative target (from a negative ratio)
   * writes nothing, as with any negative index into a `Float32Array`.
   */
  function WriteRight(right: seq<real>, samples: seq<Point>, k: int, m: nat): (r: seq<real>)
    requires |right| == TableSize && m <= |samples|
    ensures |r| == TableSize
  {
    if m == 0 then right
    else
      var r := WriteRight(right, samples, k, m - 1);
      var target := RightTarget(m - 1, k);
      if 0 <= target then r[target := -samples[m - 1].y] else r
  }

  /** An entry no sample targets keeps its old value. */
  lemma {:induction false} WriteRightUnwritten(right: seq<real>, samples: seq<Point>, k: int, m: nat, t: int)
    requires |right| == TableSize && m <= |samples| && 0 <= t < TableSize
    requires forall s :: 0 <= s < m ==> RightTarget(s, k) != t
    ensures WriteRight(right, samples, k, m)[t] == right[t]
  {
    if m > 0 {
      WriteRightUnwritten(right, samples, k, m - 1, t);
    }
  }

  /** An entry holds `-y` of the last sample that targets it. */
  lemma {:induction false} WriteRightLast(right: seq<real>, samples: seq<Point>, k: int, m: nat, s: int)
    requires |right| == TableSize && m <= |samples|
    requires 0 <= s < m && 0 <= RightTarget(s, k)
    requires forall s' :: s < s' < m ==> RightTarget(s', k) != RightTarget(s, k)
    ensures WriteRight(right, samples, k, m)[RightTarget(s, k)] == -samples[s].y
  {
    if s < m - 1 {
      WriteRightLast(right, samples, k, m - 1, s);
    }
  }

  /** At ratio 1 the right table is the negated y of every sample, in order. */
  lemma WriteRightRatioOne(right: seq<real>, samples: seq<Point>)
    requires |right| == TableSize && |samples| == TableSize
    ensures forall t :: 0 <= t < TableSize ==> WriteRight(right, samples, 1, TableSize)[t] == -samples[t].y
  {
    forall t | 0 <= t < TableSize
      ensures WriteRight(right, samples, 1, TableSize)[t] == -samples[t].y
    {
      WriteRightLast(right, samples, 1, TableSize, t);
    }
  }

  /**
   * At ratio 2 the curve is wound twice into the even entries: entry `2i`
   * holds the sample `i + 32` of the second lap, and the odd entries keep
   * whatever they held.
   */
  lemma WriteRightRatioTwo(right: seq<real>, samples: seq<Point>)
    requires |right| == TableSize && |samples| == TableSize
    ensures forall i :: 0 <= i < TableSize / 2 ==>
      WriteRight(right, samples, 2, TableSize)[2 * i] == -samples[i + 32].y
    ensures forall i :: 0 <= i < TableSize / 2 ==>
      WriteRight(right, samples, 2, TableSize)[2 * i + 1] == right[2 * i + 1]
  {
    forall s | 0 <= s < TableSize
      ensures RightTarget(s, 2) == if s < 32 then 2 * s else 2 * s - 64
    {
      RatioTwoTarget(s);
    }
    forall i | 0 <= i < TableSize / 2
      ensures WriteRight(right, samples, 2, TableSize)[2 * i] == -samples[i + 32].y
      ensures WriteRight(right, samples, 2, TableSize)[2 * i + 1] == right[2 * i + 1]
    {
      WriteRightLast(right, samples, 2, TableSize, i + 32);
      WriteRightUnwritten(right, samples, 2, TableSize, 2 * i + 1);
    }
  }

  /** At ratio 2, sample `s` goes to `2s` on the first lap and to `2s - 64` on the second. */
  lemma RatioTwoTarget(s: int)
    requires 0 <= s < TableSize
    ensures RightTarget(s, 2) == if s < 32 then 2 * s else 2 * s - 64
  {
    assert 0 <= s * 2 < 128;
  }

  /** `total`: the `total += d` loop over the segment lengths. */
  method TotalLength(seg: seq<real>) returns (total: real)
    ensures total == Sum(seg)
  {
    total := 0.0;
    for i := 0 to |seg|
      invariant total == Sum(seg[..i])
    {
      SumPrefixStep(seg, i);
      total := total + seg[i];
    }
    assert seg[..|seg|] == seg;
  }

  /**
   * The cursor `while` loop of `updateTablesFromXY`: from a cursor that has
   * not passed the stop for `tDist`, move to that stop, keeping `acc` the arc
   * length before segment `idx - 1`.
   */
  method AdvanceCursor(seg: seq<real>, idx0: nat, acc0: real, tDist: real) returns (idx: nat, acc: real)
    requires 1 <= idx0 <= |seg| && acc0 == Prefix(seg, idx0 - 1)
    requires forall i :: 0 <= i < |seg| ==> seg[i] > 0.0
    requires forall j :: 1 <= j < idx0 ==> !Stop(seg, j, tDist)
    ensures idx == Bracket(seg, tDist) && acc == Prefix(seg, idx - 1)
    ensures forall j :: 1 <= j < idx ==> !Stop(seg, j, tDist)
    ensures idx0 <= idx
  {
    PrefixBounds(seg);
    idx, acc := idx0, acc0;
    while acc + seg[idx - 1] < tDist && idx < |seg|
      invariant idx0 <= idx <= |seg| && acc == Prefix(seg, idx - 1)
      invariant forall j :: 1 <= j < idx ==> !Stop(seg, j, tDist)
      decreases |seg| - idx
    {
      acc := acc + seg[idx - 1];
      idx := idx + 1;
    }
    BracketFromFirst(seg, 1, tDist);
    assert Stop(seg, idx, tDist) && Stop(seg, Bracket(seg, tDist), tDist);
  }

  // ---------------------------------------------------------------- normalizeXYPoints

  function Xs(points: seq<Point>): (xs: seq<real>)
    ensures |xs| == |points| && forall i :: 0 <= i < |points| ==> xs[i] == points[i].x
  {
    seq(|points|, i requires 0 <= i < |points| => points[i].x)
  }

  function Ys(points: seq<Point>): (ys: seq<real>)
    ensures |ys| == |points| && forall i :: 0 <= i < |points| ==> ys[i] == points[i].y
  {
    seq(|points|, i requires 0 <= i < |points| => points[i].y)
  }

  /** The smallest value, as `if (v < min) min = v` finds it. */
  function Lo(xs: seq<real>): (r: real)
    requires |xs| > 0
    ensures forall i :: 0 <= i < |xs| ==> r <= xs[i]
  {
    if |xs| == 1 then xs[0]
    else
      var m := Lo(xs[..|xs| - 1]);
      assert forall i :: 0 <= i < |xs| - 1 ==> xs[..|xs| - 1][i] == xs[i];
      if xs[|xs| - 1] < m then xs[|xs| - 1] else m
  }

  /** The largest value, as `if (v > max) max = v` finds it. */
  function Hi(xs: seq<real>): (r: real)
    requires |xs| > 0
    ensures forall i :: 0 <= i < |xs| ==> xs[i] <= r
  {
    if |xs| == 1 then xs[0]
    else
      var m := Hi(xs[..|xs| - 1]);
      assert forall i :: 0 <= i < |xs| - 1 ==> xs[..|xs| - 1][i] == xs[i];
      if xs[|xs| - 1] > m then xs[|xs| - 1] else m
  }

  /** Extending a prefix by one value updates its extremes as the sketch's comparisons do. */
  lemma LoHiStep(xs: seq<real>, i: nat)
    requires 1 <= i < |xs|
    ensures Lo(xs[..i + 1]) == if xs[i] < Lo(xs[..i]) then xs[i] else Lo(xs[..i])
    ensures Hi(xs[..i + 1]) == if xs[i] > Hi(xs[..i]) then xs[i] else Hi(xs[..i])
  {
    assert xs[..i + 1][..i] == xs[..i];
  }

  /** The extremes are values of the sequence. */
  lemma {:induction false} LoHiAttained(xs: seq<real>)
    requires |xs| > 0
    ensures exists i :: 0 <= i < |xs| && xs[i] == Lo(xs)
    ensures exists i :: 0 <= i < |xs| && xs[i] == Hi(xs)
  {
    if |xs| == 1 {
      assert xs[0] == Lo(xs) && xs[0] == Hi(xs);
    } else {
      var ys := xs[..|xs| - 1];
      LoHiAttained(ys);
      var a :| 0 <= a < |ys| && ys[a] == Lo(ys);
      var b :| 0 <= b < |ys| && ys[b] == Hi(ys);
      assert xs[a] == ys[a] && xs[b] == ys[b];
      var last := |xs| - 1;
      assert xs[last] == Lo(xs) || xs[a] == Lo(xs);
      assert xs[last] == Hi(xs) || xs[b] == Hi(xs);
    }
  }

  /** `maxX - minX || 1`: an extent of zero counts as one. */
  function Extent(lo: real, hi: real): real
  {
    if hi - lo == 0.0 then 1.0 else hi - lo
  }

  /** `max(spanX, spanY)`, the side of the square the points are fitted into. */
  function Span(points: seq<Point>): real
    requires |points| > 0
  {
    Max(Extent(Lo(Xs(points)), Hi(Xs(points))), Extent(Lo(Ys(points)), Hi(Ys(points))))
  }

  /**
   * What `normalizeXYPoints` returns: the points centred on the middle of
   * their bounding box and scaled by the same factor on both axes, so that
   * the longer side of the box spans [-1, 1].
   */
  function FitSquare(points: seq<Point>): (r: seq<Point>)
    ensures |r| == |points|
  {
    if |points| == 0 then []
    else
      assert Lo(Xs(points)) <= Xs(points)[0] <= Hi(Xs(points));
      assert Lo(Ys(points)) <= Ys(points)[0] <= Hi(Ys(points));
      FitWith(points, (Lo(Xs(points)) + Hi(Xs(points))) / 2.0, (Lo(Ys(points)) + Hi(Ys(points))) / 2.0,
              Span(points))
  }

  /** `points.map(p => ({ x: ((p.x - cx) / span) * 2, y: ((p.y - cy) / span) * 2 }))`. */
  function FitWith(points: seq<Point>, cx: real, cy: real, span: real): (r: seq<Point>)
    requires span > 0.0
    ensures |r| == |points|
  {
    seq(|points|, i requires 0 <= i < |points| =>
      Point(((points[i].x - cx) / span) * 2.0, ((points[i].y - cy) / span) * 2.0))
  }

  /** A value inside `[lo, hi]`, centred and divided by a span no shorter than the interval, lands in [-1, 1]. */
  lemma CentredInUnit(v: real, lo: real, hi: real, span: real)
    requires lo <= v <= hi && span >= Extent(lo, hi) && span > 0.0
    ensures -1.0 <= ((v - (lo + hi) / 2.0) / span) * 2.0 <= 1.0
  {
    DivBetween(v - (lo + hi) / 2.0, span, -0.5, 0.5);
  }

  /** The fitted points lie in the unit square. */
  lemma FitSquareInUnitSquare(points: seq<Point>)
    ensures InUnitSquare(FitSquare(points))
  {
    if |points| > 0 {
      var xs, ys := Xs(points), Ys(points);
      var span := Span(points);
      forall i | 0 <= i < |points|
        ensures -1.0 <= FitSquare(points)[i].x <= 1.0 && -1.0 <= FitSquare(points)[i].y <= 1.0
      {
        CentredInUnit(xs[i], Lo(xs), Hi(xs), span);
        CentredInUnit(ys[i], Lo(ys), Hi(ys), span);
      }
    }
  }

  /** Half a positive length, either way, over the whole length, doubled, is -1 or +1. */
  lemma HalfOverWhole(d: real)
    requires d > 0.0
    ensures ((d / 2.0) / d) * 2.0 == 1.0 && ((-(d / 2.0)) / d) * 2.0 == -1.0
  {
    DivSelf(d);
    assert (d / 2.0) / d == (d / d) / 2.0;
  }

  /** When the points are at least as wide as they are tall, the leftmost lands on -1 and the rightmost on +1. */
  lemma FitSquareFillsWidth(points: seq<Point>)
    requires |points| > 0
    requires Lo(Xs(points)) < Hi(Xs(points))
    requires Extent(Lo(Ys(points)), Hi(Ys(points))) <= Hi(Xs(points)) - Lo(Xs(points))
    ensures exists i :: 0 <= i < |points| && FitSquare(points)[i].x == -1.0
    ensures exists i :: 0 <= i < |points| && FitSquare(points)[i].x == 1.0
  {
    var xs := Xs(points);
    var lo, hi := Lo(xs), Hi(xs);
    var d := hi - lo;
    var cx := (lo + hi) / 2.0;
    assert Span(points) == d;
    var r := FitWith(points, cx, (Lo(Ys(points)) + Hi(Ys(points))) / 2.0, d);
    assert FitSquare(points) == r;
    LoHiAttained(xs);
    var a :| 0 <= a < |xs| && xs[a] == lo;
    var b :| 0 <= b < |xs| && xs[b] == hi;
    HalfOverWhole(d);
    assert lo - cx == -(d / 2.0) && hi - cx == d / 2.0;
    assert r[a].x == -1.0;
    assert r[b].x == 1.0;
  }

  /** The `points.forEach` loop of `normalizeXYPoints`: the bounding box. */
  method PointBounds(points: seq<Point>) returns (minX: real, maxX: real, minY: real, maxY: real)
    requires |points| > 0
    ensures minX == Lo(Xs(points)) && maxX == Hi(Xs(points))
    ensures minY == Lo(Ys(points)) && maxY == Hi(Ys(points))
  {
    ghost var xs, ys := Xs(points), Ys(points);
    minX, maxX, minY, maxY := points[0].x, points[0].x, points[0].y, points[0].y;
    assert xs[..1] == [xs[0]] && ys[..1] == [ys[0]];
    for i := 1 to |points|
      invariant minX == Lo(xs[..i]) && maxX == Hi(xs[..i])
      invariant minY == Lo(ys[..i]) && maxY == Hi(ys[..i])
    {
      LoHiStep(xs, i);
      LoHiStep(ys, i);
      var p := points[i];
      if p.x < minX { minX := p.x; }
      if p.x > maxX { maxX := p.x; }
      if p.y < minY { minY := p.y; }
      if p.y > maxY { maxY := p.y; }
    }
    assert xs[..|points|] == xs && ys[..|points|] == ys;
  }

  /** The fit of a non-empty point list is `FitWith` at the centre of the bounding box and the span. */
  lemma FitSquareArgs(points: seq<Point>)
    requires |points| > 0
    ensures Span(points) > 0.0
    ensures FitSquare(points) ==
      FitWith(points, (Lo(Xs(points)) + Hi(Xs(points))) / 2.0, (Lo(Ys(points)) + Hi(Ys(points))) / 2.0, Span(points))
  {
    assert Lo(Xs(points)) <= Xs(points)[0] <= Hi(Xs(points));
    assert Lo(Ys(points)) <= Ys(points)[0] <= Hi(Ys(points));
  }

  /** `normalizeXYPoints(points)` (not called by the sketch). */
  method NormalizeXYPoints(points: seq<Point>) returns (r: seq<Point>)
    ensures r == FitSquare(points)
  {
    if |points| == 0 {
      return [];
    }
    var minX, maxX, minY, maxY := PointBounds(points);
    var spanX := Extent(minX, maxX);
    var spanY := Extent(minY, maxY);
    var span := Max(spanX, spanY);
    var cx := (minX + maxX) / 2.0;
    var cy := (minY + maxY) / 2.0;
    FitSquareArgs(points);
    r := FitWith(points, cx, cy, span);
  }
}
