/**
 * The oscilloscope trigger searches of the sketch. Each one scans analysis
 * buffers (the `fft.waveform()` arrays, given here as sequences) and returns a
 * start index for drawing. An index `i` is a rising crossing of a buffer when
 * `buf[i-1] < 0 <= buf[i]`; reading outside the buffer yields `undefined` in
 * JavaScript, which makes both comparisons false, so index 0 and indices at or
 * past the end are never crossings.
 */
module Trigger {
  import opened JsMath

  /** `buf[i-1] < 0 && buf[i] >= 0`, with out-of-range reads failing the test. */
  predicate RisesAt(buf: seq<real>, i: int)
  {
    1 <= i < |buf| && buf[i - 1] < 0.0 && buf[i] >= 0.0
  }

  /** `crossL || crossR` in `synchronizedTrigger`. */
  predicate EitherRises(bufL: seq<real>, bufR: seq<real>, i: int)
  {
    RisesAt(bufL, i) || RisesAt(bufR, i)
  }

  /** `Math.abs(bufL[i] - bufR[i])`, the alignment score of `synchronizedTrigger`. */
  function Gap(bufL: seq<real>, bufR: seq<real>, i: int): real
    requires 0 <= i < |bufL| && i < |bufR|
  {
    Abs(bufL[i] - bufR[i])
  }

  // ---------------------------------------------------------------- strategy

  /** The three strategies of `adaptiveTrigger`. */
  datatype Strategy = Synchronized | Periodic(ratioInt: int) | PhaseTracking

  /** The choice `adaptiveTrigger` makes from the current ratio alone. */
  function Classify(ratio: real): Strategy
  {
    var ratioInt := Round(ratio);
    var isIntegerRatio := Abs(ratio - ratioInt as real) < 0.01;
    if isIntegerRatio && Abs(ratio - 1.0) < 0.01 then Synchronized
    else if isIntegerRatio then Periodic(ratioInt)
    else PhaseTracking
  }

  /**
   * The classification, stated both ways: 1:1 exactly when the ratio is within
   * 0.01 of 1; an integer ratio `k` other than 1 exactly when the ratio is within
   * 0.01 of `k = Math.round(ratio)`; phase tracking otherwise.
   */
  lemma ClassifySpec(ratio: real)
    ensures Classify(ratio) == Synchronized <==> Abs(ratio - 1.0) < 0.01
    ensures Classify(ratio).Periodic? <==>
      Abs(ratio - Round(ratio) as real) < 0.01 && Abs(ratio - 1.0) >= 0.01
    ensures Classify(ratio).Periodic? ==> Classify(ratio).ratioInt == Round(ratio) != 1
    ensures Classify(ratio) == PhaseTracking <==> Abs(ratio - Round(ratio) as real) >= 0.01
  {
    if Abs(ratio - 1.0) < 0.01 {
      assert Round(ratio) == 1;
    }
  }

  /**
   * Away from 0 the integer strategy never receives 0, so `periodicTrigger`
   * never divides by zero. (For `|ratio| < 0.01` the sketch would call it with
   * 0 and its scan would never end.)
   */
  lemma ClassifyNonZero(ratio: real)
    requires Abs(ratio) >= 0.01
    ensures Classify(ratio).Periodic? ==> Classify(ratio).ratioInt != 0
  {
  }

  /** Within the ratio slider's range [0.1, 4.0] the integer strategy only ever sees 2, 3 or 4. */
  lemma ClassifySliderRange(ratio: real)
    requires 0.1 <= ratio <= 4.0
    ensures Classify(ratio).Periodic? ==> 2 <= Classify(ratio).ratioInt <= 4
  {
    ClassifySpec(ratio);
  }

  // ---------------------------------------------------------------- 1:1

  /**
   * What `synchronizedTrigger` returns: among the indices where either channel
   * rises, the first one with the smallest `|bufL[i] - bufR[i]|`; 0 when there
   * is none. The result is always an index of the buffers (or 0).
   */
  ghost predicate SyncChoice(bufL: seq<real>, bufR: seq<real>, bestIdx: int)
    requires |bufL| == |bufR|
  {
    && 0 <= bestIdx && (|bufL| > 0 ==> bestIdx < |bufL|)
    && ((forall i :: !EitherRises(bufL, bufR, i)) ==> bestIdx == 0)
    && ((exists i :: EitherRises(bufL, bufR, i)) ==>
          && EitherRises(bufL, bufR, bestIdx)
          && (forall i :: EitherRises(bufL, bufR, i) ==> Gap(bufL, bufR, bestIdx) <= Gap(bufL, bufR, i))
          && (forall i :: 0 <= i < bestIdx && EitherRises(bufL, bufR, i) ==>
                Gap(bufL, bufR, i) > Gap(bufL, bufR, bestIdx)))
  }

  /** `synchronizedTrigger` returns the index `SyncChoice` describes. */
  method SynchronizedTrigger(bufL: seq<real>, bufR: seq<real>) returns (bestIdx: int)
    requires |bufL| == |bufR|
    ensures SyncChoice(bufL, bufR, bestIdx)
  {
    var n := |bufL|;
    bestIdx := 0;
    var found := false;          // false while `minPhaseDiff` is still Infinity
    var minPhaseDiff := 0.0;
    var i := 1;
    while i < n
      invariant 1 <= i && (n > 0 ==> i <= n)
      invariant !found ==> bestIdx == 0 && forall j :: 1 <= j < i ==> !EitherRises(bufL, bufR, j)
      invariant found ==> 1 <= bestIdx < i && EitherRises(bufL, bufR, bestIdx)
      invariant found ==> minPhaseDiff == Gap(bufL, bufR, bestIdx)
      invariant found ==> forall j :: 1 <= j < i && EitherRises(bufL, bufR, j) ==>
        minPhaseDiff <= Gap(bufL, bufR, j)
      invariant found ==> forall j :: 1 <= j < bestIdx && EitherRises(bufL, bufR, j) ==>
        Gap(bufL, bufR, j) > minPhaseDiff
    {
      var crossL := bufL[i - 1] < 0.0 && bufL[i] >= 0.0;
      var crossR := bufR[i - 1] < 0.0 && bufR[i] >= 0.0;
      if crossL || crossR {
        var phaseDiff := Abs(bufL[i] - bufR[i]);
        if !found || phaseDiff < minPhaseDiff {
          minPhaseDiff := phaseDiff;
          bestIdx := i;
          found := true;
        }
      }
      i := i + 1;
    }
  }

  // ---------------------------------------------------------------- integer ratio

  /** `period = Math.floor(n / ratioInt)`. */
  function Period(n: nat, ratioInt: int): int
    requires ratioInt != 0
  {
    Floor(n as real / ratioInt as real)
  }

  /** For a positive ratio the period is the integer quotient, so it lies in [0, n]. */
  lemma PeriodBounds(n: nat, ratioInt: int)
    requires ratioInt >= 1
    ensures Period(n, ratioInt) == n / ratioInt
    ensures 0 <= Period(n, ratioInt) <= n
  {
    FloorOfQuotient(n, ratioInt);
    assert n / ratioInt <= n;
  }

  /** The first `m` terms of the correlation `sum_j bufL[i+j] * bufL[(i+period+j) % n]`. */
  function CorrSum(buf: seq<real>, i: nat, period: int, m: nat): real
    requires |buf| > 0 && i + m <= |buf| && period >= 0
  {
    if m == 0 then 0.0
    else CorrSum(buf, i, period, m - 1) +
         buf[i + m - 1] * buf[(i + period + m - 1) % |buf|]
  }

  /** The score `periodicTrigger` gives a crossing at `i`: `Math.min(period, n - i)` terms. */
  function Correlation(buf: seq<real>, i: nat, period: int): real
    requires 0 <= i < |buf| && period >= 0
  {
    CorrSum(buf, i, period, if period <= |buf| - i then period else |buf| - i)
  }

  /** `i` is a left-channel crossing that `periodicTrigger` scores. */
  predicate ScoredCrossing(bufL: seq<real>, period: int, i: int)
  {
    0 <= i < period && RisesAt(bufL, i)
  }

  /** `best` is the first scored crossing with the largest correlation. */
  ghost predicate BestCorrelated(bufL: seq<real>, period: int, best: int)
    requires period >= 0
  {
    && ScoredCrossing(bufL, period, best)
    && (forall i :: ScoredCrossing(bufL, period, i) ==>
          Correlation(bufL, i, period) <= Correlation(bufL, best, period))
    && (forall i :: ScoredCrossing(bufL, period, i) && i < best ==>
          Correlation(bufL, i, period) < Correlation(bufL, best, period))
  }

  /**
   * What `periodicTrigger` returns for a given period: the first scored crossing
   * with the largest correlation, 0 when there is none, and in `[0, period)`
   * whenever the period is positive.
   */
  ghost predicate PeriodicChoice(bufL: seq<real>, period: int, bestIdx: int)
  {
    && (period <= 0 ==> bestIdx == 0)
    && (period > 0 ==> 0 <= bestIdx < period)
    && ((forall i :: !ScoredCrossing(bufL, period, i)) ==> bestIdx == 0)
    && ((exists i :: ScoredCrossing(bufL, period, i)) ==> period > 0 && BestCorrelated(bufL, period, bestIdx))
  }

  /**
   * The sketch's reading of a `periodicTrigger` result: a non-zero index is a
   * left-channel crossing (never index 0), and a best-correlated one.
   */
  lemma PeriodicNonZeroIsCrossing(bufL: seq<real>, period: int, bestIdx: int)
    requires period >= 0 && PeriodicChoice(bufL, period, bestIdx)
    ensures bestIdx != 0 ==> 1 <= bestIdx < period && RisesAt(bufL, bestIdx)
    ensures bestIdx != 0 ==> BestCorrelated(bufL, period, bestIdx)
  {
  }

  /** For `1 <= ratioInt` the result lies in `[0, floor(n / ratioInt))`, the first period. */
  lemma PeriodicInFirstPeriod(bufL: seq<real>, ratioInt: int, bestIdx: int)
    requires 1 <= ratioInt <= |bufL|
    requires PeriodicChoice(bufL, Period(|bufL|, ratioInt), bestIdx)
    ensures 0 <= bestIdx < |bufL| / ratioInt
  {
    PeriodBounds(|bufL|, ratioInt);
    assert |bufL| / ratioInt >= 1;
  }

  /** The inner loop of `periodicTrigger`: the correlation score of the crossing at `i`. */
  method CorrelationAt(bufL: seq<real>, i: nat, period: int) returns (correlation: real)
    requires i < |bufL| && period >= 0
    ensures correlation == Correlation(bufL, i, period)
  {
    var n := |bufL|;
    correlation := 0.0;
    var terms := if period <= n - i then period else n - i;
    for j := 0 to terms
      invariant correlation == CorrSum(bufL, i, period, j)
    {
      correlation := correlation + bufL[i + j] * bufL[(i + period + j) % n];
    }
  }

  /**
   * `periodicTrigger`: among the left-channel crossings in `[0, period)`, the
   * first one with the largest correlation against the signal one period
   * later; 0 when there is none. Index 0 never qualifies, and every read of
   * the buffer is in bounds.
   */
  method PeriodicTrigger(bufL: seq<real>, bufR: seq<real>, ratioInt: int) returns (bestIdx: int)
    requires ratioInt != 0
    ensures Period(|bufL|, ratioInt) <= |bufL|
    ensures PeriodicChoice(bufL, Period(|bufL|, ratioInt), bestIdx)
  {
    var n := |bufL|;
    var period := Period(n, ratioInt);
    if ratioInt >= 1 {
      PeriodBounds(n, ratioInt);
    } else {
      var x := n as real / ratioInt as real;
      assert x * ratioInt as real == n as real;
      MulRight(0.0, x, -(ratioInt as real));
    }
    bestIdx := ScanCrossings(bufL, period);
  }

  /** The crossing loop of `periodicTrigger` for a period of at most the buffer length. */
  method ScanCrossings(bufL: seq<real>, period: int) returns (bestIdx: int)
    requires period <= |bufL|
    ensures PeriodicChoice(bufL, period, bestIdx)
  {
    var found := false;          // false while `maxCorr` is still -Infinity
    var maxCorr := 0.0;
    bestIdx := 0;
    var i := 0;
    while i < period
      invariant 0 <= i && (period > 0 ==> i <= period)
      invariant !found ==> bestIdx == 0
      invariant !found ==> forall j :: 0 <= j < i ==> !ScoredCrossing(bufL, period, j)
      invariant found ==> 0 <= bestIdx < i && ScoredCrossing(bufL, period, bestIdx)
      invariant found ==> maxCorr == Correlation(bufL, bestIdx, period)
      invariant found ==> forall j :: 0 <= j < i && ScoredCrossing(bufL, period, j) ==>
        Correlation(bufL, j, period) <= maxCorr
      invariant found ==> forall j :: ScoredCrossing(bufL, period, j) && j < bestIdx ==>
        Correlation(bufL, j, period) < maxCorr
    {
      var crossL := i >= 1 && bufL[i - 1] < 0.0 && bufL[i] >= 0.0;
      if crossL {
        var correlation := CorrelationAt(bufL, i, period);
        if !found || correlation > maxCorr {
          maxCorr := correlation;
          bestIdx := i;
          found := true;
        }
      }
      i := i + 1;
    }
  }

  // ---------------------------------------------------------------- peaks

  /** `k` is where the `buf[i] > peak` scan settles: a maximum, and the first one. */
  predicate IsFirstPeak(buf: seq<real>, k: int)
  {
    && 0 <= k < |buf|
    && (forall j :: 0 <= j < |buf| ==> buf[j] <= buf[k])
    && (forall j :: 0 <= j < k ==> buf[j] < buf[k])
  }

  /** The index of the first maximum of a non-empty buffer. */
  function PeakIndex(buf: seq<real>): (k: nat)
    requires |buf| > 0
    ensures IsFirstPeak(buf, k)
  {
    if |buf| == 1 then 0
    else
      var k := PeakIndex(buf[..|buf| - 1]);
      if buf[|buf| - 1] > buf[k] then |buf| - 1 else k
  }

  /** There is only one first maximum. */
  lemma FirstPeakUnique(buf: seq<real>, k1: int, k2: int)
    requires IsFirstPeak(buf, k1) && IsFirstPeak(buf, k2)
    ensures k1 == k2
  {
    assert buf[k1] <= buf[k2] && buf[k2] <= buf[k1];
  }

  /** The peak scan of `risingEdge`: index 0 for an empty buffer, else the first maximum. */
  method FirstPeak(buf: seq<real>) returns (maxIdx: nat)
    ensures |buf| == 0 ==> maxIdx == 0
    ensures |buf| > 0 ==> maxIdx == PeakIndex(buf)
  {
    maxIdx := 0;
    var found := false;          // false while `maxVal` is still -Infinity
    var maxVal := 0.0;
    for i := 0 to |buf|
      invariant found <==> i > 0
      invariant found ==> maxIdx < i && maxVal == buf[maxIdx]
      invariant !found ==> maxIdx == 0
      invariant forall j :: 0 <= j < i ==> buf[j] <= maxVal
      invariant forall j :: 0 <= j < maxIdx ==> buf[j] < maxVal
    {
      if !found || buf[i] > maxVal {
        maxVal := buf[i];
        maxIdx := i;
      }
      found := true;
    }
    if |buf| > 0 {
      FirstPeakUnique(buf, maxIdx, PeakIndex(buf));
    }
  }

  // ---------------------------------------------------------------- risingEdge

  /** A rising crossing on the circular buffer: `buf[(i - 1 + n) % n] < 0 <= buf[i]`. */
  predicate CircRisesAt(buf: seq<real>, i: int)
  {
    0 <= i < |buf| && buf[(i - 1 + |buf|) % |buf|] < 0.0 && buf[i] >= 0.0
  }

  /** The index `offset` samples before `from`, going round the buffer. */
  function Back(n: nat, from: int, offset: int): int
    requires n > 0
  {
    (from + n - offset) % n
  }

  /** Walking back from the peak, `offset` is the first step that lands on a circular crossing. */
  predicate FirstBackCrossing(buf: seq<real>, from: int, offset: int)
    requires |buf| > 0
  {
    && 0 <= offset < |buf|
    && CircRisesAt(buf, Back(|buf|, from, offset))
    && forall o :: 0 <= o < offset ==> !CircRisesAt(buf, Back(|buf|, from, o))
  }

  /**
   * `risingEdge` (not called by the sketch): the nearest circular crossing at or
   * before the first peak, or 0 when the buffer has none.
   */
  method RisingEdge(buf: seq<real>) returns (r: int)
    ensures |buf| == 0 ==> r == 0
    ensures |buf| > 0 ==>
      || (exists o :: FirstBackCrossing(buf, PeakIndex(buf), o) && r == Back(|buf|, PeakIndex(buf), o))
      || (r == 0 && forall o :: 0 <= o < |buf| ==> !CircRisesAt(buf, Back(|buf|, PeakIndex(buf), o)))
  {
    var n := |buf|;
    var maxIdx := FirstPeak(buf);
    for offset := 0 to n
      invariant forall o :: 0 <= o < offset ==> !CircRisesAt(buf, Back(n, maxIdx, o))
    {
      var i := (maxIdx + n - offset) % n;
      if buf[(i - 1 + n) % n] < 0.0 && buf[i] >= 0.0 {
        assert FirstBackCrossing(buf, maxIdx, offset);
        return i;
      }
    }
    return 0;
  }

  // ---------------------------------------------------------------- phase tracking

  /** `offset` in `for (offset = -n/4; offset <= n/4; offset++)`, as its `m`-th value. */
  function Offset(n: nat, m: int): real
  {
    m as real - n as real / 4.0
  }

  /** The `m`-th offset is still inside the search window. */
  predicate InWindow(n: nat, m: int)
  {
    0 <= m && Offset(n, m) <= n as real / 4.0
  }

  /** `Math.round((predictedTrigger + offset + n) % n)`, the index tried at the `m`-th offset. */
  function Candidate(n: nat, predicted: real, m: int): int
    requires n > 0
  {
    Round(RemReal(predicted + Offset(n, m) + n as real, n as real))
  }

  /**
   * What the window scan of `phaseTrackingTrigger` returns: the crossing whose offset from the
   * prediction is smallest in magnitude, the earlier (more negative) offset on a
   * tie; `Math.round(predicted)` when the window holds no crossing. The fallback
   * need not lie inside the buffer.
   */
  ghost predicate NearestChoice(bufL: seq<real>, predicted: real, bestIdx: int)
    requires |bufL| > 0
  {
    var n := |bufL|;
    && ((forall m :: InWindow(n, m) ==> !RisesAt(bufL, Candidate(n, predicted, m))) ==>
          bestIdx == Round(predicted))
    && ((exists m :: InWindow(n, m) && RisesAt(bufL, Candidate(n, predicted, m))) ==>
          exists m :: && InWindow(n, m) && RisesAt(bufL, Candidate(n, predicted, m))
                      && bestIdx == Candidate(n, predicted, m)
                      && (forall m' :: InWindow(n, m') && RisesAt(bufL, Candidate(n, predicted, m')) ==>
                            Abs(Offset(n, m)) <= Abs(Offset(n, m')))
                      && (forall m' :: 0 <= m' < m && RisesAt(bufL, Candidate(n, predicted, m')) ==>
                            Abs(Offset(n, m')) > Abs(Offset(n, m))))
  }

  /**
   * A result that comes from a crossing lies in `[1, n)`: it is read back from
   * the buffer after the `i > 0` test.
   */
  lemma NearestChoiceInBuffer(bufL: seq<real>, predicted: real, bestIdx: int)
    requires |bufL| > 0 && NearestChoice(bufL, predicted, bestIdx)
    requires exists m :: InWindow(|bufL|, m) && RisesAt(bufL, Candidate(|bufL|, predicted, m))
    ensures 1 <= bestIdx < |bufL| && RisesAt(bufL, bestIdx)
  {
  }

  /** The window scan of `phaseTrackingTrigger` returns the index `NearestChoice` describes. */
  method NearestCrossing(bufL: seq<real>, predicted: real) returns (bestIdx: int)
    requires |bufL| > 0
    ensures NearestChoice(bufL, predicted, bestIdx)
  {
    var n := |bufL|;
    bestIdx := Round(predicted);
    var found := false;          // false while `minDist` is still Infinity
    var minDist := 0.0;
    ghost var bestM := 0;
    var m := 0;
    while Offset(n, m) <= n as real / 4.0
      invariant 0 <= m
      invariant forall m' :: m <= m' ==> (InWindow(n, m') ==> m' <= n)
      invariant !found ==> bestIdx == Round(predicted)
      invariant !found ==> forall m' :: 0 <= m' < m ==> !RisesAt(bufL, Candidate(n, predicted, m'))
      invariant found ==> 0 <= bestM < m && InWindow(n, bestM)
      invariant found ==> RisesAt(bufL, Candidate(n, predicted, bestM)) && bestIdx == Candidate(n, predicted, bestM)
      invariant found ==> minDist == Abs(Offset(n, bestM))
      invariant found ==> forall m' :: 0 <= m' < m && RisesAt(bufL, Candidate(n, predicted, m')) ==>
        minDist <= Abs(Offset(n, m'))
      invariant found ==> forall m' :: 0 <= m' < bestM && RisesAt(bufL, Candidate(n, predicted, m')) ==>
        Abs(Offset(n, m')) > minDist
      decreases n + 1 - m
    {
      var offset := Offset(n, m);
      var i := Round(RemReal(predicted + offset + n as real, n as real));
      if i > 0 && i < n && bufL[i - 1] < 0.0 && bufL[i] >= 0.0 {
        var dist := Abs(offset);
        if !found || dist < minDist {
          minDist := dist;
          bestIdx := i;
          bestM := m;
          found := true;
        }
      }
      m := m + 1;
    }
    assert forall m' :: InWindow(n, m') ==> m' < m;
  }

  /** The last `cap` entries of a history, or all of it when shorter. */
  function LastN(s: seq<real>, cap: nat): (r: seq<real>)
    ensures |r| == if |s| <= cap then |s| else cap
    ensures r == s[|s| - |r|..]
  {
    if |s| <= cap then s else s[|s| - cap..]
  }

  /** `phaseHistory.push(x); if (phaseHistory.length > cap) phaseHistory.shift();` */
  function PushBounded(h: seq<real>, x: real, cap: nat): seq<real>
  {
    var pushed := h + [x];
    if |pushed| > cap then pushed[1..] else pushed
  }

  /** Push-then-shift keeps exactly the most recent `cap` estimates, oldest first. */
  lemma PushBoundedKeepsLast(s: seq<real>, x: real, cap: nat)
    requires cap >= 1
    ensures PushBounded(LastN(s, cap), x, cap) == LastN(s + [x], cap)
  {
    var t := s + [x];
    if |s| < cap {
    } else if |s| == cap {
      assert (s + [x])[1..] == t[|t| - cap..];
    } else {
      assert (s[|s| - cap..] + [x])[1..] == t[|t| - cap..];
    }
  }

  /** `phaseHistory.reduce((a, b) => a + b, 0) / phaseHistory.length`. */
  function Mean(h: seq<real>): real
    requires |h| > 0
  {
    Sum(h) / |h| as real
  }

  /** The mean of a history lies between the smallest and largest bound of its entries. */
  lemma MeanBounds(h: seq<real>, lo: real, hi: real)
    requires |h| > 0
    requires forall k :: 0 <= k < |h| ==> lo <= h[k] <= hi
    ensures lo <= Mean(h) <= hi
  {
    SumBounds(h, lo, hi);
    var c := |h| as real;
    var m := Mean(h);
    assert m * c == Sum(h);
    if m < lo { MulRight(m, lo, c); }
    if m > hi { MulRight(hi, m, c); }
  }

  /**
   * The joint peak scan of `phaseTrackingTrigger`: the left peak index and the
   * phase difference `(peakIdxR - peakIdxL) / n`, in turns (the sketch's
   * radians times `TWO_PI` cancel against its division by `TWO_PI`).
   */
  method EstimatePhase(bufL: seq<real>, bufR: seq<real>) returns (peakIdxL: nat, currentPhase: real)
    requires |bufL| == |bufR| > 0
    ensures peakIdxL == PeakIndex(bufL)
    ensures currentPhase == (PeakIndex(bufR) - PeakIndex(bufL)) as real / |bufL| as real
    ensures -1.0 < currentPhase < 1.0
  {
    var n := |bufL|;
    var peakL, peakR := bufL[0], bufR[0];
    peakIdxL := 0;
    var peakIdxR := 0;
    for i := 1 to n
      invariant peakIdxL < i && peakL == bufL[peakIdxL]
      invariant forall j :: 0 <= j < i ==> bufL[j] <= peakL
      invariant forall j :: 0 <= j < peakIdxL ==> bufL[j] < peakL
      invariant peakIdxR < i && peakR == bufR[peakIdxR]
      invariant forall j :: 0 <= j < i ==> bufR[j] <= peakR
      invariant forall j :: 0 <= j < peakIdxR ==> bufR[j] < peakR
    {
      if bufL[i] > peakL { peakL := bufL[i]; peakIdxL := i; }
      if bufR[i] > peakR { peakR := bufR[i]; peakIdxR := i; }
    }
    FirstPeakUnique(bufL, peakIdxL, PeakIndex(bufL));
    FirstPeakUnique(bufR, peakIdxR, PeakIndex(bufR));
    currentPhase := (peakIdxR - peakIdxL) as real / n as real;
    IndexDifferenceFraction(peakIdxL, peakIdxR, n);
  }

  /** Two indices of one buffer differ by less than a whole buffer length. */
  lemma IndexDifferenceFraction(a: nat, b: nat, n: nat)
    requires a < n && b < n
    ensures -1.0 < (b - a) as real / n as real < 1.0
  {
    var f := (b - a) as real / n as real;
    assert f * n as real == (b - a) as real;
    MulRight(1.0, f, n as real);
    MulRight(f, -1.0, n as real);
  }
}
