/**
 * The stateful half of the trigger engine: `adaptiveTrigger` and
 * `phaseTrackingTrigger`, which keep the global `phaseHistory` of the last ten
 * phase estimates. Phases are kept in turns (fractions of the buffer length);
 * the sketch's radians are the same values times `TWO_PI`, and every use
 * divides that factor out again.
 */
module PhaseTracking {
  import opened JsMath
  import opened Trigger

  /** `PHASE_HISTORY_SIZE`. */
  const HistorySize: nat := 10

  /** `(peakIdxL + avgPhase / TWO_PI * n) % n`, the predicted trigger position. */
  function Predicted(peakIdxL: nat, avgPhase: real, n: nat): real
    requires n > 0
  {
    RemReal(peakIdxL as real + avgPhase * n as real, n as real)
  }

  /** The phase estimate of one call: `(peakIdxR - peakIdxL) / n`, in turns. */
  function Estimate(bufL: seq<real>, bufR: seq<real>): real
    requires |bufL| == |bufR| > 0
  {
    (PeakIndex(bufR) - PeakIndex(bufL)) as real / |bufL| as real
  }

  /** The history's entries are estimates, so its mean stays within one turn. */
  lemma HistoryBounded(s: seq<real>)
    requires |s| > 0 && forall k :: 0 <= k < |s| ==> -1.0 < s[k] < 1.0
    ensures -1.0 <= Mean(LastN(s, HistorySize)) <= 1.0
  {
    var h := LastN(s, HistorySize);
    assert forall k :: 0 <= k < |h| ==> h[k] == s[|s| - |h| + k];
    MeanBounds(h, -1.0, 1.0);
  }

  class PhaseTracker {
    /** `phaseHistory`, oldest first. */
    var history: seq<real>
    /** Every estimate ever pushed, oldest first. */
    ghost var estimates: seq<real>

    /** The history holds the last ten estimates, each of magnitude below one turn. */
    ghost predicate Valid()
      reads this
    {
      && history == LastN(estimates, HistorySize)
      && forall k :: 0 <= k < |estimates| ==> -1.0 < estimates[k] < 1.0
    }

    /** `let phaseHistory = [];` */
    constructor ()
      ensures Valid() && history == [] && estimates == []
    {
      history := [];
      estimates := [];
    }

    /**
     * `phaseTrackingTrigger`: estimate the phase from the two first peaks, push
     * it into the bounded history, predict the trigger from the mean phase and
     * return the nearest crossing around the prediction.
     */
    method PhaseTrackingTrigger(bufL: seq<real>, bufR: seq<real>) returns (bestIdx: int)
      requires Valid() && |bufL| == |bufR| > 0
      modifies this
      ensures Valid()
      ensures estimates == old(estimates) + [Estimate(bufL, bufR)]
      ensures |history| > 0 && -1.0 <= Mean(history) <= 1.0
      ensures NearestChoice(bufL, Predicted(PeakIndex(bufL), Mean(history), |bufL|), bestIdx)
    {
      var n := |bufL|;
      var peakIdxL, currentPhase := EstimatePhase(bufL, bufR);
      PushBoundedKeepsLast(estimates, currentPhase, HistorySize);
      history := PushBounded(history, currentPhase, HistorySize);
      estimates := estimates + [currentPhase];
      HistoryBounded(estimates);
      var avgPhase := Mean(history);
      var predicted := Predicted(peakIdxL, avgPhase, n);
      bestIdx := NearestCrossing(bufL, predicted);
    }

    /**
     * `adaptiveTrigger`: the strategy `Classify` picks from the ratio, applied to
     * the buffers; only phase tracking touches the history.
     */
    method AdaptiveTrigger(ratio: real, bufL: seq<real>, bufR: seq<real>) returns (r: int)
      requires Valid() && |bufL| == |bufR| > 0
      requires Abs(ratio) >= 0.01
      modifies this
      ensures Valid()
      ensures Classify(ratio) == Synchronized ==>
        SyncChoice(bufL, bufR, r) && history == old(history) && estimates == old(estimates)
      ensures Classify(ratio).Periodic? ==>
        && Classify(ratio).ratioInt != 0
        && PeriodicChoice(bufL, Period(|bufL|, Classify(ratio).ratioInt), r)
        && history == old(history) && estimates == old(estimates)
      ensures Classify(ratio) == PhaseTracking ==>
        && estimates == old(estimates) + [Estimate(bufL, bufR)]
        && |history| > 0
        && NearestChoice(bufL, Predicted(PeakIndex(bufL), Mean(history), |bufL|), r)
    {
      var ratioInt := Round(ratio);
      var isIntegerRatio := Abs(ratio - ratioInt as real) < 0.01;
      ClassifyNonZero(ratio);
      if isIntegerRatio && Abs(ratio - 1.0) < 0.01 {
        r := SynchronizedTrigger(bufL, bufR);
      } else if isIntegerRatio {
        r := PeriodicTrigger(bufL, bufR, ratioInt);
      } else {
        r := PhaseTrackingTrigger(bufL, bufR);
      }
    }
  }
}
