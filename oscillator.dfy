/**
 * The two oscillators of the sketch as control state: the base frequency, the
 * right channel's frequency ratio, the frequencies the two oscillators are set
 * to, the ratio slider and the frame counter of the periodic phase re-sync.
 * The audio itself is not modelled; a phase reset (`osc.phase(0)` on both
 * oscillators) is counted in a ghost counter.
 */
module DualOscillator {
  import opened JsMath

  /** `const snapThreshold = 0.05`. */
  const SnapThreshold: real := 0.05

  /** `Math.abs(r - Math.round(r)) <= snapThreshold`: `setRatio` snaps to an integer. */
  predicate IsSnapped(r: real)
  {
    Abs(r - Round(r) as real) <= SnapThreshold
  }

  /** `x` has at most two decimals. */
  predicate OnCents(x: real)
  {
    (x * 100.0).Floor as real == x * 100.0
  }

  /** The candidate ratio of `setRatio`: the nearest integer when snapped, else two decimals. */
  function SnapCandidate(r: real): real
  {
    if IsSnapped(r) then Round(r) as real else Round(r * 100.0) as real / 100.0
  }

  /** An integer number of cents is on the two-decimal grid. */
  lemma CentsOfInt(k: int)
    ensures OnCents(k as real / 100.0)
  {
    assert (k as real / 100.0) * 100.0 == k as real;
  }

  /** Rounding to two decimals moves a value by at most half a cent. */
  lemma CentsRoundError(r: real)
    ensures Abs(Round(r * 100.0) as real / 100.0 - r) <= 0.005
  {
    var k := Round(r * 100.0) as real;
    assert r * 100.0 - 0.5 < k <= r * 100.0 + 0.5;
    assert k / 100.0 - r == (k - r * 100.0) / 100.0;
  }

  /**
   * The candidate is an integer when snapped, never more than the snap
   * threshold away from the request, and always has at most two decimals.
   */
  lemma SnapCandidateSpec(r: real)
    ensures IsSnapped(r) ==> SnapCandidate(r) == Round(r) as real
    ensures !IsSnapped(r) ==> Abs(SnapCandidate(r) - r) <= 0.005
    ensures Abs(SnapCandidate(r) - r) <= SnapThreshold
    ensures OnCents(SnapCandidate(r))
  {
    if IsSnapped(r) {
      CentsOfInt(Round(r) * 100);
      assert (Round(r) * 100) as real / 100.0 == Round(r) as real;
    } else {
      CentsOfInt(Round(r * 100.0));
      CentsRoundError(r);
    }
  }

  /**
   * A slider value (its step is 0.01) that does not snap is kept exactly as
   * it is: the two-decimal rounding only matters for values off the slider's grid.
   */
  lemma SnapKeepsSliderValue(r: real)
    requires OnCents(r) && !IsSnapped(r)
    ensures SnapCandidate(r) == r
  {
    assert Round(r * 100.0) == (r * 100.0).Floor;
  }

  /** Worked cases: 0.97 and 2.04 snap, 1.5 and 2.06 stay. */
  lemma SnapExamples()
    ensures SnapCandidate(0.97) == 1.0 && SnapCandidate(2.04) == 2.0
    ensures SnapCandidate(1.5) == 1.5 && SnapCandidate(2.06) == 2.06
  {
    assert Round(0.97) == 1 && Round(2.04) == 2;
    assert Round(1.5) == 2 && Round(150.0) == 150;
    assert Round(2.06) == 2 && Round(206.0) == 206;
  }

  /**
   * At the slider positions 0.95, 1.05 and 1.95 the distance to the nearest
   * integer is exactly the threshold, so in exact arithmetic they snap (in
   * double precision that distance comes out a little above 0.05 and they
   * do not).
   */
  lemma SnapAtThreshold()
    ensures IsSnapped(0.95) && IsSnapped(1.05) && IsSnapped(1.95)
    ensures SnapCandidate(0.95) == 1.0 && SnapCandidate(1.05) == 1.0 && SnapCandidate(1.95) == 2.0
  {
    assert Round(0.95) == 1 && Round(1.05) == 1 && Round(1.95) == 2;
  }

  /**
   * On the two-decimal grid the tolerance 0.001 of `setRatio` and `syncPhases`
   * is plain equality: two such ratios differ by more than 0.001 exactly when
   * they differ at all.
   */
  lemma CentsApart(a: real, b: real)
    requires OnCents(a) && OnCents(b)
    ensures Abs(a - b) > 0.001 <==> a != b
    ensures Abs(a - b) < 0.001 <==> a == b
  {
    var ka, kb := (a * 100.0).Floor, (b * 100.0).Floor;
    assert (a - b) * 100.0 == (ka - kb) as real;
  }

  class Oscillators {
    var baseFreq: real
    var ratio: real
    /** The frequency `oscL` is set to. */
    var leftFreq: real
    /** The frequency `oscR` is set to. */
    var rightFreq: real
    /** The value shown by `ratioSlider`. */
    var ratioSlider: real
    var phaseCheckInterval: int
    /** How many times both phases have been reset to 0. */
    ghost var phaseResets: nat

    /** The left oscillator plays the base frequency, the right one `baseFreq * ratio`. */
    ghost predicate Valid()
      reads this
    {
      && leftFreq == baseFreq
      && rightFreq == baseFreq * ratio
      && OnCents(ratio)
    }

    /** The initial values: 440 Hz, ratio 1, and the oscillators' default 440 Hz. */
    constructor ()
      ensures Valid()
      ensures baseFreq == 440.0 && ratio == 1.0 && ratioSlider == 1.0
      ensures phaseCheckInterval == 0 && phaseResets == 0
    {
      baseFreq := 440.0;
      ratio := 1.0;
      leftFreq := 440.0;
      rightFreq := 440.0;
      ratioSlider := 1.0;
      phaseCheckInterval := 0;
      phaseResets := 0;
    }

    /** `setBaseFreq(f)`: both oscillators follow the new base, the ratio is kept. */
    method SetBaseFreq(f: real)
      requires Valid()
      modifies this`baseFreq, this`leftFreq, this`rightFreq
      ensures Valid()
      ensures baseFreq == f && leftFreq == f && rightFreq == f * ratio
    {
      baseFreq := f;
      leftFreq := baseFreq;
      rightFreq := baseFreq * ratio;
    }

    /** `simpleSyncPhases()` (and the two `phase(0)` calls of `updateTablesFromXY`). */
    method ResetPhases()
      modifies this`phaseResets
      ensures phaseResets == old(phaseResets) + 1
    {
      phaseResets := phaseResets + 1;
    }

    /**
     * `setRatio(r)`: the ratio becomes the snap candidate (on the two-decimal
     * grid "differs by more than 0.001" is "differs"), the right oscillator
     * follows, the phases are reset exactly when the ratio changes to 1, and a
     * snapped request moves the slider onto the integer.
     */
    method SetRatio(r: real)
      requires Valid()
      modifies this`ratio, this`rightFreq, this`ratioSlider, this`phaseResets
      ensures Valid()
      ensures ratio == SnapCandidate(r)
      ensures rightFreq == baseFreq * ratio
      ensures phaseResets == old(phaseResets) + (if ratio != old(ratio) && ratio == 1.0 then 1 else 0)
      ensures ratioSlider ==
        (if IsSnapped(r) && Abs(old(ratioSlider) - Round(r) as real) > 0.001 then Round(r) as real
         else old(ratioSlider))
    {
      var nearestInteger := Round(r);
      var newRatio: real;
      if Abs(r - nearestInteger as real) <= SnapThreshold {
        newRatio := nearestInteger as real;
        if Abs(ratioSlider - nearestInteger as real) > 0.001 {
          ratioSlider := nearestInteger as real;
        }
      } else {
        newRatio := Round(r * 100.0) as real / 100.0;
      }
      SnapCandidateSpec(r);
      ApplyRatio(newRatio);
    }

    /**
     * The second half of `setRatio`: a new ratio (more than 0.001 away) is
     * taken over by the right oscillator, with a phase reset on the way back to 1.
     */
    method ApplyRatio(newRatio: real)
      requires Valid() && OnCents(newRatio)
      modifies this`ratio, this`rightFreq, this`phaseResets
      ensures Valid() && ratio == newRatio
      ensures phaseResets == old(phaseResets) + (if newRatio != old(ratio) && newRatio == 1.0 then 1 else 0)
    {
      CentsApart(newRatio, ratio);
      CentsApart(newRatio, 1.0);
      if Abs(newRatio - ratio) > 0.001 {
        ratio := newRatio;
        rightFreq := baseFreq * ratio;
        if Abs(ratio - 1.0) < 0.001 {
          ResetPhases();
        }
      }
    }

    /** `syncPhases()`: reset the phases only while the ratio is 1. */
    method SyncPhases()
      requires Valid()
      modifies this`phaseResets
      ensures phaseResets == old(phaseResets) + (if ratio == 1.0 then 1 else 0)
    {
      CentsApart(ratio, 1.0);
      if Abs(ratio - 1.0) > 0.001 {
        return;
      }
      ResetPhases();
    }

    /**
     * The per-frame re-sync rule of `draw()`: count the frame; from the 30th
     * frame on, at ratio 1, reset the phases and restart the count. At any
     * other ratio the counter keeps growing.
     */
    method PhaseCheckTick()
      requires Valid()
      modifies this`phaseCheckInterval, this`phaseResets
      ensures var due := old(phaseCheckInterval) + 1 >= 30 && ratio == 1.0;
        && phaseCheckInterval == (if due then 0 else old(phaseCheckInterval) + 1)
        && phaseResets == old(phaseResets) + (if due then 1 else 0)
    {
      CentsApart(ratio, 1.0);
      phaseCheckInterval := phaseCheckInterval + 1;
      if phaseCheckInterval >= 30 && Abs(ratio - 1.0) < 0.001 {
        SyncPhases();
        phaseCheckInterval := 0;
      }
    }
  }
}
