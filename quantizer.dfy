/**
 * The "glitch" quantizer of `applyGlitch` / `applyGlitchR`: every control
 * sample is replaced by the nearest multiple of the step `q = 2 / glitchSteps`,
 * with JavaScript's `Math.round` deciding halves (towards +infinity).
 */
module Quantizer {
  import opened JsMath

  /** The step `q = 2.0 / glitchSteps`. */
  function Step(steps: int): (q: real)
    requires steps > 0
    ensures q > 0.0
    ensures q * steps as real == 2.0
  {
    2.0 / steps as real
  }

  /** `Math.round(x / q) * q`. */
  function Quantize(x: real, steps: int): real
    requires steps > 0
  {
    Round(x / Step(steps)) as real * Step(steps)
  }

  /** `v` is an integer multiple of `q`. */
  predicate OnGrid(v: real, q: real)
    requires q > 0.0
  {
    (v / q).Floor as real == v / q
  }

  /** The whole table after one quantizing pass (the loop body applied at every index). */
  function Crush(table: seq<real>, steps: int): seq<real>
    requires steps > 0
  {
    seq(|table|, i requires 0 <= i < |table| => Quantize(table[i], steps))
  }

  /** A quantized sample is an integer multiple of the step. */
  lemma QuantizeOnGrid(x: real, steps: int)
    requires steps > 0
    ensures OnGrid(Quantize(x, steps), Step(steps))
  {
    var q := Step(steps);
    var k := Round(x / q) as real;
    assert Quantize(x, steps) / q == k;
  }

  /** A quantized sample lies within half a step of the sample it replaces. */
  lemma QuantizeError(x: real, steps: int)
    requires steps > 0
    ensures Abs(Quantize(x, steps) - x) <= Step(steps) / 2.0
  {
    var q := Step(steps);
    var y := x / q;
    var k := Round(y) as real;
    assert y - 0.5 < k <= y + 0.5;
    assert y * q == x;
    MulRight(y - 0.5, k, q);
    MulRight(k, y + 0.5, q);
    assert (y - 0.5) * q == x - q / 2.0;
    assert (y + 0.5) * q == x + q / 2.0;
  }

  /** Quantizing a value that is already on the grid gives it back. */
  lemma QuantizeOnGridFixed(v: real, steps: int)
    requires steps > 0
    requires OnGrid(v, Step(steps))
    ensures Quantize(v, steps) == v
  {
    var q := Step(steps);
    var k := (v / q).Floor;
    assert Round(v / q) == k;
    assert k as real * q == v;
  }

  /** Re-quantizing with the same number of steps changes nothing. */
  lemma QuantizeIdempotent(x: real, steps: int)
    requires steps > 0
    ensures Quantize(Quantize(x, steps), steps) == Quantize(x, steps)
  {
    QuantizeOnGrid(x, steps);
    QuantizeOnGridFixed(Quantize(x, steps), steps);
  }

  /** `Math.round` never reverses an ordering. */
  lemma RoundMonotone(a: real, b: real)
    requires a <= b
    ensures Round(a) <= Round(b)
  {
  }

  /**
   * With an even number of steps, 1 and -1 are on the grid, so a sample in
   * [-1, 1] stays in [-1, 1] after quantizing.
   */
  lemma QuantizeEvenStaysInRange(x: real, steps: int)
    requires steps > 0 && steps % 2 == 0
    requires -1.0 <= x <= 1.0
    ensures -1.0 <= Quantize(x, steps) <= 1.0
  {
    var q := Step(steps);
    var h := steps / 2;
    assert h as real * q == 1.0;
    var y := x / q;
    assert -(h as real) <= y <= h as real by {
      assert y * q == x;
      if y > h as real { MulRight(h as real, y, q); }
      if y < -(h as real) { MulRight(y, -(h as real), q); }
    }
    RoundMonotone(y, h as real);
    RoundMonotone(-(h as real), y);
    assert Round(h as real) == h;
    assert Round(-(h as real)) == -h;
    var k := Round(y);
    MulRight(k as real, h as real, q);
    MulRight(-(h as real), k as real, q);
  }

  /** With an odd number of steps the quantizer can leave [-1, 1]: 1.0 with 5 steps becomes 1.2. */
  lemma QuantizeOddCanLeaveRange()
    ensures Quantize(1.0, 5) == 1.2
  {
    assert Step(5) == 0.4;
    assert 1.0 / 0.4 == 2.5;
    assert Round(2.5) == 3;
  }

  /** Every entry of the quantized table is on the grid and within half a step of its control value. */
  lemma CrushSpec(table: seq<real>, steps: int)
    requires steps > 0
    ensures |Crush(table, steps)| == |table|
    ensures forall i :: 0 <= i < |table| ==>
      OnGrid(Crush(table, steps)[i], Step(steps)) &&
      Abs(Crush(table, steps)[i] - table[i]) <= Step(steps) / 2.0
  {
    forall i | 0 <= i < |table|
      ensures OnGrid(Crush(table, steps)[i], Step(steps))
      ensures Abs(Crush(table, steps)[i] - table[i]) <= Step(steps) / 2.0
    {
      QuantizeOnGrid(table[i], steps);
      QuantizeError(table[i], steps);
    }
  }

  /** Quantizing a quantized table with the same steps leaves it unchanged. */
  lemma CrushIdempotent(table: seq<real>, steps: int)
    requires steps > 0
    ensures Crush(Crush(table, steps), steps) == Crush(table, steps)
  {
    forall i | 0 <= i < |table|
      ensures Crush(Crush(table, steps), steps)[i] == Crush(table, steps)[i]
    {
      QuantizeIdempotent(table[i], steps);
    }
  }

  /** With an even number of steps a table in [-1, 1] quantizes into [-1, 1]. */
  lemma CrushEvenStaysInRange(table: seq<real>, steps: int)
    requires steps > 0 && steps % 2 == 0
    requires forall i :: 0 <= i < |table| ==> -1.0 <= table[i] <= 1.0
    ensures forall i :: 0 <= i < |table| ==> -1.0 <= Crush(table, steps)[i] <= 1.0
  {
    forall i | 0 <= i < |table|
      ensures -1.0 <= Crush(table, steps)[i] <= 1.0
    {
      QuantizeEvenStaysInRange(table[i], steps);
    }
  }

  /** With four steps (q = 0.5) a table in [-1, 1] only takes the five levels -1, -0.5, 0, 0.5 and 1. */
  lemma CrushFourStepsLevels(table: seq<real>)
    requires forall i :: 0 <= i < |table| ==> -1.0 <= table[i] <= 1.0
    ensures forall i :: 0 <= i < |table| ==> Crush(table, 4)[i] in {-1.0, -0.5, 0.0, 0.5, 1.0}
  {
    forall i | 0 <= i < |table|
      ensures Crush(table, 4)[i] in {-1.0, -0.5, 0.0, 0.5, 1.0}
    {
      QuantizeEvenStaysInRange(table[i], 4);
      var k := Round(table[i] / 0.5);
      assert Crush(table, 4)[i] == k as real * 0.5;
      assert -2 <= k <= 2;
    }
  }
}
