/**
 * The direct DFT that turns a table into the `real` / `imag` arrays handed to
 * `createPeriodicWave`. The sketch writes this loop three times (for both
 * oscillators, for the left one only, and in `createPW`); all three compute
 * the same coefficients from the table they are given, so it is modelled once.
 * `cosTurn(x)` and `sinTurn(x)` stand for `Math.cos(TWO_PI * x)` and
 * `Math.sin(TWO_PI * x)`: the phase is counted in turns.
 */
module Harmonics {
  import opened Waveforms

  /** `harmonics = N / 2` coefficient slots. */
  const HarmonicCount: nat := TableSize / 2

  /** The phase `TWO_PI * k * n / N`, in turns. */
  function Phase(k: int, n: int): real
  {
    (k * n) as real / TableSize as real
  }

  /** `sumRe` after the first `m` terms of the inner loop for harmonic `k`. */
  function ReSum(table: seq<real>, k: int, m: nat, cosTurn: real -> real): real
    requires m <= |table|
  {
    if m == 0 then 0.0
    else ReSum(table, k, m - 1, cosTurn) + table[m - 1] * cosTurn(Phase(k, m - 1))
  }

  /** `sumIm` after the first `m` terms: `sumIm += -table[n] * sin(phase)`. */
  function ImSum(table: seq<real>, k: int, m: nat, sinTurn: real -> real): real
    requires m <= |table|
  {
    if m == 0 then 0.0
    else ImSum(table, k, m - 1, sinTurn) + (-table[m - 1]) * sinTurn(Phase(k, m - 1))
  }

  /**
   * The coefficient arrays of one periodic wave: slot 0 (DC) is zero,
   * slot `k` is the `k`-th DFT sum divided by `N` and by nothing else.
   */
  method ComputeSpectrum(table: seq<real>, cosTurn: real -> real, sinTurn: real -> real)
    returns (re: seq<real>, im: seq<real>)
    requires |table| == TableSize
    ensures |re| == HarmonicCount && |im| == HarmonicCount
    ensures re[0] == 0.0 && im[0] == 0.0
    ensures forall k :: 1 <= k < HarmonicCount ==>
      re[k] == ReSum(table, k, TableSize, cosTurn) / TableSize as real &&
      im[k] == ImSum(table, k, TableSize, sinTurn) / TableSize as real
  {
    re := seq(HarmonicCount, _ => 0.0);
    im := seq(HarmonicCount, _ => 0.0);
    for k := 1 to HarmonicCount
      invariant |re| == HarmonicCount && |im| == HarmonicCount
      invariant re[0] == 0.0 && im[0] == 0.0
      invariant forall h :: 1 <= h < k ==>
        re[h] == ReSum(table, h, TableSize, cosTurn) / TableSize as real &&
        im[h] == ImSum(table, h, TableSize, sinTurn) / TableSize as real
    {
      var sumRe, sumIm := 0.0, 0.0;
      for n := 0 to TableSize
        invariant sumRe == ReSum(table, k, n, cosTurn)
        invariant sumIm == ImSum(table, k, n, sinTurn)
      {
        sumRe := sumRe + table[n] * cosTurn(Phase(k, n));
        sumIm := sumIm + (-table[n]) * sinTurn(Phase(k, n));
      }
      re := re[k := sumRe / TableSize as real];
      im := im[k := sumIm / TableSize as real];
    }
  }

  /** The table with every sample multiplied by `c`. */
  function Scale(table: seq<real>, c: real): (r: seq<real>)
    ensures |r| == |table|
  {
    seq(|table|, i requires 0 <= i < |table| => c * table[i])
  }

  /** No normalisation: scaling the table scales every real coefficient by the same factor. */
  lemma {:induction false} ReSumScale(table: seq<real>, c: real, k: int, m: nat, cosTurn: real -> real)
    requires m <= |table|
    ensures ReSum(Scale(table, c), k, m, cosTurn) == c * ReSum(table, k, m, cosTurn)
  {
    if m > 0 {
      ReSumScale(table, c, k, m - 1, cosTurn);
    }
  }

  /** No normalisation: scaling the table scales every imaginary coefficient by the same factor. */
  lemma {:induction false} ImSumScale(table: seq<real>, c: real, k: int, m: nat, sinTurn: real -> real)
    requires m <= |table|
    ensures ImSum(Scale(table, c), k, m, sinTurn) == c * ImSum(table, k, m, sinTurn)
  {
    if m > 0 {
      ImSumScale(table, c, k, m - 1, sinTurn);
    }
  }

  /** The sample-wise sum of two tables of equal length. */
  function Mix(a: seq<real>, b: seq<real>): (r: seq<real>)
    requires |a| == |b|
    ensures |r| == |a|
  {
    seq(|a|, i requires 0 <= i < |a| => a[i] + b[i])
  }

  /** The transform is additive: the real coefficients of a sum of tables are the sums of theirs. */
  lemma {:induction false} ReSumAdditive(a: seq<real>, b: seq<real>, k: int, m: nat, cosTurn: real -> real)
    requires |a| == |b| && m <= |a|
    ensures ReSum(Mix(a, b), k, m, cosTurn) == ReSum(a, k, m, cosTurn) + ReSum(b, k, m, cosTurn)
  {
    if m > 0 {
      ReSumAdditive(a, b, k, m - 1, cosTurn);
      var w := cosTurn(Phase(k, m - 1));
      assert Mix(a, b)[m - 1] * w == a[m - 1] * w + b[m - 1] * w;
    }
  }

  /** The transform is additive: the imaginary coefficients of a sum of tables are the sums of theirs. */
  lemma {:induction false} ImSumAdditive(a: seq<real>, b: seq<real>, k: int, m: nat, sinTurn: real -> real)
    requires |a| == |b| && m <= |a|
    ensures ImSum(Mix(a, b), k, m, sinTurn) == ImSum(a, k, m, sinTurn) + ImSum(b, k, m, sinTurn)
  {
    if m > 0 {
      ImSumAdditive(a, b, k, m - 1, sinTurn);
      var w := sinTurn(Phase(k, m - 1));
      assert (-Mix(a, b)[m - 1]) * w == (-a[m - 1]) * w + (-b[m - 1]) * w;
    }
  }
}
