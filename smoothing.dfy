/**
 * `smoothWaveform`: a circular moving average of an analysis buffer, used to
 * steady the XY display. Entry `i` of the result is the mean of the
 * `2 * floor(windowSize / 2) + 1` entries centred on `i`, wrapping round the
 * ends of the buffer.
 */
module Smoothing {
  import opened JsMath

  /** `if (idx < 0) idx += N; if (idx >= N) idx -= N;`. */
  function Wrap(n: int, idx: int): int
  {
    if idx < 0 then idx + n else if idx >= n then idx - n else idx
  }

  /** One wrap is enough for offsets of at most one buffer length. */
  lemma WrapInRange(n: int, idx: int)
    requires n > 0 && -n <= idx < 2 * n
    ensures 0 <= Wrap(n, idx) < n
  {
  }

  /** The sum of the first `m` window entries around `i`, offsets starting at `-half`. */
  function WindowSum(w: seq<real>, i: int, half: nat, m: nat): real
    requires 0 <= i < |w| && half <= |w| && m <= 2 * half + 1
  {
    if m == 0 then 0.0
    else WindowSum(w, i, half, m - 1) + w[Wrap(|w|, i + (m - 1) - half)]
  }

  /** The result `smoothWaveform` computes, entry by entry. */
  function Smoothed(w: seq<real>, half: nat): (r: seq<real>)
    requires |w| == 0 || half <= |w|
    ensures |r| == |w|
  {
    seq(|w|, i requires 0 <= i < |w| => WindowSum(w, i, half, 2 * half + 1) / (2 * half + 1) as real)
  }

  /**
   * `smoothWaveform(waveform, windowSize)`. The window may not be wider than
   * about twice a non-empty buffer, since a single wrap must bring every index
   * back into the buffer; an empty buffer gives an empty result.
   */
  method SmoothWaveform(waveform: seq<real>, windowSize: nat) returns (result: seq<real>)
    requires |waveform| == 0 || windowSize / 2 <= |waveform|
    ensures result == Smoothed(waveform, windowSize / 2)
  {
    var n := |waveform|;
    var halfWindow := windowSize / 2;
    result := [];
    for i := 0 to n
      invariant |result| == i
      invariant forall k :: 0 <= k < i ==> result[k] == Smoothed(waveform, halfWindow)[k]
    {
      var sum := 0.0;
      var count := 0;
      for m := 0 to 2 * halfWindow + 1
        invariant sum == WindowSum(waveform, i, halfWindow, m) && count == m
      {
        var idx := i + m - halfWindow;
        if idx < 0 { idx := idx + n; }
        if idx >= n { idx := idx - n; }
        sum := sum + waveform[idx];
        count := count + 1;
      }
      result := result + [sum / count as real];
    }
  }

  /** The window sum lies between `m` times the smallest and `m` times the largest bound. */
  lemma {:induction false} WindowSumBounds(w: seq<real>, i: int, half: nat, m: nat, lo: real, hi: real)
    requires 0 <= i < |w| && half <= |w| && m <= 2 * half + 1
    requires forall k :: 0 <= k < |w| ==> lo <= w[k] <= hi
    ensures m as real * lo <= WindowSum(w, i, half, m) <= m as real * hi
  {
    if m > 0 {
      WindowSumBounds(w, i, half, m - 1, lo, hi);
    }
  }

  /** Smoothing never leaves the range of its input. */
  lemma SmoothedBounds(w: seq<real>, half: nat, lo: real, hi: real)
    requires half <= |w|
    requires forall k :: 0 <= k < |w| ==> lo <= w[k] <= hi
    ensures forall i :: 0 <= i < |w| ==> lo <= Smoothed(w, half)[i] <= hi
  {
    forall i | 0 <= i < |w|
      ensures lo <= Smoothed(w, half)[i] <= hi
    {
      WindowSumBounds(w, i, half, 2 * half + 1, lo, hi);
      DivBetween(WindowSum(w, i, half, 2 * half + 1), (2 * half + 1) as real, lo, hi);
    }
  }

  /** A constant signal is left as it is. */
  lemma SmoothedConstant(w: seq<real>, half: nat, v: real)
    requires half <= |w|
    requires forall k :: 0 <= k < |w| ==> w[k] == v
    ensures Smoothed(w, half) == w
  {
    SmoothedBounds(w, half, v, v);
  }

  /** A window of one entry (`windowSize` 0 or 1) is the identity. */
  lemma SmoothedNarrow(w: seq<real>)
    ensures Smoothed(w, 0) == w
  {
    forall i | 0 <= i < |w|
      ensures Smoothed(w, 0)[i] == w[i]
    {
      assert WindowSum(w, i, 0, 1) == w[i];
    }
  }
}
