/**
 * The fixed table length and the default waveforms of `setDefaultWave`.
 * Sample `i` is taken at `t = i / (TABLE_SIZE - 1)`, so the first and the
 * last sample both sit on the period boundary.
 */
module Waveforms {
  import opened JsMath

  /** `TABLE_SIZE`: every control and quantized table has this many samples. */
  const TableSize: nat := 64

  /** The waveform buttons, in button order (index 0, 1, 2). */
  datatype WaveKind = Sine | Triangle | Square

  /** `mapping[idx]` in `changeWaveIndex`. */
  function KindOfIndex(idx: int): WaveKind
    requires 0 <= idx < 3
  {
    if idx == 0 then Sine else if idx == 1 then Triangle else Square
  }

  /** The sample position `t = i / (TABLE_SIZE - 1)`. */
  function SamplePos(i: int): real
  {
    i as real / (TableSize - 1) as real
  }

  /**
   * The value `setDefaultWave` stores at index `i`. `sinTurn(t)` stands for
   * `Math.sin(TWO_PI * t)`, which the model does not compute.
   */
  function DefaultSample(kind: WaveKind, i: int, sinTurn: real -> real): real
  {
    var t := SamplePos(i);
    match kind
    case Sine => sinTurn(t)
    case Triangle => 1.0 - 4.0 * Abs(t - 0.5)
    case Square => if t < 0.5 then 1.0 else -1.0
  }

  /** The table `setDefaultWave(kind)` leaves in `customTable`. */
  function DefaultTable(kind: WaveKind, sinTurn: real -> real): (t: seq<real>)
    ensures |t| == TableSize
  {
    seq(TableSize, i => DefaultSample(kind, i, sinTurn))
  }

  /** The square table is +1 on the first half (indices 0 to 31) and -1 on the second (32 to 63). */
  lemma SquareHalves(sinTurn: real -> real)
    ensures forall i :: 0 <= i < TableSize ==>
      DefaultTable(Square, sinTurn)[i] == if i < 32 then 1.0 else -1.0
  {
    forall i | 0 <= i < TableSize
      ensures DefaultTable(Square, sinTurn)[i] == if i < 32 then 1.0 else -1.0
    {
      if i < 32 {
        assert SamplePos(i) <= 31.0 / 63.0;
      } else {
        assert SamplePos(i) >= 32.0 / 63.0;
      }
    }
  }

  /** The triangle table lies in [-1, 1], starts and ends at -1 and is mirror-symmetric. */
  lemma TriangleShape(sinTurn: real -> real)
    ensures forall i :: 0 <= i < TableSize ==> -1.0 <= DefaultTable(Triangle, sinTurn)[i] <= 1.0
    ensures DefaultTable(Triangle, sinTurn)[0] == -1.0
    ensures DefaultTable(Triangle, sinTurn)[TableSize - 1] == -1.0
    ensures forall i :: 0 <= i < TableSize ==>
      DefaultTable(Triangle, sinTurn)[i] == DefaultTable(Triangle, sinTurn)[TableSize - 1 - i]
  {
    var tri := DefaultTable(Triangle, sinTurn);
    forall i | 0 <= i < TableSize
      ensures -1.0 <= tri[i] <= 1.0
      ensures tri[i] == tri[TableSize - 1 - i]
    {
      var t := SamplePos(i);
      assert 0.0 <= t <= 1.0;
      assert SamplePos(TableSize - 1 - i) - 0.5 == -(t - 0.5);
    }
  }

  /** Every default table stays in [-1, 1] when the sine it is given does. */
  lemma DefaultTableInRange(kind: WaveKind, sinTurn: real -> real)
    requires forall t :: -1.0 <= sinTurn(t) <= 1.0
    ensures forall i :: 0 <= i < TableSize ==> -1.0 <= DefaultTable(kind, sinTurn)[i] <= 1.0
  {
    if kind == Triangle {
      TriangleShape(sinTurn);
    }
  }
}
