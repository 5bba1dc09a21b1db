/**
 * The waveform pad: a mouse position over the pad addresses one of the 64 table
 * entries (by x) and gives it a value (by y, top = +1, bottom = -1). A drag
 * fills the entries between the previous and the current position with a
 * straight line.
 */
module PadEdit {
  import opened JsMath
  import opened Layout
  import opened Waveforms

  /** The last pad position of a drag: `prevPadIdx` and `prevPadY`, always set and cleared together. */
  datatype PadPoint = PadPoint(idx: int, y: real)

  /** `constrain(int(map(mx, padX0, padX0 + padW, 0, TABLE_SIZE - 1)), 0, TABLE_SIZE - 1)`. */
  function PadIndexOf(mx: real): (i: int)
    ensures 0 <= i < TableSize
  {
    ConstrainInt(Trunc(MapRange(mx, PadX0, PadX0 + PadW, 0.0, (TableSize - 1) as real)), 0, TableSize - 1)
  }

  /** `map(y, padY0, padY0 + padH, 1, -1)`. */
  function PadValueOf(y: real): real
  {
    MapRange(y, PadY0, PadY0 + PadH, 1.0, -1.0)
  }

  /** Over the pad the index follows the pointer: the left edge is entry 0 and the right edge entry 63. */
  lemma PadIndexEdges()
    ensures PadIndexOf(PadX0) == 0 && PadIndexOf(PadX0 + PadW) == TableSize - 1
  {
  }

  /** Heights over the pad give values in [-1, 1], the top +1 and the bottom -1. */
  lemma PadValueRange(y: real)
    requires PadY0 <= y <= PadY0 + PadH
    ensures -1.0 <= PadValueOf(y) <= 1.0
    ensures y == PadY0 ==> PadValueOf(y) == 1.0
    ensures y == PadY0 + PadH ==> PadValueOf(y) == -1.0
  {
  }

  /**
   * Every point that passes `inPad` addresses an entry whose `constrain` does
   * nothing (the truncated map already lies in 0..63) and gets a value in [-1, 1].
   */
  lemma InPadMapsIntoTable(mx: real, my: real)
    requires InPad(mx, my)
    ensures PadIndexOf(mx) == Trunc(MapRange(mx, PadX0, PadX0 + PadW, 0.0, (TableSize - 1) as real))
    ensures -1.0 <= PadValueOf(my) <= 1.0
  {
  }

  /**
   * The value the drag loop of `mouseDragged` writes at entry `i`, as written:
   * the indices are swapped so that `from <= to`, but `t` still runs from the
   * previous height at `from`, whichever end the previous position was.
   */
  function PadLineAsWritten(prev: PadPoint, idx: int, y: real, i: int): real
  {
    var from := if prev.idx <= idx then prev.idx else idx;
    var to := if prev.idx <= idx then idx else prev.idx;
    var t := if to == from then 0.0 else (i - from) as real / (to - from) as real;
    PadValueOf(prev.y + (y - prev.y) * t)
  }

  /**
   * The evidently intended line: the previous height at the previous index and
   * the current height at the current index, whichever way the drag goes. A
   * drag within one column keeps the sketch's `t = 0`.
   */
  function PadLine(prev: PadPoint, idx: int, y: real, i: int): real
  {
    var t := if idx == prev.idx then 0.0 else Abs((i - prev.idx) as real) / Abs((idx - prev.idx) as real);
    PadValueOf(prev.y + (y - prev.y) * t)
  }

  /** Moving right the two agree on every entry of the line. */
  lemma PadLineAgreesRightward(prev: PadPoint, idx: int, y: real, i: int)
    requires prev.idx <= idx && prev.idx <= i <= idx
    ensures PadLine(prev, idx, y, i) == PadLineAsWritten(prev, idx, y, i)
  {
  }

  /**
   * Moving left they do not: dragging from entry 10 at the top of the pad to
   * entry 5 at the bottom writes the top value +1 at entry 5, under the
   * pointer, and the bottom value -1 at entry 10, where the drag began.
   */
  lemma PadLineAsWrittenMirrored()
    ensures PadLineAsWritten(PadPoint(10, PadY0), 5, PadY0 + PadH, 5) == 1.0
    ensures PadLineAsWritten(PadPoint(10, PadY0), 5, PadY0 + PadH, 10) == -1.0
    ensures PadLine(PadPoint(10, PadY0), 5, PadY0 + PadH, 5) == -1.0
    ensures PadLine(PadPoint(10, PadY0), 5, PadY0 + PadH, 10) == 1.0
  {
  }

  /**
   * The line as written puts the previous height at the smaller index and the
   * current height at the larger one: right for a rightward drag, swapped for
   * a leftward one.
   */
  lemma PadLineAsWrittenEndpoints(prev: PadPoint, idx: int, y: real)
    ensures prev.idx <= idx ==> PadLineAsWritten(prev, idx, y, prev.idx) == PadValueOf(prev.y)
    ensures prev.idx < idx ==> PadLineAsWritten(prev, idx, y, idx) == PadValueOf(y)
    ensures idx < prev.idx ==> PadLineAsWritten(prev, idx, y, idx) == PadValueOf(prev.y)
    ensures idx < prev.idx ==> PadLineAsWritten(prev, idx, y, prev.idx) == PadValueOf(y)
  {
    if prev.idx != idx {
      var d := if prev.idx < idx then (idx - prev.idx) as real else (prev.idx - idx) as real;
      assert d / d == 1.0;
    }
  }

  /** A height blended between two heights over the pad gives a value in [-1, 1]. */
  lemma BlendInRange(py: real, y: real, t: real)
    requires PadY0 <= py <= PadY0 + PadH && PadY0 <= y <= PadY0 + PadH && 0.0 <= t <= 1.0
    ensures -1.0 <= PadValueOf(py + (y - py) * t) <= 1.0
  {
    assert py + (y - py) * t == Lerp(py, y, t);
    LerpBetween(py, y, t, PadY0, PadY0 + PadH);
    PadValueRange(py + (y - py) * t);
  }

  /** Between two heights over the pad the line as written also stays in [-1, 1]. */
  lemma PadLineAsWrittenInRange(prev: PadPoint, idx: int, y: real, i: int)
    requires PadY0 <= prev.y <= PadY0 + PadH && PadY0 <= y <= PadY0 + PadH
    requires prev.idx <= i <= idx || idx <= i <= prev.idx
    ensures -1.0 <= PadLineAsWritten(prev, idx, y, i) <= 1.0
  {
    var from := if prev.idx <= idx then prev.idx else idx;
    var to := if prev.idx <= idx then idx else prev.idx;
    if to != from {
      FractionInUnit((i - from) as real, (to - from) as real);
    }
    var t := if to == from then 0.0 else (i - from) as real / (to - from) as real;
    BlendInRange(prev.y, y, t);
  }

  /** The corrected line starts at the previous height and ends under the pointer. */
  lemma PadLineEndpoints(prev: PadPoint, idx: int, y: real)
    ensures PadLine(prev, idx, y, prev.idx) == PadValueOf(prev.y)
    ensures idx != prev.idx ==> PadLine(prev, idx, y, idx) == PadValueOf(y)
  {
    if idx != prev.idx {
      var d := Abs((idx - prev.idx) as real);
      assert d / d == 1.0;
    }
  }

  /** Between two heights over the pad every entry of the line gets a value in [-1, 1]. */
  lemma PadLineInRange(prev: PadPoint, idx: int, y: real, i: int)
    requires PadY0 <= prev.y <= PadY0 + PadH && PadY0 <= y <= PadY0 + PadH
    requires prev.idx <= i <= idx || idx <= i <= prev.idx
    ensures -1.0 <= PadLine(prev, idx, y, i) <= 1.0
  {
    if idx != prev.idx {
      FractionInUnit(Abs((i - prev.idx) as real), Abs((idx - prev.idx) as real));
    }
    var t := if idx == prev.idx then 0.0 else Abs((i - prev.idx) as real) / Abs((idx - prev.idx) as real);
    BlendInRange(prev.y, y, t);
  }

}
