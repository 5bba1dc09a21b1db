/**
 * The four wave tables of the sketch and the operations that rewrite them:
 * the default waveforms, the glitch quantizer, the waveform buttons, the
 * editing pad and the XY drawing. `customTable` / `crushedTable` feed the
 * left oscillator, `customTableR` / `crushedTableR` the right one after an
 * XY drawing. `playingL` and `playingR` record the table from which each
 * oscillator's current periodic wave was computed (the Fourier coefficients
 * of `Harmonics.ComputeSpectrum` applied to that table).
 */
module Wavetable {
  import opened JsMath
  import opened Wrappers
  import opened Quantizer
  import opened Waveforms
  import opened Layout
  import opened PadEdit
  import opened Curve
  import opened DualOscillator

  /** `dst[i] = Math.round(src[i] / q) * q` for every `i`: the loop of `applyGlitch` / `applyGlitchR`. */
  method QuantizeInto(src: array<real>, dst: array<real>, steps: int)
    requires src != dst && src.Length == dst.Length && steps > 0
    modifies dst
    ensures dst[..] == Crush(src[..], steps)
  {
    var q := Step(steps);
    for i := 0 to dst.Length
      invariant forall k :: 0 <= k < i ==> dst[k] == Quantize(src[k], steps)
    {
      dst[i] := Round(src[i] / q) as real * q;
    }
  }

  /** An element-by-element copy of `src` into `dst`. */
  method CopyInto(src: array<real>, dst: array<real>)
    requires src != dst && src.Length == dst.Length
    modifies dst
    ensures dst[..] == src[..]
  {
    for i := 0 to dst.Length
      invariant forall k :: 0 <= k < i ==> dst[k] == src[k]
    {
      dst[i] := src[i];
    }
  }

  /** A pad position the editor may remember: on the table, with a height inside the pad. */
  predicate OnPad(p: PadPoint)
  {
    0 <= p.idx < TableSize && PadY0 <= p.y <= PadY0 + PadH
  }

  /** `i` lies between `a` and `b`, whichever is larger. */
  predicate Between(a: int, b: int, i: int)
  {
    a <= i <= b || b <= i <= a
  }

  /**
   * The control table after one drag step to index `idx` at height `y`:
   * with a remembered point the corrected line `PadLine` from it is filled
   * in, otherwise only entry `idx` is set.
   */
  function DragTable(table: seq<real>, prev: Option<PadPoint>, idx: int, y: real): (r: seq<real>)
    ensures |r| == |table|
  {
    seq(|table|, i requires 0 <= i < |table| =>
      match prev
      case Some(p) => if Between(p.idx, idx, i) then PadLine(p, idx, y, i) else table[i]
      case None => if i == idx then PadValueOf(y) else table[i])
  }

  /**
   * A corrected drag step changes only the entries between the remembered
   * index and the new one; it reaches the new height at the new index and
   * keeps the old one at the remembered index, whichever way the drag goes;
   * on the pad every written entry lies in [-1, 1].
   */
  lemma DragTableSpec(table: seq<real>, prev: Option<PadPoint>, idx: int, y: real)
    requires |table| == TableSize && 0 <= idx < TableSize && PadY0 <= y <= PadY0 + PadH
    requires prev.Some? ==> OnPad(prev.value)
    ensures var r := DragTable(table, prev, idx, y);
      && (forall i :: 0 <= i < TableSize && !Between(if prev.Some? then prev.value.idx else idx, idx, i) ==> r[i] == table[i])
      && (prev.None? || prev.value.idx != idx ==> r[idx] == PadValueOf(y))
      && (prev.Some? ==> r[prev.value.idx] == PadValueOf(prev.value.y))
      && (forall i :: 0 <= i < TableSize && Between(if prev.Some? then prev.value.idx else idx, idx, i) ==> -1.0 <= r[i] <= 1.0)
  {
    var r := DragTable(table, prev, idx, y);
    PadValueRange(y);
    match prev
    case None =>
    case Some(p) =>
      PadLineEndpoints(p, idx, y);
      forall i | 0 <= i < TableSize && Between(p.idx, idx, i)
        ensures -1.0 <= r[i] <= 1.0
      {
        PadLineInRange(p, idx, y, i);
      }
  }

  /**
   * The control table after one drag step as the sketch writes it: the same
   * as `DragTable`, but with the line as written, which is mirrored on a
   * leftward drag.
   */
  function DragTableAsWritten(table: seq<real>, prev: Option<PadPoint>, idx: int, y: real): (r: seq<real>)
    ensures |r| == |table|
  {
    seq(|table|, i requires 0 <= i < |table| =>
      match prev
      case Some(p) => if Between(p.idx, idx, i) then PadLineAsWritten(p, idx, y, i) else table[i]
      case None => if i == idx then PadValueOf(y) else table[i])
  }

  /**
   * A drag step as written changes only the entries between the two indices
   * and keeps them in [-1, 1]; moving right it keeps the old height at the
   * remembered index and reaches the new height at the new one, moving left
   * it puts the two heights the other way round.
   */
  lemma DragTableAsWrittenSpec(table: seq<real>, prev: Option<PadPoint>, idx: int, y: real)
    requires |table| == TableSize && 0 <= idx < TableSize && PadY0 <= y <= PadY0 + PadH
    requires prev.Some? ==> OnPad(prev.value)
    ensures var r := DragTableAsWritten(table, prev, idx, y);
      && (forall i :: 0 <= i < TableSize && !Between(if prev.Some? then prev.value.idx else idx, idx, i) ==> r[i] == table[i])
      && (prev.None? ==> r[idx] == PadValueOf(y))
      && (prev.Some? && prev.value.idx <= idx ==> r[prev.value.idx] == PadValueOf(prev.value.y))
      && (prev.Some? && prev.value.idx < idx ==> r[idx] == PadValueOf(y))
      && (prev.Some? && idx < prev.value.idx ==> r[idx] == PadValueOf(prev.value.y) && r[prev.value.idx] == PadValueOf(y))
      && (forall i :: 0 <= i < TableSize && Between(if prev.Some? then prev.value.idx else idx, idx, i) ==> -1.0 <= r[i] <= 1.0)
  {
    var r := DragTableAsWritten(table, prev, idx, y);
    PadValueRange(y);
    match prev
    case None =>
    case Some(p) =>
      PadLineAsWrittenEndpoints(p, idx, y);
      forall i | 0 <= i < TableSize && Between(p.idx, idx, i)
        ensures -1.0 <= r[i] <= 1.0
      {
        PadLineAsWrittenInRange(p, idx, y, i);
      }
  }

  /** Without a remembered point, or moving right, the corrected drag step is the one the sketch writes. */
  lemma DragTableAgreesRightward(table: seq<real>, prev: Option<PadPoint>, idx: int, y: real)
    requires prev.None? || prev.value.idx <= idx
    ensures DragTable(table, prev, idx, y) == DragTableAsWritten(table, prev, idx, y)
  {
    forall i | 0 <= i < |table|
      ensures DragTable(table, prev, idx, y)[i] == DragTableAsWritten(table, prev, idx, y)[i]
    {
      if prev.Some? && Between(prev.value.idx, idx, i) {
        PadLineAgreesRightward(prev.value, idx, y, i);
      }
    }
  }

  /**
   * The interpolation loop of `mouseDragged`, with the corrected line: every
   * entry from the smaller to the larger of the two indices gets the
   * `PadLine` value, in both `customTable` and `crushedTable`. On a rightward
   * drag this is the sketch's loop (`PadLineAgreesRightward`); on a leftward
   * one the sketch writes the mirrored `PadLineAsWritten` instead.
   */
  method FillPadLine(custom: array<real>, crushed: array<real>, prev: PadPoint, idx: int, y: real)
    requires custom != crushed && custom.Length == TableSize && crushed.Length == TableSize
    requires 0 <= prev.idx < TableSize && 0 <= idx < TableSize
    modifies custom, crushed
    ensures forall i :: 0 <= i < TableSize ==>
      custom[i] == if Between(prev.idx, idx, i) then PadLine(prev, idx, y, i) else old(custom[i])
    ensures forall i :: 0 <= i < TableSize ==>
      crushed[i] == if Between(prev.idx, idx, i) then custom[i] else old(crushed[i])
  {
    var from, to := prev.idx, idx;
    if from > to {
      from, to := to, from;
    }
    for i := from to to + 1
      invariant forall k :: 0 <= k < TableSize ==>
        custom[k] == if from <= k < i then PadLine(prev, idx, y, k) else old(custom[k])
      invariant forall k :: 0 <= k < TableSize ==>
        crushed[k] == if from <= k < i then custom[k] else old(crushed[k])
    {
      custom[i] := PadLine(prev, idx, y, i);
      crushed[i] := custom[i];
    }
  }

  /**
   * `samples` lists the samples of the stroke `norm` (stated on `SampleAt`
   * terms only). This and the two listings below have no counterpart in the
   * sketch: they are proof aids, so that the loops can index a ghost list
   * without unfolding the arithmetic behind each entry.
   */
  ghost predicate SamplesOf(samples: seq<Point>, norm: seq<Point>, seg: seq<real>)
    requires SegmentLengths(norm, seg)
  {
    && |samples| == TableSize
    && forall i {:trigger SampleAt(norm, seg, i)} :: 0 <= i < TableSize ==> samples[i] == SampleAt(norm, seg, i)
  }

  /** Proof aid: `ts` lists the arc lengths `TDist(seg, s)` of the samples and of one more (stated on `TDist` terms only). */
  ghost predicate TDistsOf(ts: seq<real>, seg: seq<real>)
  {
    && |ts| == TableSize + 1
    && forall i {:trigger TDist(seg, i)} :: 0 <= i <= TableSize ==> ts[i] == TDist(seg, i)
  }

  /** The arc lengths of the samples can be listed. */
  lemma ArcLengths(seg: seq<real>) returns (ts: seq<real>)
    ensures TDistsOf(ts, seg)
  {
    ts := seq(TableSize + 1, i => TDist(seg, i));
  }

  /** The sample list of a stroke is a list of its samples. */
  lemma SamplesAreSamples(norm: seq<Point>, seg: seq<real>)
    requires SegmentLengths(norm, seg)
    ensures SamplesOf(Samples(norm, seg), norm, seg)
  {
  }

  /**
   * The cursor part of one pass of the resampling loop of
   * `updateTablesFromXY`: move the cursor to the segment that holds sample
   * `s` and interpolate the sample's coordinates there. The ghost lists
   * `samples` and `ts` are proof aids only.
   */
  method CursorSample(norm: seq<Point>, seg: seq<real>, step: real, s: int, idx0: nat, acc0: real,
                      ghost samples: seq<Point>, ghost ts: seq<real>)
    returns (idx: nat, acc: real, x: real, y: real)
    requires SegmentLengths(norm, seg) && SamplesOf(samples, norm, seg) && TDistsOf(ts, seg) && 0 <= s < TableSize
    requires step == Sum(seg) / (TableSize - 1) as real
    requires 1 <= idx0 <= |seg| && acc0 == Prefix(seg, idx0 - 1)
    requires forall j :: 1 <= j < idx0 ==> !Stop(seg, j, ts[s])
    ensures 1 <= idx <= |seg| && acc == Prefix(seg, idx - 1)
    ensures forall j :: 1 <= j < idx ==> Prefix(seg, j) < ts[s + 1] && j < |seg|
    ensures x == samples[s].x && y == samples[s].y
  {
    var tDist := s as real * step;
    assert tDist == TDist(seg, s) == ts[s];
    assert ts[s + 1] == TDist(seg, s + 1);
    idx, acc := AdvanceCursor(seg, idx0, acc0, tDist);
    var t := (tDist - acc) / seg[idx - 1];
    x := Lerp(norm[idx - 1].x, norm[idx].x, t);
    y := Lerp(norm[idx - 1].y, norm[idx].y, t);
    SampleFromCursor(norm, seg, s, idx, acc);
    TDistGrows(seg, s, idx);
  }

  /**
   * Proof aid: `ps` lists the right tables after each number of resampling
   * passes (stated on `WriteRight` terms only).
   */
  ghost predicate PartialsOf(ps: seq<seq<real>>, right0: seq<real>, samples: seq<Point>, k: int)
    requires |right0| == TableSize && |samples| == TableSize
  {
    && |ps| == TableSize + 1
    && forall i {:trigger WriteRight(right0, samples, k, i)} :: 0 <= i <= TableSize ==>
         ps[i] == WriteRight(right0, samples, k, i)
  }

  /** The right tables after each number of passes can be listed. */
  lemma RightPartials(right0: seq<real>, samples: seq<Point>, k: int) returns (ps: seq<seq<real>>)
    requires |right0| == TableSize && |samples| == TableSize
    ensures PartialsOf(ps, right0, samples, k)
  {
    ps := seq(TableSize + 1, i requires 0 <= i <= TableSize => WriteRight(right0, samples, k, i));
  }

  /**
   * The two writes of resampling pass `s`: `x` to `left[s]`, and `-y` to
   * the right target when it is not negative, which takes the right table
   * from its state after `s` passes to its state after `s + 1`.
   */
  method WriteSample(left: array<real>, right: array<real>, s: int, x: real, k: int, y: real,
                     ghost samples: seq<Point>, ghost right0: seq<real>, ghost ps: seq<seq<real>>)
    requires left != right && left.Length == TableSize && right.Length == TableSize && 0 <= s < TableSize
    requires |right0| == TableSize && |samples| == TableSize && PartialsOf(ps, right0, samples, k)
    requires right[..] == ps[s] && y == samples[s].y
    modifies left, right
    ensures left[..] == old(left[..])[s := x]
    ensures right[..] == ps[s + 1]
  {
    assert ps[s] == WriteRight(right0, samples, k, s);
    assert ps[s + 1] == WriteRight(right0, samples, k, s + 1);
    left[s] := x;
    var target := RemInt(s * k, TableSize);
    if target >= 0 {
      right[target] := -y;
    }
  }

  /**
   * The resampling loop of `updateTablesFromXY`: sample `s` of the stroke
   * goes to `left[s]` (its x) and its negated y to the right-table entry
   * `(s * k) % TABLE_SIZE`. The ghost list `samples` is a proof aid only.
   */
  method ResampleXY(left: array<real>, right: array<real>, norm: seq<Point>, seg: seq<real>, k: int,
                    ghost samples: seq<Point>)
    requires left != right && left.Length == TableSize && right.Length == TableSize
    requires SegmentLengths(norm, seg) && SamplesOf(samples, norm, seg)
    modifies left, right
    ensures left[..] == Xs(samples)
    ensures right[..] == WriteRight(old(right[..]), samples, k, TableSize)
  {
    ghost var right0 := right[..];
    var total := TotalLength(seg);
    var step := total / (TableSize - 1) as real;
    PrefixBounds(seg);
    ghost var ts := ArcLengths(seg);
    ghost var ps := RightPartials(right0, samples, k);
    assert ps[0] == WriteRight(right0, samples, k, 0);
    var acc, idx := 0.0, 1;
    for s := 0 to TableSize
      invariant 1 <= idx <= |seg| && acc == Prefix(seg, idx - 1)
      invariant forall j :: 1 <= j < idx ==> !Stop(seg, j, ts[s])
      invariant forall i :: 0 <= i < s ==> left[i] == samples[i].x
      invariant right[..] == ps[s]
    {
      var x, y;
      idx, acc, x, y := CursorSample(norm, seg, step, s, idx, acc, samples, ts);
      WriteSample(left, right, s, x, k, y, samples, right0, ps);
    }
    assert left[..] == Xs(samples);
  }

  class WaveStore {
    /** The left control table, edited by the pad and the XY drawing. */
    const customTable: array<real>
    /** The left table after the glitch quantizer. */
    const crushedTable: array<real>
    /** The right control table, written by the XY drawing. */
    const customTableR: array<real>
    /** The right table after the glitch quantizer. */
    const crushedTableR: array<real>
    /** `glitchSteps`: the quantizer's resolution, from the glitch slider. */
    var glitchSteps: int
    /** Set by an XY drawing; from then on the two channels are quantized and played separately. */
    var xyDrawingUsed: bool
    var currentWave: WaveKind
    /** The lit state of the three waveform buttons. */
    var waveOn: seq<bool>
    /** The table the left oscillator's periodic wave was last computed from. */
    var playingL: seq<real>
    /** The table the right oscillator's periodic wave was last computed from. */
    var playingR: seq<real>
    /** A pad stroke is in progress. */
    var editing: bool
    /** `prevPadIdx` / `prevPadY`, which the sketch always sets and clears together. */
    var prevPad: Option<PadPoint>
    /** An XY stroke is in progress. */
    var editingXY: bool
    /** The mouse positions of the current XY stroke. */
    var xyDrawPts: seq<Point>

    ghost predicate Valid()
      reads this
    {
      && customTable.Length == TableSize && crushedTable.Length == TableSize
      && customTableR.Length == TableSize && crushedTableR.Length == TableSize
      && customTable != crushedTable && customTable != customTableR && customTable != crushedTableR
      && crushedTable != customTableR && crushedTable != crushedTableR && customTableR != crushedTableR
      && 4 <= glitchSteps <= 64
      && |waveOn| == 3
      && (prevPad.Some? ==> OnPad(prevPad.value))
    }

    /**
     * The table part of `setup()`: zeroed tables, the default sine, the
     * quantizer at full resolution and both oscillators on the left table.
     * `sinTurn(t)` stands for `Math.sin(TWO_PI * t)`.
     */
    constructor (sinTurn: real -> real)
      ensures Valid()
      ensures customTable[..] == DefaultTable(Sine, sinTurn)
      ensures crushedTable[..] == Crush(customTable[..], 64)
      ensures customTableR[..] == seq(TableSize, _ => 0.0) && crushedTableR[..] == seq(TableSize, _ => 0.0)
      ensures playingL == crushedTable[..] && playingR == crushedTable[..]
      ensures glitchSteps == 64 && !xyDrawingUsed && currentWave == Sine && waveOn == [true, false, false]
      ensures !editing && prevPad == None && !editingXY && xyDrawPts == []
    {
      customTable := new real[TableSize](_ => 0.0);
      crushedTable := new real[TableSize](_ => 0.0);
      customTableR := new real[TableSize](_ => 0.0);
      crushedTableR := new real[TableSize](_ => 0.0);
      glitchSteps := 64;
      xyDrawingUsed := false;
      currentWave := Sine;
      waveOn := [true, false, false];
      playingL := [];
      playingR := [];
      editing := false;
      prevPad := None;
      editingXY := false;
      xyDrawPts := [];
      new;
      SetDefaultWave(Sine, sinTurn);
      ApplyGlitch();
      UpdateOscPeriodicWave();
    }

    /** `setDefaultWave(type)`: fills `customTable` with the chosen waveform and nothing else. */
    method SetDefaultWave(kind: WaveKind, sinTurn: real -> real)
      requires Valid()
      modifies customTable
      ensures customTable[..] == DefaultTable(kind, sinTurn)
    {
      for i := 0 to TableSize
        invariant forall k :: 0 <= k < i ==> customTable[k] == DefaultSample(kind, k, sinTurn)
      {
        customTable[i] := DefaultSample(kind, i, sinTurn);
      }
    }

    /** `updateOscPeriodicWave()`: both oscillators play the left quantized table. */
    method UpdateOscPeriodicWave()
      modifies this`playingL, this`playingR
      ensures playingL == crushedTable[..] && playingR == crushedTable[..]
    {
      playingL := crushedTable[..];
      playingR := crushedTable[..];
    }

    /** `updateOscPeriodicWaveLeft()`: only the left oscillator is updated. */
    method UpdateOscPeriodicWaveLeft()
      modifies this`playingL
      ensures playingL == crushedTable[..]
    {
      playingL := crushedTable[..];
    }

    /** `updateOscPeriodicWaveXY()`: each oscillator plays its own quantized table. */
    method UpdateOscPeriodicWaveXY()
      modifies this`playingL, this`playingR
      ensures playingL == crushedTable[..] && playingR == crushedTableR[..]
    {
      playingL := crushedTable[..];
      playingR := crushedTableR[..];
    }

    /**
     * `applyGlitch()`: quantize the left table; after an XY drawing only the
     * left oscillator follows, otherwise both do.
     */
    method ApplyGlitch()
      requires Valid()
      modifies crushedTable, this`playingL, this`playingR
      ensures Valid()
      ensures crushedTable[..] == Crush(customTable[..], glitchSteps)
      ensures playingL == crushedTable[..]
      ensures playingR == if xyDrawingUsed then old(playingR) else crushedTable[..]
    {
      QuantizeInto(customTable, crushedTable, glitchSteps);
      if xyDrawingUsed {
        UpdateOscPeriodicWaveLeft();
      } else {
        UpdateOscPeriodicWave();
      }
    }

    /** `applyGlitchR()`: quantize the right table; no oscillator is updated. */
    method ApplyGlitchR()
      requires Valid()
      modifies crushedTableR
      ensures crushedTableR[..] == Crush(customTableR[..], glitchSteps)
    {
      QuantizeInto(customTableR, crushedTableR, glitchSteps);
    }

    /**
     * A new glitch slider value in `draw()`: only the left table is
     * re-quantized, so after an XY drawing `crushedTableR` keeps its old
     * resolution until the next drawing or waveform button.
     */
    method SetGlitchSteps(steps: int)
      requires Valid() && 4 <= steps <= 64
      modifies this`glitchSteps, crushedTable, this`playingL, this`playingR
      ensures Valid() && glitchSteps == steps
      ensures crushedTable[..] == Crush(customTable[..], steps)
      ensures crushedTableR[..] == old(crushedTableR[..])
      ensures playingL == crushedTable[..]
      ensures playingR == if xyDrawingUsed then old(playingR) else crushedTable[..]
    {
      glitchSteps := steps;
      ApplyGlitch();
    }

    /**
     * `changeWaveIndex(idx)`: light button `idx` alone, leave XY mode, load the
     * default waveform into both channels and play it on both.
     */
    method ChangeWaveIndex(idx: int, sinTurn: real -> real)
      requires Valid() && 0 <= idx < 3
      modifies customTable, crushedTable, customTableR, crushedTableR
      modifies this`currentWave, this`waveOn, this`xyDrawingUsed, this`playingL, this`playingR
      ensures Valid()
      ensures currentWave == KindOfIndex(idx) && !xyDrawingUsed
      ensures |waveOn| == 3 && forall i :: 0 <= i < 3 ==> (waveOn[i] <==> i == idx)
      ensures customTable[..] == DefaultTable(KindOfIndex(idx), sinTurn) && customTableR[..] == customTable[..]
      ensures crushedTable[..] == Crush(customTable[..], glitchSteps) && crushedTableR[..] == crushedTable[..]
      ensures playingL == crushedTable[..] && playingR == crushedTable[..]
    {
      currentWave := KindOfIndex(idx);
      waveOn := seq(|waveOn|, i => i == idx);
      xyDrawingUsed := false;
      SetDefaultWave(currentWave, sinTurn);
      CopyInto(customTable, customTableR);
      CopyInto(crushedTable, crushedTableR);
      ApplyGlitch();
      ApplyGlitchR();
      UpdateOscPeriodicWaveXY();
    }

    /**
     * The pad branch of `mousePressed()`: inside the pad, start a stroke,
     * remember the point and set the entry under the mouse.
     */
    method PadPress(mx: real, my: real)
      requires Valid()
      modifies customTable, crushedTable, this`editing, this`prevPad, this`playingL, this`playingR
      ensures Valid()
      ensures !InPad(mx, my) ==>
        && editing == old(editing) && prevPad == old(prevPad)
        && customTable[..] == old(customTable[..]) && crushedTable[..] == old(crushedTable[..])
        && playingL == old(playingL) && playingR == old(playingR)
      ensures InPad(mx, my) ==>
        && editing && prevPad == Some(PadPoint(PadIndexOf(mx), my))
        && customTable[..] == old(customTable[..])[PadIndexOf(mx) := PadValueOf(my)]
        && crushedTable[..] == Crush(customTable[..], glitchSteps)
        && playingL == crushedTable[..]
        && playingR == (if xyDrawingUsed then old(playingR) else crushedTable[..])
    {
      if InPad(mx, my) {
        editing := true;
        var i := PadIndexOf(mx);
        prevPad := Some(PadPoint(i, my));
        customTable[i] := PadValueOf(my);
        crushedTable[i] := customTable[i];
        ApplyGlitch();
      }
    }

    /**
     * The pad branch of `mouseDragged()`: during a stroke and inside the pad,
     * draw the corrected line from the remembered point (or set one entry
     * when there is none), remember the new point and re-quantize. Without a
     * remembered point or moving right the new table is the sketch's
     * (`DragTableAgreesRightward`); moving left the sketch writes
     * `DragTableAsWritten`, the mirrored line.
     */
    method PadDrag(mx: real, my: real)
      requires Valid()
      modifies customTable, crushedTable, this`prevPad, this`playingL, this`playingR
      ensures Valid()
      ensures !(editing && InPad(mx, my)) ==>
        && prevPad == old(prevPad)
        && customTable[..] == old(customTable[..]) && crushedTable[..] == old(crushedTable[..])
        && playingL == old(playingL) && playingR == old(playingR)
      ensures editing && InPad(mx, my) ==>
        && prevPad == Some(PadPoint(PadIndexOf(mx), my))
        && customTable[..] == DragTable(old(customTable[..]), old(prevPad), PadIndexOf(mx), my)
        && crushedTable[..] == Crush(customTable[..], glitchSteps)
        && playingL == crushedTable[..]
        && playingR == (if xyDrawingUsed then old(playingR) else crushedTable[..])
    {
      if editing && InPad(mx, my) {
        var idx := PadIndexOf(mx);
        ghost var before := customTable[..];
        match prevPad {
          case Some(p) =>
            FillPadLine(customTable, crushedTable, p, idx, my);
          case None =>
            customTable[idx] := PadValueOf(my);
            crushedTable[idx] := customTable[idx];
        }
        assert customTable[..] == DragTable(before, prevPad, idx, my);
        prevPad := Some(PadPoint(idx, my));
        ApplyGlitch();
      }
    }

    /** The pad branch of `mouseReleased()`: end the stroke and forget the point. */
    method PadRelease()
      modifies this`editing, this`prevPad
      ensures !editing
      ensures prevPad == if old(editing) then None else old(prevPad)
    {
      if editing {
        editing := false;
        prevPad := None;
      }
    }

    /** The XY branch of `mousePressed()`: when no pad stroke runs, start an XY stroke at the mouse. */
    method XYPress(mx: real, my: real)
      modifies this`editingXY, this`xyDrawPts
      ensures !editing && InXY(mx, my) ==> editingXY && xyDrawPts == [Point(mx, my)]
      ensures !(!editing && InXY(mx, my)) ==> editingXY == old(editingXY) && xyDrawPts == old(xyDrawPts)
    {
      if !editing && InXY(mx, my) {
        editingXY := true;
        xyDrawPts := [Point(mx, my)];
      }
    }

    /**
     * The state `updateTablesFromXY` leaves for the samples `samples` of the
     * stroke and rounded ratio `k`, starting from the right table `right0`.
     */
    ghost predicate DrawnFrom(samples: seq<Point>, k: int, right0: seq<real>)
      requires Valid() && |samples| == TableSize && |right0| == TableSize
      reads this, customTable, crushedTable, customTableR, crushedTableR
    {
      && xyDrawingUsed
      && customTable[..] == Xs(samples)
      && customTableR[..] == WriteRight(right0, samples, k, TableSize)
      && crushedTable[..] == Crush(customTable[..], glitchSteps)
      && crushedTableR[..] == Crush(customTableR[..], glitchSteps)
      && playingL == crushedTable[..] && playingR == crushedTableR[..]
    }

    /**
     * `updateTablesFromXY(points)`: from a stroke of at least two points,
     * resample it into both control tables, quantize both, give each
     * oscillator its own table and restart both phases; a shorter stroke
     * changes nothing. `seg` holds the segment lengths the sketch computes
     * with `dist`; the right table is wound `Math.round(ratio)` times.
     */
    method UpdateTablesFromXY(points: seq<Point>, seg: seq<real>, osc: Oscillators)
      requires Valid() && osc.Valid()
      requires |points| >= 2 ==> SegmentLengths(Normalize(points), seg) && Distances(Normalize(points), seg)
      modifies customTable, crushedTable, customTableR, crushedTableR
      modifies this`xyDrawingUsed, this`playingL, this`playingR, osc`phaseResets
      ensures Valid() && osc.Valid()
      ensures |points| < 2 ==>
        && unchanged(customTable, crushedTable, customTableR, crushedTableR)
        && xyDrawingUsed == old(xyDrawingUsed) && playingL == old(playingL) && playingR == old(playingR)
        && osc.phaseResets == old(osc.phaseResets)
      ensures |points| >= 2 ==>
        && DrawnFrom(Samples(Normalize(points), seg), Round(osc.ratio), old(customTableR[..]))
        && osc.phaseResets == old(osc.phaseResets) + 1
    {
      if |points| < 2 {
        return;
      }
      var norm := Normalize(points);
      ghost var samples := Samples(norm, seg);
      SamplesAreSamples(norm, seg);
      DrawStroke(norm, seg, osc, samples);
    }

    /**
     * The part of `updateTablesFromXY` after the points have been normalized
     * to `norm`, whose samples are `samples` (a ghost list, a proof aid only).
     */
    method DrawStroke(norm: seq<Point>, seg: seq<real>, osc: Oscillators, ghost samples: seq<Point>)
      requires Valid() && osc.Valid() && SegmentLengths(norm, seg) && SamplesOf(samples, norm, seg)
      modifies customTable, crushedTable, customTableR, crushedTableR
      modifies this`xyDrawingUsed, this`playingL, this`playingR, osc`phaseResets
      ensures Valid() && osc.Valid()
      ensures DrawnFrom(samples, Round(osc.ratio), old(customTableR[..]))
      ensures osc.phaseResets == old(osc.phaseResets) + 1
    {
      xyDrawingUsed := true;
      ResampleXY(customTable, customTableR, norm, seg, Round(osc.ratio), samples);
      GlitchBoth();
      osc.ResetPhases();
    }

    /** The end of `updateTablesFromXY`: quantize both tables and give each oscillator its own. */
    method GlitchBoth()
      requires Valid() && xyDrawingUsed
      modifies crushedTable, crushedTableR, this`playingL, this`playingR
      ensures Valid()
      ensures crushedTable[..] == Crush(customTable[..], glitchSteps)
      ensures crushedTableR[..] == Crush(customTableR[..], glitchSteps)
      ensures playingL == crushedTable[..] && playingR == crushedTableR[..]
    {
      ApplyGlitch();
      ApplyGlitchR();
      UpdateOscPeriodicWaveXY();
    }

    /** The XY branch of `mouseDragged()`: during an XY stroke and inside the plot, extend it and redraw. */
    method XYDrag(mx: real, my: real, seg: seq<real>, osc: Oscillators)
      requires Valid() && osc.Valid()
      requires editingXY && InXY(mx, my) && |xyDrawPts| >= 1 ==>
        var pts := xyDrawPts + [Point(mx, my)];
        SegmentLengths(Normalize(pts), seg) && Distances(Normalize(pts), seg)
      modifies customTable, crushedTable, customTableR, crushedTableR
      modifies this`xyDrawPts, this`xyDrawingUsed, this`playingL, this`playingR, osc`phaseResets
      ensures Valid() && osc.Valid()
      ensures editingXY && InXY(mx, my) ==> xyDrawPts == old(xyDrawPts) + [Point(mx, my)]
      ensures editingXY && InXY(mx, my) && |xyDrawPts| >= 2 ==>
        && DrawnFrom(Samples(Normalize(xyDrawPts), seg), Round(osc.ratio), old(customTableR[..]))
        && osc.phaseResets == old(osc.phaseResets) + 1
      ensures !(editingXY && InXY(mx, my) && |xyDrawPts| >= 2) ==>
        && unchanged(customTable, crushedTable, customTableR, crushedTableR)
        && xyDrawingUsed == old(xyDrawingUsed) && playingL == old(playingL) && playingR == old(playingR)
        && osc.phaseResets == old(osc.phaseResets)
      ensures !(editingXY && InXY(mx, my)) ==> xyDrawPts == old(xyDrawPts)
    {
      if editingXY && InXY(mx, my) {
        xyDrawPts := xyDrawPts + [Point(mx, my)];
        UpdateTablesFromXY(xyDrawPts, seg, osc);
      }
    }

    /** The XY branch of `mouseReleased()`: end the stroke and, with more than four points, redraw once more. */
    method XYRelease(seg: seq<real>, osc: Oscillators)
      requires Valid() && osc.Valid()
      requires editingXY && |xyDrawPts| > 4 ==>
        SegmentLengths(Normalize(xyDrawPts), seg) && Distances(Normalize(xyDrawPts), seg)
      modifies customTable, crushedTable, customTableR, crushedTableR
      modifies this`editingXY, this`xyDrawingUsed, this`playingL, this`playingR, osc`phaseResets
      ensures Valid() && osc.Valid() && !editingXY
      ensures old(editingXY) && |xyDrawPts| > 4 ==>
        && DrawnFrom(Samples(Normalize(xyDrawPts), seg), Round(osc.ratio), old(customTableR[..]))
        && osc.phaseResets == old(osc.phaseResets) + 1
      ensures !(old(editingXY) && |xyDrawPts| > 4) ==>
        && unchanged(customTable, crushedTable, customTableR, crushedTableR)
        && xyDrawingUsed == old(xyDrawingUsed) && playingL == old(playingL) && playingR == old(playingR)
        && osc.phaseResets == old(osc.phaseResets)
    {
      if editingXY {
        editingXY := false;
        if |xyDrawPts| > 4 {
          UpdateTablesFromXY(xyDrawPts, seg, osc);
        }
      }
    }
  }
}
