/**
 * The screen layout of the sketch on its 1280 x 720 canvas, computed with the
 * formulas of `setup()`, and the two hit tests the editing code relies on.
 */
module Layout {
  const Width: real := 1280.0
  const Height: real := 720.0

  /** Radius and centre height of the two Y-T circles. */
  const YtR: real := (Height * 0.25 - 20.0) / 2.0
  const YtCY: real := YtR + 50.0

  /** The square XY plot. */
  const XySize: real := Height * 0.50
  const XyX0: real := (Width - XySize) / 2.0
  const XyY0: real := YtCY + YtR - 30.0

  /** The waveform editing pad, below the XY plot. */
  const PadW: real := XySize * 0.4
  const PadH: real := 90.0
  const PadX0: real := (Width - PadW) / 2.0
  const PadY0: real := XyY0 + XySize + 10.0

  /** The formulas give a 360-pixel XY square at (460, 180) and a 144 x 90 pad at (568, 550). */
  lemma LayoutValues()
    ensures XySize == 360.0 && XyX0 == 460.0 && XyY0 == 180.0
    ensures PadW == 144.0 && PadX0 == 568.0 && PadY0 == 550.0
  {
  }

  /** `inPad(mx, my)`. */
  predicate InPad(mx: real, my: real)
  {
    PadX0 <= mx <= PadX0 + PadW && PadY0 <= my <= PadY0 + PadH
  }

  /** `mxInXY(x, y)`. */
  predicate InXY(x: real, y: real)
  {
    XyX0 <= x <= XyX0 + XySize && XyY0 <= y <= XyY0 + XySize
  }
}
