# Image Oscillation IV — a verified model of the control core

`sketch.js` is a p5.js instrument with two oscillators, left and right, each
playing a 64-sample wavetable. The tables come from three places: a default
waveform (sine, square or triangle), a small editing pad, or a stroke drawn in
an XY plot. A "glitch" quantizer reduces the tables to `glitchSteps` levels
before they are played. The right oscillator runs at `ratio` times the base
frequency; a ratio close to an integer snaps to it. Notes come from the
computer keyboard, from on-screen keys and from a simple arpeggiator. The
oscilloscope display picks its trigger point with one of three strategies,
depending on the ratio.

This project models that control core in Dafny and proves what it computes.

- **Quantizer**: the glitch quantizer (`applyGlitch`) as a function on values.
  It lands on the grid, moves a value by at most half a step, and is
  idempotent. It keeps [-1, 1] for even step counts but not for odd ones.
- **Waveforms**: `setDefaultWave` as a table function, with the shape of each
  waveform.
- **Layout**: the canvas layout of `setup()` and the `inPad` / `mxInXY` hit
  tests.
- **PadEdit**: the pad's mouse-to-index and mouse-to-value maps, and the line
  a pad drag draws. The line as written is mirrored on a leftward drag (see
  "## Findings"). Both lines are modelled and proved. The pad state in
  `Wavetable` (`DragTable`, `FillPadLine`, `PadDrag`) uses the corrected line.
  `Wavetable.DragTableAgreesRightward` proves it equals the sketch's table
  whenever the drag does not go left.
- **Curve**: the XY drawing.
  - The stroke is normalised into the unit square.
  - It is resampled by arc length into 64 points.
  - The right table is wound `Math.round(ratio)` times.
  - `normalizeXYPoints` is included too.
- **Harmonics**: the DFT loop that turns a table into `createPeriodicWave`
  coefficients, with its linearity.
- **Smoothing**: the circular moving average `smoothWaveform`.
- **Trigger**: the trigger strategies of the display.
  - `adaptiveTrigger`'s classification of the ratio.
  - `synchronizedTrigger`, `periodicTrigger`, `risingEdge`, and the peak
    search and nearest-crossing search of `phaseTrackingTrigger`.
- **PhaseTracking**: the `phaseHistory` buffer as a class, with
  `phaseTrackingTrigger` and `adaptiveTrigger` as its methods.
- **DualOscillator**: the frequency state of the two oscillators as a class.
  This covers `setBaseFreq`, `setRatio` with its snapping, `syncPhases` and
  the per-frame phase re-sync.
- **Keyboard**: the note state as a class: `notesHeld`, the arpeggiator
  index, the octave, the lit on-screen keys and the last note played. The
  computer-keyboard poll `syncKeyboardNotes` is proved to leave exactly the
  notes of the pressed keys held.
- **Wavetable**: the four tables as arrays in the class `WaveStore`, with the
  mouse handlers that edit them.
  - `playingL` / `playingR` record which quantized table each oscillator was
    last given.
  - The in-place loops (quantizing, copying, the pad line, the XY
    resampling) are methods over the arrays. Each is proved against the
    functions above.

Numbers are modelled as mathematical reals; `Math.round` is `floor(x + 1/2)`
and JavaScript `%` is the truncating remainder (`JsMath`). `Math.sin`,
`Math.cos` and `midiToFreq` are function parameters (`sinTurn`, `cosTurn`,
`midiToFreq`). The segment lengths computed with `dist` are passed in as `seg`,
with `Distances` saying that `seg[i]^2` is the squared distance between
consecutive points.

When the code and its comments disagree, the model follows the code. There is
one such case. The comment on `toNorm` (`sketch.js:716`) says the bottom of
the plot maps to -1 and the top to +1. The code maps the bottom edge
`xyY0 + xySize` to +1 and the top edge to -1, and `Curve.ToNormEdges` states
the code's behaviour.

## Model

| member | source | states |
|---|---|---|
| Quantizer.Step | sketch.js:343 | the quantizer step is positive and `steps` of it span the whole range [-1, 1] |
| Quantizer.QuantizeOnGrid | sketch.js:344 | a quantized value is an integer multiple of the step |
| Quantizer.QuantizeError | sketch.js:344 | quantizing moves a value by at most half a step |
| Quantizer.QuantizeOnGridFixed | sketch.js:344 | a value already on the grid is left unchanged |
| Quantizer.QuantizeIdempotent | sketch.js:344 | quantizing twice is the same as quantizing once |
| Quantizer.RoundMonotone | sketch.js:344 | `Math.round` is monotone |
| Quantizer.QuantizeEvenStaysInRange | sketch.js:344 | with an even step count, a value in [-1, 1] stays in [-1, 1] |
| Quantizer.QuantizeOddCanLeaveRange | sketch.js:343-344 | with 5 steps, 1.0 is quantized to 1.2, outside [-1, 1] |
| Quantizer.CrushSpec | sketch.js:344 | the crushed table has the input's length, and each entry is on the grid and within half a step of the input entry |
| Quantizer.CrushIdempotent | sketch.js:676-678 | crushing a crushed table changes nothing |
| Quantizer.CrushEvenStaysInRange | sketch.js:344 | with an even step count, a table in [-1, 1] stays in [-1, 1] |
| Quantizer.CrushFourStepsLevels | sketch.js:132 | at the slider's lowest setting (4 steps) only the five levels -1, -0.5, 0, 0.5 and 1 remain |
| Waveforms.SquareHalves | sketch.js:335-339 | the square table is +1 on the first half and -1 on the second |
| Waveforms.TriangleShape | sketch.js:335-338 | the triangle table is in [-1, 1], starts and ends at -1, and is symmetric about its middle |
| Waveforms.DefaultTableInRange | sketch.js:333-341 | every default table lies in [-1, 1] when the sine does |
| Layout.LayoutValues | sketch.js:101-108 | the layout formulas give a 360-pixel XY square at (460, 180) and a 144 x 90 pad at (568, 550) |
| PadEdit.PadIndexOf | sketch.js:496-497 | the pad index of a mouse x is always a valid table index |
| PadEdit.PadIndexEdges | sketch.js:496-497 | the left pad edge maps to index 0 and the right edge to index 63 |
| PadEdit.PadValueRange | sketch.js:513 | a mouse y on the pad maps into [-1, 1], the top edge to +1 and the bottom edge to -1 |
| PadEdit.InPadMapsIntoTable | sketch.js:919-921 | every point that passes `inPad` gets an index the `constrain` of sketch.js:477-478 and 496-497 leaves unchanged, and a pad value in [-1, 1] |
| PadEdit.PadLineAgreesRightward | sketch.js:502-511 | for a rightward drag the corrected line equals the line as written |
| PadEdit.PadLineAsWrittenMirrored | sketch.js:502-511 | for a leftward drag the line as written puts each end's value at the other end; the corrected line does not |
| PadEdit.PadLineEndpoints | sketch.js:502-511 | the line starts at the value of the previous point and ends at the value under the mouse |
| PadEdit.PadLineInRange | sketch.js:502-511 | every entry of the corrected line lies in [-1, 1] |
| PadEdit.PadLineAsWrittenEndpoints | sketch.js:502-511 | the line as written puts the previous height at the smaller index and the new height at the larger one, so the two ends swap on a leftward drag |
| PadEdit.PadLineAsWrittenInRange | sketch.js:502-511 | every entry of the line as written lies in [-1, 1] |
| Wavetable.QuantizeInto | sketch.js:676-678 | the destination array becomes the crushed source array; the source is unchanged |
| Wavetable.CopyInto | sketch.js:418-421 | the destination array becomes a copy of the source array |
| Wavetable.DragTableSpec | sketch.js:495-519 | a corrected drag step changes only the entries between the two points, puts the old height at the remembered index and the new one at the new index in both directions, and keeps the table in [-1, 1] (corrected line, see "## Findings") |
| Wavetable.DragTableAsWrittenSpec | sketch.js:495-519 | the drag step as the sketch writes it changes only the entries between the two points and keeps them in [-1, 1]; its endpoints are right on a rightward drag and swapped on a leftward one |
| Wavetable.DragTableAgreesRightward | sketch.js:500-514 | without a remembered point, or on a rightward drag, the corrected drag table equals the sketch's |
| Wavetable.FillPadLine | sketch.js:502-511 | every entry between the two indices gets the corrected line value, copied into the quantized table; all other entries are unchanged (corrected line, see "## Findings") |
| Wavetable.CursorSample | sketch.js:729-735 | one step of the resampling loop finds the segment of sample `s` and returns that sample |
| Wavetable.WriteSample | sketch.js:737-739 | one sample writes x to the left table and `-y` to the wound index of the right table |
| Wavetable.ResampleXY | sketch.js:726-740 | the left table becomes the x coordinates of the 64 samples; the right table becomes the wound `-y` writes over its old contents |
| Wavetable.WaveStore.constructor | sketch.js:134-136 | the tables start as the default sine, quantized at 64 steps, with both oscillators on the left table |
| Wavetable.WaveStore.SetDefaultWave | sketch.js:333-341 | the left table becomes the chosen default waveform |
| Wavetable.WaveStore.UpdateOscPeriodicWave | sketch.js:353-378 | both oscillators play the quantized left table |
| Wavetable.WaveStore.UpdateOscPeriodicWaveLeft | sketch.js:381-405 | only the left oscillator is updated, to the quantized left table |
| Wavetable.WaveStore.UpdateOscPeriodicWaveXY | sketch.js:701-704 | each oscillator plays its own quantized table |
| Wavetable.WaveStore.ApplyGlitch | sketch.js:342-352 | the left table is quantized; after an XY drawing only the left oscillator follows, otherwise both do |
| Wavetable.WaveStore.ApplyGlitchR | sketch.js:674-679 | the right table is quantized and no oscillator is updated |
| Wavetable.WaveStore.SetGlitchSteps | sketch.js:170-174 | a new glitch value re-quantizes only the left table; the quantized right table keeps its old contents |
| Wavetable.WaveStore.ChangeWaveIndex | sketch.js:407-426 | only the chosen button is lit, XY mode ends, both channels get the default waveform, and both oscillators play it quantized |
| Wavetable.WaveStore.PadPress | sketch.js:475-484 | a press inside the pad starts a stroke, sets the entry under the mouse and re-quantizes; a press outside changes nothing |
| Wavetable.WaveStore.PadDrag | sketch.js:495-519 | during a stroke inside the pad, the left table becomes the corrected drag table from the remembered point, the point is updated and the table re-quantized; otherwise nothing changes (corrected line, see "## Findings") |
| Wavetable.WaveStore.PadRelease | sketch.js:530-534 | the stroke ends and the remembered point is forgotten |
| Wavetable.WaveStore.XYPress | sketch.js:487-491 | a press in the XY plot while no pad stroke runs starts a stroke at the mouse |
| Wavetable.WaveStore.UpdateTablesFromXY | sketch.js:707-749 | a stroke of at least two points yields left table = sample x's and right table = wound `-y` writes, both quantized and played separately, with one phase reset; a shorter stroke changes nothing |
| Wavetable.WaveStore.DrawStroke | sketch.js:711-748 | the part of `updateTablesFromXY` after normalisation leaves the drawn state and resets the phases once |
| Wavetable.WaveStore.GlitchBoth | sketch.js:742-744 | both tables are quantized and each oscillator plays its own |
| Wavetable.WaveStore.XYDrag | sketch.js:521-524 | during an XY stroke inside the plot the point is appended and the tables are redrawn from the whole stroke |
| Wavetable.WaveStore.XYRelease | sketch.js:547-552 | the stroke ends; with more than four points the tables are redrawn once more |
| Curve.ToNorm | sketch.js:714-717 | a mouse position is clamped into the unit square |
| Curve.ToNormEdges | sketch.js:715-716 | left edge to -1 and right to +1; bottom edge to +1 and top to -1 |
| Curve.NormalizeInUnitSquare | sketch.js:714-718 | every normalised stroke lies in the unit square |
| Curve.BracketFrom | sketch.js:730-732 | the cursor search stops at a segment where the stop condition holds |
| Curve.BracketFromFirst | sketch.js:730-732 | no earlier segment satisfies the stop condition: the cursor stops at the first one |
| Curve.BracketHolds | sketch.js:730-733 | the target arc length lies within the segment the cursor stops at |
| Curve.SampleFromCursor | sketch.js:733-735 | the sample computed from the cursor is the interpolated point at arc length `s * step` |
| Curve.TDistBounds | sketch.js:726-729 | each target arc length lies between 0 and the total length |
| Curve.TDistGrows | sketch.js:729-732 | segments passed for one sample are passed for the next, so the cursor never moves back |
| Curve.ParamInUnit | sketch.js:733 | the interpolation parameter lies in [0, 1] |
| Curve.SampleInUnitSquare | sketch.js:734-735 | every sample of a stroke in the unit square is in the unit square |
| Curve.FirstSample | sketch.js:728-735 | the first sample is the first point of the stroke |
| Curve.LastSample | sketch.js:728-735 | the last sample is the last point of the stroke |
| Curve.SamplesShape | sketch.js:728-737 | the 64 samples start at the first point, end at the last, and stay in the unit square |
| Curve.TotalLength | sketch.js:721-725 | `total` is the sum of the segment lengths |
| Curve.AdvanceCursor | sketch.js:730-732 | the `while` loop moves the cursor to the first segment that brackets the target, with `acc` its start |
| Curve.WriteRightUnwritten | sketch.js:738-739 | a right-table entry no sample is wound onto keeps its old value |
| Curve.WriteRightLast | sketch.js:738-739 | an entry that several samples are wound onto holds `-y` of the last of them |
| Curve.WriteRightRatioOne | sketch.js:738-739 | at ratio 1 the right table is exactly the negated sample y's |
| Curve.WriteRightRatioTwo | sketch.js:738-739 | at ratio 2 the even entries hold the second half's negated y's and the odd entries keep their old values |
| Curve.Lo | sketch.js:757-764 | the minimum is a lower bound of the list |
| Curve.Hi | sketch.js:757-764 | the maximum is an upper bound of the list |
| Curve.LoHiAttained | sketch.js:757-764 | the minimum and the maximum are both values of the list |
| Curve.PointBounds | sketch.js:757-764 | the bounding-box loop computes the minimum and maximum x and y |
| Curve.FitSquareInUnitSquare | sketch.js:756-778 | the fitted stroke lies in the unit square |
| Curve.FitSquareFillsWidth | sketch.js:756-778 | a stroke wider than it is tall touches both -1 and +1 in x after fitting |
| Curve.NormalizeXYPoints | sketch.js:756-778 | the method returns the stroke centred and scaled into the unit square by its larger extent |
| Harmonics.ComputeSpectrum | sketch.js:353-374 | the DC slot is 0 and slot `k` holds the `k`-th DFT sums (cosine and negated sine) divided by 64 |
| Harmonics.ReSumScale | sketch.js:682-696 | scaling the table scales the real coefficients |
| Harmonics.ImSumScale | sketch.js:682-696 | scaling the table scales the imaginary coefficients |
| Harmonics.ReSumAdditive | sketch.js:682-696 | the real coefficients of a sum of tables are the sums of the coefficients |
| Harmonics.ImSumAdditive | sketch.js:682-696 | the imaginary coefficients of a sum of tables are the sums of the coefficients |
| Smoothing.WrapInRange | sketch.js:964-965 | one wrap brings any offset within one buffer length back into the buffer |
| Smoothing.SmoothWaveform | sketch.js:952-973 | entry `i` of the result is the mean of the `2 * floor(w / 2) + 1` entries centred on `i`, wrapping round the ends |
| Smoothing.WindowSumBounds | sketch.js:961-968 | a window sum of `m` entries lies between `m` times the lower and `m` times the upper bound |
| Smoothing.SmoothedBounds | sketch.js:952-973 | smoothing never leaves the range of its input |
| Smoothing.SmoothedConstant | sketch.js:952-973 | a constant signal is unchanged |
| Smoothing.SmoothedNarrow | sketch.js:955-970 | a window size of 0 or 1 is the identity |
| Trigger.ClassifySpec | sketch.js:805-818 | "synchronized" exactly when the ratio is within 0.01 of 1; "periodic" exactly when within 0.01 of another integer, which becomes `ratioInt`; otherwise "phase tracking" |
| Trigger.ClassifyNonZero | sketch.js:805-818 | for ratios of at least 0.01 in size the periodic period divisor is never 0 |
| Trigger.ClassifySliderRange | sketch.js:129 | within the ratio slider's range [0.1, 4] the periodic case only arises for 2, 3 and 4 |
| Trigger.SynchronizedTrigger | sketch.js:822-842 | the result is the first index of the smallest L/R gap among the rising edges, or 0 when there is none |
| Trigger.PeriodBounds | sketch.js:847 | for a positive ratio the period is the integer quotient of the buffer length, at most the length |
| Trigger.CorrelationAt | sketch.js:857-860 | the inner loop computes the correlation of a crossing with the point one period later |
| Trigger.PeriodicNonZeroIsCrossing | sketch.js:853-867 | a non-zero result is a rising crossing within the first period with the best correlation |
| Trigger.PeriodicInFirstPeriod | sketch.js:853-867 | the result always lies within the first period |
| Trigger.ScanCrossings | sketch.js:853-867 | the scan over the first period returns the periodic choice |
| Trigger.PeriodicTrigger | sketch.js:845-868 | `periodicTrigger` returns the best-correlated crossing of the first period, or 0 |
| Trigger.PeakIndex | sketch.js:882-885 | the peak index is the first index of the maximum |
| Trigger.FirstPeakUnique | sketch.js:882-885 | the first index of the maximum is unique |
| Trigger.FirstPeak | sketch.js:882-885 | the peak loop returns the first index of the maximum, 0 for an empty buffer |
| Trigger.RisingEdge | sketch.js:784-802 | the result is the first circular rising edge found walking back from the peak, or 0 when there is none |
| Trigger.NearestChoiceInBuffer | sketch.js:901-916 | a window that holds a crossing yields a valid rising-edge index |
| Trigger.NearestCrossing | sketch.js:901-916 | the window search returns the crossing nearest to the predicted index, or 0 |
| Trigger.LastN | sketch.js:890-893 | the bounded history keeps the last `cap` values, in order |
| Trigger.PushBoundedKeepsLast | sketch.js:890-893 | pushing and then dropping the oldest keeps exactly the last `cap` values of the whole sequence |
| Trigger.MeanBounds | sketch.js:896 | the mean of values in a range lies in that range |
| Trigger.EstimatePhase | sketch.js:878-887 | the phase estimate is the difference of the two peak indices over the buffer length, strictly inside (-1, 1) |
| Trigger.IndexDifferenceFraction | sketch.js:887 | the difference of two buffer indices over the length is strictly inside (-1, 1) |
| PhaseTracking.HistoryBounded | sketch.js:890-896 | the mean of the last ten estimates lies in [-1, 1] |
| PhaseTracking.PhaseTracker.constructor | sketch.js:871 | the history starts empty |
| PhaseTracking.PhaseTracker.PhaseTrackingTrigger | sketch.js:874-917 | the estimate is appended to the bounded history, whose mean stays in [-1, 1], and the result is the crossing nearest the predicted index |
| PhaseTracking.PhaseTracker.AdaptiveTrigger | sketch.js:805-819 | the ratio's classification picks the synchronized, periodic or phase-tracking trigger, and the result is that trigger's choice |
| DualOscillator.CentsRoundError | sketch.js:256 | rounding to two decimals moves a value by at most 0.005 |
| DualOscillator.SnapCandidateSpec | sketch.js:239-258 | a snapped request becomes its integer; any other request moves by at most 0.005; the result always has at most two decimals |
| DualOscillator.SnapKeepsSliderValue | sketch.js:256 | an unsnapped value already on the slider's 0.01 grid is kept exactly |
| DualOscillator.SnapExamples | sketch.js:239-258 | 0.97 and 2.04 snap to 1 and 2; 1.5 and 2.06 are kept |
| DualOscillator.SnapAtThreshold | sketch.js:245 | in exact arithmetic the slider positions 0.95, 1.05 and 1.95 lie exactly at the snap threshold and snap to 1, 1 and 2 |
| DualOscillator.CentsApart | sketch.js:264 | on the two-decimal grid the 0.001 tolerances are plain (in)equality |
| DualOscillator.Oscillators.constructor | sketch.js:7-8 | the oscillators start at 440 Hz with ratio 1 |
| DualOscillator.Oscillators.SetBaseFreq | sketch.js:230-234 | the left oscillator plays the new base and the right one base times ratio |
| DualOscillator.Oscillators.ResetPhases | sketch.js:276-284 | both phases are reset once |
| DualOscillator.Oscillators.SetRatio | sketch.js:237-273 | the ratio becomes the snap candidate, the right oscillator follows, phases reset exactly on a change to 1, and a snapped request moves the slider onto the integer |
| DualOscillator.Oscillators.ApplyRatio | sketch.js:263-272 | a different ratio is taken over by the right oscillator, with a phase reset exactly when it becomes 1 |
| DualOscillator.Oscillators.SyncPhases | sketch.js:298-305 | the phases are reset exactly when the ratio is 1 |
| DualOscillator.Oscillators.PhaseCheckTick | sketch.js:217-221 | the frame counter grows; from the 30th frame at ratio 1 the phases are reset and the count restarts |
| Keyboard.KeyToMidiTable | sketch.js:922-929 | each of the twelve key characters maps to its MIDI note, 60 to 71 |
| Keyboard.MidiKeysConsecutive | sketch.js:33 | the twelve keyboard notes are 60 + i |
| Keyboard.IndexOf | sketch.js:931 | `indexOf` returns the first position of the value, or -1 exactly when it is absent |
| Keyboard.Remove | sketch.js:541 | the result holds exactly the other notes and never the removed one; it is no longer than the input and equals it when the note is absent |
| Keyboard.RemoveNoDups | sketch.js:989 | filtering a duplicate-free list keeps it duplicate-free and drops the note |
| Keyboard.PushNoDups | sketch.js:458 | pushing a note that is not held keeps the list duplicate-free |
| Keyboard.SyncKeySpec | sketch.js:979-993 | one key of the poll adds its note when down, removes it when up, and changes nothing when the state agrees |
| Keyboard.SyncUpToSpec | sketch.js:975-995 | after the first `k` keys, a visited key's note is held exactly when its key is down and an unvisited key's note exactly when it was held; only keyboard notes are held, none twice; nothing changes when every visited key already agreed |
| Keyboard.SyncNotesExact | sketch.js:975-995 | after the poll exactly the notes of the keys that are down are held |
| Keyboard.SyncDropsMouseNote | sketch.js:452-461 | whatever is held, the note of key `i` is gone after the next poll (sketch.js:223, 975-995) whenever computer key `i` is up, so an on-screen key that was pressed loses its note at the next frame |
| Keyboard.SyncAllUpEmpties | sketch.js:975-995 | with no computer key down, one poll empties the held notes, whatever was held before |
| Keyboard.AnyChangedSpec | sketch.js:975-995 | the arpeggiator restarts exactly when some key's held state changed |
| Keyboard.SyncLightsSpec | sketch.js:975-995 | a key is relit to its state exactly when its held state changed; other lights keep their state |
| Keyboard.Keyboard.constructor | sketch.js:22-54 | the initial globals: nothing is held and no key is lit (lines 33-36), the octave is 0 (line 22), no note was played (line 48) and no on-screen key is pressed (line 54) |
| Keyboard.Keyboard.PressUIKey | sketch.js:452-464 | pressing an unlit on-screen key lights it, adds its note once and restarts the arpeggiator; a lit key only records the mouse key |
| Keyboard.Keyboard.ReleaseMouseKey | sketch.js:537-545 | releasing the lit mouse key darkens it, removes its note and restarts the arpeggiator; otherwise only the mouse key is forgotten |
| Keyboard.Keyboard.SyncKeyboardNotes | sketch.js:975-995 | afterwards exactly the down keys' notes are held, changed keys are relit to their state, and any change restarts the arpeggiator |
| Keyboard.Keyboard.SyncOneKey | sketch.js:976-993 | one iteration of the poll loop for key `i` |
| Keyboard.Keyboard.SetUIKey | sketch.js:930-933 | the key of a keyboard note is lit or darkened; other notes change nothing |
| Keyboard.Keyboard.NoteOn | sketch.js:307-313 | the base frequency becomes the octave-shifted note, and the unshifted note is remembered |
| Keyboard.Keyboard.ArpStep | sketch.js:207-214 | on a due step with notes held, the note at the index is played and the index advances round the held notes; otherwise nothing changes |
| Keyboard.Keyboard.ChangeOctave | sketch.js:316-330 | the octave moves within [-3, 3] and the last note is replayed in the new octave |
| Keyboard.Keyboard.FreqSliderMoved | sketch.js:160-165 | the base frequency follows the slider and the last played note is forgotten |

## Left out

- Drawing and the DOM: `draw()`'s rendering, `drawXY`, the Y-T circles, the sliders, the buttons and their styling are not modelled. Only the state changes that `draw()` makes are modelled: the frequency, ratio and glitch slider branches, the arpeggiator, the phase check and the keyboard poll.
- Web Audio: `createPeriodicWave` and `setPeriodicWave` are modelled on control state only. `playingL` / `playingR` record the table each oscillator was last given, and the DFT is `Harmonics.ComputeSpectrum`. `osc.phase(0)` is a ghost counter, `phaseResets`.
- Float32 arithmetic: tables and buffers are sequences of mathematical reals, so Float32 rounding is not modelled.
- DualOscillator.Oscillators.SetRatio: the snap test `Math.abs(r - Math.round(r)) <= snapThreshold` (sketch.js:245) is decided in exact reals, and the slider positions 0.95, 1.05 and 1.95 lie exactly at the threshold. In double precision their distance to the integer is 0.050000000000000044, so the sketch keeps the ratio at 0.95, 1.05 or 1.95, leaves the slider alone and resets no phases. The model snaps them to 1, 1 and 2 and writes the slider back (`SnapAtThreshold`); for 0.95 and 1.05 it also counts a phase reset when the ratio was not already 1.
- `Math.sin`, `Math.cos` and `midiToFreq` are function parameters. `dist` is replaced by the segment lengths `seg`, which are related to the points by `Distances`.
- `freqToSlider` / `sliderToFreq`: these are logarithm and exponential maps used only for the slider display. They are left out.
- Time: the arpeggiator's `millis()` test becomes the boolean `stepDue`.
- `keyPressed` dispatch: the dispatch by key, the button hit tests of `mousePressed` and the on-screen key hit test are left out. Their handlers are modelled, and take the key or index that was hit.
- `prevRatioSlider` / `prevFreqSlider`: these are change detection for slider polling. The handlers they guard are modelled.
- `smoothTable` and `restoreWaveforms` are never called by the sketch and are not modelled.
- `drawXY`'s time-offset mode is display code and is not modelled.
- Wavetable.WaveStore.UpdateTablesFromXY: requires positive segment lengths. The code divides by `seg[idx - 1]` without a guard, so a stroke with two equal consecutive points gives NaN there. That case is not modelled.
- Wavetable.WaveStore.SetGlitchSteps: requires 4 to 64 steps, the glitch slider's range.
- Trigger.PeriodicTrigger: requires `ratioInt != 0`. At ratio 0 `periodicTrigger` divides by zero and its loop never ends. PhaseTracking.PhaseTracker.AdaptiveTrigger therefore requires a ratio of at least 0.01 in size; the slider's range guarantees this.
- Smoothing.SmoothWaveform: for a non-empty buffer, requires `windowSize / 2` to be at most the buffer length. With a wider window a single wrap leaves the index outside the buffer, and JavaScript reads `undefined`. An empty buffer is allowed with any window; the result is then empty.
- Wavetable.WaveStore.PadDrag: on a leftward drag it writes the corrected `PadLine`, whereas sketch.js:502-511 writes the mirrored `PadLineAsWritten`. The sketch's table is `DragTableAsWritten`, stated by `DragTableAsWrittenSpec`. The two agree on every other drag (`DragTableAgreesRightward`).
- Wavetable.FillPadLine: on a leftward drag it writes the corrected `PadLine` where sketch.js:502-511 writes the mirrored `PadLineAsWritten`; it equals the sketch's loop on a rightward drag.
- Wavetable.DragTableSpec: its endpoint clause describes the corrected drag step. On a leftward drag sketch.js:502-511 puts the previous height at the new index and the new height at the remembered index; `DragTableAsWrittenSpec` states that.
- Curve.NormalizeXYPoints and Trigger.RisingEdge model `normalizeXYPoints` and `risingEdge`, which the sketch defines but never calls.

## Findings

| source | as written | input that shows it | evidently intended | confidence | as-written member | corrected member |
|---|---|---|---|---|---|---|
| sketch.js:502-511 | after swapping `from` and `to`, the pad line still interpolates from `prevPadY` at the smaller index, so a leftward drag draws the line mirrored | previous point index 10 at the pad's top edge, drag to index 5 at its bottom edge: entry 5 gets +1.0 and entry 10 gets -1.0 | the previous point's value at the previous index and the new value at the new index (entry 5 = -1.0, entry 10 = +1.0) | high, not executed | PadEdit.PadLineAsWrittenMirrored | PadEdit.PadLineEndpoints |
