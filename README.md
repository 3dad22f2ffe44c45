# Condenser leakage lab: a Dafny model

The system is an interactive physics lab page for the classic experiment
that finds a high resistance from how fast a condenser leaks through it.
The circuit has a battery, a condenser (1 uF) and the unknown resistance
(5 megaohms), plus two keys:

- Closing K1 charges the condenser towards the battery's 100 units.
- Closing K2 with K1 open lets the charge leak through the resistance.

A galvanometer shows the condenser's voltage as a needle over a
120 degree dial. The student times the leakage with a stopwatch (100 ms
ticks, shown as `MM:SS.d`) and records readings into an observation table.
Pressing "Calc" on a row stores the resistance that the leakage law gives
for it: R = t / (C · ln(θ0 / θt)). The bench is viewed through an orbit
camera: dragging turns it, with the pitch clamped, and the wheel zooms
within limits.

The model has one Dafny module per part of the page:

- `Types` (types.dfy): the records of the circuit state, a table row and a
  chat bubble.
- `Numeric` (numeric.dfy): `Math.max`, `Math.min`, the min/max clamp, and
  `parseFloat(x.toFixed(d))` over exact reals.
- `Physics` (physics.dfy): the per-frame circuit update and the key
  switches, with lemmas about charging, leaking and holding. It also covers
  sequences of frames.
- `Ledger` (ledger.dfy): the observation table. It covers recording,
  deleting by id, the resistance formula and the three-way outcome of
  "Calc".
- `Camera` (camera.dfy): the drag and wheel clamps.
- `App` (app.dfy): the page as a class `Lab`, whose fields are the page's
  state. It has one method per handler; each method may change only the
  fields its `modifies` clause names and keeps the invariant `Valid()`.
- `Stopwatch` (stopwatch.dfy): the watch as a class `Watch` (tick, toggle,
  reset, the seconds reported to the page), and `formatTime`. The display
  is proved to read back, with a parser of `MM:SS.d`, as the time
  truncated to the tenth.
- `Galvanometer` (galvanometer.dfy): the needle's clamp-and-scale, and the
  eleven ticks with numbers on the even ones.

`Math.exp` and `Math.log` are not modelled. The physics step and the
calculation take them as function parameters, and the lemmas assume only
these two facts:

- `IsDecay`: `exp(x)` lies in (0, 1] for `x <= 0`.
- `LogPositive`: `ln(x) > 0` for `x > 1`.

The clock (`Date.now()`), the animation-frame scheduler and the stopwatch's
interval timer are also not modelled. The frame length `dt`, the id of a
new reading and the stopwatch's seconds are parameters instead.

Some of the code's behaviour is easy to miss; the model follows the code:

- The code does not clamp `dt`. A negative `dt` moves `simTime` back, and
  nothing keeps a charging step at or below the battery voltage for long
  frames (see `Physics.ChargeOvershoot`).
- A new reading takes its θ0 from the constant `BATTERY_VOLTAGE`, not from
  the state. It stores the time rounded to 2 decimals and the voltage
  rounded to 1 decimal, not the raw values.
- The calculation uses the constant `CAPACITANCE_UF`. It stores only the
  rounded resistance.
- Ids are timestamps and are not guaranteed unique, so deleting and "Calc"
  act on every row that carries the id.
- The galvanometer's comment speaks of −45°..45°, but the code sweeps
  −60°..60°. The model sweeps −60°..60°.

## Model

| member | source | states |
|---|---|---|
| Numeric.Max | App.tsx:78 | `Math.max` is at least both arguments and is one of them |
| Numeric.Min | App.tsx:172 | `Math.min` is at most both arguments and is one of them |
| Numeric.Clamp | App.tsx:172 | `min(max(x, lo), hi)` lies in [lo, hi]; it is x inside the range, lo below it and hi above it |
| Numeric.ClampMonotone | App.tsx:183 | the clamp never reorders two inputs |
| Numeric.ClampIdempotent | App.tsx:183 | clamping an already clamped value changes nothing |
| Numeric.ToFixed | App.tsx:111 | `parseFloat(x.toFixed(d))` is within half a unit of the d-th decimal of x and keeps x's sign; below 1e21 it has at most d decimals (`OnGrid`) |
| Numeric.ToFixedMagnitude | App.tsx:111 | below 1e21 the result is the half-up rounding of the magnitude with the sign put back |
| Numeric.ToFixedNearest | App.tsx:111 | below 1e21 no number with at most d decimals is closer to x |
| Numeric.RoundHalfUp | App.tsx:113 | the magnitude rounding is a non-negative whole number of steps of 1/scale, within half a step of its input |
| Numeric.RoundHalfUpTie | App.tsx:113 | on a tie the rounding goes up, so `toFixed` rounds ties away from zero |
| Numeric.RoundHalfUpNearest | App.tsx:113 | no whole number of steps of 1/scale is closer to the input than its rounding |
| Numeric.ToFixedOnGrid | App.tsx:111 | a number of either sign that already has at most d decimals comes back unchanged |
| Numeric.ToFixedOnGridNeg | App.tsx:111 | a negative number with at most d decimals comes back unchanged, its sign included |
| Physics.Rc | App.tsx:71 | the leak path's time constant R·C is positive when both constants are |
| Physics.NextVoltage | App.tsx:62-74 | before the clamp, charging shrinks the gap to the battery voltage by the factor 1 − 15·dt |
| Physics.Step | App.tsx:61-81 | one frame leaves the voltage non-negative and advances the clock by exactly dt; keys and constants are unchanged |
| Physics.ChargeIgnoresK2 | App.tsx:62-68 | with K1 closed the position of K2 makes no difference, and the charging formula clamped at 0 is used |
| Physics.HoldWhenOpen | App.tsx:62-79 | with both keys open a non-negative voltage is kept exactly; only the clock moves |
| Physics.ChargeBound | App.tsx:65-68 | charging from [0, max] with 15·dt <= 1 never lowers the voltage and never passes the battery voltage |
| Physics.ChargeOvershoot | App.tsx:67-68 | nothing bounds dt: a one-second frame charging from 0 gives 1500, above the battery's 100 |
| Physics.DecayFactor | App.tsx:71-72 | the leak factor exp(−dt/RC) of a non-negative frame lies in (0, 1] |
| Physics.LeakFormula | App.tsx:69-74 | with K1 open and K2 closed the voltage is multiplied by exp(−dt/RC), and the clamp at 0 never bites |
| Physics.LeakBound | App.tsx:69-74 | leaking over dt >= 0 with RC > 0 gives a voltage between 0 and the old voltage |
| Physics.Run | App.tsx:56-91 | a sequence of frames keeps keys and constants, advances the clock by their total, and leaves a non-negative voltage |
| Physics.RunHoldsWhenOpen | App.tsx:56-91 | with both keys open no sequence of frames changes a non-negative voltage |
| Physics.RunLeakNonIncreasing | App.tsx:56-91 | while leaking the voltage never rises over any sequence of non-negative frames and stays >= 0 |
| Physics.RunChargeBounded | App.tsx:56-91 | while charging with short frames the voltage only rises and stays at most the battery voltage |
| Physics.ToggleK1 | App.tsx:98-102 | K1 is negated and every other field is unchanged |
| Physics.ToggleK2 | App.tsx:104-106 | K2 is negated and every other field is unchanged |
| Physics.ToggleTwice | App.tsx:98-106 | pressing a key twice restores the circuit |
| Physics.Reset | App.tsx:140-146 | both keys open and the condenser empty; battery, capacitance, resistance and clock kept |
| Physics.ResetThenRun | App.tsx:140-146 | after a reset the condenser stays at 0 over any frames until a key is pressed |
| Ledger.NewReading | App.tsx:109-114 | the new row has the given id, θ0 = 100 and no resistance; its time is within 0.005 s of the stopwatch and θt within 0.05 of the voltage; below 1e21 the time has at most two decimals and θt at most one; θt is non-negative for a non-negative voltage |
| Ledger.RecordedTimeExact | App.tsx:111 | a stopwatch time in whole tenths is recorded without loss |
| Ledger.Record | App.tsx:115 | the row is appended at the end and the earlier rows are untouched |
| Ledger.Delete | App.tsx:122-124 | exactly the rows with another id remain; with the id absent the table is unchanged |
| Ledger.DeleteAppend | App.tsx:123 | the filter works row by row, so the remaining rows keep their order |
| Ledger.DeleteSingle | App.tsx:123 | a single row is removed exactly when it carries the id |
| Ledger.DeleteLength | App.tsx:123 | the table shrinks by exactly the number of rows carrying the id |
| Ledger.DeleteIdempotent | App.tsx:123 | deleting an id twice is deleting it once |
| Ledger.DeleteUniqueAt | App.tsx:122-124 | with unique ids, deleting row k's id removes row k and nothing else |
| Ledger.RecordThenDelete | App.tsx:115-123 | recording a row with a fresh id and then deleting that id gives the table back |
| Ledger.SetR | App.tsx:135-137 | every row with the id gets the value as its resistance, other rows are unchanged, the length is kept |
| Ledger.SetRIdempotent | App.tsx:135-137 | storing the same resistance twice is storing it once |
| Ledger.ResistanceOf | App.tsx:131-134 | R times C·ln(θ0/θt) is the time; R is positive for a positive time and 0 for a zero time |
| Ledger.CalculateR | App.tsx:126-138 | refused exactly when θt <= 0.1 or θ0 <= 0; put off exactly when the ratio is <= 1.001; otherwise only rows with the id get R, within 0.005 of the formula and, below 1e21, with at most two decimals |
| Ledger.CalculateRTwice | App.tsx:126-138 | pressing "Calc" again on the same row changes nothing more |
| Ledger.HalvingExample | App.tsx:126-138 | 10 s from 100 to 50 stores ToFixed(10/ln 2, 2) on that row |
| Ledger.TooSmallExample | App.tsx:127-129 | a final deflection of 0.05 is refused |
| Ledger.NoLeakageExample | App.tsx:131-132 | a fall from 100 to 99.95 (ratio about 1.0005) is put off |
| Camera.DefaultInRange | App.tsx:48 | the opening view lies inside the pitch and zoom limits |
| Camera.Orbit | App.tsx:161-174 | after a drag the pitch is in [−10, 85] and follows the drag inside the range; yaw moves freely by half the horizontal drag; zoom unchanged |
| Camera.OrbitPitchMonotone | App.tsx:172 | dragging further down never tilts the camera further up |
| Camera.Zoom | App.tsx:180-185 | after a wheel event the zoom is in [0.4, 2.5] and follows the wheel inside the range; pitch and yaw unchanged |
| Camera.ZoomMonotone | App.tsx:183 | scrolling further never zooms in further |
| App.Lab.constructor | App.tsx:24-50 | the page opens with the initial circuit, an empty table, the welcome bubble and the default view |
| App.Lab.UpdatePhysics | App.tsx:56-84 | the circuit becomes `Step` of the old circuit; nothing else on the page changes |
| App.Lab.ToggleK1 | App.tsx:98-102 | the circuit becomes the K1-toggled circuit; nothing else changes |
| App.Lab.ToggleK2 | App.tsx:104-106 | the circuit becomes the K2-toggled circuit; nothing else changes |
| App.Lab.OnTimeUpdate | App.tsx:36 | the page keeps the seconds the stopwatch last reported |
| App.Lab.RecordReading | App.tsx:108-120 | the new row goes at the end; the tip is added to the chat only the first time |
| App.Lab.DeleteReading | App.tsx:122-124 | the table becomes `Delete` of the old table |
| App.Lab.CalculateR | App.tsx:126-138 | the table changes only when the calculation goes through, and then to its result |
| App.Lab.ResetExperiment | App.tsx:140-149 | the circuit is reset, the table emptied and the reset note appended to the chat |
| App.Lab.ResetView | App.tsx:151-153 | the view is the default again |
| App.Lab.MouseDown | App.tsx:156-159 | a drag starts at the pointer's position |
| App.Lab.MouseMove | App.tsx:161-174 | outside a drag nothing changes; during one the view is orbited by the pointer's movement and the position updated |
| App.Lab.MouseUp | App.tsx:176-178 | the drag ends |
| App.Lab.Wheel | App.tsx:180-185 | the view becomes `Zoom` of the old view |
| App.Session | App.tsx:98-124 | one scripted session through the handlers (K1 closed, one 0.05 s frame that charges to 75, K1 opened and K2 closed, one 0.05 s leak frame, a reading recorded and deleted) ends with the voltage between 0 and 75 |
| Stopwatch.Watch.constructor | components/Stopwatch.tsx:9-10 | the watch starts stopped at 0 |
| Stopwatch.Watch.Tick | components/Stopwatch.tsx:14-20 | a tick adds exactly 100 ms while running and nothing while paused; the time stays a multiple of 100 |
| Stopwatch.Watch.Toggle | components/Stopwatch.tsx:31 | running is negated and the time is kept |
| Stopwatch.Watch.Reset | components/Stopwatch.tsx:32-35 | from any state, the watch is stopped at 0 |
| Stopwatch.Watch.Seconds | components/Stopwatch.tsx:27-29 | the reported value is the time in seconds and is non-negative |
| Stopwatch.Watch.SecondsInTenths | components/Stopwatch.tsx:27-29 | the reported seconds are always a whole number of tenths |
| Stopwatch.Watch.Display | components/Stopwatch.tsx:51 | the display reads back as the watch's time |
| Stopwatch.NatToString | components/Stopwatch.tsx:42 | `toString` of a whole number is a non-empty digit string, one digit below 10 and at most two below 100, starting with '0' only for 0 |
| Stopwatch.ParseNatToString | components/Stopwatch.tsx:42 | a printed number reads back as itself |
| Stopwatch.PadStart | components/Stopwatch.tsx:42 | `padStart` gives the width, or the string's own length when it is longer |
| Stopwatch.PadStartShape | components/Stopwatch.tsx:42 | the padded string ends with the original and is fill in front of it |
| Stopwatch.ParsePadded | components/Stopwatch.tsx:42 | a printed, zero-padded number is all digits and reads back as itself |
| Stopwatch.Minutes | components/Stopwatch.tsx:38-39 | the whole minutes m satisfy m·60000 <= ms < (m + 1)·60000 |
| Stopwatch.RemainingSeconds | components/Stopwatch.tsx:38-40 | the seconds past the minute are below 60 and complete the minutes to the whole seconds |
| Stopwatch.Tenths | components/Stopwatch.tsx:41 | the tenths are a single digit d with d·100 <= ms mod 1000 < d·100 + 100 |
| Stopwatch.FormatTime | components/Stopwatch.tsx:37-43 | for any time the display ends in `:SS.d` after at least two minute digits, and starts with '0' exactly when under 10 minutes |
| Stopwatch.FormatFields | components/Stopwatch.tsx:37-41 | minutes·60000 + seconds·1000 + tenths·100 = ms − ms mod 100, with seconds <= 59 and tenths <= 9 |
| Stopwatch.FormatTimeLayout | components/Stopwatch.tsx:42 | the display is the padded minutes, ':', the two second digits, '.', and the tenths digit |
| Stopwatch.FormatTimeRoundTrip | components/Stopwatch.tsx:37-43 | the display reads back as the time truncated to the tenth |
| Stopwatch.FormatTimeShape | components/Stopwatch.tsx:37-43 | under 100 minutes the display has seven characters, with ':' at index 2 and '.' at index 5 |
| Stopwatch.FormatTimeExample | components/Stopwatch.tsx:37-43 | 61500 ms is shown as `01:01.5` |
| Galvanometer.Normalized | components/Galvanometer.tsx:10 | the fraction of full scale lies in [0, 1]; it is the quotient inside that range, 0 below it and 1 above it |
| Galvanometer.NeedleAngle | components/Galvanometer.tsx:10-11 | the needle's angle lies in [−60, 60] |
| Galvanometer.NeedleEnds | components/Galvanometer.tsx:10-11 | on a positive scale the angle is −60 at or below 0 and 60 at or above full scale |
| Galvanometer.NeedleMonotone | components/Galvanometer.tsx:10-11 | a higher value never moves the needle back |
| Galvanometer.NeedleReadBack | components/Galvanometer.tsx:10-11 | within the scale the angle determines the value |
| Galvanometer.TickAt | components/Galvanometer.tsx:21-36 | each of the eleven ticks lies on the needle's sweep, and a number is turned back by its tick's angle |
| Galvanometer.Ticks | components/Galvanometer.tsx:21 | there are eleven ticks |
| Galvanometer.TicksShape | components/Galvanometer.tsx:21-36 | ticks run from −60 to 60 in steps of 12; numbers appear exactly on even ticks, read i·10 and are turned upright |
| Galvanometer.LabelTexts | components/Galvanometer.tsx:30-36 | the numbers are multiples of 20 from 0 to 100 |

## Left out

- The chat with the assistant (`handleChatSubmit`, App.tsx:187 onwards, and services/geminiService.ts): an asynchronous network call through a foreign SDK. The model keeps the chat history only for the messages the modelled handlers append.
- Rendering: the JSX, CSS transforms, SVG wires and components/CircuitComponents.tsx. This includes the rule that the "Calc" button appears only while a row has no resistance or a resistance of 0 (App.tsx:401-409); `App.Lab.CalculateR` may be called on any row.
- Scheduling and the clock: `requestAnimationFrame`, `setInterval`/`clearInterval`, effect clean-up and `Date.now()`. Frame lengths, ids and reported seconds are parameters, and `Physics.Run` stands for a sequence of frames. The effect that forwards the stopwatch's time to the page is `App.Lab.OnTimeUpdate` taking the seconds.
- Floating point: numbers are exact reals. `toFixed` is modelled as exact decimal rounding, half up on the magnitude, so a binary double such as 1.005, which `toFixed` rounds down, is not reproduced. Overflow, NaN and Infinity are not modelled.
- `Math.exp` and `Math.log`: parameters constrained only by `IsDecay` and `LogPositive`.
- Physics.Step: requires RC ≠ 0 on the leak branch. With RC = 0 the code would give 0 for dt > 0, since exp(−∞) = 0. It would give NaN for dt = 0, or for dt < 0 with an empty condenser, and Infinity for dt < 0 otherwise. Reals have no NaN or Infinity; the code's constants give RC = 5.
- Physics.ChargeBound: holds only for frames with 15·dt <= 1. The code has no such guard, and `Physics.ChargeOvershoot` shows the overshoot.
- Galvanometer.Normalized: requires a non-zero full scale. With a zero scale the code would pin the needle at full scale for a positive value and at zero for a negative one, and give NaN for a zero value. The page always passes 100 (App.tsx:316).
- `alert` in `calculateR` (App.tsx:128): modelled as the `Invalid` outcome with the table unchanged; the dialog itself is I/O.
- The chat input text, the typing flag and the scroll effect: these belong to the chat and rendering.
