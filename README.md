# Visual metronome — verified model

This project models the logic of a small visual metronome written in
React/TypeScript. The page (`App.tsx`) holds the settings the user edits
(time signature, tempo, volume, play/stop, export mode) and passes them to
the visualizer (`components/Visualizer.tsx`). The visualizer derives a beat
count from the time-signature text, builds one vertex per beat (a line for
two beats, a polygon otherwise), and runs an interval timer that advances
the current beat and plays an accent click on beat 1 and a regular click on
every other beat.

Modules:

- `Wrappers` (`wrappers.dfy`): `Option`. `None` stands for NaN and for `undefined`.
- `EcmaScript` (`ecmascript.dfy`): the two built-ins the code relies on.
  - `String.prototype.split` with a one-character separator.
  - `parseInt(s, 10)` as in section 19.2.5 of ECMA-262: skip leading
    StrWhiteSpaceChar, take an optional sign, then the longest run of
    decimal digits; no digits gives NaN.
  - Decimal rendering of integers, used as the inverse of `parseInt`.
  - `IsNumericPrefix` is a reference description of what `parseInt`
    accepts. Lemmas prove that `ParseInt` agrees with it in both directions.
- `Visualizer` (`visualizer.dfy`):
  - the beat count;
  - the vertex list, both as a function and as the source's push loop;
  - the render decisions: outline, vertex markers, highlighted vertex;
  - the play/tick effect as the class `Scheduler`. `timerArmed` stands for
    the interval handle. The ghost `liveTimers` counts the intervals still
    registered with the host. The ghost `ticks` and `cues` record the ticks
    since arming and every cue emitted.
- `App` (`app.dfy`):
  - `ControlPanel`, the page's state and its handlers;
  - `NextBpm`, the tempo-field rule;
  - `Metronome`, the page and its visualizer together: every handler is
    followed by a render that passes the settings down.
- `Scenarios` (`scenarios.dfy`): particular time signatures.

The tempo field's rule: a number that parses as positive becomes the
tempo, an empty field gives 0, and any other text (not a number, `0`, or a
negative number) leaves the tempo as it was.

## Model

| member | source | states |
|---|---|---|
| EcmaScript.Split | components/Visualizer.tsx:32 | `split('/')` always yields at least one piece, so `parts[0]` exists |
| EcmaScript.SplitJoin | components/Visualizer.tsx:32 | the pieces of a split joined with the separator give back the original text |
| EcmaScript.SplitPiecesFree | components/Visualizer.tsx:32 | no piece of a split contains the separator |
| EcmaScript.SplitHead | components/Visualizer.tsx:32 | the first piece is exactly the text before the first separator (all of it when there is none) |
| EcmaScript.TrimStart | components/Visualizer.tsx:33 | trimming never lengthens the text |
| EcmaScript.DigitRun | components/Visualizer.tsx:33 | the digit run taken by parseInt is never longer than the text it is read from (its exact shape is stated by DigitRunSpec) |
| EcmaScript.AfterSign | components/Visualizer.tsx:33 | parseInt drops at most one leading character, and only a `+` or `-` sign |
| EcmaScript.TrimStartSpec | components/Visualizer.tsx:33 | parseInt removes a prefix made only of white space and stops at the first non-white-space character |
| EcmaScript.DigitRunSpec | components/Visualizer.tsx:33 | parseInt takes a digits-only prefix that is followed by a non-digit, if by anything |
| EcmaScript.TrimStartUnique | components/Visualizer.tsx:33 | white space followed by a non-white-space character is trimmed to exactly that character onward |
| EcmaScript.DigitRunUnique | components/Visualizer.tsx:33 | digits followed by a non-digit give exactly those digits as the digit run |
| EcmaScript.ParseInt | components/Visualizer.tsx:33 | `parseInt(text, 10)`, with None for NaN: white space skipped, optional sign, longest digit run; its meaning is fixed by the three lemmas ParseIntComplete, ParseIntSound and ParseIntNaN |
| EcmaScript.ParseIntComplete | components/Visualizer.tsx:33 | any reading as white space, sign, digits and a non-digit rest makes parseInt return the signed value of those digits |
| EcmaScript.ReadingOfParse | components/Visualizer.tsx:33 | when parseInt returns a number, it gives a reading of the text whose signed value is that number |
| EcmaScript.ParseIntSound | components/Visualizer.tsx:33 | a number from parseInt always comes from such a reading of the text |
| EcmaScript.ParseIntNaN | components/Visualizer.tsx:35 | parseInt gives NaN exactly when the text has no such reading |
| EcmaScript.DigitsValueOfDecimal | App.tsx:16 | the digits of a natural number's decimal text have that number as their value |
| EcmaScript.ParseIntOfIntToString | App.tsx:16 | parseInt of the decimal text of any integer gives back that integer |
| Visualizer.BeatCount | components/Visualizer.tsx:31-36 | the beat count is at least 2 for every time-signature text |
| Visualizer.BeatCountIgnoresDenominator | components/Visualizer.tsx:32-33 | only the text before the first `/` matters: any denominator, or none, gives the same beat count |
| Visualizer.BeatCountOfNumber | components/Visualizer.tsx:33-35 | a numerator that reads as a number gives that number when it is at least 2, and 4 otherwise |
| Visualizer.BeatCountOfNaN | components/Visualizer.tsx:35 | a numerator that is not a number gives 4 |
| Scenarios.BeatCountOfCommonTime | components/Visualizer.tsx:31-36 | "4/4" gives 4 beats |
| Scenarios.BeatCountOfSevenEight | components/Visualizer.tsx:31-36 | "7/8" gives 7 beats |
| Scenarios.BeatCountOfTwelveEight | components/Visualizer.tsx:31-36 | " 12/8" gives 12 beats (white space skipped, several digits read) |
| Scenarios.BeatCountOfEmpty | components/Visualizer.tsx:31-36 | "" gives 4 beats |
| Scenarios.BeatCountOfOneFour | components/Visualizer.tsx:31-36 | "1/4" gives 4 beats |
| Scenarios.BeatCountOfNegative | components/Visualizer.tsx:31-36 | "-3/4" gives 4 beats |
| Scenarios.FirstMeasureOfCommonTime | components/Visualizer.tsx:71-88 | in four-four time, one measure after arming the scheduler has emitted Accent, Regular, Regular, Regular, Accent |
| Visualizer.Vertices | components/Visualizer.tsx:38-62 | one vertex per beat (none below 2); two beats give exactly (100, 200) and (300, 200) |
| Visualizer.VerticesOnCircle | components/Visualizer.tsx:52-59 | above 2 beats every vertex is on the radius-150 circle about (200, 200), vertex 0 at the top, and the vertices go round once, clockwise, in beat order |
| Visualizer.Points | components/Visualizer.tsx:39-61 | the push loop builds exactly the vertex list |
| Visualizer.OutlineOf | components/Visualizer.tsx:117-131 | a polygon exactly above 2 beats; a line exactly for 2 beats with 2 vertices |
| Visualizer.OutlineOfTimeSignature | components/Visualizer.tsx:117-131 | for every time signature an outline is drawn: a line exactly when the beat count is 2, a polygon otherwise |
| Visualizer.VertexMarkers | components/Visualizer.tsx:134-142 | one marker per vertex, and only vertex 0 gets the downbeat marker |
| Visualizer.PointAt | components/Visualizer.tsx:97 | `points[currentBeat - 1]` is defined exactly when `currentBeat` is between 1 and the number of vertices, and is then that vertex |
| Visualizer.Highlight | components/Visualizer.tsx:145 | the glowing marker is drawn exactly when playing and the beat names a vertex, and it is at vertex `currentBeat - 1` |
| Visualizer.HighlightFollowsTimer | components/Visualizer.tsx:97-145 | in every reachable scheduler state the glowing marker is drawn exactly while the interval is armed, at the current beat's vertex |
| Visualizer.Runs | components/Visualizer.tsx:65 | the effect arms a timer exactly when playing, with a positive tempo and at least 2 beats |
| Visualizer.JsRemainder | components/Visualizer.tsx:78 | JavaScript's `%` is non-negative and below the divisor for a non-negative dividend |
| Visualizer.JsRemainderOfNatural | components/Visualizer.tsx:78 | for a non-negative dividend and positive divisor, JavaScript's `%` equals Euclidean `%` |
| Visualizer.NextBeat | components/Visualizer.tsx:78 | from any non-negative beat, the next beat is between 1 and the beat count |
| Visualizer.NextBeatAdvances | components/Visualizer.tsx:78 | a tick moves to the next beat, and wraps from the last beat (or from 0) to beat 1 |
| Visualizer.BeatAfterTicks | components/Visualizer.tsx:76-88 | after any number of ticks from beat 1 the beat stays between 1 and the beat count |
| Visualizer.BeatAfterTicksCycles | components/Visualizer.tsx:78 | from beat 1, n ticks give beat `n % beats + 1`, so the beats run 1, 2, …, beats, 1, … |
| Visualizer.CueFor | components/Visualizer.tsx:79-85 | the click on arriving at a beat is the Accent exactly on beat 1 |
| Visualizer.CueRun | components/Visualizer.tsx:71-85 | a timer run after n ticks has emitted n + 1 clicks, the first being the Accent played on arming |
| Visualizer.CueRunStep | components/Visualizer.tsx:76-88 | each tick appends exactly the click of the beat it arrives at to the run |
| Visualizer.CueRunAccents | components/Visualizer.tsx:79-85 | within a timer run, cue k is an Accent exactly when k is a whole number of measures |
| Visualizer.FirstMeasureCues | components/Visualizer.tsx:71-85 | one measure after arming: an Accent, then beats − 1 Regular cues, then the next measure's Accent |
| Visualizer.Scheduler.constructor | components/Visualizer.tsx:21 | on mount the beat is 0 and the effect runs once: it plays beat 1 with an Accent if playback can run, otherwise it stays at 0 with no cue |
| Visualizer.Scheduler.Sync | components/Visualizer.tsx:64-93 | the old interval is cleared first; when inactive the beat is 0 with no timer and no cue; when active the beat is 1, one Accent is emitted and starts a new timer run in the cue log, and exactly one interval is live |
| Visualizer.Scheduler.Tick | components/Visualizer.tsx:76-88 | the beat becomes `(prev % beats) + 1` and stays in 1..beats; the cue is Accent exactly on beat 1 and is appended to the log, which stays the run's cue sequence; the props are unchanged |
| Visualizer.Scheduler.SetProps | components/Visualizer.tsx:94 | the effect re-runs only when a dependency changed, so a tempo or beat-count change while playing restarts at beat 1 with an Accent, and an unchanged render changes nothing |
| Visualizer.Scheduler.Unmount | components/Visualizer.tsx:91-93 | unmounting clears the interval, so no interval stays live; props, beat, tick count and cue log are unchanged |
| Visualizer.ScheduledAccents | components/Visualizer.tsx:71-88 | in every reachable state with the timer running, the clicks emitted since arming are an Accent exactly on the first beat of each measure |
| Visualizer.ScheduledFirstMeasure | components/Visualizer.tsx:71-88 | one measure after arming, the scheduler has emitted an Accent, beats − 1 Regular clicks and the next Accent |
| App.NextBpm | App.tsx:15-22 | the new tempo is the old one, 0, or a positive number |
| App.NextBpmOfPositive | App.tsx:16-18 | typing any positive whole number sets the tempo to that number |
| App.NextBpmOfNonPositive | App.tsx:17-21 | typing 0 or a negative number leaves the tempo unchanged |
| App.NextBpmOfEmpty | App.tsx:19-20 | clearing the field sets the tempo to 0, and with a tempo of 0 no timer runs for any play state or beat count |
| App.NextBpmOfNaN | App.tsx:17-21 | non-empty text that is not a number leaves the tempo unchanged |
| App.NextBpmOfReading | App.tsx:16-21 | any text that reads as a number (such as `+7`, `007`, `1.5` or `1e3`) sets the tempo to the value of its sign and leading digit run when that is positive (`1.5` and `1e3` both give 1), and leaves the tempo unchanged otherwise |
| App.ControlPanel.constructor | App.tsx:5-9 | the page starts at "4/4", 120 BPM, stopped, volume 0.5, not exporting |
| App.ControlPanel.HandleTimeSignatureChange | App.tsx:11-13 | the typed text becomes the time signature and nothing else changes |
| App.ControlPanel.HandleBpmChange | App.tsx:15-22 | the tempo follows the tempo-field rule, stays 0 or positive, and nothing else changes |
| App.ControlPanel.TogglePlay | App.tsx:28-30 | play/stop flips and nothing else changes |
| App.ControlPanel.ToggleExportMode | App.tsx:32-37 | export mode flips, playback is stopped in every case, and tempo and time signature are untouched |
| App.TogglePlayTwice | App.tsx:28-30 | pressing play/stop twice restores every setting |
| App.Metronome.constructor | App.tsx:5-9 | the first render is stopped at "4/4" and 120 BPM, volume 0.5, not exporting, with beat 0 and no interval |
| App.Metronome.Rerender | App.tsx:60 | after a render the visualizer shows the panel's settings; if one changed, a running timer restarts at beat 1 with one Accent and otherwise the beat is 0 with no cue; if none changed, nothing in the visualizer changes and no cue plays |
| App.Metronome.ToggleExportMode | App.tsx:32-37 | export mode flips, playback stops, no interval stays live, the beat is 0 and no cue plays; tempo, time signature and volume stay the same |
| App.Metronome.TogglePlay | App.tsx:28-30 | play/stop flips and the other settings stay the same; starting with a positive tempo plays beat 1 at once with an Accent and arms the interval; stopping, or a tempo of 0, leaves beat 0, no interval and no cue |
| App.Metronome.BpmChanged | App.tsx:15-22 | the tempo follows the tempo-field rule and the other settings stay the same; a new positive tempo while playing restarts at beat 1 with an Accent; an unchanged tempo keeps the beat and plays nothing; an empty field stops the beat; with the timer off no cue plays |
| App.Metronome.TimeSignatureChanged | App.tsx:11-13 | the text is stored and the other settings stay the same; a changed beat count while the timer runs restarts at beat 1 with an Accent; an unchanged beat count keeps the beat and the phase and plays nothing; with the timer off no cue plays |
| App.Metronome.Tick | components/Visualizer.tsx:76-88 | a tick of the page's metronome moves the beat to `(prev % beats) + 1`, in range, with the Accent exactly on beat 1, appended to the cue log |

## Left out

- Audio: the `Audio` objects, `play()`, the `currentTime` resets and the logging of playback failures. They are browser calls; a cue is only an emitted value here.
- Real time: `setInterval`, the interval length `(60 / bpm) * 1000` and wall-clock behaviour. These are floating point and host scheduling. A tick is an abstract event, allowed only while an interval is armed.
- Vertices: for more than 2 beats the coordinates `200 + 150 cos a`, `200 + 150 sin a` are not computed, because they use floating-point trigonometry. A vertex is kept as its circle and its fraction of a turn, `i / beats`.
- Volume: `handleVolumeChange` (`parseFloat`) and the assignment of `.volume` to the clicks. These are float parsing and foreign objects. The volume is only stored, with its initial value 0.5.
- The JSX, CSS classes, the SVG `points` attribute string and the export banner text. These are presentation only.
- React mechanics. Each handler and each effect run is one atomic step, and `setState` batching is not modelled. The interval callback captures `beats` when it is armed. The model reads the current field instead. The two agree because every change of `beats` re-runs the effect first.
- BeatCount: a numerator whose digit run is worth more than `Number.MAX_VALUE` (about 1.8 × 10^308) makes `parseInt` return `Infinity`. In the source `beats` is then `Infinity` and the vertex loop never ends. The model's integers are unbounded, so it gives that large finite beat count and a finite vertex list.
- NextBpm: tempo text whose digit run is worth more than `Number.MAX_VALUE` makes the source's tempo `Infinity`. The model gives the finite value instead.
- parseInt: `-0` is the integer 0 (both uses compare with `>=2` or `>0`, where `-0` acts as 0). Integers are unbounded, so the precision loss of JavaScript numbers above 2^53 is not modelled. Strings are sequences of Unicode scalar values, not UTF-16 code units.
- The browser's sanitising of `<input type="number">` values is not modelled. The handler's rule is stated for any text.
