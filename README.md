# ZenSpace focus page — a Dafny model of its logic

The ZenSpace home page (`client/src/pages/Home.tsx`) is a single React
component: a 25-minute countdown timer, an ambiance mixer of five sound
tracks with per-track volume sliders, a breathing animation and a focus task
list. This project models the parts of it that compute something and proves
what they promise:

- **`TimeFormat`** — `formatTime`, which shows a second count as `MM:SS`,
  together with a parser for that display. The JavaScript built-ins it uses
  (`Number.prototype.toString` on non-negative integers and
  `String.prototype.padStart`) are modelled in **`JsText`**, along with
  `String.prototype.trim` over the ECMAScript WhiteSpace and LineTerminator
  characters.
- **`Timer`** — the countdown. Its state is the pair (`timeLeft`, `isRunning`).
  The transitions are the interval callback (tick), the effect's stop branch
  (settle), the Start/Pause button (toggle) and the Reset button. They are
  pure functions on a `TimerState` value, and a class `Timer` updates its two
  fields in place with methods specified by those functions. The interval
  scheduling becomes discrete steps: `EffectState` is one evaluation of the
  effect, which either ticks or settles. `Run` applies any sequence of
  events.
- **`Mixer`** — the track records and `updateVolume`, the `map` that replaces
  the volume of the records with a matching id.
- **`Tasks`** — `addTask` and `removeTask` on the pair (`tasks`, `newTask`),
  plus a small action language (type, add, remove) for invariants over any
  sequence of user actions.

Where the intended behaviour and the code differ, the model follows the code:

- `updateVolume` stores the given volume as is and does not clamp it. The
  0..1 range comes only from the slider's `min`/`max`; `Mixer.UpdateRange`
  states this.
- `removeTask` with a position outside the list is the identity, because
  `filter` keeps every element.
- `addTask` stores the input untrimmed. Trimming is used only to test for
  blank input.
- Start at 0:00 is not refused. Toggle sets `isRunning`, and the effect's
  next evaluation clears it (`Timer.ToggleAtZeroUndone`).

Seconds, positions and time are unbounded integers. Volumes are `real`s,
which is exact because the modelled code does no arithmetic on them.

## Model

| member | source | states |
|---|---|---|
| JsText.DecimalString | client/src/pages/Home.tsx:71 | `toString` of a non-negative integer is a non-empty string of decimal digits |
| JsText.DecimalStringCanonical | client/src/pages/Home.tsx:71 | `toString` writes no leading zero, except for 0 itself ("0") |
| JsText.DecimalStringLength | client/src/pages/Home.tsx:71 | `toString` gives one digit exactly below 10 and two exactly for 10..99 |
| JsText.DecimalStringValue | client/src/pages/Home.tsx:71 | reading back the digits `toString` writes gives the number |
| JsText.PadStart | client/src/pages/Home.tsx:71 | `padStart(2, "0")` has length max(\|s\|, 2), keeps s as its suffix (never truncates) and fills only with the fill character |
| JsText.PaddedDecimalValue | client/src/pages/Home.tsx:71 | zero-padding a number's decimal string keeps it all digits and keeps its value |
| JsText.TrimStartIndex | client/src/pages/Home.tsx:81 | where the trimmed text starts: everything before it is whitespace and the character there is not |
| JsText.TrimEndIndex | client/src/pages/Home.tsx:81 | where the trimmed text ends: everything from there on is whitespace and the character before it, if inside the text, is not |
| JsText.TrimIsSlice | client/src/pages/Home.tsx:81 | `trim()` is a slice s[i..j] with only whitespace outside it, neither starting nor ending with whitespace |
| JsText.TrimEmptyIff | client/src/pages/Home.tsx:81 | `trim()` is empty (falsy) exactly when every character is whitespace |
| TimeFormat.FormatTimeParts | client/src/pages/Home.tsx:68-72 | for every s: after the colon come exactly two digits encoding s % 60, with a tens digit below 6; before it come digits encoding s / 60, namely its decimal zero-padded to two characters |
| TimeFormat.FormatTimeNeverTruncates | client/src/pages/Home.tsx:71 | the minutes part has length max(2, digits of s / 60), ends with all those digits, and is otherwise zeros |
| TimeFormat.FormatTimeFixedWidth | client/src/pages/Home.tsx:68-72 | for s < 6000 the display has length 5 with ':' at index 2 |
| TimeFormat.FormatTimeRoundTrip | client/src/pages/Home.tsx:68-72 | parsing the minute and second digits back gives mins * 60 + secs == s, for every s |
| TimeFormat.FormatTimeInjective | client/src/pages/Home.tsx:68-72 | two second counts with the same display are equal |
| TimeFormat.FormatTimeInitial | client/src/pages/Home.tsx:68-72 | the initial 1500 seconds display as "25:00" |
| TimeFormat.FormatTimeHundredMinutes | client/src/pages/Home.tsx:68-72 | 6000 seconds display as "100:00": minutes above 99 keep all digits |
| Timer.TickStep | client/src/pages/Home.tsx:40-43 | a tick lowers `timeLeft` by exactly 1 when running with time left, otherwise changes nothing; it never changes `isRunning` |
| Timer.TicksCount | client/src/pages/Home.tsx:40-43 | n ticks from t >= 0 while running leave max(0, t - n); while paused they leave t |
| Timer.SettleStep | client/src/pages/Home.tsx:44-46 | the stop branch keeps `timeLeft` and clears `isRunning` exactly when it is 0 while running |
| Timer.ToggleAtZeroUndone | client/src/pages/Home.tsx:44-46 | toggling to running at 0 is undone by the next stop step, with `timeLeft` still 0 |
| Timer.ResetAndToggle | client/src/pages/Home.tsx:123-129 | Reset gives 1500 from any state and keeps `isRunning`; Toggle flips `isRunning`, keeps `timeLeft`, and is its own inverse |
| Timer.EffectsCountDown | client/src/pages/Home.tsx:38-48 | started at t, n effect evaluations give (t - n, running) while n <= t and (0, stopped) afterwards: the timer stops the evaluation after reaching 0 and does not reset |
| Timer.StoppedIsStable | client/src/pages/Home.tsx:38-48 | a timer stopped at 0 stays at (0, stopped) under further evaluations |
| Timer.ApplyInRange | client/src/pages/Home.tsx:40-46 | every transition keeps `timeLeft` within 0..1500 |
| Timer.RunInRange | client/src/pages/Home.tsx:40-46 | any sequence of tick, settle, toggle and reset events keeps `timeLeft` within 0..1500 |
| Timer.ReachableInRange | client/src/pages/Home.tsx:22-23 | from the initial state (1500, paused), `timeLeft` is never negative and never above 1500, whatever the events |
| Timer.Timer.constructor | client/src/pages/Home.tsx:22-23 | the timer starts at 1500 seconds, not running |
| Timer.Timer.Tick | client/src/pages/Home.tsx:40-43 | the callback fires only when running with time left, then lowers `timeLeft` by 1; `isRunning` unchanged; the 0..1500 invariant kept |
| Timer.Timer.Settle | client/src/pages/Home.tsx:44-46 | clears `isRunning` exactly when `timeLeft` is 0 while running; `timeLeft` unchanged |
| Timer.Timer.Toggle | client/src/pages/Home.tsx:123 | flips `isRunning`, `timeLeft` unchanged |
| Timer.Timer.Reset | client/src/pages/Home.tsx:129 | sets `timeLeft` to 1500, `isRunning` unchanged |
| Mixer.UpdateVolume | client/src/pages/Home.tsx:74-78 | length, order and every id, name and color are preserved; records with the target id get the new volume, all others are identical to before |
| Mixer.UpdateUnknownId | client/src/pages/Home.tsx:74-78 | an id no track has leaves the tracks unchanged |
| Mixer.UpdateSingleRecord | client/src/pages/Home.tsx:74-78 | with unique ids, updating track k's id replaces exactly record k's volume |
| Mixer.UpdateKeepsUniqueIds | client/src/pages/Home.tsx:74-78 | an update keeps the ids unique |
| Mixer.UpdateLastWins | client/src/pages/Home.tsx:74-78 | a second update of the same id overrides the first (and repeating an update changes nothing) |
| Mixer.UpdatesCommute | client/src/pages/Home.tsx:74-78 | updates of different ids commute |
| Mixer.UpdateRange | client/src/pages/Home.tsx:74-78 | for a present id, volumes stay within 0..1 exactly when the new volume is in 0..1: no clamping |
| Mixer.InitialTracksWellFormed | client/src/pages/Home.tsx:24-30 | there are five initial tracks, with distinct ids and volumes in 0..1 |
| Tasks.AddTask | client/src/pages/Home.tsx:80-85 | with a non-whitespace character in the input, the input is appended untrimmed and cleared; otherwise tasks and input are unchanged |
| Tasks.RemoveTask | client/src/pages/Home.tsx:87-89 | for 0 <= i < \|tasks\| the result is tasks[..i] + tasks[i+1..]; for any other i, negative ones included, the list is unchanged |
| Tasks.RemoveTaskShifts | client/src/pages/Home.tsx:87-89 | removing position i shortens the list by one and keeps order: earlier tasks stay, later ones move down by one |
| Tasks.RemoveTaskMultiset | client/src/pages/Home.tsx:87-89 | the removed task is the only one missing afterwards |
| Tasks.AppendKeepsVisible | client/src/pages/Home.tsx:82 | appending a non-blank task to a list of non-blank tasks keeps them all non-blank |
| Tasks.RemoveKeepsVisible | client/src/pages/Home.tsx:88 | removing a position keeps a list of non-blank tasks non-blank |
| Tasks.AddThenRemove | client/src/pages/Home.tsx:80-89 | removing the newly added entry gives back the previous list |
| Tasks.ApplyKeepsVisible | client/src/pages/Home.tsx:80-89 | typing, adding or removing keeps every stored task non-blank |
| Tasks.RunKeepsVisible | client/src/pages/Home.tsx:80-89 | any sequence of those actions keeps every stored task non-blank |
| Tasks.ReachableTasksVisible | client/src/pages/Home.tsx:33-34 | from the empty list (line 33) and empty input (line 34), no blank task is ever stored |
| Tasks.AddBlankExample | client/src/pages/Home.tsx:80-85 | adding "  " changes nothing |
| Tasks.AddUntrimmedExample | client/src/pages/Home.tsx:80-85 | adding "  buy milk  " stores it with its spaces and clears the input |
| Tasks.RemoveExample | client/src/pages/Home.tsx:87-89 | removing position 1 from ["a", "b", "c"] gives ["a", "c"] |

## Left out

- Rendering: the JSX markup, icons (the `icon` field of a track), the button library, CSS classes and slider markup (Home.tsx:96-216). This is presentation through foreign components.
- Real-time scheduling. `setInterval`/`clearInterval` and the React effect lifecycle and cleanup (Home.tsx:39-47, 55-65) are framework plumbing. Ticks and stop steps are discrete transitions instead; the model does not state when they fire, only what each one does.
- The breathing animation (Home.tsx:51-66). It steps a float by 0.05, and its bounds behaviour depends on floating-point rounding.
- Average volume and hue (Home.tsx:91-94). This is float division and `Math.floor` on floats. The computed background `newBg` is never used: the page renders `bgColor`, which never changes (lines 35, 98).
- `parseFloat` of the slider value (Home.tsx:170), the Enter-key handler (Home.tsx:186) and the text box's `onChange` (Home.tsx:184). These are input plumbing. The Enter key only calls `addTask`; typing is the `Type` action of `Tasks.TaskAction`.
- JavaScript number semantics. `formatTime` takes a non-negative integer. `Number.prototype.toString` is modelled as plain decimal, without the exponent form it uses from 10^21 up. Doubles beyond 2^53, fractional or NaN seconds, and fractional task positions are not modelled. A fractional position would match no task anyway, like an out-of-range one.
- React's batching of state updates. Each handler is one atomic transition on its own piece of state.
