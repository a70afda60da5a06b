# Pomodoro timer and to-do list, modelled in Dafny

This project models the client-side state logic of a browser productivity widget
(`app.js`): a Pomodoro countdown that alternates 25-minute work periods with 5-minute
breaks and a 10-minute break after every fourth work period, reconciles its countdown
with the wall clock when the page is reloaded, renders the countdown as `MM:SS`; and a
to-do list that appends, toggles and deletes items.

- `wrappers.dfy` — `Option`, for record fields that may be absent.
- `timer_model.dfy` (module `TimerModel`) — the timer state as a value, every transition
  as a function (`Switched`, `Ticked`, `Started`, `Paused`, `Toggled`, `ResetState`,
  `Restored`), the persisted record (`SavedState`, `Snapshot`) and lemmas relating runs
  of ticks to the work/break cycle.
- `timer_display.dfy` (module `TimerDisplay`) — the `MM:SS` text (decimal rendering,
  `padStart`, JavaScript's truncating `%`) and the mode label.
- `pomodoro.dfy` (module `Pomodoro`) — the `PomodoroTimer` class: fields updated step by
  step, each method proved to perform the transition its `TimerModel` function describes.
- `todo_store.dfy` (module `TodoStore`) — `String.prototype.trim`, the list operations as
  functions with their properties, and the `TodoList` class whose methods update its
  `todos` sequence in place.

Clock readings (`Date.now()`, `new Date().toISOString()`) are parameters (`now`, `id`,
`timestamp`). The stored records are passed in already parsed (`Option<SavedState>`,
`Option<StoredTodos>`).

Behaviour of the code that the model keeps as it is:
- `restoreTimerState` switches mode at most once, however long the page was away. It
  does not skip through expired periods (`RestoreDoesNotFastForward`).
- `startTimer` itself does not check whether the timer is already running. Only
  `toggleTimer` checks.
- The mode is a boolean `isWorkMode`, not a three-valued enumeration. The kind of break
  is recomputed from `completedSessions % 4`.
- A saved timestamp of 0 is falsy in `state.lastTimestamp ? … : 0`. It therefore counts
  as missing and gives 0 elapsed seconds.

## Model

| member | source | states |
|---|---|---|
| `TimerModel.Switched` | app.js:212-229 | the mode flips and the running flag is kept; entering a break adds exactly one session and sets 600 s iff the new count is a multiple of 4, else 300 s; entering work sets 1500 s and keeps the count; the new countdown is the full length of the new period |
| `TimerModel.Ticked` | app.js:183-189 | after any tick the countdown is at least 1; above 1 it only drops by one; from 1 or below the mode flips and the countdown is the new period's full length |
| `TimerModel.TickKeepsInvariant` | app.js:183-189 | a tick keeps `0 <= currentTime <= period length`, and changes the session count only when it ends a work period, by exactly one |
| `TimerModel.Started` | app.js:178-179 | only `isRunning` changes, to true |
| `TimerModel.Paused` | app.js:195-196 | only `isRunning` changes, to false |
| `TimerModel.Toggled` | app.js:170-176 | the running flag is inverted and nothing else changes |
| `TimerModel.ResetState` | app.js:202-206 | whatever the prior state, the result is the freshly constructed state: paused, work mode, 1500 s, 0 sessions |
| `TimerModel.PauseIdempotent` | app.js:195-196 | pausing twice equals pausing once |
| `TimerModel.ToggleTwice` | app.js:170-176 | two toggles give back the original state |
| `TimerModel.BreakThenWork` | app.js:212-229 | ending a work period and then its break returns to a full work period with one more session |
| `TimerModel.TicksWithinPeriod` | app.js:183-189 | fewer ticks than the countdown shows only count down; mode and sessions are untouched |
| `TimerModel.TicksToExpiry` | app.js:183-189 | exactly `currentTime` ticks end the period with a single switch |
| `TimerModel.FullCycle` | app.js:183-229 | a full work period followed by its break returns to the start of a work period with one more session |
| `TimerModel.CyclesReached` | app.js:183-229 | from any full work period, n full work-and-break cycles end at a full work period with n more sessions |
| `TimerModel.BreakAfterCycles` | app.js:183-229 | from any full work period, n cycles and one more work period end in the break for session k+n+1, at that break's full length |
| `TimerModel.LongBreakEveryFourth` | app.js:218-228 | from a fresh start, after n finished work periods the timer is at a full work period with n sessions; the next break has n+1 sessions and is long iff n+1 is a multiple of 4 |
| `TimerModel.FirstWorkPeriod` | app.js:183-189 | 1500 ticks from a fresh start give a 300 s short break with 1 session |
| `TimerModel.FourthWorkPeriod` | app.js:224-225 | 4·1500 + 3·300 ticks from a fresh start give a 600 s long break with 4 sessions |
| `TimerModel.Snapshot` | app.js:258-264 | the record carries the countdown, mode, running flag and session count of the state, and `now` as its timestamp |
| `TimerModel.ElapsedSeconds` | app.js:275 | a missing or zero timestamp gives 0 elapsed seconds; otherwise the result is the floor of the elapsed milliseconds divided by 1000 |
| `TimerModel.SessionsOrZero` | app.js:279 | a missing session count becomes 0; a present one is kept |
| `TimerModel.Restored` | app.js:268-291 | no record leaves the state alone; the running flag is always copied; a paused record, or one with no positive elapsed time, is copied verbatim; otherwise the countdown loses the elapsed seconds, and when that reaches 0 the mode flips once, with one more session when leaving work, onto the new period's full length |
| `TimerModel.RestoreSnapshot` | app.js:257-291 | restoring a record saved less than a second earlier gives back the saved state |
| `TimerModel.RestoreSwitchesOnce` | app.js:282-288 | 10 s left, running, reloaded 15 s later: one switch, to a 300 s break with 1 session, not two switches |
| `TimerModel.RestoreDoesNotFastForward` | app.js:282-288 | whenever the elapsed seconds cover the saved countdown, the result is exactly one switch from a zero countdown |
| `TimerModel.RestorePreservesInPeriod` | app.js:268-291 | a record whose countdown lies within its period restores to a state whose countdown lies within its period |
| `TimerDisplay.NatToDecimal` | app.js:238 | the decimal text of a number is non-empty digits with no leading zero except for 0 itself, one digit below 10 |
| `TimerDisplay.DigitChar` | app.js:238 | the digit character denotes the digit |
| `TimerDisplay.PadStart` | app.js:238 | the result is as long as the width or the input, whichever is longer; it ends with the input and is filled on the left |
| `TimerDisplay.DecimalRoundTrip` | app.js:238 | reading back the decimal text of a number gives the number |
| `TimerDisplay.LeadingZerosValue` | app.js:238 | zeros padded on the left do not change the value read back |
| `TimerDisplay.PaddedReadsBack` | app.js:238 | a number padded to two places is at least two digits and reads back as the number |
| `TimerDisplay.ClockText` | app.js:236-238 | the text is at least five characters long |
| `TimerDisplay.ClockTextParts` | app.js:235-237 | for a non-negative countdown, the minutes field is the padded decimal of the floor of countdown/60 and the seconds field that of the remainder |
| `TimerDisplay.PaddedRoundTrip` | app.js:237 | a number below 100 padded to two places is exactly two digits and reads back as the number |
| `TimerDisplay.ClockPartsReadBack` | app.js:237 | a digit field for minutes and a two-digit field for seconds below 60, joined by `:`, read back as minutes·60 + seconds |
| `TimerDisplay.PaddedClockReadsBack` | app.js:235-237 | the padded minutes and seconds of a non-negative countdown, joined by `:`, read back as the countdown |
| `TimerDisplay.ClockTextReadsBack` | app.js:236-238 | for a non-negative countdown the text is minutes, `:` and two digits of seconds below 60; minutes·60 + seconds is the countdown; below 6000 s the text is exactly `MM:SS` |
| `TimerDisplay.WorkLabelAsWritten` | app.js:241-242 | the label is "Work Time (", a count and "/4)"; for a non-negative session count the count is digits reading back as `completedSessions + 1` |
| `TimerDisplay.BreakLabel` | app.js:243-245 | "Long Break (10min)" exactly when the session count is a multiple of 4, "Short Break (5min)" exactly otherwise |
| `TimerDisplay.ModeLabel` | app.js:240-246 | in work mode the label is the work label as app.js:242 writes it; in a break it says "Long Break (10min)" iff the break lasts 600 s and "Short Break (5min)" iff it lasts 300 s |
| `TimerDisplay.WorkLabelPassesFour` | app.js:242 | as written, the work label reads "Work Time (5/4)" once 4 sessions have been completed, and a fresh timer left running is in exactly that state after four full work-and-break cycles |
| `TimerDisplay.SessionInCycle` | app.js:242 | the position within the cycle is between 1 and 4 and agrees with `completedSessions + 1` modulo 4 |
| `TimerDisplay.WorkLabelWithinCycle` | app.js:242 | the corrected work label is one of "1/4" to "4/4", and shows "4/4" exactly when the break that follows is long |
| `Pomodoro.PomodoroTimer.constructor` | app.js:7-14 | a new timer is in the initial state, within its period |
| `Pomodoro.PomodoroTimer.StartTimer` | app.js:178-181 | the fields afterwards are `Started` of the fields before |
| `Pomodoro.PomodoroTimer.PauseTimer` | app.js:195-200 | the fields afterwards are `Paused` of the fields before |
| `Pomodoro.PomodoroTimer.ToggleTimer` | app.js:170-176 | the fields afterwards are `Toggled` of the fields before |
| `Pomodoro.PomodoroTimer.ResetTimer` | app.js:202-210 | the fields afterwards are the initial state, whatever they were |
| `Pomodoro.PomodoroTimer.SwitchMode` | app.js:212-233 | the step-by-step field updates, redundant inner test included, perform `Switched` |
| `Pomodoro.PomodoroTimer.Tick` | app.js:183-192 | the decrement and conditional switch perform `Ticked`; the countdown is at least 1 afterwards |
| `Pomodoro.PomodoroTimer.SaveTimerState` | app.js:257-266 | the record written is `Snapshot` of the timer's state at `now`; restoring it at any time less than 1000 ms after `now` (including earlier times) rebuilds the timer's state |
| `Pomodoro.PomodoroTimer.RestoreTimerState` | app.js:268-291 | the step-by-step restore, with its single call to `SwitchMode`, performs `Restored` |
| `Pomodoro.PomodoroTimer.UpdateDisplay` | app.js:235-246 | the text is `ClockText` of the countdown and, for a non-negative countdown, reads back as it in the `…:SS` shape; the indicator is `ModeLabel`, with the work count as app.js:242 writes it |
| `Pomodoro.FirstPeriodScenario` | app.js:178-192 | a new timer, toggled on and ticked 1500 times, is in a 300 s short break with 1 session |
| `TodoStore.TrimStartIndex` | app.js:368 | the index returned is the first one from the start position on that holds no whitespace, or the length; everything skipped is whitespace |
| `TodoStore.TrimEndIndex` | app.js:368 | the index returned is just past the last non-whitespace character within the range, or the range's start; everything skipped is whitespace |
| `TodoStore.Trim` | app.js:368 | the result is a contiguous slice of the input; everything before it and everything after it is whitespace; it is empty iff the input is all whitespace; otherwise it neither starts nor ends with whitespace |
| `TodoStore.TrimIdempotent` | app.js:368 | trimming an already trimmed text changes nothing |
| `TodoStore.Added` | app.js:367-377 | blank input leaves the list unchanged; otherwise exactly one item is appended at the end, with the trimmed text, `completed = false`, and the given id and timestamp; earlier items are untouched |
| `TodoStore.FirstMatch` | app.js:385 | the index found carries the id and no earlier item does; the length means no item carries it |
| `TodoStore.FirstMatchUnique` | app.js:385 | any index with those properties is the first match |
| `TodoStore.ToggledFirst` | app.js:384-391 | length and every other item are unchanged; the first item with the id has `completed` flipped; with no such item the list is unchanged |
| `TodoStore.ToggleTwice` | app.js:384-391 | toggling the same id twice gives back the list |
| `TodoStore.RemoveId` | app.js:393-394 | no item of the result carries the id, and the result is no longer than the input |
| `TodoStore.RemoveIdKeeps` | app.js:393-394 | an item is in the result iff it is in the input and does not carry the id |
| `TodoStore.RemoveIdAppend` | app.js:393-394 | deletion distributes over concatenation, so the survivors keep their relative order |
| `TodoStore.RemoveIdCount` | app.js:393-394 | the result is shorter by exactly the number of items carrying the id |
| `TodoStore.RemoveIdAbsent` | app.js:393-394 | deleting an id no item carries leaves the list as it is |
| `TodoStore.RemoveIdIdempotent` | app.js:393-394 | deleting the same id twice equals deleting it once |
| `TodoStore.Loaded` | app.js:403-413 | no stored list keeps the current one; a malformed one gives the empty list; a parsed one is taken as is |
| `TodoStore.TodoList.constructor` | app.js:305-313 | a new list is what loading the stored value into an empty list gives |
| `TodoStore.TodoList.LoadTodos` | app.js:403-413 | the list afterwards is `Loaded` of the list before |
| `TodoStore.TodoList.AddTodo` | app.js:367-381 | the list afterwards is `Added` of the list before |
| `TodoStore.TodoList.FindFirst` | app.js:385 | the index returned carries the id and no earlier item does, or it is the length and no item does |
| `TodoStore.TodoList.ToggleTodo` | app.js:384-391 | the list afterwards is `ToggledFirst` of the list before |
| `TodoStore.TodoList.Filter` | app.js:394 | the items kept are exactly `RemoveId` of the list, in order |
| `TodoStore.TodoList.DeleteTodo` | app.js:393-397 | the list afterwards is `RemoveId` of the list before |

## Left out

- DOM work is not modelled because it is presentation only. This covers element lookups, button icons, the `rest-mode` class toggling, the settings modal, `render` and the loading screen.
- Theme loading, image preloading and theme selection are not modelled because they are asynchronous browser I/O.
- The progress ring is not modelled because its circumference and `remaining/duration` fraction are floating point.
- `makeDraggable` is not modelled because it handles mouse events and pixel offsets.
- Timer scheduling (`setInterval`, `clearInterval`, `setTimeout`) is not modelled. The interval callback is `Tick`, which callers invoke.
- Pomodoro.PomodoroTimer.Tick: requires `isRunning`, because the interval exists only between a start and the next pause.
- A second `startTimer` while the timer is running would start a second interval. This is not modelled. Neither caller starts a second interval: `toggleTimer` starts only a stopped timer, and the start-up code after a restore (app.js:73-74) starts a timer whose `isRunning` is already true, but before any interval exists.
- The start-up sequence (restore, then `startTimer` if the restored timer is running) is not modelled as one operation. The restore is `RestoreTimerState`. Its start changes no modelled field.
- The `lastTimestamp` field that `startTimer` writes is not modelled. Nothing in the core reads it back.
- The `saveTimerState` calls made inside tick, switch, pause and reset are not modelled. Their effect is the `localStorage` write, and the record written is `Snapshot`/`SaveTimerState`.
- `saveTodos` and the cookie are not modelled. Neither is `JSON.stringify`.
- `JSON.parse` is not modelled. Restore takes an already parsed record, so the unguarded parse in `restoreTimerState` is not represented. JSON values of the wrong type (a string countdown, `NaN`, a non-array todo list) are outside the model. Numbers are taken to be integers below 2^53 in magnitude, where JavaScript's doubles are exact, so a fractional countdown or the rounding of `currentTime--` above 2^53 is not modelled; `toString` of values from 10^21 up (exponential notation) is not modelled either.
- The duration and threshold settings are module constants. The source keeps them as instance fields but never reassigns them.
- Clearing the text box after an add is not modelled because the text box is DOM state. `AddTodo` takes its contents as `input`.
- `find` returns a reference to the item, which `toggleTodo` then mutates. The model replaces the element in the sequence. Every item is a distinct object, so no aliasing is lost.

## Findings

| source | as written | input that shows it | evidently intended | confidence | as-written member | corrected member |
|---|---|---|---|---|---|---|
| app.js:242 | the work label shows `completedSessions + 1` over a fixed "/4", and the count is never reset after a long break | `completedSessions = 4` in work mode, i.e. the first work period after the first long break: the label reads "Work Time (5/4)" | the position within the current cycle of four, `completedSessions % 4 + 1` | medium, not executed | `TimerDisplay.WorkLabelPassesFour` | `TimerDisplay.WorkLabelWithinCycle` |
