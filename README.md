# IdleBuster idle-prevention core, in Dafny

IdleBuster is a Windows tray application. It keeps the display from powering
down while it is armed. It can also follow a daily window: "keep the display
on between 09:00 and 18:00". This project models its core, the `Context`
class in `IdleBuster/Program.cs`:

- `Period.dfy` (module `Period`): `IsInPeriod`, the test whether a time of
  day lies in a window. Both ends are included. A window whose start is after
  its end runs past midnight. Every `TimeSpan` is its tick count, an `int`.
  The current time of day is a parameter.
- `Power.dfy` (module `Power`): the two calls made to
  `SetThreadExecutionState`. `Prevent` passes `ES_DISPLAY_REQUIRED |
  ES_CONTINUOUS`; `Allow` passes `ES_CONTINUOUS` alone. `DisplayKeptOn` gives
  what the operating system is left doing after a sequence of calls: the latest
  continuous request wins.
- `Machine.dfy` (module `Machine`): the state machine as pure transitions over
  a record of the four fields `_isIdle`, `_inPeriodMode`, `_durationStart`,
  `_durationEnd` and the log of power calls. It also holds the lemmas about
  runs of clicks and ticks.
- `Context.dfy` (module `IdleBuster`): class `Context`. It has the same fields,
  updated in place, and the log as a `seq` field. It also has the menu check
  marks and the tray icon. Its handlers are methods, and each is proved to
  follow the matching transition of `Machine`.

The field `_isIdle` is true when idle prevention is asserted. The name reads
the other way round.

Two behaviours of the code worth noting:

- The constructor calls `ToggleIdle` (line 88). So the application starts
  armed, and it has already asked once to keep the display on. It does not
  start disarmed.
- `ToggleIdle`, leaving period mode, does not reset `_durationStart` or
  `_durationEnd`. The stale window stays stored until the next prompt.

The invariant `Machine.InSync` says that the flag agrees with the latest power
call. Every click and tick handler keeps it; the exit handler keeps it only when the application is disarmed. `Context.Valid` adds
that the tray icon shows the flag.

## Model

| member | source | states |
|---|---|---|
| `Power.Flags` | IdleBuster/Program.cs:277-280 | Both requests are continuous. Only `Prevent` asks for the display. Neither asks for the system or away mode. |
| `Power.LatestCallDecides` | IdleBuster/Program.cs:277-280 | After any log, appending a call leaves the display kept on exactly when that call is `Prevent`. |
| `Period.IsInPeriod` | IdleBuster/Program.cs:158-180 | Both ends of a window are always inside it. A midnight-crossing window excludes the instants strictly between its end and its start. A same-day window excludes everything outside its ends. |
| `Period.SameDayWindow` | IdleBuster/Program.cs:162-171 | With `start <= end`, `now` is inside iff `start <= now <= end`. |
| `Period.SingleInstantWindow` | IdleBuster/Program.cs:162-171 | With `start == end`, only `now == start` is inside. |
| `Period.OvernightWindow` | IdleBuster/Program.cs:173-179 | With `start > end`, `now` is inside iff `now >= start` or `now <= end`. |
| `Period.MatchesClockArc` | IdleBuster/Program.cs:158-180 | On times of day in `[0, 24h)`, the window test agrees with the clock-face arc: walking forward from `start`, one meets `now` no later than `end`. |
| `Period.WindowExamples` | IdleBuster/Program.cs:158-180 | 23:30 and 01:00 are in 22:00–02:00, and 12:00 is not. 10:00 is in 09:00–18:00, and 08:59 is not. |
| `Machine.ToggleImpl` | IdleBuster/Program.cs:128-141 | Flips the flag and appends exactly one call: `Allow` if it was set, `Prevent` if not. Mode and window are unchanged. Afterwards the flag agrees with the operating system, whatever the state before. |
| `Machine.ToggleManual` | IdleBuster/Program.cs:93-105 | Always ends in manual mode. In period mode it ends armed, having appended exactly one `Prevent`. In manual mode it flips the flag and appends exactly one call, `Allow` if it was armed and `Prevent` if not, keeping the earlier calls. The window is unchanged. |
| `Machine.ToggleScheduled` | IdleBuster/Program.cs:107-126 | An accepted prompt enters period mode and stores the window, with the flag and the log unchanged. A cancelled prompt, from any state, leaves manual mode, stores `(MinValue, MinValue)`, ends disarmed and appends exactly one `Allow`. Both keep `InSync`. |
| `Machine.OnTick` | IdleBuster/Program.cs:143-156 | Outside period mode, nothing changes. In period mode the flag afterwards equals `IsInPeriod(start, end, now)`. A call is appended only if the flag changed, and it matches the new flag. |
| `Machine.Shutdown` | IdleBuster/Program.cs:79-86 | From any state, appends exactly one `Allow` and nothing else. The display is then free to power down. |
| `Machine.Startup` | IdleBuster/Program.cs:88 | After construction the application is armed, in manual mode, with window (0, 0) and log `[Prevent]`. |
| `Machine.StepKeepsInSync` | IdleBuster/Program.cs:93-156 | A click or tick keeps the flag in agreement with the operating system. |
| `Machine.RunKeepsInSync` | IdleBuster/Program.cs:93-156 | Any sequence of clicks and ticks keeps the flag in agreement with the operating system. |
| `Machine.RunCallsAtMostOncePerEvent` | IdleBuster/Program.cs:93-156 | Over any sequence of events, the log only grows. It grows by at most one call per event. |
| `Machine.ShutdownKeepsInSyncIffDisarmed` | IdleBuster/Program.cs:79-86 | From an in-sync state, the flag still agrees with the operating system after exit exactly when the application was disarmed. |
| `Machine.ExitAfterAnyRun` | IdleBuster/Program.cs:79-88 | Whatever events follow start-up, the flag agrees with the operating system. Exiting then leaves the display free to power down. |
| `Machine.TickNeverRepeatsACall` | IdleBuster/Program.cs:143-156 | When a tick makes a call, that call changes what the operating system is asked to do. |
| `Machine.TickIsIdempotent` | IdleBuster/Program.cs:143-156 | A second tick at the same instant changes nothing and logs nothing. |
| `Machine.ManualToggleTwice` | IdleBuster/Program.cs:93-105 | In manual mode, two toggles restore the flag, having appended two opposite calls. |
| `Machine.ManualToggleTwiceFromDisarmed` | IdleBuster/Program.cs:93-105 | From manual and disarmed, two toggles return to the same state with `[Prevent, Allow]` appended. What the operating system is asked to do ends where it was. |
| `Machine.EnterThenCancel` | IdleBuster/Program.cs:107-126 | Accepting a window and then cancelling the prompt leaves manual mode disarmed, with one `Allow` appended. |
| `Machine.ScheduledDay` | IdleBuster/Program.cs:107-156 | Disarm, then accept 09:00–17:00: no call. Tick at 10:00: one `Prevent`. Tick again at 10:00: nothing. Tick at 18:00: one `Allow`. |
| `IdleBuster.Context.constructor` | IdleBuster/Program.cs:42-91 | The object starts in the `Startup` state. "Prevent Idle" is checked, the icon is "armed", and the tray icon is visible. |
| `IdleBuster.Context.PreventMonitorPowerdown` | IdleBuster/Program.cs:277-278 | Appends one `Prevent` to the log and changes no other field. |
| `IdleBuster.Context.AllowMonitorPowerdown` | IdleBuster/Program.cs:280 | Appends one `Allow` to the log and changes no other field. |
| `IdleBuster.Context.ToggleIdleImpl` | IdleBuster/Program.cs:128-141 | Follows `Machine.ToggleImpl`. It sets the icon to match the new flag and changes only the flag, the log and the icon. |
| `IdleBuster.Context.ToggleIdle` | IdleBuster/Program.cs:93-105 | Follows `Machine.ToggleManual`. "Prevent Idle" is checked iff it ends armed. It unchecks the period item when leaving period mode. It preserves `MenuShowsState`. |
| `IdleBuster.Context.ToggleIdleDuringPeriod` | IdleBuster/Program.cs:107-126 | Follows `Machine.ToggleScheduled`. The period item's check mark shows the new mode. Accepting unchecks "Prevent Idle". Cancelling leaves that check mark as it was. |
| `IdleBuster.Context.ToggleIdleDuringPeriodCorrected` | IdleBuster/Program.cs:107-126 | Makes the same transition on the state and the log. Afterwards "Prevent Idle" is unchecked and the menu shows the state. |
| `IdleBuster.Context.OnTimerTick` | IdleBuster/Program.cs:143-156 | Follows `Machine.OnTick`. It makes at most one call, it changes neither mode, window nor menu, and it keeps `Valid`. |
| `IdleBuster.Context.OnApplicationExit` | IdleBuster/Program.cs:79-86 | Follows `Machine.Shutdown`: exactly one `Allow` is appended, and the display is free to power down. The tray icon is hidden and set to "disarmed". |
| `IdleBuster.CancelledPromptLeavesPreventIdleChecked` | IdleBuster/Program.cs:121-125 | Right after start-up, cancelling the period prompt leaves the application disarmed with "Prevent Idle" still checked. |
| `IdleBuster.ScheduledDay` | IdleBuster/Program.cs:107-156 | The `Machine.ScheduledDay` scenario, run on the object. It uses the corrected period handler. It ends with log `[Prevent, Allow, Prevent, Allow]`, and the menu shows the state. |

## Left out

- `Main`, the single-instance `Mutex` and its message box: process plumbing.
- `TryPromptForDuration`'s dialog: a Windows Forms form. Only its result shape matters. It gives `(true, (start, end))` on OK and `(false, (MinValue, MinValue))` otherwise. That is `Machine.PromptResult`, and its answer is an input.
- The `Timer` (creation, the one-second interval, `Start`, `Dispose`): event scheduling. Each tick is a call of `OnTimerTick` with the time of day as a parameter. After the exit handler, `Valid` need not hold: it fails when the application was armed at exit, because the handler releases idle prevention without clearing `_isIdle` (`Machine.ShutdownKeepsInSyncIffDisarmed`). Nothing runs after exit, so the model does not continue from that state.
- `DateTime.Now`: the clock is foreign, so `now` is passed in.
- `SetThreadExecutionState` itself: a foreign operating-system call whose result is ignored. Each call is an entry in the log, and `DisplayKeptOn` is the model of its effect.
- The icon images, menu item names, shortcuts and default-item flags: presentation. Only the check marks, the choice of icon and its visibility are tracked.
- `PreventSleep` and `KeepSystemAwake`: never called.
- Concurrency: none exists. Every handler runs on the one UI thread. `prompt.ShowDialog()` (line 264) runs a nested message loop, so `OnTimerTick` can run while the prompt is open. The sequential `Event` model stays faithful, because `ToggleIdleDuringPeriod` writes no field until the prompt returns (line 109): a tick during the prompt is a `TimerTicked` event before the `PeriodClicked` one.

## Findings

| source | as written | input that shows it | evidently intended | confidence | as-written member | corrected member |
|---|---|---|---|---|---|---|
| IdleBuster/Program.cs:121-125 | Cancelling the period prompt releases idle prevention but never updates the "Prevent Idle" check mark. | Start the application (armed, "Prevent Idle" checked), choose "Prevent During Period", cancel the dialog. The application is disarmed while "Prevent Idle" stays checked. | Clear the check mark on cancel too, as `ToggleIdle` does with `_preventIdleMenuItem.Checked = _isIdle`. | medium, not executed | `IdleBuster.CancelledPromptLeavesPreventIdleChecked` | `IdleBuster.Context.ToggleIdleDuringPeriodCorrected` |
