# TimeoutFlow in Dafny

A model of the core of TimeoutFlow, a JavaScript timing library, with proofs about it.

- **Timeline.** `flow()` is a chainable timeline: `after`, `every`, `label`, `jumpTo`, `if`, `unless`, `while`, `doWhile`, `loop` and `onFinish` build a list of steps. `start`, `pause`, `resume`, `cancel` and `reset` drive it.
- **Timers.** The timeline is built on the primitive timers `after()` and `every()`. Beside them sit the class-based timers `TimerBase`, `AfterTimer` and `EveryTimer`.
- **Wrappers.** `throttle()` and `debounce()` are also modelled, with the argument resolver `resolveDelayAndFn()` and the duration parser `parseDuration()`.

**Time and the host.**
- Time is a `real` number of milliseconds, and the current time is a parameter of every operation that reads the clock.
- A host timeout is a pending deadline kept in the state. A negative delay is clamped to zero.
- The host running a due timeout is a `Fire` operation. It may only be called once the deadline has passed.

**User code.**
- User functions are numbered.
- A call into user code is an `Event` appended to a trace.
- A user predicate's answer is read from an `oracle` indexed by the length of the trace at the time of the call.

**How each file is modelled.**
- *Pure files* are datatypes, functions and lemmas: `parseDuration.js` is module `Durations` and `resolveDelayAndFn.js` is `DelayArgs`.
- *Imperative files* are classes whose fields are the source's closure variables or private fields. Each method is proved to leave those fields as a specification function says, and the lemmas are stated about those functions:

- `after.js` is `AfterFn.Controller`, `every.js` is `EveryFn.Controller`.
- `TimerBase.js` is `Timers.TimerBase`, `AfterTimer.js` is `AfterTimers.AfterTimer`, `EveryTimer.js` is `EveryTimers.EveryTimer`.
- `throttle.js` is `Throttle.Throttled`, `debounce.js` is `Debounce.Debounced`.

**How the timeline is modelled.**
- **State.** `FlowSpec` holds the timeline as functions on `FlowState`, the closure variables of `flow()`.
- **Controllers.** The `after()`/`every()` controllers the timeline creates are values in a map. A controller goes on existing, and can go on firing, after the timeline has stopped pointing at it.
- **`executeNext()`.** This is `Drive`, a terminating recursion. Each of its calls is one `DriveStep`, and the measure under which it terminates is proved in `CycleDecreases`.
- **Runner.** `FlowRunner.Runner` is the runner object, with the closure variables as fields. Its `ExecuteNext` runs the self-calls as a loop. Every method is proved to end in the state, and with the outcome, that `FlowSpec` gives. An outcome is normal return or a thrown error.
- **Properties.** `FlowProps` proves properties of the timeline.

**Behaviour as written.** Behaviour of the code worth knowing, which the model follows:
- **Labels.** `label()` records an index but adds no step. Skipping therefore never stops at a label, although the comment at src/TimeoutFlow.js:163 says it should: it runs to the end of the pass (`FlowProps.SkipRunsToEnd`).
- **After steps.** An `after` step's `fn` is never called. Its timeout only advances the cursor (`FlowProps.AfterStepNeverCallsFn`, `FlowProps.AfterThenFinish`).
- **Gates.** One `if`/`unless` gate is consumed per call of `executeNext()`, skipping calls included. It is not consumed per started step.
- **`every` pause and resume.** Pausing an `every` step keeps the unelapsed part of the interval (`EveryFn.PauseResumeShiftsDeadline`).
- **`resume()` with nothing left.** Resuming a one-shot timer with nothing remaining does nothing (`AfterFn.ResumeArmsIff`).
- **`reset()`.** It keeps labels, gates, the jump target, the skip flag, the loop settings, and the pending conditions, and it leaves the flow cancelled (`FlowProps.ResetKeepsConfiguration`). Past the last step it throws and resets nothing (`FlowProps.PastEndThrows`).
- **Errors.** They leave the flags changed:
  - `pause()` and `resume()` past the end set their flag and then throw.
  - `resume()` sets `startedAt` before its duration text fails to parse.
- **Cancelled controllers.** An `every` controller cancelled by a `while`/`doWhile` exit is re-armed by the tick that ran it (`FlowProps.WhileExitLeavesTickerArmed`, `FlowProps.LastCallExitsStep`).
- **Limits.** `max`, `times` and `loop(n)` are compared with integer counts only, so a fractional limit acts as its ceiling: `every(d, f, 2.5)` calls `f` three times (`Values.CeilLimitAgrees`).

## Model

| member | source | states |
|---|---|---|
| Values.CeilLimitAgrees | src/every.js:30-61 | an integer count is below a limit `x` exactly when it is below `x`'s ceiling, so `Below` on the ceiling is both `count < x` and the negation of `count >= x` |
| Values.CeilLimitExamples | src/every.js:22-38 | 2.5 and 3 both allow the counts 0, 1 and 2; -0.5 allows none |
| Durations.ParseText | src/parseDuration.js:27-36 | a normalised text that does not match the pattern is an invalid-format error, the only error it gives |
| Durations.ParseDuration | src/parseDuration.js:10-36 | a string that does not parse is an invalid-format error; a value that is neither a number nor a string is a TypeError |
| Durations.NumberUnchanged | src/parseDuration.js:17-19 | a finite number is returned unchanged, negative and fractional ones included |
| Durations.NonStringIsTypeError | src/parseDuration.js:17-23 | a value that is neither a finite number nor a string (NaN, infinities, objects) is a TypeError |
| Durations.AcceptsPattern | src/parseDuration.js:25-36 | completeness: every text "numeral, white space, unit" parses to the numeral's value times the unit's multiplier |
| Durations.AcceptedHasPattern | src/parseDuration.js:25-36 | soundness: every text the parser accepts has that shape and that value |
| Durations.WrittenDurationRoundTrip | src/parseDuration.js:3-36 | a numeral written with a unit parses to its value in that unit; dividing by the multiplier gives back the numeral's value |
| Durations.FractionValue | src/parseDuration.js:36 | the digits after the decimal point contribute a value in [0, 1) |
| Durations.ScaledIsProduct | src/parseDuration.js:36 | scaling by a unit is multiplying by its entry in the multiplier table, and dividing by it gives the magnitude back |
| Durations.NumeralNonNegative | src/parseDuration.js:27-36 | the value of a digits-with-optional-fraction numeral is at least zero |
| Durations.StringDurationNonNegative | src/parseDuration.js:25-36 | no string parses to a negative duration |
| Durations.RejectedExamples | src/parseDuration.js:27-33 | the empty text and an unknown unit are invalid formats |
| Durations.RejectedSign | src/parseDuration.js:27-33 | a signed number is an invalid format |
| Durations.RejectedDecimalPoints | src/parseDuration.js:27-33 | a decimal point without digits on both sides is an invalid format |
| Durations.AcceptedExamples | src/parseDuration.js:10-36 | "500ms" is 500, "1.5m" is 90000, and " 2S " (case and surrounding space ignored) is 2000 |
| DelayArgs.ResolveDelayAndFn | src/resolveDelayAndFn.js:10-27 | succeeds exactly when one argument is a function, the other is not, and the other parses as a duration |
| DelayArgs.ErrorKinds | src/resolveDelayAndFn.js:10-27 | a failure is a TypeError or an invalid format, and it is an invalid format exactly when one argument is a function and the other a string that does not parse |
| DelayArgs.OrderIrrelevant | src/resolveDelayAndFn.js:10-27 | with exactly one function argument the two argument orders give the same result |
| DelayArgs.MissingFunctionBeforeParsing | src/resolveDelayAndFn.js:21-25 | without a function the TypeError comes before parsing, even for a malformed duration |
| DelayArgs.TwoFunctions | src/resolveDelayAndFn.js:13-25 | two functions: the second is parsed as a duration and fails with TypeError |
| DelayArgs.ResolvedFromOneArgument | src/resolveDelayAndFn.js:10-27 | a success names one argument as the callback and is the parse of the other |
| AfterFn.TimedPreserved | src/after.js:16-56 | every transition keeps "a timeout is armed exactly while running, due at start plus remaining" |
| AfterFn.PauseKeepsTimeToDeadline | src/after.js:33-39 | pausing a running timer leaves exactly the time to its deadline as remaining and disarms it; a second pause, at any time, changes nothing |
| AfterFn.ResumeArmsIff | src/after.js:41-47 | resume re-arms exactly when not running and time remains, for the remaining time |
| AfterFn.CancelIsNotTerminal | src/after.js:41-53 | cancel keeps remaining, so a later resume re-arms for it |
| AfterFn.PauseResumeShiftsDeadline | src/after.js:33-47 | a pause at t1 and resume at t2 postpone the deadline by exactly t2 - t1 |
| AfterFn.ReplayAgrees | src/after.js:33-47 | over any pause/resume history the timer agrees with an independent stopwatch of running time |
| AfterFn.RunningTimeEqualsDuration | src/after.js:16-47 | a running timer is due exactly when its total running time reaches the duration |
| AfterFn.Controller.constructor | src/after.js:17-56 | creation arms a timeout for the whole duration at once |
| AfterFn.Controller.IsRunning | src/after.js:62 | the `isRunning` getter is the running flag |
| AfterFn.Controller.Pause | src/after.js:33-39 | the fields become `Paused` of the old state; no callback runs |
| AfterFn.Controller.Resume | src/after.js:41-47 | the fields become `Resumed` of the old state |
| AfterFn.Controller.Cancel | src/after.js:49-53 | the fields become `Cancelled` of the old state |
| AfterFn.Controller.Fire | src/after.js:25-29 | expiry stops the timer, then runs `fn` and `onFinish` in that order, each if present |
| AfterFn.MakeAfter | src/after.js:16-21 | a bad duration throws its parse error before anything is scheduled; otherwise a fresh armed controller |
| EveryFn.GoodPreserved | src/every.js:22-86 | every transition keeps the timeout/running agreement and `count <= max` |
| EveryFn.CallsOnlyBelowMax | src/every.js:30-38 | a tick calls `fn` exactly when `count < max`, and then `count` grows by one; otherwise it cancels |
| EveryFn.ControlInsideCallbackIsOverridden | src/every.js:30-45 | a cancel or pause issued from inside `fn` is undone by the re-arm after `fn` returns |
| EveryFn.LastCallArmsOneMoreTick | src/every.js:30-45 | after the max-th call one more tick is armed, which cancels without calling |
| EveryFn.PauseResumeShiftsDeadline | src/every.js:47-61 | pause then resume keep the unelapsed part of the interval: the deadline moves by the pause |
| EveryFn.ResumeArmsIff | src/every.js:55-61 | resume changes anything exactly when the timer is stopped, below max, with time left |
| EveryFn.RunImmediately | src/every.js:76-86 | with runImmediately the first tick is at creation (calling `fn` iff max > 0); otherwise one interval away |
| EveryFn.ResetRestarts | src/every.js:69-74 | reset cancels, zeroes the count, restores the interval, and restarts only when asked |
| EveryFn.CountEqualsCalls | src/every.js:30-81 | over any history, resets included, the final count plus the counts that resets set back to zero equals the starting count plus the number of `fn` calls; the count stays within max, each reset drops at most max, and without a reset nothing is dropped |
| EveryFn.CallsAtMostMax | src/every.js:22-86 | a timer created with max n calls `fn` at most n times before its first reset (none when n <= 0), and each reset allows up to n more calls |
| EveryFn.ResetLetsFnRunAgain | src/every.js:69-74 | `every(10, fn, 1)` ticked, then `reset(true)`, then ticked again calls `fn` twice |
| EveryFn.Controller.constructor | src/every.js:22-86 | creation starts the timer, with a first call when runImmediately and max > 0 |
| EveryFn.Controller.ScheduleNext | src/every.js:40-45 | arms a fresh full interval from now |
| EveryFn.Controller.Tick | src/every.js:30-38 | the fields become `Ticked` of the old state; one call recorded exactly when it calls `fn` |
| EveryFn.Controller.Start | src/every.js:76-82 | a tick now with runImmediately, else a scheduled interval |
| EveryFn.Controller.Pause | src/every.js:47-53 | the fields become `Paused` of the old state |
| EveryFn.Controller.Resume | src/every.js:55-61 | the fields become `Resumed` of the old state |
| EveryFn.Controller.Cancel | src/every.js:63-67 | the fields become `Cancelled` of the old state |
| EveryFn.Controller.Reset | src/every.js:69-74 | the fields become `ResetTo` of the old state |
| EveryFn.Controller.Fire | src/every.js:30-45 | the host runs the due timeout and the tick follows |
| EveryFn.Controller.Count | src/every.js:94 | the `count` getter |
| EveryFn.Controller.IsRunning | src/every.js:93 | the `isRunning` getter |
| EveryFn.MakeEvery | src/every.js:22-23 | a bad duration throws its parse error; otherwise a fresh started controller |
| Timers.ValidPreserved | src/TimerBase.js:8-73 | every operation keeps "running exactly while a timeout is pending" |
| Timers.ResumeArmsIff | src/TimerBase.js:47-56 | resume arms exactly when stopped with time left, for the override delay if given, else remaining |
| Timers.PauseResumeShiftsDeadline | src/TimerBase.js:34-56 | pause then resume without override postpone the deadline by exactly the pause |
| Timers.FiredTimerCanRunAgain | src/TimerBase.js:47-56 | expiry leaves remaining untouched, so a later resume arms the same time again |
| Timers.ResetRestoresDuration | src/TimerBase.js:70-73 | reset cancels and restores the whole duration |
| Timers.ReplayAgrees | src/TimerBase.js:34-73 | over any history of calls and expiries without override delays the timer agrees with an independent stopwatch: remaining is the duration less the running time pauses credited, and a running timer is due when the rest is used up |
| Timers.ZeroDurationStaysUnarmed | src/TimerBase.js:47-73 | a timer with a duration of zero or less is never armed by any history of calls, with any callback or override |
| Timers.TimerBase.constructor | src/TimerBase.js:18-21 | a fresh, stopped timer with remaining equal to the duration |
| Timers.TimerBase.IsRunning | src/TimerBase.js:27-29 | the `isRunning` getter |
| Timers.TimerBase.Pause | src/TimerBase.js:34-40 | the fields become `Paused` of the old state |
| Timers.TimerBase.Resume | src/TimerBase.js:47-56 | the fields become `Resumed` of the old state with the given callback and override |
| Timers.TimerBase.Cancel | src/TimerBase.js:61-65 | the fields become `Cancelled` of the old state |
| Timers.TimerBase.Reset | src/TimerBase.js:70-73 | the fields become `Restored` of the old state |
| Timers.TimerBase.Fire | src/TimerBase.js:51-54 | expiry stops the timer and hands back the callback the resume armed |
| Timers.NewTimerBase | src/TimerBase.js:18-21 | a bad duration throws its parse error; otherwise a fresh timer |
| AfterTimers.ConstructedArms | src/AfterTimer.js:13-19 | a positive duration is armed at construction with the timer's own callback |
| AfterTimers.ZeroLengthNeverArms | src/AfterTimer.js:13-19 | a duration of zero or less is not armed at construction nor after any later history of calls, so `fn` and `onFinish` never run |
| AfterTimers.RunningTimeEqualsDuration | src/AfterTimer.js:13-19 | across any history without override delays a running timer is due exactly when the running time pauses credited plus the current run reach the duration |
| AfterTimers.ResumeWithoutCallbackDropsFn | src/TimerBase.js:47-55 | `resume()` without a callback after a pause arms a timeout that runs nothing |
| AfterTimers.ResumeAfterFireRunsAgain | src/AfterTimer.js:15-18 | after expiry the timer is stopped with its duration intact, so resuming with the own callback arms the whole duration again |
| AfterTimers.AfterTimer.constructor | src/AfterTimer.js:13-19 | the base timer is constructed and resumed with the own callback |
| AfterTimers.AfterTimer.IsRunning | src/TimerBase.js:27-29 | the inherited `isRunning` getter |
| AfterTimers.AfterTimer.Pause | src/TimerBase.js:34-40 | the inherited pause on the base state |
| AfterTimers.AfterTimer.Resume | src/TimerBase.js:47-56 | the inherited resume on the base state |
| AfterTimers.AfterTimer.Cancel | src/TimerBase.js:61-65 | the inherited cancel on the base state |
| AfterTimers.AfterTimer.Reset | src/TimerBase.js:70-73 | the inherited reset on the base state |
| AfterTimers.AfterTimer.Fire | src/AfterTimer.js:15-18 | expiry runs the armed callback: `fn` then `onFinish` for the own callback, a user callback alone, or nothing |
| AfterTimers.NewAfterTimer | src/AfterTimer.js:13-14 | a bad duration throws its parse error; otherwise a fresh timer |
| EveryTimers.GoodPreserved | src/EveryTimer.js:8-85 | every operation keeps the controller consistent and `count <= max` |
| EveryTimers.CreatedGood | src/EveryTimer.js:22-32 | construction yields a consistent state |
| EveryTimers.TickPassesCount | src/EveryTimer.js:48-56 | `fn` receives the count before the tick, only below max, and the count grows by one |
| EveryTimers.MissingFnTicksForever | src/EveryTimer.js:54 | without `fn` the count never grows, so below max the timer ticks for ever |
| EveryTimers.RunningWithoutTimeout | src/EveryTimer.js:58-62 | with an interval of zero or less nothing is armed, yet `isRunning` is true |
| EveryTimers.ResumeKeepsPartialInterval | src/EveryTimer.js:64-74 | pause then resume keep the rest of the interval: the deadline moves by the pause |
| EveryTimers.ResetRestarts | src/EveryTimer.js:81-85 | reset cancels and zeroes the count; with restart a whole new interval is armed |
| EveryTimers.ArgumentsCountUp | src/EveryTimer.js:48-56 | over any history without reset `fn` gets count, count + 1, ... in order |
| EveryTimers.ArgumentsFromZero | src/EveryTimer.js:22-56 | from construction until the first reset `fn` has been called with 0, 1, ..., count - 1; over any history the count stays within max |
| EveryTimers.ArgumentsRestartAtZero | src/EveryTimer.js:48-85 | after a reset the arguments start again at zero: since the last reset `fn` has been called with 0, 1, ..., count - 1 |
| EveryTimers.CountStaysWithin | src/EveryTimer.js:48-85 | over any history, resets included, the count stays within max |
| EveryTimers.EveryTimer.constructor | src/EveryTimer.js:22-32 | construction ticks at once with runImmediately, else schedules |
| EveryTimers.EveryTimer.Count | src/EveryTimer.js:37-39 | the `count` getter |
| EveryTimers.EveryTimer.IsRunning | src/EveryTimer.js:44-46 | the `isRunning` getter |
| EveryTimers.EveryTimer.Schedule | src/EveryTimer.js:58-62 | a new base timer, resumed with the tick, and the running flag set |
| EveryTimers.EveryTimer.Tick | src/EveryTimer.js:48-56 | the fields become `Ticked` of the old state, recording the argument `fn` received |
| EveryTimers.EveryTimer.Pause | src/EveryTimer.js:64-67 | pauses the controller, if any, and clears the flag |
| EveryTimers.EveryTimer.Resume | src/EveryTimer.js:69-74 | when stopped and below max, resumes the controller with the tick and sets the flag, whether or not the controller re-armed |
| EveryTimers.EveryTimer.Cancel | src/EveryTimer.js:76-79 | cancels the controller, if any, and clears the flag |
| EveryTimers.EveryTimer.Reset | src/EveryTimer.js:81-85 | cancel, zero the count, and reschedule when asked |
| EveryTimers.EveryTimer.Fire | src/EveryTimer.js:48-62 | the host runs the controller's due timeout and the tick follows |
| EveryTimers.NewEveryTimer | src/EveryTimer.js:22-23 | a bad duration throws its parse error; otherwise a fresh timer |
| Throttle.LeadingIff | src/throttle.js:23-27 | `fn` runs at once exactly when `delay` has passed since the last invocation, which the call then becomes |
| Throttle.TrailingAtWindowEnd | src/throttle.js:28-33 | a call inside the window with trailing on and nothing pending schedules one invocation at lastCall + delay |
| Throttle.SuppressedCallDropped | src/throttle.js:25-34 | any other call inside the window changes nothing |
| Throttle.TrailingUsesSchedulingArgs | src/throttle.js:28-33 | the trailing invocation uses the arguments of the call that scheduled it |
| Throttle.CancelSilencesUntilNextCall | src/throttle.js:29-40 | after a cancel no timeout invokes anything until the next call, and lastCall is kept for that call |
| Throttle.IdleIgnoresFires | src/throttle.js:29-33 | with nothing pending, timeouts change nothing and invoke nothing |
| Throttle.RunKeepsLastCall | src/throttle.js:17-34 | over any history lastCall is the latest invocation and leading invocations are `delay` apart |
| Throttle.LeadingCallsRespectDelay | src/throttle.js:15-34 | from creation every leading invocation is at least `delay` after the previous one |
| Throttle.TrailingCanFollowLeadingAtOnce | src/throttle.js:20-34 | with delay 100 and calls at 150, 200 and 250 and a fire at 250: the calls at 150 and 250 run at once, then the trailing run with the 200-call's arguments follows at the same instant |
| Throttle.Throttled.constructor | src/throttle.js:15-18 | lastCall 0 and nothing pending |
| Throttle.Throttled.Call | src/throttle.js:20-35 | the fields become `Called` of the old state; a leading invocation is recorded |
| Throttle.Throttled.FireTrailing | src/throttle.js:29-33 | the trailing timeout sets lastCall, clears the slot and records the invocation |
| Throttle.Throttled.Cancel | src/throttle.js:37-40 | the fields become `Cancelled` of the old state |
| Throttle.MakeThrottle | src/throttle.js:15-16 | argument and duration errors are raised at creation; otherwise a fresh throttled function |
| Debounce.LastCallWins | src/debounce.js:26-29 | a burst of calls leaves exactly the last call pending, due `delay` after it, with nothing run |
| Debounce.BurstInvokesOnceWithLastArgs | src/debounce.js:26-29 | after a burst `fn` runs once, with the last call's arguments |
| Debounce.CancelPreventsInvocation | src/debounce.js:34-37 | after cancel a fire runs nothing |
| Debounce.Debounced.constructor | src/debounce.js:19-21 | nothing pending |
| Debounce.Debounced.Call | src/debounce.js:26-29 | the pending invocation becomes the new one, due `delay` from now |
| Debounce.Debounced.Fire | src/debounce.js:28 | the due timeout runs `fn` with the pending arguments and clears the slot |
| Debounce.Debounced.Cancel | src/debounce.js:34-37 | nothing pending |
| Debounce.MakeDebounce | src/debounce.js:19-20 | argument and duration errors are raised at creation; otherwise a fresh debounced function |
| FlowSpec.CycleDecreases | src/TimeoutFlow.js:138-238 | every self-call of `executeNext()` is on a smaller state: a jump happens once, a bounded loop restarts finitely often, and each call consumes a gate or moves towards the end |
| FlowSpec.CycleGrows | src/TimeoutFlow.js:138-238 | one call of `executeNext()` never changes or removes a controller, gives new ones fresh ids and only extends the history |
| FlowSpec.DriveStep | src/TimeoutFlow.js:138-238 | one call of `executeNext()` never changes the flags and does nothing while paused or cancelled; past the jump phase it consumes exactly the oldest gate; it calls itself again only with no jump pending |
| FlowSpec.Drive | src/TimeoutFlow.js:138-238 | `executeNext()` to completion keeps existing controllers, the flags, the step count and the id invariant, and only extends the history |
| FlowSpec.StartSpec | src/TimeoutFlow.js:55-62 | `start()` leaves the flow neither paused nor cancelled, keeps every existing controller as it is and only extends the history |
| FlowSpec.PauseSpec | src/TimeoutFlow.js:63-72 | `pause()` does nothing when already paused or cancelled; otherwise it leaves the flow paused, throws exactly when it was running past the last step, calls no user code, creates no controller and changes no step but the one at the cursor |
| FlowSpec.ResumeSpec | src/TimeoutFlow.js:73-86 | `resume()` does nothing unless paused and not cancelled; otherwise it leaves the flow unpaused, throws exactly past the last step or for an after step whose remaining time does not parse, calls no user code and keeps every controller |
| FlowSpec.CancelSpec | src/TimeoutFlow.js:87-92 | `cancel()` always sets the flag, throws exactly past the last step, and otherwise disarms the current step's controller and forgets it |
| FlowSpec.ResetSpec | src/TimeoutFlow.js:93-100 | `reset()` fails as its `cancel()` does; otherwise the steps are replaced by an empty list while labels, gates and controllers stay |
| FlowSpec.FireSpec | src/TimeoutFlow.js:184-230 | a timeout keeps the flags, the id invariant and the history's past; an after controller is left fired, an every controller stays one |
| FlowSpec.ExitStep | src/TimeoutFlow.js:202-206 | a step exit cancels the every controller, leaves its other data alone and only extends the history |
| FlowSpec.LeftEvery | src/TimeoutFlow.js:203-205 | the exit's cancel, forget and advance moves the cursor one step on, changes only that controller's ticker, to cancelled, creates no controller and calls no user code |
| FlowSpec.LeftAfter | src/TimeoutFlow.js:188-189 | the after callback's bookkeeping moves the cursor one step on, leaves the controller fired, keeps the controller ids and the history |
| FlowSpec.Wrapper | src/TimeoutFlow.js:198-227 | the every wrapper keeps the controller an every controller, the id invariant and the history's past |
| FlowSpec.RunStepFn | src/TimeoutFlow.js:209-226 | the wrapper's run of `fn` keeps the controller, the id invariant and the history's past |
| FlowRunner.Runner.constructor | src/TimeoutFlow.js:12-26 | the closure variables start as `flow()` sets them |
| FlowRunner.Runner.After | src/TimeoutFlow.js:29-32 | appends an after step |
| FlowRunner.Runner.Every | src/TimeoutFlow.js:33-45 | appends an every step capturing the pending while/doWhile conditions, and clears them |
| FlowRunner.Runner.Loop | src/TimeoutFlow.js:46-50 | enables looping with the given bound |
| FlowRunner.Runner.OnFinish | src/TimeoutFlow.js:51-54 | sets the finish callback |
| FlowRunner.Runner.Label | src/TimeoutFlow.js:106-109 | maps the name to the index of the next step to be added |
| FlowRunner.Runner.JumpTo | src/TimeoutFlow.js:111-114 | sets the jump target |
| FlowRunner.Runner.If | src/TimeoutFlow.js:116-119 | queues a gate |
| FlowRunner.Runner.Unless | src/TimeoutFlow.js:121-124 | queues a negated gate |
| FlowRunner.Runner.While | src/TimeoutFlow.js:126-129 | sets the pending while condition |
| FlowRunner.Runner.DoWhile | src/TimeoutFlow.js:131-134 | sets the pending doWhile condition |
| FlowRunner.Runner.IsPaused | src/TimeoutFlow.js:102-104 | the `isPaused` getter |
| FlowRunner.Runner.EvalCond | src/TimeoutFlow.js:116-134 | a function condition is called and recorded; a constant is its truthiness; an absent one passes |
| FlowRunner.Runner.JumpPhase | src/TimeoutFlow.js:141-149 | a pending jump moves the cursor and clears the target, or throws with the state untouched |
| FlowRunner.Runner.GatePhase | src/TimeoutFlow.js:152-157 | the oldest gate is removed and evaluated; a failure turns skipping on |
| FlowRunner.Runner.EndPass | src/TimeoutFlow.js:170-181 | the end of a pass restarts the loop or calls the finish callback |
| FlowRunner.Runner.StartStep | src/TimeoutFlow.js:184-230 | the step at the cursor gets a new after or every controller, or its duration error is thrown |
| FlowRunner.Runner.RunCycle | src/TimeoutFlow.js:138-238 | one call of `executeNext()` up to its self-call or its end, as `DriveStep` says |
| FlowRunner.Runner.ExecuteNext | src/TimeoutFlow.js:138-238 | `executeNext()` ends in the state and outcome `Drive` gives |
| FlowRunner.Runner.Start | src/TimeoutFlow.js:55-62 | clears the flags, cursor and loop count, then runs `executeNext()` |
| FlowRunner.Runner.ApplyToCtrl | src/TimeoutFlow.js:67 | a controller operation applies only when the step has a controller |
| FlowRunner.Runner.Pause | src/TimeoutFlow.js:63-72 | as `PauseSpec`: flag set, controller paused, an after step's remaining recorded and its controller cancelled; throws past the end |
| FlowRunner.Runner.Resume | src/TimeoutFlow.js:73-86 | as `ResumeSpec`: an after step gets a new controller for its remaining time, an every step is resumed; throws past the end |
| FlowRunner.Runner.Cancel | src/TimeoutFlow.js:87-92 | as `CancelSpec`: flag set, controller cancelled and forgotten; throws past the end |
| FlowRunner.Runner.Reset | src/TimeoutFlow.js:93-100 | as `ResetSpec`: cancel, then an empty step list, zero cursor and count and no finish callback, unless cancel threw |
| FlowRunner.Runner.ClearOwnerStep | src/TimeoutFlow.js:188 | `step.controller = null` writes only a step still in the list |
| FlowRunner.Runner.LeaveEvery | src/TimeoutFlow.js:203-205 | the fields become `LeftEvery` of the old state |
| FlowRunner.Runner.Exit | src/TimeoutFlow.js:202-207 | the exit of an every step ends as `ExitStep` says |
| FlowRunner.Runner.RunFn | src/TimeoutFlow.js:209-226 | the wrapper's call of `fn` and its doWhile/times checks end as `RunStepFn` says |
| FlowRunner.Runner.RunWrapper | src/TimeoutFlow.js:198-227 | the every wrapper ends as `Wrapper` says |
| FlowRunner.Runner.LeaveAfter | src/TimeoutFlow.js:188-189 | the fields become `LeftAfter` of the old state |
| FlowRunner.Runner.FireAfter | src/TimeoutFlow.js:187-191 | an after controller's timeout ends as `FireSpec` says |
| FlowRunner.Runner.FireEvery | src/TimeoutFlow.js:194-230 | an every controller's tick ends as `FireSpec` says |
| FlowRunner.Runner.Fire | src/TimeoutFlow.js:184-230 | any due controller's timeout ends as `FireSpec` says |
| FlowProps.BlockedIsNoOp | src/TimeoutFlow.js:139 | while paused or cancelled `executeNext()` changes nothing |
| FlowProps.UnknownLabelSticks | src/TimeoutFlow.js:141-147 | a jump to an unknown label throws and keeps the target, so every later start throws again, creating nothing |
| FlowProps.JumpLandsOnLabel | src/TimeoutFlow.js:141-149 | a jump to a known label moves the cursor there, clears the target and starts the labelled step |
| FlowProps.SkipRunsToEnd | src/TimeoutFlow.js:151-168 | once skipping (no loop), no step starts whatever later gates say, constant or function: no controller is created, the cursor reaches the end, skipping ends, only the queued gates' conditions are called and then the finish callback; with constant gates the history gains only that callback |
| FlowProps.FailingGateSkipsRest | src/TimeoutFlow.js:151-168 | a failing head gate (no loop), a function gate as much as a constant one, skips the step at the cursor and every later step of the pass, calling only gate conditions and then the finish callback |
| FlowProps.EmptyTimelineLoops | src/TimeoutFlow.js:170-181 | a bounded loop over no steps ends with the count at max(count + 1, bound) and one finish call |
| FlowProps.StartEmptyLoop | src/TimeoutFlow.js:170-181 | so `start()` of `loop(n)` with no steps counts max(1, n) passes and calls onFinish once, if set |
| FlowProps.EndOfNonEmptyPass | src/TimeoutFlow.js:170-181 | at the end of a pass over steps the loop count grows when looping; the flow restarts at the first step exactly when the new count is below the limit, else the run ends having called onFinish once, if set |
| FlowProps.InfiniteEmptyLoopOverflows | src/TimeoutFlow.js:173-177 | an unbounded loop over no steps never ends: a stack overflow |
| FlowProps.CycleCallsNoStepFn | src/TimeoutFlow.js:138-238 | one call of `executeNext()` calls no step function |
| FlowProps.DriveCallsNoStepFn | src/TimeoutFlow.js:138-238 | `executeNext()` to completion calls no step function |
| FlowProps.StartCallsNoStepFn | src/TimeoutFlow.js:55-62 | `start()` calls no step function |
| FlowProps.AfterStepNeverCallsFn | src/TimeoutFlow.js:184-192 | an after step's timeout never calls any step function, its own `fn` included |
| FlowProps.AfterThenFinish | src/TimeoutFlow.js:184-192 | `after(d, f).onFinish(g)`, started and fired, calls `g` and never `f` |
| FlowProps.EveryTickCallsFn | src/TimeoutFlow.js:198-227 | a tick below times whose `while` and `doWhile` conditions hold (or are absent) calls `fn` once with the wrapper's count, counts, and re-arms; the history gains the conditions' calls around that one `fn` call |
| FlowProps.MissingFnStallsStep | src/TimeoutFlow.js:209-211 | a step without `fn` throws TypeError after counting, and is left running with nothing armed |
| FlowProps.EvalCallsNoStepFn | src/TimeoutFlow.js:117-132 | evaluating a condition only extends the history, and calls no step function |
| FlowProps.WhileExitLeavesTickerArmed | src/TimeoutFlow.js:198-207 | a failing while ends the step without calling `fn` or any step function: the timeline continues from the next step, and the cancelled controller is re-armed by its tick |
| FlowProps.LastCallWrapper | src/TimeoutFlow.js:209-226 | when the doWhile fails or the count reaches times, the wrapper exits the step after the one call of `fn` |
| FlowProps.LastCallExitsStep | src/TimeoutFlow.js:209-226 | then exactly one step function is called, with the wrapper's count, the count grows, the timeline continues from the next step without calling another, and the tick re-arms the controller |
| FlowProps.NonPositiveTimesStalls | src/TimeoutFlow.js:194-230 | an every step with times <= 0 cancels on its first tick, calls nothing, never advances and cannot be resumed |
| FlowProps.PauseRecordsRemaining | src/TimeoutFlow.js:63-72 | pausing an after step records delay - (now - startedAt) |
| FlowProps.ResumeRestartsClock | src/TimeoutFlow.js:73-86 | resuming an after step sets startedAt to now, whether or not its remaining time parses; when it parses, a new controller with the next id, due after the remaining time, is stored on the step |
| FlowProps.ResumedAfterStepAdvances | src/TimeoutFlow.js:77-82 | that controller's timeout moves the cursor past the step and leaves the step pointing at it |
| FlowProps.SecondPauseForgetsFirstRun | src/TimeoutFlow.js:68-70 | a second pause recomputes remaining from the original delay and the last resume, losing the first run |
| FlowProps.PastEndThrows | src/TimeoutFlow.js:63-100 | past the last step pause, resume and cancel set their flag and throw; reset stops at that throw |
| FlowProps.ResetKeepsConfiguration | src/TimeoutFlow.js:93-100 | reset empties the steps and clears onFinish, cursor and loop count, but keeps labels, gates, jump, skip flag, loop settings, conditions and controller ids, and leaves the flow cancelled |
| FlowProps.RemainingAgreesWithParser | src/TimeoutFlow.js:79 | the remaining time as "…ms" text parses to its value for a numeral, and is rejected when negative, a value no string parses to |
| FlowProps.ControlsKeepIds | src/TimeoutFlow.js:55-100 | start, pause, resume, cancel and reset keep controller ids below the next id |
| FlowProps.FireKeepsIds | src/TimeoutFlow.js:184-230 | so does every timeout, so the runner's requirement holds from `flow()` on |

## Left out

- Clock and host timers: `Date.now()` is a parameter and `setTimeout`/`clearTimeout` are pending deadlines. The host's clamp of delays above 2147483647 ms is not modelled; negative delays are clamped to zero.
- Floating point: durations and times are exact reals. `parseFloat` and IEEE rounding are not modelled.
- FlowSpec.RemainingAsDuration: accepts every non-negative remaining time. JavaScript writes very small and very large numbers in exponent notation, which the duration parser rejects, so this is weaker than the source for those values.
- User code is opaque. A predicate or step function that throws, or that calls back into the runner or the timers, is not modelled. The missing step `fn` of `every` in the timeline is modelled as a TypeError.
- Non-function values passed where a callback is expected (`fn`, `onFinish`, predicates aside) are not modelled beyond "absent".
- `every.js` calls `fn()` without a guard. A missing `fn` there, which throws on every tick, is not modelled: `EveryFn` assumes a function.
- The `this` binding that `throttle` and `debounce` forward to `fn` is not modelled, since it does not affect timing.
- `loop()` with an argument that is neither `true` nor a number, `every` with a non-numeric `times`, and `label`/`jumpTo` with non-string names are not modelled.
- The `label`-type step branches of `executeNext()` are not modelled: the stop-at-label check and the label dispatch are unreachable, because `label()` never adds a step.
- Stack depth: only the unbounded empty loop ends in a stack overflow. The state it leaves behind depends on the depth reached, so the model stops at the first restart. Long finite chains of self-calls are treated as completing.
- A `remaining` computed from an unset `delay` (NaN) is collapsed into "unset".
- FlowProps.SkipRunsToEnd and FlowProps.FailingGateSkipsRest: stated for a flow without `loop()`. With a loop the skipping still reaches the end of the pass, but what happens there (another pass or the finish) is stated only for an empty gate queue, by `FlowProps.EndOfNonEmptyPass`.
- NaN as a limit is not modelled: `Limit` holds an integer or `Infinity`, and a fractional limit is its ceiling (`Values.CeilLimit`). This affects `max` of `EveryFn` and `EveryTimers`, `times` of `FlowSpec.WithEvery`, and `n` of `FlowSpec.WithLoop`. With a NaN `max`, every tick calls `fn`, because `count >= max` is false, and `resume` never re-arms, because `count < max` is false. No `Limit` behaves like that. A NaN `times` in the timeline does the same to the step's controller, and the step never ends by reaching `times`. A NaN `loop(n)` never restarts, which is `Finite(0)`.
- The animation-frame variants, `retry`, `waitFor`, `TimeoutSequence`, the index module, build scripts and type declarations are not part of this model.
