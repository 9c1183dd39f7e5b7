/** `EveryTimer` (src/EveryTimer.js): a repeating timer that creates a fresh `TimerBase` for
    every interval and calls `fn(count++)` on each tick while `count < max`. `EveryState` is its
    private fields with the current controller's state in place of the controller. */
module EveryTimers {
  import opened Values
  import opened Durations
  import Timers

  datatype EveryState = EveryState(
    interval: real,
    hasFn: bool,                // whether `fn` is a function
    max: Limit,
    count: nat,
    running: bool,
    controller: Option<Timers.BaseState>)

  /** `controller?.f()`: applies `f` to the controller if there is one. */
  function MapController(c: Option<Timers.BaseState>, f: Timers.BaseState -> Timers.BaseState): Option<Timers.BaseState>
  {
    if c.Some? then Some(f(c.value)) else None
  }

  /** `#schedule()`: a fresh controller for a whole interval, resumed with `tick`. */
  function Scheduled(s: EveryState, now: real): EveryState
  {
    s.(controller := Some(Timers.Resumed(Timers.Fresh(s.interval), Some(Timers.Own), None, now)), running := true)
  }

  /** A tick's result: the new state and the argument `fn` was called with, if it was called. */
  datatype Tick = Tick(state: EveryState, arg: Option<nat>)

  /** `#tick`: at `max` it cancels; otherwise `fn?.(count++)`, which skips the increment when
      `fn` is missing, then `#schedule()`. */
  function Ticked(s: EveryState, now: real): Tick
  {
    if !Below(s.count, s.max) then Tick(Cancelled(s), None)
    else if s.hasFn then Tick(Scheduled(s.(count := s.count + 1), now), Some(s.count))
    else Tick(Scheduled(s, now), None)
  }

  function Cancelled(s: EveryState): EveryState
  {
    s.(controller := MapController(s.controller, Timers.Cancelled), running := false)
  }

  function Paused(s: EveryState, now: real): EveryState
  {
    s.(controller := MapController(s.controller, c => Timers.Paused(c, now)), running := false)
  }

  /** Resume sets `running` below `max` whether or not the controller agrees to re-arm. */
  function Resumed(s: EveryState, now: real): EveryState
  {
    if !s.running && Below(s.count, s.max) then
      s.(controller := MapController(s.controller, c => Timers.Resumed(c, Some(Timers.Own), None, now)), running := true)
    else s
  }

  function ResetTo(s: EveryState, restart: bool, now: real): EveryState
  {
    var c := Cancelled(s).(count := 0);
    if restart then Scheduled(c, now) else c
  }

  function Created(interval: real, hasFn: bool, max: Limit, runImmediately: bool, now: real): Tick
  {
    var s := EveryState(interval, hasFn, max, 0, false, None);
    if runImmediately then Ticked(s, now) else Tick(Scheduled(s, now), None)
  }

  /** Whether the current controller has a timeout armed. */
  predicate Armed(s: EveryState)
  {
    s.controller.Some? && s.controller.value.pending.Some?
  }

  /** The controller's timeout expires; `tick` follows. */
  function Expired(s: EveryState): EveryState
    requires Armed(s)
  {
    s.(controller := Some(Timers.Fired(s.controller.value)))
  }

  // ---------------------------------------------------------------------------------------
  // Properties

  /** The controller is a valid `TimerBase` running `tick`; an armed timeout means the timer is
      running; `count` stays within `max`. */
  ghost predicate Good(s: EveryState)
  {
    (s.controller.Some? ==> Timers.Valid(s.controller.value) && s.controller.value.ms == s.interval &&
                            (s.controller.value.pending.Some? ==> s.controller.value.pending.value.callback == Some(Timers.Own))) &&
    (Armed(s) ==> s.running) &&
    (s.max.Finite? ==> s.count <= (if s.max.n < 0 then 0 else s.max.n))
  }

  lemma GoodPreserved(s: EveryState, restart: bool, now: real)
    requires Good(s)
    ensures Good(Paused(s, now)) && Good(Resumed(s, now)) && Good(Cancelled(s))
    ensures Good(ResetTo(s, restart, now))
    ensures Armed(s) ==> Good(Ticked(Expired(s), now).state)
  {
  }

  lemma CreatedGood(interval: real, hasFn: bool, max: Limit, runImmediately: bool, now: real)
    ensures Good(Created(interval, hasFn, max, runImmediately, now).state)
  {
  }

  /** `fn` receives the count before the tick and is called only below `max`. */
  lemma TickPassesCount(s: EveryState, now: real)
    ensures Ticked(s, now).arg.Some? <==> s.hasFn && Below(s.count, s.max)
    ensures Ticked(s, now).arg.Some? ==> Ticked(s, now).arg.value == s.count &&
                                         Ticked(s, now).state.count == s.count + 1
  {
  }

  /** Without `fn` the count never grows, so below `max` the timer ticks for ever. */
  lemma MissingFnTicksForever(s: EveryState, now: real)
    requires !s.hasFn && Below(s.count, s.max)
    ensures Ticked(s, now).state.count == s.count && Ticked(s, now).state.running
    ensures Below(Ticked(s, now).state.count, Ticked(s, now).state.max)
  {
  }

  /** With an interval of zero or less the controller never arms, yet `isRunning` is true. */
  lemma RunningWithoutTimeout(interval: real, hasFn: bool, max: Limit, now: real)
    requires interval <= 0.0
    ensures var s := Created(interval, hasFn, max, false, now).state;
            s.running && !Armed(s)
  {
  }

  /** Pause then resume keeps what was left of the interval rather than starting a fresh one:
      the deadline moves by exactly the pause. */
  lemma ResumeKeepsPartialInterval(s: EveryState, t1: real, t2: real)
    requires Good(s) && Armed(s) && Below(s.count, s.max)
    requires s.controller.value.pending.value.due ==
               Deadline(s.controller.value.startTime, s.controller.value.remaining)
    requires s.controller.value.startTime <= t1 < s.controller.value.pending.value.due
    ensures var r := Resumed(Paused(s, t1), t2);
            r.running && r.controller.Some? &&
            r.controller.value.pending == Some(Timers.Pending(s.controller.value.pending.value.due + (t2 - t1), Some(Timers.Own)))
  {
  }

  /** Reset cancels and zeroes the count, and with `restart` schedules a whole new interval. */
  lemma ResetRestarts(s: EveryState, now: real)
    ensures var r := ResetTo(s, false, now);
            r.count == 0 && !r.running && !Armed(r)
    ensures s.interval > 0.0 ==>
              ResetTo(s, true, now).count == 0 &&
              ResetTo(s, true, now).controller == Some(Timers.Resumed(Timers.Fresh(s.interval), Some(Timers.Own), None, now))
  {
  }

  // ---------------------------------------------------------------------------------------
  // The arguments `fn` receives over a history

  datatype Event = FireAt(t: real) | PauseAt(t: real) | ResumeAt(t: real) | CancelNow | ResetNow(restart: bool, t: real)

  function Step(s: EveryState, e: Event): Tick
  {
    match e
    case FireAt(t) => if Armed(s) then Ticked(Expired(s), t) else Tick(s, None)
    case PauseAt(t) => Tick(Paused(s, t), None)
    case ResumeAt(t) => Tick(Resumed(s, t), None)
    case CancelNow => Tick(Cancelled(s), None)
    case ResetNow(restart, t) => Tick(ResetTo(s, restart, t), None)
  }

  datatype Run = Run(state: EveryState, args: seq<nat>)

  function RunAll(s: EveryState, evs: seq<Event>): Run
    decreases |evs|
  {
    if evs == [] then Run(s, [])
    else
      var t := Step(s, evs[0]);
      var r := RunAll(t.state, evs[1..]);
      Run(r.state, (if t.arg.Some? then [t.arg.value] else []) + r.args)
  }

  /** The number of `reset()` calls in a history. */
  function Resets(evs: seq<Event>): (r: nat)
    ensures r <= |evs|
    decreases |evs|
  {
    if evs == [] then 0 else (if evs[0].ResetNow? then 1 else 0) + Resets(evs[1..])
  }

  /** `lo, lo + 1, …, hi - 1`. */
  function Range(lo: nat, hi: nat): (r: seq<nat>)
    requires lo <= hi
    ensures |r| == hi - lo && forall i :: 0 <= i < |r| ==> r[i] == lo + i
    decreases hi - lo
  {
    if lo == hi then [] else [lo] + Range(lo + 1, hi)
  }

  /** Over any history without reset, `fn` is called with `count, count + 1, …` in order, one
      argument per counted tick. */
  lemma {:induction false} ArgumentsCountUp(s: EveryState, evs: seq<Event>)
    requires Resets(evs) == 0
    ensures s.count <= RunAll(s, evs).state.count
    ensures RunAll(s, evs).args == Range(s.count, RunAll(s, evs).state.count)
    decreases |evs|
  {
    if evs != [] {
      var t := Step(s, evs[0]);
      ArgumentsCountUp(t.state, evs[1..]);
      var r := RunAll(t.state, evs[1..]);
      if t.arg.Some? {
        assert t.arg.value == s.count && t.state.count == s.count + 1;
        assert [s.count] + Range(s.count + 1, r.state.count) == Range(s.count, r.state.count);
      } else {
        assert t.state.count == s.count;
      }
    }
  }

  /** A history run in two parts. */
  lemma {:induction false} RunAllAppend(s: EveryState, xs: seq<Event>, ys: seq<Event>)
    ensures var r := RunAll(s, xs);
            RunAll(s, xs + ys) == Run(RunAll(r.state, ys).state, r.args + RunAll(r.state, ys).args)
    decreases |xs|
  {
    if xs == [] {
      assert xs + ys == ys;
    } else {
      var t := Step(s, xs[0]);
      assert (xs + ys)[0] == xs[0] && (xs + ys)[1..] == xs[1..] + ys;
      RunAllAppend(t.state, xs[1..], ys);
      var h := if t.arg.Some? then [t.arg.value] else [];
      var r1 := RunAll(t.state, xs[1..]);
      var r2 := RunAll(r1.state, ys);
      assert h + (r1.args + r2.args) == (h + r1.args) + r2.args;
    }
  }

  /** After a `reset()` the arguments start again from zero: since the last reset `fn` has been
      called with `0, 1, …, count - 1`. */
  lemma ArgumentsRestartAtZero(s: EveryState, pre: seq<Event>, restart: bool, t: real, post: seq<Event>)
    requires Resets(post) == 0
    ensures var evs := pre + [ResetNow(restart, t)] + post;
            var m := RunAll(s, pre);
            RunAll(s, evs).args == m.args + Range(0, RunAll(s, evs).state.count)
  {
    var m := RunAll(s, pre);
    var z := ResetTo(m.state, restart, t);
    RunAllAppend(s, pre, [ResetNow(restart, t)] + post);
    assert pre + [ResetNow(restart, t)] + post == pre + ([ResetNow(restart, t)] + post);
    assert ([ResetNow(restart, t)] + post)[1..] == post;
    assert RunAll(m.state, [ResetNow(restart, t)] + post) == RunAll(z, post);
    ArgumentsCountUp(z, post);
  }

  /** So a timer created with `fn` has, until its first reset, called it with `0, 1, …,
      count - 1`, hence at most `max` times; `ArgumentsRestartAtZero` starts that sequence again
      after each reset, and the count stays within `max` whatever the history. */
  lemma ArgumentsFromZero(interval: real, max: Limit, runImmediately: bool, now: real, evs: seq<Event>)
    ensures var c := Created(interval, true, max, runImmediately, now);
            var r := RunAll(c.state, evs);
            Resets(evs) == 0 ==> (if c.arg.Some? then [c.arg.value] else []) + r.args == Range(0, r.state.count)
    ensures var r := RunAll(Created(interval, true, max, runImmediately, now).state, evs);
            max.Finite? ==> r.state.count <= (if max.n < 0 then 0 else max.n)
  {
    var c := Created(interval, true, max, runImmediately, now);
    var r := RunAll(c.state, evs);
    CountStaysWithin(c.state, evs);
    if Resets(evs) == 0 {
      ArgumentsCountUp(c.state, evs);
      if c.arg.Some? {
        assert [0] + Range(1, r.state.count) == Range(0, r.state.count);
      }
    }
  }

  /** Over any history, resets included, `count` stays within `max`. */
  lemma {:induction false} CountStaysWithin(s: EveryState, evs: seq<Event>)
    requires s.max.Finite? ==> s.count <= (if s.max.n < 0 then 0 else s.max.n)
    ensures RunAll(s, evs).state.max == s.max
    ensures s.max.Finite? ==> RunAll(s, evs).state.count <= (if s.max.n < 0 then 0 else s.max.n)
    decreases |evs|
  {
    if evs != [] {
      CountStaysWithin(Step(s, evs[0]).state, evs[1..]);
    }
  }

  // ---------------------------------------------------------------------------------------
  // The class

  class EveryTimer {
    const interval: real
    const fn: Option<nat>
    const max: Limit
    var count: nat
    var running: bool
    var controller: Timers.TimerBase?
    var calls: seq<nat>          // the arguments `fn` was called with, in order

    function State(): EveryState
      reads this, controller
    {
      EveryState(interval, fn.Some?, max, count, running,
                 if controller == null then None else Some(controller.State()))
    }

    /** The constructor once `parseDuration` has succeeded; see `NewEveryTimer`. */
    constructor (interval: real, fn: Option<nat>, max: Limit, runImmediately: bool, now: real)
      ensures State() == Created(interval, fn.Some?, max, runImmediately, now).state
      ensures var a := Created(interval, fn.Some?, max, runImmediately, now).arg;
              calls == if a.Some? then [a.value] else []
      ensures this.fn == fn && (controller != null ==> fresh(controller))
    {
      this.interval := interval;
      this.fn := fn;
      this.max := max;
      count := 0;
      running := false;
      controller := null;
      calls := [];
      new;
      if runImmediately {
        Tick(now);
      } else {
        Schedule(now);
      }
    }

    function Count(): (r: nat)
      reads this
      ensures r == count
    {
      count
    }

    function IsRunning(): (r: bool)
      reads this
      ensures r == running
    {
      running
    }

    method Schedule(now: real)
      modifies this
      ensures State() == Scheduled(old(State()), now) && fresh(controller) && calls == old(calls)
    {
      var c := new Timers.TimerBase(interval);
      controller := c;
      running := true;
      c.Resume(Some(Timers.Own), None, now);
    }

    method Tick(now: real)
      modifies this, controller
      ensures State() == Ticked(old(State()), now).state
      ensures var a := Ticked(old(State()), now).arg;
              calls == old(calls) + if a.Some? then [a.value] else []
      ensures controller != old(controller) ==> fresh(controller)
    {
      if !Below(count, max) {
        Cancel();
        return;
      }
      if fn.Some? {
        calls := calls + [count];
        count := count + 1;
      }
      Schedule(now);
    }

    method Pause(now: real)
      modifies this, controller
      ensures State() == Paused(old(State()), now) && calls == old(calls) && controller == old(controller)
    {
      if controller != null {
        controller.Pause(now);
      }
      running := false;
    }

    method Resume(now: real)
      modifies this, controller
      ensures State() == Resumed(old(State()), now) && calls == old(calls) && controller == old(controller)
    {
      if !running && Below(count, max) {
        if controller != null {
          controller.Resume(Some(Timers.Own), None, now);
        }
        running := true;
      }
    }

    method Cancel()
      modifies this, controller
      ensures State() == Cancelled(old(State())) && calls == old(calls) && controller == old(controller)
    {
      if controller != null {
        controller.Cancel();
      }
      running := false;
    }

    method Reset(restart: bool, now: real)
      modifies this, controller
      ensures State() == ResetTo(old(State()), restart, now) && calls == old(calls)
      ensures controller != old(controller) ==> fresh(controller)
    {
      Cancel();
      count := 0;
      if restart {
        Schedule(now);
      }
    }

    /** The controller's timeout expires: it stops, then `tick` runs. */
    method Fire(now: real)
      requires controller != null && controller.pending.Some? && now >= controller.pending.value.due
      modifies this, controller
      ensures State() == Ticked(Expired(old(State())), now).state
      ensures var a := Ticked(Expired(old(State())), now).arg;
              calls == old(calls) + if a.Some? then [a.value] else []
    {
      var _ := controller.Fire(now);
      Tick(now);
    }
  }

  /** `new EveryTimer(duration, fn, max, runImmediately)`: a bad duration throws first. */
  method NewEveryTimer(duration: Value, fn: Option<nat>, max: Limit, runImmediately: bool, now: real)
    returns (r: Result<EveryTimer>)
    ensures ParseDuration(duration).Err? ==> r == Err(ParseDuration(duration).error)
    ensures ParseDuration(duration).Ok? ==>
              r.Ok? && fresh(r.value) &&
              r.value.State() == Created(ParseDuration(duration).value, fn.Some?, max, runImmediately, now).state
  {
    match ParseDuration(duration)
    case Err(e) =>
      r := Err(e);
    case Ok(ms) =>
      var t := new EveryTimer(ms, fn, max, runImmediately, now);
      r := Ok(t);
  }
}
