/** The repeating timer `every(duration, fn, max, runImmediately)` (src/every.js). As for
    `after()`, the closure variables are the fields of `TickerState`, the functions below are its
    transitions, and `Controller` is the object whose methods perform them. A tick calls `fn`
    only while `count < max`, and re-arms after `fn` returns. */
module EveryFn {
  import opened Values
  import opened Durations

  datatype TickerState = TickerState(
    ms: real,               // the parsed interval
    max: Limit,
    count: nat,             // ticks that called fn
    remaining: real,        // what is left of the current interval
    running: bool,
    startTime: real,        // start of the current interval (null, read as 0, before the first)
    timer: Option<real>)    // the deadline of the armed host timeout, if any

  function Initial(ms: real, max: Limit): TickerState
  {
    TickerState(ms, max, 0, ms, false, 0.0, None)
  }

  /** `scheduleNext()`: a fresh full interval. */
  function Rescheduled(s: TickerState, now: real): TickerState
  {
    s.(timer := Some(Deadline(now, s.ms)), startTime := now, remaining := s.ms, running := true)
  }

  function Paused(s: TickerState, now: real): TickerState
  {
    if s.running then s.(timer := None, remaining := s.remaining - (now - s.startTime), running := false)
    else s
  }

  /** Resume re-arms for the unelapsed part of the interval, only below `max`. */
  function Resumed(s: TickerState, now: real): TickerState
  {
    if !s.running && Below(s.count, s.max) && s.remaining > 0.0 then
      s.(startTime := now, timer := Some(Deadline(now, s.remaining)), running := true)
    else s
  }

  function Cancelled(s: TickerState): TickerState
  {
    s.(timer := None, running := false)
  }

  /** What `tick` does once `fn` has returned: count the call, then `scheduleNext()`. */
  function AfterCall(s: TickerState, now: real): TickerState
  {
    Rescheduled(s.(count := s.count + 1), now)
  }

  /** The state after a tick, and whether the tick called `fn`. */
  datatype Ticking = Ticking(state: TickerState, called: bool)

  function Ticked(s: TickerState, now: real): Ticking
  {
    if !Below(s.count, s.max) then Ticking(Cancelled(s), false)
    else Ticking(AfterCall(s, now), true)
  }

  /** The host timeout has run: it is no longer armed; `tick` follows. */
  function Expired(s: TickerState): TickerState
    requires s.timer.Some?
  {
    s.(timer := None)
  }

  function Started(s: TickerState, runImmediately: bool, now: real): Ticking
  {
    if runImmediately then Ticked(s, now) else Ticking(Rescheduled(s, now), false)
  }

  function ResetTo(s: TickerState, restart: bool, runImmediately: bool, now: real): Ticking
  {
    var cleared := Cancelled(s).(count := 0, remaining := s.ms);
    if restart then Started(cleared, runImmediately, now) else Ticking(cleared, false)
  }

  function Create(ms: real, max: Limit, runImmediately: bool, now: real): Ticking
  {
    Started(Initial(ms, max), runImmediately, now)
  }

  // ---------------------------------------------------------------------------------------
  // Properties

  /** A timeout is armed exactly while the timer runs, due when the interval's rest is used up. */
  ghost predicate Timed(s: TickerState)
  {
    (s.running <==> s.timer.Some?) &&
    (s.timer.Some? ==> s.timer.value == Deadline(s.startTime, s.remaining))
  }

  /** `count` never passes `max` (nor zero, when `max` is negative). */
  ghost predicate CountWithin(s: TickerState)
  {
    s.max.Finite? ==> s.count <= (if s.max.n < 0 then 0 else s.max.n)
  }

  ghost predicate Good(s: TickerState)
  {
    Timed(s) && CountWithin(s)
  }

  /** Every transition keeps `Good`; a tick produces a good state even from the state the host
      leaves while the tick runs. */
  lemma GoodPreserved(s: TickerState, restart: bool, runImmediately: bool, now: real)
    requires Good(s)
    ensures Good(Paused(s, now)) && Good(Resumed(s, now)) && Good(Cancelled(s))
    ensures Good(ResetTo(s, restart, runImmediately, now).state)
    ensures s.timer.Some? ==> Good(Ticked(Expired(s), now).state)
    ensures forall ms, max :: Good(Create(ms, max, runImmediately, now).state)
  {
  }

  /** `fn` is called exactly when `count < max`, and `count` then grows by exactly one. */
  lemma CallsOnlyBelowMax(s: TickerState, now: real)
    ensures Ticked(s, now).called <==> Below(s.count, s.max)
    ensures Ticked(s, now).state.count == s.count + (if Ticked(s, now).called then 1 else 0)
    ensures !Ticked(s, now).called ==> !Ticked(s, now).state.running
  {
  }

  /** A `cancel()` (or `pause()`) issued from inside `fn` is undone, because the tick re-arms
      after `fn` returns. */
  lemma ControlInsideCallbackIsOverridden(s: TickerState, now: real, t: real)
    ensures AfterCall(Cancelled(s), now) == AfterCall(s, now)
    ensures AfterCall(Paused(s, t), now) == AfterCall(s, now)
    ensures AfterCall(s, now).running && AfterCall(s, now).timer.Some?
  {
  }

  /** After the `max`-th call one more tick is armed; when it runs it cancels without calling. */
  lemma LastCallArmsOneMoreTick(s: TickerState, n: int, now: real, later: real)
    requires s.max == Finite(n) && s.count + 1 == n
    ensures Ticked(s, now).called
    ensures var a := Ticked(s, now).state;
            a.running && a.timer.Some? && a.count == n &&
            Ticked(Expired(a), later) == Ticking(Cancelled(a), false)
  {
  }

  /** A pause keeps the unelapsed part of the interval: pause at `t1` and resume at `t2` postpone
      the deadline by exactly the pause. */
  lemma PauseResumeShiftsDeadline(s: TickerState, t1: real, t2: real)
    requires Timed(s) && s.running && Below(s.count, s.max)
    requires s.startTime <= t1 < s.timer.value
    ensures Resumed(Paused(s, t1), t2).timer == Some(s.timer.value + (t2 - t1))
  {
  }

  /** Resume re-arms exactly when not running, below `max`, with time left in the interval. */
  lemma ResumeArmsIff(s: TickerState, now: real)
    ensures (!s.running && Below(s.count, s.max) && s.remaining > 0.0) <==> Resumed(s, now) != s
  {
  }

  /** With `runImmediately` the first tick happens at start, calling `fn` if `max > 0`; without
      it the first tick is one interval away. */
  lemma RunImmediately(ms: real, max: Limit, now: real)
    ensures Create(ms, max, true, now).called <==> Below(0, max)
    ensures !Create(ms, max, false, now).called
    ensures Create(ms, max, false, now).state.timer == Some(Deadline(now, ms))
  {
  }

  /** Reset cancels, zeroes `count`, restores the full interval, and restarts only if asked. */
  lemma ResetRestarts(s: TickerState, restart: bool, runImmediately: bool, now: real)
    ensures !restart ==> ResetTo(s, restart, runImmediately, now) ==
                           Ticking(s.(count := 0, remaining := s.ms, running := false, timer := None), false)
    ensures restart ==> ResetTo(s, restart, runImmediately, now) ==
                          Started(Initial(s.ms, s.max).(startTime := s.startTime), runImmediately, now)
  {
  }

  // ---------------------------------------------------------------------------------------
  // Counting calls over a history of events

  datatype Event = FireAt(t: real) | PauseAt(t: real) | ResumeAt(t: real) | CancelNow | ResetNow(restart: bool, t: real)

  /** One event; the host can only fire an armed timeout. `runImmediately` is the creation
      argument that `reset(true)` reuses. */
  function Step(s: TickerState, runImmediately: bool, e: Event): Ticking
  {
    match e
    case FireAt(t) => if s.timer.Some? then Ticked(Expired(s), t) else Ticking(s, false)
    case PauseAt(t) => Ticking(Paused(s, t), false)
    case ResumeAt(t) => Ticking(Resumed(s, t), false)
    case CancelNow => Ticking(Cancelled(s), false)
    case ResetNow(restart, t) => ResetTo(s, restart, runImmediately, t)
  }

  /** The end state, the number of calls of `fn`, and the counts that resets set back to zero. */
  datatype Run = Run(state: TickerState, calls: nat, dropped: nat)

  function RunAll(s: TickerState, runImmediately: bool, evs: seq<Event>): Run
    decreases |evs|
  {
    if evs == [] then Run(s, 0, 0)
    else
      var t := Step(s, runImmediately, evs[0]);
      var r := RunAll(t.state, runImmediately, evs[1..]);
      Run(r.state, r.calls + (if t.called then 1 else 0), r.dropped + (if evs[0].ResetNow? then s.count else 0))
  }

  /** The number of `reset()` calls in a history. */
  function Resets(evs: seq<Event>): (r: nat)
    ensures r <= |evs|
    decreases |evs|
  {
    if evs == [] then 0 else (if evs[0].ResetNow? then 1 else 0) + Resets(evs[1..])
  }

  /** `max` as a bound on the count: a negative one allows no call. */
  function Cap(n: int): nat
  {
    if n < 0 then 0 else n
  }

  lemma MulSucc(k: nat, r: nat)
    ensures k * (r + 1) == k * r + k
  {
  }

  /** One event counts its call, or sets the count back to zero when it is a reset. */
  lemma StepCounts(s: TickerState, runImmediately: bool, e: Event)
    requires CountWithin(s)
    ensures var t := Step(s, runImmediately, e);
            CountWithin(t.state) && t.state.max == s.max && t.state.ms == s.ms &&
            t.state.count == (if e.ResetNow? then 0 else s.count) + (if t.called then 1 else 0)
  {
  }

  /** Over any history, `count` grows by exactly the number of calls less what the resets set
      back to zero, and never passes `max`. Each reset drops at most `max`, and without a reset
      nothing is dropped. */
  lemma {:induction false} CountEqualsCalls(s: TickerState, runImmediately: bool, evs: seq<Event>)
    requires CountWithin(s)
    ensures var r := RunAll(s, runImmediately, evs);
            r.state.count + r.dropped == s.count + r.calls &&
            CountWithin(r.state) && r.state.max == s.max && r.state.ms == s.ms
    ensures Resets(evs) == 0 ==> RunAll(s, runImmediately, evs).dropped == 0
    ensures s.max.Finite? ==> RunAll(s, runImmediately, evs).dropped <= Cap(s.max.n) * Resets(evs)
    decreases |evs|
  {
    if evs != [] {
      var t := Step(s, runImmediately, evs[0]);
      StepCounts(s, runImmediately, evs[0]);
      CountEqualsCalls(t.state, runImmediately, evs[1..]);
      if s.max.Finite? && evs[0].ResetNow? {
        assert Resets(evs) == Resets(evs[1..]) + 1;
        MulSucc(Cap(s.max.n), Resets(evs[1..]));
      }
    }
  }

  /** Hence a timer created with `max = n` calls `fn` at most `n` times before its first
      `reset()`, and each reset lets it call `fn` up to `n` more times. */
  lemma CallsAtMostMax(ms: real, n: int, runImmediately: bool, now: real, evs: seq<Event>)
    ensures var c := Create(ms, Finite(n), runImmediately, now);
            (if c.called then 1 else 0) + RunAll(c.state, runImmediately, evs).calls <= Cap(n) * (Resets(evs) + 1)
  {
    var c := Create(ms, Finite(n), runImmediately, now);
    CountEqualsCalls(c.state, runImmediately, evs);
    MulSucc(Cap(n), Resets(evs));
  }

  /** `every(10, fn, 1)`: one tick calls `fn`, `reset(true)` restarts, and the next tick calls
      `fn` again. */
  lemma ResetLetsFnRunAgain()
    ensures var c := Create(10.0, Finite(1), false, 0.0);
            !c.called && RunAll(c.state, false, [FireAt(10.0), ResetNow(true, 10.0), FireAt(20.0)]).calls == 2
  {
    var c := Create(10.0, Finite(1), false, 0.0);
    var s1 := Ticked(Expired(c.state), 10.0).state;
    var s2 := ResetTo(s1, true, false, 10.0).state;
    assert s2.timer == Some(20.0);
    var evs := [FireAt(10.0), ResetNow(true, 10.0), FireAt(20.0)];
    assert evs[1..] == [ResetNow(true, 10.0), FireAt(20.0)] && evs[1..][1..] == [FireAt(20.0)];
    assert RunAll(s2, false, [FireAt(20.0)]).calls == 1;
  }

  // ---------------------------------------------------------------------------------------
  // The returned controller

  /** The object `every()` returns, with the closure's variables as fields; `calls` counts the
      calls of `fn`. */
  class Controller {
    const ms: real
    const max: Limit
    const runImmediately: bool
    var count: nat
    var remaining: real
    var running: bool
    var startTime: real
    var timer: Option<real>
    var calls: nat

    function State(): TickerState
      reads this
    {
      TickerState(ms, max, count, remaining, running, startTime, timer)
    }

    constructor (ms: real, max: Limit, runImmediately: bool, now: real)
      ensures State() == Create(ms, max, runImmediately, now).state
      ensures calls == if Create(ms, max, runImmediately, now).called then 1 else 0
      ensures this.runImmediately == runImmediately
    {
      this.ms := ms;
      this.max := max;
      this.runImmediately := runImmediately;
      count := 0;
      remaining := ms;
      running := false;
      startTime := 0.0;
      timer := None;
      calls := 0;
      new;
      Start(now);
    }

    method ScheduleNext(now: real)
      modifies this
      ensures State() == Rescheduled(old(State()), now) && calls == old(calls)
    {
      timer := Some(Deadline(now, ms));
      startTime := now;
      remaining := ms;
      running := true;
    }

    method Tick(now: real)
      modifies this
      ensures State() == Ticked(old(State()), now).state
      ensures calls == old(calls) + if Ticked(old(State()), now).called then 1 else 0
    {
      if !Below(count, max) {
        Cancel();
        return;
      }
      calls := calls + 1;
      count := count + 1;
      ScheduleNext(now);
    }

    method Start(now: real)
      modifies this
      ensures State() == Started(old(State()), runImmediately, now).state
      ensures calls == old(calls) + if Started(old(State()), runImmediately, now).called then 1 else 0
    {
      if runImmediately {
        Tick(now);
      } else {
        ScheduleNext(now);
      }
    }

    method Pause(now: real)
      modifies this
      ensures State() == Paused(old(State()), now) && calls == old(calls)
    {
      if running {
        timer := None;
        remaining := remaining - (now - startTime);
        running := false;
      }
    }

    method Resume(now: real)
      modifies this
      ensures State() == Resumed(old(State()), now) && calls == old(calls)
    {
      if !running && Below(count, max) && remaining > 0.0 {
        startTime := now;
        timer := Some(Deadline(now, remaining));
        running := true;
      }
    }

    method Cancel()
      modifies this
      ensures State() == Cancelled(old(State())) && calls == old(calls)
    {
      timer := None;
      running := false;
    }

    method Reset(restart: bool, now: real)
      modifies this
      ensures State() == ResetTo(old(State()), restart, runImmediately, now).state
      ensures calls == old(calls) + if ResetTo(old(State()), restart, runImmediately, now).called then 1 else 0
    {
      Cancel();
      count := 0;
      remaining := ms;
      if restart {
        Start(now);
      }
    }

    /** The host runs the armed timeout. */
    method Fire(now: real)
      requires timer.Some? && now >= timer.value
      modifies this
      ensures State() == Ticked(Expired(old(State())), now).state
      ensures calls == old(calls) + if Ticked(Expired(old(State())), now).called then 1 else 0
    {
      timer := None;
      Tick(now);
    }

    function Count(): (r: nat)
      reads this
      ensures r == State().count
    {
      count
    }

    function IsRunning(): (r: bool)
      reads this
      ensures r == State().running
    {
      running
    }
  }

  /** `every(duration, fn, max, runImmediately)`: a bad duration throws before anything starts. */
  method MakeEvery(duration: Value, max: Limit, runImmediately: bool, now: real)
    returns (r: Result<Controller>)
    ensures ParseDuration(duration).Err? ==> r == Err(ParseDuration(duration).error)
    ensures ParseDuration(duration).Ok? ==>
              r.Ok? && fresh(r.value) &&
              r.value.State() == Create(ParseDuration(duration).value, max, runImmediately, now).state
  {
    match ParseDuration(duration)
    case Err(e) =>
      r := Err(e);
    case Ok(ms) =>
      var c := new Controller(ms, max, runImmediately, now);
      r := Ok(c);
  }
}
