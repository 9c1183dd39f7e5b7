/** The pausable one-shot timer `after(duration, fn, onFinish)` (src/after.js). Its closure
    variables are the fields of `TimerState`; the host timeout is the pending deadline `timer`.
    The functions below are the transitions; `Controller` is the object with those variables as
    fields, whose methods are proved to perform them. The timeline drives values of `TimerState`
    through the same functions. */
module AfterFn {
  import opened Values
  import opened Durations

  datatype TimerState = TimerState(
    ms: real,               // the parsed duration
    startTime: real,        // when the current run started
    remaining: real,        // what is left of the duration
    running: bool,
    timer: Option<real>)    // the deadline of the armed host timeout, if any

  /** `schedule()`: restarts the clock and arms a timeout for `remaining`. */
  function Schedule(s: TimerState, now: real): TimerState
  {
    s.(startTime := now, timer := Some(Deadline(now, s.remaining)))
  }

  /** Creation: `remaining = ms`, `running = true`, then `schedule()`, whatever `ms` is. */
  function Create(ms: real, now: real): TimerState
  {
    Schedule(TimerState(ms, now, ms, true, None), now)
  }

  function Paused(s: TimerState, now: real): TimerState
  {
    if s.running then s.(timer := None, remaining := s.remaining - (now - s.startTime), running := false)
    else s
  }

  function Resumed(s: TimerState, now: real): TimerState
  {
    if !s.running && s.remaining > 0.0 then Schedule(s.(startTime := now, running := true), now)
    else s
  }

  function Cancelled(s: TimerState): TimerState
  {
    s.(timer := None, running := false)
  }

  /** The host timeout expires: `running = false`, then `fn` and `onFinish` run. */
  function Fired(s: TimerState): TimerState
    requires s.timer.Some?
  {
    s.(timer := None, running := false)
  }

  /** Between events a timeout is armed exactly while the timer runs, and it is due when the
      current run has used up what remained. */
  ghost predicate Timed(s: TimerState)
  {
    (s.running <==> s.timer.Some?) &&
    (s.timer.Some? ==> s.timer.value == Deadline(s.startTime, s.remaining))
  }

  /** Every transition keeps `Timed`. */
  lemma TimedPreserved(s: TimerState, ms: real, now: real)
    requires Timed(s)
    ensures Timed(Create(ms, now))
    ensures Timed(Paused(s, now)) && Timed(Resumed(s, now)) && Timed(Cancelled(s))
    ensures s.timer.Some? ==> Timed(Fired(s))
  {
  }

  /** Pausing a running timer keeps exactly the time left until its deadline and disarms it;
      a second pause, at any time, changes nothing. */
  lemma PauseKeepsTimeToDeadline(s: TimerState, now: real, later: real)
    requires Timed(s) && s.running && s.remaining > 0.0
    ensures Paused(s, now).remaining == s.timer.value - now
    ensures !Paused(s, now).running && Paused(s, now).timer.None?
    ensures Paused(Paused(s, now), later) == Paused(s, now)
  {
  }

  /** Resume re-arms exactly when the timer is not running and time remains. */
  lemma ResumeArmsIff(s: TimerState, now: real)
    ensures Resumed(s, now).running <==> (s.running || s.remaining > 0.0)
    ensures (!s.running && s.remaining > 0.0) <==> Resumed(s, now) != s
    ensures !s.running && s.remaining > 0.0 ==>
              Resumed(s, now).timer == Some(now + s.remaining) && Resumed(s, now).startTime == now
  {
  }

  /** Cancel is not terminal: it keeps `remaining`, and a later resume re-arms for it. */
  lemma CancelIsNotTerminal(s: TimerState, now: real)
    requires s.remaining > 0.0
    ensures Cancelled(s).remaining == s.remaining
    ensures Resumed(Cancelled(s), now).running && Resumed(Cancelled(s), now).timer == Some(now + s.remaining)
  {
  }

  /** A pause at `t1` and a resume at `t2` postpone the deadline by exactly the pause. */
  lemma PauseResumeShiftsDeadline(s: TimerState, t1: real, t2: real)
    requires Timed(s) && s.running
    requires s.startTime <= t1 < s.timer.value
    ensures Resumed(Paused(s, t1), t2).timer == Some(s.timer.value + (t2 - t1))
  {
  }

  // ---------------------------------------------------------------------------------------
  // Running time over a history of pauses and resumes

  datatype Op = PauseAt(t: real) | ResumeAt(t: real)

  function Apply(s: TimerState, op: Op): TimerState
  {
    match op
    case PauseAt(t) => Paused(s, t)
    case ResumeAt(t) => Resumed(s, t)
  }

  function Replay(s: TimerState, ops: seq<Op>): TimerState
    decreases |ops|
  {
    if ops == [] then s else Replay(Apply(s, ops[0]), ops[1..])
  }

  /** An independent stopwatch: the time the timer has really been running so far. */
  datatype Stopwatch = Stopwatch(running: bool, since: real, elapsed: real)

  function Watch(w: Stopwatch, ms: real, ops: seq<Op>): Stopwatch
    decreases |ops|
  {
    if ops == [] then w
    else
      var w' := match ops[0]
        case PauseAt(t) => if w.running then Stopwatch(false, w.since, w.elapsed + (t - w.since)) else w
        case ResumeAt(t) => if !w.running && w.elapsed < ms then Stopwatch(true, t, w.elapsed) else w;
      Watch(w', ms, ops[1..])
  }

  ghost predicate Agrees(s: TimerState, w: Stopwatch)
  {
    Timed(s) && s.running == w.running && s.remaining == s.ms - w.elapsed &&
    (s.running ==> s.startTime == w.since && s.remaining > 0.0)
  }

  lemma {:induction false} ReplayAgrees(s: TimerState, w: Stopwatch, ops: seq<Op>)
    requires Agrees(s, w)
    ensures Agrees(Replay(s, ops), Watch(w, s.ms, ops))
    ensures Replay(s, ops).ms == s.ms
    decreases |ops|
  {
    if ops != [] {
      var s' := Apply(s, ops[0]);
      var w' := match ops[0]
        case PauseAt(t) => if w.running then Stopwatch(false, w.since, w.elapsed + (t - w.since)) else w
        case ResumeAt(t) => if !w.running && w.elapsed < s.ms then Stopwatch(true, t, w.elapsed) else w;
      assert Watch(w, s.ms, ops) == Watch(w', s.ms, ops[1..]);
      assert s'.ms == s.ms;
      ReplayAgrees(s', w', ops[1..]);
    }
  }

  /** Across any history of pauses and resumes, a timer created for `ms > 0` that is running is
      due exactly when its total running time reaches `ms`: the time it ran before plus the time
      from its last start to the deadline is the duration. */
  lemma RunningTimeEqualsDuration(ms: real, t0: real, ops: seq<Op>)
    requires ms > 0.0
    ensures var s := Replay(Create(ms, t0), ops);
            var w := Watch(Stopwatch(true, t0, 0.0), ms, ops);
            s.running ==> s.timer.Some? && w.running && w.elapsed + (s.timer.value - s.startTime) == ms
  {
    ReplayAgrees(Create(ms, t0), Stopwatch(true, t0, 0.0), ops);
  }

  // ---------------------------------------------------------------------------------------
  // The returned controller

  /** The object `after()` returns, with the closure's variables as fields. `calls` records the
      user callbacks run on expiry, in order. */
  class Controller {
    var ms: real
    var startTime: real
    var remaining: real
    var running: bool
    var timer: Option<real>
    const fn: Option<nat>
    const onFinish: Option<nat>
    var calls: seq<nat>

    function State(): TimerState
      reads this
    {
      TimerState(ms, startTime, remaining, running, timer)
    }

    constructor (ms: real, fn: Option<nat>, onFinish: Option<nat>, now: real)
      ensures State() == Create(ms, now) && Timed(State())
      ensures this.fn == fn && this.onFinish == onFinish && calls == []
    {
      this.ms := ms;
      startTime := now;
      remaining := ms;
      running := true;
      this.fn := fn;
      this.onFinish := onFinish;
      calls := [];
      timer := Some(Deadline(now, ms));
    }

    function IsRunning(): (r: bool)
      reads this
      ensures r == State().running
    {
      running
    }

    method Pause(now: real)
      modifies this
      ensures State() == Paused(old(State()), now) && calls == old(calls)
    {
      if running {
        timer := None;
        remaining := remaining - (now - startTime);
        running := false;
      }
    }

    method Resume(now: real)
      modifies this
      ensures State() == Resumed(old(State()), now) && calls == old(calls)
    {
      if !running && remaining > 0.0 {
        startTime := now;
        running := true;
        timer := Some(Deadline(now, remaining));
      }
    }

    method Cancel()
      modifies this
      ensures State() == Cancelled(old(State())) && calls == old(calls)
    {
      timer := None;
      running := false;
    }

    /** The host runs the armed timeout: the timer stops, then `fn` and `onFinish` run, each
        once, in that order. */
    method Fire(now: real)
      requires timer.Some? && now >= timer.value
      modifies this
      ensures State() == Fired(old(State()))
      ensures calls == old(calls) + (if fn.Some? then [fn.value] else []) +
                                    (if onFinish.Some? then [onFinish.value] else [])
    {
      running := false;
      timer := None;
      if fn.Some? {
        calls := calls + [fn.value];
      }
      if onFinish.Some? {
        calls := calls + [onFinish.value];
      }
    }
  }

  /** `after(duration, fn, onFinish)`: parses first, so a bad duration throws before anything
      is scheduled. */
  method MakeAfter(duration: Value, fn: Option<nat>, onFinish: Option<nat>, now: real)
    returns (r: Result<Controller>)
    ensures ParseDuration(duration).Err? ==> r == Err(ParseDuration(duration).error)
    ensures ParseDuration(duration).Ok? ==>
              r.Ok? && fresh(r.value) && r.value.State() == Create(ParseDuration(duration).value, now) &&
              r.value.fn == fn && r.value.onFinish == onFinish && r.value.calls == []
  {
    match ParseDuration(duration)
    case Err(e) =>
      r := Err(e);
    case Ok(ms) =>
      var c := new Controller(ms, fn, onFinish, now);
      r := Ok(c);
  }
}
