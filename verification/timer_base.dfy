/** The pausable timer class `TimerBase` (src/TimerBase.js), which `AfterTimer` builds on and
    `EveryTimer` creates one of per interval. `BaseState` holds its private fields; the host
    timeout it arms is the pending deadline together with the callback it will run. */
module Timers {
  import opened Values
  import opened Durations

  /** A callback handed to `resume`: the owning timer's own closure (`AfterTimer`'s call of `fn`
      and `onFinish`, `EveryTimer`'s `tick`), or a user function. */
  datatype Callback = Own | User(id: nat)

  /** An armed host timeout: when it is due and the callback it will run (`None` for a missing
      one, which `callback?.()` skips). */
  datatype Pending = Pending(due: real, callback: Option<Callback>)

  datatype BaseState = BaseState(
    ms: real,
    startTime: real,
    remaining: real,
    running: bool,
    pending: Option<Pending>)

  /** A new timer: nothing armed, the whole duration remaining. */
  function Fresh(ms: real): BaseState
  {
    BaseState(ms, 0.0, ms, false, None)
  }

  function Paused(s: BaseState, now: real): BaseState
  {
    if s.running then s.(pending := None, remaining := s.remaining - (now - s.startTime), running := false)
    else s
  }

  /** The delay `resume` arms for: the override when one is given, else what remains. */
  function ResumeDelay(s: BaseState, overrideDelay: Option<real>): real
  {
    if overrideDelay.Some? then overrideDelay.value else s.remaining
  }

  function Resumed(s: BaseState, callback: Option<Callback>, overrideDelay: Option<real>, now: real): BaseState
  {
    if !s.running && s.remaining > 0.0 then
      s.(startTime := now, running := true,
         pending := Some(Pending(Deadline(now, ResumeDelay(s, overrideDelay)), callback)))
    else s
  }

  function Cancelled(s: BaseState): BaseState
  {
    s.(running := false, pending := None)
  }

  function Restored(s: BaseState): BaseState
  {
    Cancelled(s).(remaining := s.ms)
  }

  /** The host runs the armed timeout: the timer stops, then the callback runs. */
  function Fired(s: BaseState): BaseState
    requires s.pending.Some?
  {
    s.(running := false, pending := None)
  }

  // ---------------------------------------------------------------------------------------
  // Properties

  /** A timeout is armed exactly while the timer runs. */
  ghost predicate Valid(s: BaseState)
  {
    s.running <==> s.pending.Some?
  }

  lemma ValidPreserved(s: BaseState, ms: real, callback: Option<Callback>, overrideDelay: Option<real>, now: real)
    requires Valid(s)
    ensures Valid(Fresh(ms))
    ensures Valid(Paused(s, now)) && Valid(Resumed(s, callback, overrideDelay, now))
    ensures Valid(Cancelled(s)) && Valid(Restored(s))
    ensures s.pending.Some? ==> Valid(Fired(s))
  {
  }

  /** Resume arms exactly when the timer is stopped with time remaining; the timeout then runs
      the given callback after the override, or after what remains. */
  lemma ResumeArmsIff(s: BaseState, callback: Option<Callback>, overrideDelay: Option<real>, now: real)
    ensures var r := Resumed(s, callback, overrideDelay, now);
            (r != s <==> !s.running && s.remaining > 0.0) &&
            (r != s ==> r.pending == Some(Pending(Deadline(now, ResumeDelay(s, overrideDelay)), callback)) &&
                        r.remaining == s.remaining)
  {
  }

  /** Pausing at `t1` and resuming at `t2` without an override postpones the deadline by exactly
      the pause, whatever the callback. */
  lemma PauseResumeShiftsDeadline(s: BaseState, t1: real, t2: real, callback: Option<Callback>)
    requires s.running && s.pending.Some? && s.pending.value.due == Deadline(s.startTime, s.remaining)
    requires s.startTime <= t1 < s.pending.value.due
    ensures Resumed(Paused(s, t1), callback, None, t2).pending ==
              Some(Pending(s.pending.value.due + (t2 - t1), callback))
  {
  }

  /** Expiry does not consume the duration: `remaining` is untouched, so a later resume arms the
      timer again for the same time. */
  lemma FiredTimerCanRunAgain(s: BaseState, callback: Option<Callback>, now: real)
    requires s.pending.Some? && s.remaining > 0.0
    ensures Fired(s).remaining == s.remaining
    ensures Resumed(Fired(s), callback, None, now).pending == Some(Pending(now + s.remaining, callback))
  {
  }

  /** Reset cancels and restores the whole duration; a timer with a positive duration can then be
      resumed for all of it. */
  lemma ResetRestoresDuration(s: BaseState, callback: Option<Callback>, now: real)
    ensures Restored(s) == Fresh(s.ms).(startTime := s.startTime)
    ensures s.ms > 0.0 ==> Resumed(Restored(s), callback, None, now).pending == Some(Pending(now + s.ms, callback))
  {
  }

  // ---------------------------------------------------------------------------------------
  // Histories of calls

  /** A call of one of the public methods, or the host running the armed timeout (only once it
      is due). */
  datatype Op =
    | PauseAt(t: real)
    | ResumeAt(t: real, callback: Option<Callback>, overrideDelay: Option<real>)
    | CancelNow
    | ResetNow
    | FireAt(t: real)

  function Apply(s: BaseState, op: Op): BaseState
  {
    match op
    case PauseAt(t) => Paused(s, t)
    case ResumeAt(t, callback, overrideDelay) => Resumed(s, callback, overrideDelay, t)
    case CancelNow => Cancelled(s)
    case ResetNow => Restored(s)
    case FireAt(t) => if s.pending.Some? && t >= s.pending.value.due then Fired(s) else s
  }

  function Replay(s: BaseState, ops: seq<Op>): BaseState
    decreases |ops|
  {
    if ops == [] then s else Replay(Apply(s, ops[0]), ops[1..])
  }

  /** No resume in the history passes an override delay. */
  ghost predicate PlainResumes(ops: seq<Op>)
  {
    forall i :: 0 <= i < |ops| && ops[i].ResumeAt? ==> ops[i].overrideDelay.None?
  }

  /** An independent account of the duration: `credited` is the running time that pauses have
      taken off it. A cancel or an expiry credits nothing (the run since `since` is forgotten),
      and a reset takes the credit back. */
  datatype Stopwatch = Stopwatch(running: bool, since: real, credited: real)

  function Tick(w: Stopwatch, ms: real, op: Op): Stopwatch
  {
    match op
    case PauseAt(t) => if w.running then Stopwatch(false, w.since, w.credited + (t - w.since)) else w
    case ResumeAt(t, _, _) => if !w.running && w.credited < ms then Stopwatch(true, t, w.credited) else w
    case CancelNow => w.(running := false)
    case ResetNow => Stopwatch(false, w.since, 0.0)
    case FireAt(t) => if w.running && t >= w.since + (ms - w.credited) then w.(running := false) else w
  }

  function Watch(w: Stopwatch, ms: real, ops: seq<Op>): Stopwatch
    decreases |ops|
  {
    if ops == [] then w else Watch(Tick(w, ms, ops[0]), ms, ops[1..])
  }

  ghost predicate Agrees(s: BaseState, w: Stopwatch)
  {
    Valid(s) && s.running == w.running && s.remaining == s.ms - w.credited &&
    (s.running ==> s.startTime == w.since && s.remaining > 0.0 &&
                   s.pending.value.due == s.startTime + s.remaining)
  }

  lemma {:induction false} ReplayAgrees(s: BaseState, w: Stopwatch, ops: seq<Op>)
    requires Agrees(s, w) && PlainResumes(ops)
    ensures Agrees(Replay(s, ops), Watch(w, s.ms, ops))
    ensures Replay(s, ops).ms == s.ms
    decreases |ops|
  {
    if ops != [] {
      var s', w' := Apply(s, ops[0]), Tick(w, s.ms, ops[0]);
      assert ops[0].ResumeAt? ==> ops[0].overrideDelay.None?;
      assert Agrees(s', w') && s'.ms == s.ms;
      assert PlainResumes(ops[1..]) by {
        forall i | 0 <= i < |ops[1..]| && ops[1..][i].ResumeAt?
          ensures ops[1..][i].overrideDelay.None?
        {
          assert ops[1..][i] == ops[i + 1];
        }
      }
      ReplayAgrees(s', w', ops[1..]);
    }
  }

  /** A timer whose duration is zero or less is never armed, whatever is called on it and
      with whatever callback or override: `remaining` stays at most zero, and resume needs it
      positive. */
  lemma {:induction false} ZeroDurationStaysUnarmed(s: BaseState, ops: seq<Op>)
    requires s.ms <= 0.0 && s.remaining <= 0.0 && !s.running && s.pending.None?
    ensures var r := Replay(s, ops);
            r.ms == s.ms && r.remaining <= 0.0 && !r.running && r.pending.None?
    decreases |ops|
  {
    if ops != [] {
      ZeroDurationStaysUnarmed(Apply(s, ops[0]), ops[1..]);
    }
  }

  // ---------------------------------------------------------------------------------------
  // The class

  class TimerBase {
    const ms: real
    var startTime: real
    var remaining: real
    var running: bool
    var pending: Option<Pending>

    function State(): BaseState
      reads this
    {
      BaseState(ms, startTime, remaining, running, pending)
    }

    /** The constructor once `parseDuration` has succeeded; see `NewTimerBase`. */
    constructor (ms: real)
      ensures State() == Fresh(ms)
    {
      this.ms := ms;
      startTime := 0.0;
      remaining := ms;
      running := false;
      pending := None;
    }

    function IsRunning(): (r: bool)
      reads this
      ensures r == State().running
    {
      running
    }

    method Pause(now: real)
      modifies this
      ensures State() == Paused(old(State()), now)
    {
      if running {
        pending := None;
        remaining := remaining - (now - startTime);
        running := false;
      }
    }

    method Resume(callback: Option<Callback>, overrideDelay: Option<real>, now: real)
      modifies this
      ensures State() == Resumed(old(State()), callback, overrideDelay, now)
    {
      if !running && remaining > 0.0 {
        startTime := now;
        running := true;
        var delay := if overrideDelay.Some? then overrideDelay.value else remaining;
        pending := Some(Pending(Deadline(now, delay), callback));
      }
    }

    method Cancel()
      modifies this
      ensures State() == Cancelled(old(State()))
    {
      pending := None;
      running := false;
    }

    method Reset()
      modifies this
      ensures State() == Restored(old(State()))
    {
      Cancel();
      remaining := ms;
    }

    /** The host runs the armed timeout; `callback` is what the caller must run next. */
    method Fire(now: real) returns (callback: Option<Callback>)
      requires pending.Some? && now >= pending.value.due
      modifies this
      ensures State() == Fired(old(State()))
      ensures callback == old(pending.value.callback)
    {
      callback := pending.value.callback;
      running := false;
      pending := None;
    }
  }

  /** `new TimerBase(duration)`: a bad duration throws from the constructor. */
  method NewTimerBase(duration: Value) returns (r: Result<TimerBase>)
    ensures ParseDuration(duration).Err? ==> r == Err(ParseDuration(duration).error)
    ensures ParseDuration(duration).Ok? ==>
              r.Ok? && fresh(r.value) && r.value.State() == Fresh(ParseDuration(duration).value)
  {
    match ParseDuration(duration)
    case Err(e) =>
      r := Err(e);
    case Ok(ms) =>
      var t := new TimerBase(ms);
      r := Ok(t);
  }
}
