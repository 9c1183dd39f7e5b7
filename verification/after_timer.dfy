/** `AfterTimer` (src/AfterTimer.js): a `TimerBase` resumed at construction with a callback that
    runs `fn` and then `onFinish`. The subclass is modelled by composition: `base` is the
    inherited part, and `Pause`, `Resume`, `Cancel` and `Reset` are the inherited methods. */
module AfterTimers {
  import opened Values
  import opened Durations
  import opened Timers

  /** The user functions a callback runs, in order. */
  function CallbackCalls(callback: Option<Callback>, fn: Option<nat>, onFinish: Option<nat>): seq<nat>
  {
    match callback
    case None => []
    case Some(User(id)) => [id]
    case Some(Own) => (if fn.Some? then [fn.value] else []) + (if onFinish.Some? then [onFinish.value] else [])
  }

  /** The state right after construction. */
  function Constructed(ms: real, now: real): BaseState
  {
    Resumed(Fresh(ms), Some(Own), None, now)
  }

  /** A positive duration arms one timeout, due after it, that runs `fn` then `onFinish`. */
  lemma ConstructedArms(ms: real, now: real)
    requires ms > 0.0
    ensures Constructed(ms, now).running
    ensures Constructed(ms, now).pending == Some(Pending(now + ms, Some(Own)))
  {
  }

  /** A duration of zero or less never arms, at construction or after any later history of
      calls: `fn` and `onFinish` are never called, unlike with a zero-delay `setTimeout`. */
  lemma ZeroLengthNeverArms(ms: real, now: real, ops: seq<Op>)
    requires ms <= 0.0
    ensures Constructed(ms, now) == Fresh(ms)
    ensures var s := Replay(Constructed(ms, now), ops); !s.running && s.pending.None?
  {
    ZeroDurationStaysUnarmed(Fresh(ms), ops);
  }

  /** Across any history without override delays, a running timer created for `ms > 0` is
      due exactly when the running time credited by pauses plus the current run reach `ms`. */
  lemma RunningTimeEqualsDuration(ms: real, t0: real, ops: seq<Op>)
    requires ms > 0.0 && PlainResumes(ops)
    ensures var s := Replay(Constructed(ms, t0), ops);
            var w := Watch(Stopwatch(true, t0, 0.0), ms, ops);
            s.running ==> s.pending.Some? && w.running && w.credited + (s.pending.value.due - s.startTime) == ms
  {
    ReplayAgrees(Constructed(ms, t0), Stopwatch(true, t0, 0.0), ops);
  }

  /** `resume()` with no argument after a pause arms a timeout with no callback: when it expires
      neither `fn` nor `onFinish` runs. */
  lemma ResumeWithoutCallbackDropsFn(ms: real, t0: real, t1: real, t2: real, fn: Option<nat>, onFinish: Option<nat>)
    requires ms > 0.0 && t0 <= t1 < t0 + ms
    ensures var s := Resumed(Paused(Constructed(ms, t0), t1), None, None, t2);
            s.pending.Some? && s.pending.value.callback.None? &&
            CallbackCalls(s.pending.value.callback, fn, onFinish) == []
  {
  }

  /** After it has fired, resuming with the callback runs `fn` and `onFinish` again for the whole
      duration, because expiry leaves `remaining` untouched. */
  lemma ResumeAfterFireRunsAgain(ms: real, t0: real, t1: real)
    requires ms > 0.0
    ensures var s := Fired(Constructed(ms, t0));
            !s.running && Resumed(s, Some(Own), None, t1).pending == Some(Pending(t1 + ms, Some(Own)))
  {
  }

  class AfterTimer {
    const base: TimerBase
    const fn: Option<nat>
    const onFinish: Option<nat>
    var calls: seq<nat>

    constructor (ms: real, fn: Option<nat>, onFinish: Option<nat>, now: real)
      ensures fresh(base) && base.State() == Constructed(ms, now)
      ensures this.fn == fn && this.onFinish == onFinish && calls == []
    {
      var b := new TimerBase(ms);
      b.Resume(Some(Own), None, now);
      base := b;
      this.fn := fn;
      this.onFinish := onFinish;
      calls := [];
    }

    function IsRunning(): (r: bool)
      reads base
      ensures r == base.State().running
    {
      base.running
    }

    method Pause(now: real)
      modifies base
      ensures base.State() == Paused(old(base.State()), now)
    {
      base.Pause(now);
    }

    method Resume(callback: Option<Callback>, overrideDelay: Option<real>, now: real)
      modifies base
      ensures base.State() == Resumed(old(base.State()), callback, overrideDelay, now)
    {
      base.Resume(callback, overrideDelay, now);
    }

    method Cancel()
      modifies base
      ensures base.State() == Cancelled(old(base.State()))
    {
      base.Cancel();
    }

    method Reset()
      modifies base
      ensures base.State() == Restored(old(base.State()))
    {
      base.Reset();
    }

    /** The host runs the armed timeout: the timer stops, then its callback runs. */
    method Fire(now: real)
      requires base.pending.Some? && now >= base.pending.value.due
      modifies this, base
      ensures base.State() == Fired(old(base.State()))
      ensures calls == old(calls) + CallbackCalls(old(base.pending.value.callback), fn, onFinish)
    {
      var callback := base.Fire(now);
      calls := calls + CallbackCalls(callback, fn, onFinish);
    }
  }

  /** `new AfterTimer(duration, fn, onFinish)`: a bad duration throws before anything is armed. */
  method NewAfterTimer(duration: Value, fn: Option<nat>, onFinish: Option<nat>, now: real)
    returns (r: Result<AfterTimer>)
    ensures ParseDuration(duration).Err? ==> r == Err(ParseDuration(duration).error)
    ensures ParseDuration(duration).Ok? ==>
              r.Ok? && fresh(r.value) && fresh(r.value.base) &&
              r.value.base.State() == Constructed(ParseDuration(duration).value, now) &&
              r.value.calls == []
  {
    match ParseDuration(duration)
    case Err(e) =>
      r := Err(e);
    case Ok(ms) =>
      var t := new AfterTimer(ms, fn, onFinish, now);
      r := Ok(t);
  }
}
