/** `debounce(a, b)` (src/debounce.js): every call replaces the pending invocation with one due
    `delay` after it, so `fn` runs once a burst of calls has been quiet for `delay`, with the
    arguments of the burst's last call. */
module Debounce {
  import opened Values
  import opened Durations
  import opened DelayArgs

  /** The one pending invocation the closure's `timeoutId` stands for. */
  datatype Scheduled = Scheduled(due: real, args: Args)

  type DebounceState = Option<Scheduled>

  datatype Invocation = Invocation(at: real, args: Args)

  /** A call at `now`: whatever was pending is cleared and a new invocation is scheduled. */
  function Called(delay: real, now: real, args: Args): DebounceState
  {
    Some(Scheduled(Deadline(now, delay), args))
  }

  function Cancelled(): DebounceState
  {
    None
  }

  // ---------------------------------------------------------------------------------------
  // Histories

  datatype Event = CallAt(t: real, args: Args) | FireAt(t: real) | CancelNow

  datatype Outcome = Outcome(state: DebounceState, invoked: Option<Invocation>)

  /** One event; the host runs the pending timeout only once it is due. */
  function Step(s: DebounceState, delay: real, e: Event): Outcome
  {
    match e
    case CallAt(t, args) => Outcome(Called(delay, t, args), None)
    case FireAt(t) =>
      if s.Some? && t >= s.value.due then Outcome(None, Some(Invocation(t, s.value.args)))
      else Outcome(s, None)
    case CancelNow => Outcome(Cancelled(), None)
  }

  datatype Run = Run(state: DebounceState, invocations: seq<Invocation>)

  function RunAll(s: DebounceState, delay: real, evs: seq<Event>): Run
    decreases |evs|
  {
    if evs == [] then Run(s, [])
    else
      var o := Step(s, delay, evs[0]);
      var r := RunAll(o.state, delay, evs[1..]);
      Run(r.state, (if o.invoked.Some? then [o.invoked.value] else []) + r.invocations)
  }

  /** Every event of the history is a call of the debounced function. */
  ghost predicate AllCalls(evs: seq<Event>)
  {
    forall i :: 0 <= i < |evs| ==> evs[i].CallAt?
  }

  /** A burst of calls with no fire or cancel in it leaves exactly one invocation pending: the
      last call's, due `delay` after that call; nothing runs during the burst. */
  lemma {:induction false} LastCallWins(s: DebounceState, delay: real, evs: seq<Event>)
    requires |evs| > 0 && AllCalls(evs)
    ensures var last := evs[|evs| - 1];
            RunAll(s, delay, evs) == Run(Some(Scheduled(Deadline(last.t, delay), last.args)), [])
    decreases |evs|
  {
    var o := Step(s, delay, evs[0]);
    assert o.invoked.None?;
    if |evs| > 1 {
      assert AllCalls(evs[1..]) by {
        forall i | 0 <= i < |evs[1..]| ensures evs[1..][i].CallAt? {
          assert evs[1..][i] == evs[i + 1];
        }
      }
      LastCallWins(o.state, delay, evs[1..]);
      assert evs[1..][|evs[1..]| - 1] == evs[|evs| - 1];
    } else {
      assert RunAll(o.state, delay, evs[1..]) == Run(o.state, []);
    }
  }

  /** After such a burst the invocation that runs uses the last call's arguments, once: a
      second fire finds nothing pending. */
  lemma BurstInvokesOnceWithLastArgs(s: DebounceState, delay: real, evs: seq<Event>, t1: real, t2: real)
    requires |evs| > 0 && AllCalls(evs)
    requires t1 >= Deadline(evs[|evs| - 1].t, delay)
    ensures var last := evs[|evs| - 1];
            RunAll(s, delay, evs + [FireAt(t1), FireAt(t2)]).invocations == [Invocation(t1, last.args)]
  {
    var last := evs[|evs| - 1];
    RunAppend(s, delay, evs, [FireAt(t1), FireAt(t2)]);
    LastCallWins(s, delay, evs);
    var p := Some(Scheduled(Deadline(last.t, delay), last.args));
    assert [FireAt(t1), FireAt(t2)][1..] == [FireAt(t2)];
    assert RunAll(None, delay, [FireAt(t2)]) == Run(None, []);
    assert RunAll(p, delay, [FireAt(t1), FireAt(t2)]) == Run(None, [Invocation(t1, last.args)]);
  }

  /** Running a history in two parts is running it whole. */
  lemma {:induction false} RunAppend(s: DebounceState, delay: real, xs: seq<Event>, ys: seq<Event>)
    ensures var r := RunAll(s, delay, xs);
            RunAll(s, delay, xs + ys) == Run(RunAll(r.state, delay, ys).state, r.invocations + RunAll(r.state, delay, ys).invocations)
    decreases |xs|
  {
    if xs == [] {
      assert xs + ys == ys;
    } else {
      assert (xs + ys)[0] == xs[0] && (xs + ys)[1..] == xs[1..] + ys;
      RunAppend(Step(s, delay, xs[0]).state, delay, xs[1..], ys);
    }
  }

  /** A cancel after a burst leaves nothing to run: later fires invoke nothing. */
  lemma CancelPreventsInvocation(s: DebounceState, delay: real, t: real)
    ensures Step(Step(s, delay, CancelNow).state, delay, FireAt(t)) == Outcome(None, None)
  {
  }

  // ---------------------------------------------------------------------------------------
  // The debounced function

  /** The function `debounce()` returns, with `cancel`; `invocations` records the runs of `fn`. */
  class Debounced {
    const fn: nat
    const delay: real
    var pending: DebounceState
    var invocations: seq<Invocation>

    constructor (fn: nat, delay: real)
      ensures pending.None? && invocations == [] && this.fn == fn && this.delay == delay
    {
      this.fn := fn;
      this.delay := delay;
      pending := None;
      invocations := [];
    }

    method Call(now: real, args: Args)
      modifies this
      ensures pending == Called(delay, now, args) && invocations == old(invocations)
    {
      pending := Some(Scheduled(Deadline(now, delay), args));
    }

    /** The host runs the pending timeout. */
    method Fire(now: real)
      requires pending.Some? && now >= pending.value.due
      modifies this
      ensures Step(old(pending), delay, FireAt(now)) == Outcome(pending, Some(Invocation(now, old(pending).value.args)))
      ensures invocations == old(invocations) + [Invocation(now, old(pending).value.args)]
    {
      invocations := invocations + [Invocation(now, pending.value.args)];
      pending := None;
    }

    method Cancel()
      modifies this
      ensures pending == Cancelled() && invocations == old(invocations)
    {
      pending := None;
    }
  }

  /** `debounce(a, b)`: argument and duration errors are raised at creation, not at call time. */
  method MakeDebounce(a: Value, b: Value) returns (r: Result<Debounced>)
    ensures ResolveDelayAndFn(a, b).Err? ==> r == Err(ResolveDelayAndFn(a, b).error)
    ensures ResolveDelayAndFn(a, b).Ok? ==>
              r.Ok? && fresh(r.value) && r.value.pending.None? && r.value.invocations == [] &&
              r.value.fn == ResolveDelayAndFn(a, b).value.fn && r.value.delay == ResolveDelayAndFn(a, b).value.delay
  {
    match ResolveDelayAndFn(a, b)
    case Err(e) =>
      r := Err(e);
    case Ok(res) =>
      var d := new Debounced(res.fn, res.delay);
      r := Ok(d);
  }
}
