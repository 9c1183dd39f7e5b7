/** `throttle(a, b, trailing)` (src/throttle.js): a call at least `delay` after the last
    invocation runs `fn` at once; a call inside the window schedules at most one trailing
    invocation, for the end of the window, with that call's arguments. */
module Throttle {
  import opened Values
  import opened Durations
  import opened DelayArgs

  /** The scheduled trailing invocation. */
  datatype Trailing = Trailing(due: real, args: Args)

  /** The closure's variables: `lastCall` and the pending timeout. */
  datatype ThrottleState = ThrottleState(lastCall: real, pending: Option<Trailing>)

  /** One invocation of `fn`: when, with which arguments, and whether it was a leading call. */
  datatype Invocation = Invocation(at: real, args: Args, leading: bool)

  datatype Outcome = Outcome(state: ThrottleState, invoked: Option<Invocation>)

  function Initial(): ThrottleState
  {
    ThrottleState(0.0, None)
  }

  /** A call of the throttled function at `now`. */
  function Called(s: ThrottleState, delay: real, trailing: bool, now: real, args: Args): Outcome
  {
    var since := now - s.lastCall;
    if since >= delay then Outcome(s.(lastCall := now), Some(Invocation(now, args, true)))
    else if trailing && s.pending.None? then
      Outcome(s.(pending := Some(Trailing(Deadline(now, delay - since), args))), None)
    else Outcome(s, None)
  }

  /** The trailing timeout runs: `lastCall` is the fire time, the slot is cleared, `fn` runs. */
  function TrailingFired(s: ThrottleState, now: real): Outcome
    requires s.pending.Some?
  {
    Outcome(ThrottleState(now, None), Some(Invocation(now, s.pending.value.args, false)))
  }

  function Cancelled(s: ThrottleState): ThrottleState
  {
    s.(pending := None)
  }

  // ---------------------------------------------------------------------------------------
  // Properties of single calls

  /** `fn` runs at once exactly when `delay` has passed since the last invocation; that call
      becomes the last invocation and leaves any trailing invocation in place. */
  lemma LeadingIff(s: ThrottleState, delay: real, trailing: bool, now: real, args: Args)
    ensures var o := Called(s, delay, trailing, now, args);
            (o.invoked.Some? <==> now - s.lastCall >= delay) &&
            (o.invoked.Some? ==> o.invoked.value == Invocation(now, args, true) &&
                                 o.state == ThrottleState(now, s.pending))
  {
  }

  /** A call inside the window, with `trailing` set and nothing pending, schedules the trailing
      invocation for the end of the window, `lastCall + delay`, with its own arguments. */
  lemma TrailingAtWindowEnd(s: ThrottleState, delay: real, now: real, args: Args)
    requires now - s.lastCall < delay && s.pending.None?
    ensures Called(s, delay, true, now, args) ==
              Outcome(ThrottleState(s.lastCall, Some(Trailing(s.lastCall + delay, args))), None)
  {
  }

  /** Any other call inside the window is dropped: with a trailing invocation already pending,
      or with `trailing` off, nothing changes. */
  lemma SuppressedCallDropped(s: ThrottleState, delay: real, trailing: bool, now: real, args: Args)
    requires now - s.lastCall < delay && (!trailing || s.pending.Some?)
    ensures Called(s, delay, trailing, now, args) == Outcome(s, None)
  {
  }

  /** The trailing invocation runs with the arguments of the call that scheduled it. */
  lemma TrailingUsesSchedulingArgs(s: ThrottleState, delay: real, now: real, args: Args, later: real)
    requires now - s.lastCall < delay && s.pending.None?
    ensures var o := Called(s, delay, true, now, args);
            o.state.pending.Some? &&
            TrailingFired(o.state, later) == Outcome(ThrottleState(later, None), Some(Invocation(later, args, false)))
  {
  }

  // ---------------------------------------------------------------------------------------
  // Histories

  datatype Event = CallAt(t: real, args: Args) | FireAt(t: real) | CancelNow

  /** One event; the host runs a pending timeout only once it is due. */
  function Step(s: ThrottleState, delay: real, trailing: bool, e: Event): Outcome
  {
    match e
    case CallAt(t, args) => Called(s, delay, trailing, t, args)
    case FireAt(t) => if s.pending.Some? && t >= s.pending.value.due then TrailingFired(s, t) else Outcome(s, None)
    case CancelNow => Outcome(Cancelled(s), None)
  }

  datatype Run = Run(state: ThrottleState, invocations: seq<Invocation>)

  function RunAll(s: ThrottleState, delay: real, trailing: bool, evs: seq<Event>): Run
    decreases |evs|
  {
    if evs == [] then Run(s, [])
    else
      var o := Step(s, delay, trailing, evs[0]);
      var r := RunAll(o.state, delay, trailing, evs[1..]);
      Run(r.state, (if o.invoked.Some? then [o.invoked.value] else []) + r.invocations)
  }

  /** After a cancel no timeout invokes anything until the next call: the pending trailing
      invocation is dropped, and `lastCall` is kept, so the next call is still measured from
      the last invocation. */
  lemma CancelSilencesUntilNextCall(s: ThrottleState, delay: real, trailing: bool, fires: seq<Event>)
    requires forall i :: 0 <= i < |fires| ==> fires[i].FireAt?
    ensures RunAll(s, delay, trailing, [CancelNow] + fires) == Run(ThrottleState(s.lastCall, None), [])
  {
    assert ([CancelNow] + fires)[1..] == fires;
    IdleIgnoresFires(Cancelled(s), delay, trailing, fires);
  }

  /** With nothing pending, timeouts change nothing and invoke nothing. */
  lemma {:induction false} IdleIgnoresFires(s: ThrottleState, delay: real, trailing: bool, fires: seq<Event>)
    requires s.pending.None?
    requires forall i :: 0 <= i < |fires| ==> fires[i].FireAt?
    ensures RunAll(s, delay, trailing, fires) == Run(s, [])
    decreases |fires|
  {
    if fires != [] {
      IdleIgnoresFires(s, delay, trailing, fires[1..]);
    }
  }

  /** `lastCall` is the time of the latest invocation, or its initial value before any. */
  ghost predicate LastCallIsLatest(s: ThrottleState, start: real, invs: seq<Invocation>)
  {
    s.lastCall == if invs == [] then start else invs[|invs| - 1].at
  }

  /** Every leading invocation comes at least `delay` after the invocation before it (or after
      the initial `lastCall`), in any history. */
  ghost predicate LeadingSpaced(start: real, delay: real, invs: seq<Invocation>)
  {
    (|invs| > 0 && invs[0].leading ==> invs[0].at - start >= delay) &&
    forall i :: 0 < i < |invs| && invs[i].leading ==> invs[i].at - invs[i - 1].at >= delay
  }

  lemma {:induction false} RunKeepsLastCall(s: ThrottleState, delay: real, trailing: bool, evs: seq<Event>)
    ensures LastCallIsLatest(RunAll(s, delay, trailing, evs).state, s.lastCall, RunAll(s, delay, trailing, evs).invocations)
    ensures LeadingSpaced(s.lastCall, delay, RunAll(s, delay, trailing, evs).invocations)
    decreases |evs|
  {
    if evs != [] {
      var o := Step(s, delay, trailing, evs[0]);
      RunKeepsLastCall(o.state, delay, trailing, evs[1..]);
      var r := RunAll(o.state, delay, trailing, evs[1..]);
      var head := if o.invoked.Some? then [o.invoked.value] else [];
      var invs := head + r.invocations;
      assert RunAll(s, delay, trailing, evs) == Run(r.state, invs);
      if o.invoked.Some? {
        assert o.state.lastCall == o.invoked.value.at;
        assert o.invoked.value.leading ==> o.invoked.value.at - s.lastCall >= delay;
        forall i | 0 < i < |invs| && invs[i].leading
          ensures invs[i].at - invs[i - 1].at >= delay
        {
          if i == 1 {
            assert invs[0] == o.invoked.value && invs[1] == r.invocations[0];
          } else {
            assert invs[i] == r.invocations[i - 1] && invs[i - 1] == r.invocations[i - 2];
          }
        }
      } else {
        assert o.state.lastCall == s.lastCall;
        assert invs == r.invocations;
      }
    }
  }

  /** In every history from creation, a leading invocation is at least `delay` after the
      previous invocation of either kind. */
  lemma LeadingCallsRespectDelay(delay: real, trailing: bool, evs: seq<Event>)
    ensures LeadingSpaced(0.0, delay, RunAll(Initial(), delay, trailing, evs).invocations)
  {
    RunKeepsLastCall(Initial(), delay, trailing, evs);
  }

  /** A trailing invocation, though, can run immediately after a leading one: with `delay`
      100, calls at 150, 200 and 250 and the timeout at 250 invoke `fn` at 150, 250 and 250. */
  lemma TrailingCanFollowLeadingAtOnce(a: Args, b: Args, c: Args)
    ensures RunAll(Initial(), 100.0, true, [CallAt(150.0, a), CallAt(200.0, b), CallAt(250.0, c), FireAt(250.0)]).invocations ==
              [Invocation(150.0, a, true), Invocation(250.0, c, true), Invocation(250.0, b, false)]
  {
    var evs := [CallAt(150.0, a), CallAt(200.0, b), CallAt(250.0, c), FireAt(250.0)];
    var s1 := ThrottleState(150.0, None);
    var s2 := ThrottleState(150.0, Some(Trailing(250.0, b)));
    var s3 := ThrottleState(250.0, Some(Trailing(250.0, b)));
    assert Step(Initial(), 100.0, true, evs[0]) == Outcome(s1, Some(Invocation(150.0, a, true)));
    assert Step(s1, 100.0, true, evs[1]) == Outcome(s2, None);
    assert Step(s2, 100.0, true, evs[2]) == Outcome(s3, Some(Invocation(250.0, c, true)));
    assert Step(s3, 100.0, true, evs[3]) == Outcome(ThrottleState(250.0, None), Some(Invocation(250.0, b, false)));
    var s4 := ThrottleState(250.0, None);
    assert RunAll(s4, 100.0, true, []) == Run(s4, []);
    assert RunAll(s3, 100.0, true, evs[3..]) == Run(s4, [Invocation(250.0, b, false)]);
    assert RunAll(s2, 100.0, true, evs[2..]) == Run(s4, [Invocation(250.0, c, true), Invocation(250.0, b, false)]);
    assert RunAll(s1, 100.0, true, evs[1..]) == RunAll(s2, 100.0, true, evs[2..]);
  }

  // ---------------------------------------------------------------------------------------
  // The throttled function

  /** The function `throttle()` returns, with `cancel`; `invocations` records the runs of `fn`. */
  class Throttled {
    const fn: nat
    const delay: real
    const trailing: bool
    var lastCall: real
    var pending: Option<Trailing>
    var invocations: seq<Invocation>

    function State(): ThrottleState
      reads this
    {
      ThrottleState(lastCall, pending)
    }

    constructor (fn: nat, delay: real, trailing: bool)
      ensures State() == Initial() && invocations == []
      ensures this.fn == fn && this.delay == delay && this.trailing == trailing
    {
      this.fn := fn;
      this.delay := delay;
      this.trailing := trailing;
      lastCall := 0.0;
      pending := None;
      invocations := [];
    }

    method Call(now: real, args: Args)
      modifies this
      ensures var o := Called(old(State()), delay, trailing, now, args);
              State() == o.state && invocations == old(invocations) + (if o.invoked.Some? then [o.invoked.value] else [])
    {
      var since := now - lastCall;
      if since >= delay {
        lastCall := now;
        invocations := invocations + [Invocation(now, args, true)];
      } else if trailing && pending.None? {
        pending := Some(Trailing(Deadline(now, delay - since), args));
      }
    }

    /** The host runs the pending trailing timeout. */
    method FireTrailing(now: real)
      requires pending.Some? && now >= pending.value.due
      modifies this
      ensures var o := TrailingFired(old(State()), now);
              State() == o.state && invocations == old(invocations) + [o.invoked.value]
    {
      var args := pending.value.args;
      lastCall := now;
      pending := None;
      invocations := invocations + [Invocation(now, args, false)];
    }

    method Cancel()
      modifies this
      ensures State() == Cancelled(old(State())) && invocations == old(invocations)
    {
      pending := None;
    }
  }

  /** `throttle(a, b, trailing)`: argument and duration errors are raised here, at creation. */
  method MakeThrottle(a: Value, b: Value, trailing: bool) returns (r: Result<Throttled>)
    ensures ResolveDelayAndFn(a, b).Err? ==> r == Err(ResolveDelayAndFn(a, b).error)
    ensures ResolveDelayAndFn(a, b).Ok? ==>
              r.Ok? && fresh(r.value) && r.value.State() == Initial() && r.value.invocations == [] &&
              r.value.fn == ResolveDelayAndFn(a, b).value.fn && r.value.delay == ResolveDelayAndFn(a, b).value.delay &&
              r.value.trailing == trailing
  {
    match ResolveDelayAndFn(a, b)
    case Err(e) =>
      r := Err(e);
    case Ok(res) =>
      var t := new Throttled(res.fn, res.delay, trailing);
      r := Ok(t);
  }
}
