/** Properties of the timeline model of `flow()` (src/TimeoutFlow.js). */
module FlowProps {
  import opened Values
  import opened Durations
  import AfterFn
  import EveryFn
  import opened FlowSpec

  /** The `onFinish` call the end of a pass makes, if a callback is set. */
  function FinishEvents(cb: Option<nat>): (r: seq<Event>)
    ensures |r| <= 1 && (r != [] <==> cb.Some?)
  {
    if cb.Some? then [FinishCalled(cb.value)] else []
  }

  function Max(a: int, b: int): (r: int)
    ensures r >= a && r >= b && (r == a || r == b)
  {
    if a >= b then a else b
  }

  /** Gates whose conditions are not functions: evaluating them calls no user code. */
  ghost predicate ConstGates(gs: seq<Gate>)
  {
    forall i :: 0 <= i < |gs| ==> gs[i].pred.Const?
  }

  /** No step function was called between history `a` and its extension `b`. */
  ghost predicate NoStepFnCall(a: seq<Event>, b: seq<Event>)
  {
    forall i :: |a| <= i < |b| ==> !b[i].StepFnCalled?
  }

  /** The state the wrapper of an `every` controller runs in: its timeout has just expired. */
  function Expiring(s: FlowState, id: nat): FlowState
    requires id in s.ctrls && s.ctrls[id].EveryCtrl? && s.ctrls[id].ticker.timer.Some?
  {
    s.(ctrls := s.ctrls[id := s.ctrls[id].(ticker := EveryFn.Expired(s.ctrls[id].ticker))])
  }

  /** Evaluating a condition calls no step function. */
  lemma EvalCallsNoStepFn(p: Option<Pred>, trace: seq<Event>, oracle: nat -> bool)
    ensures IsPrefix(trace, EvalOpt(p, trace, oracle).trace)
    ensures NoStepFnCall(trace, EvalOpt(p, trace, oracle).trace)
  {
    EvalGrows(p, trace, oracle);
    if p.Some? && p.value.Call? {
      assert EvalOpt(p, trace, oracle).trace == trace + [PredCalled(p.value.id)];
    }
  }

  lemma NoStepFnTrans(a: seq<Event>, b: seq<Event>, c: seq<Event>)
    requires IsPrefix(a, b) && IsPrefix(b, c) && NoStepFnCall(a, b) && NoStepFnCall(b, c)
    ensures IsPrefix(a, c) && NoStepFnCall(a, c)
  {
    PrefixTrans(a, b, c);
    forall i | |a| <= i < |c| ensures !c[i].StepFnCalled? {
      if i < |b| {
        assert c[i] == c[..|b|][i];
      }
    }
  }

  // ---------------------------------------------------------------------------------------
  // Flags and jumps

  /** While paused or cancelled, `executeNext()` changes nothing. */
  lemma BlockedIsNoOp(s: FlowState, now: real, oracle: nat -> bool)
    requires IdsBelow(s) && (s.paused || s.cancelled)
    ensures Drive(s, now, oracle) == Driven(s, Normal)
  {
  }

  /** A jump to an unknown label throws and keeps the target, so every later run throws the
      same error again before doing anything else. */
  lemma UnknownLabelSticks(s: FlowState, now: real, oracle: nat -> bool)
    requires IdsBelow(s) && JumpPending(s) && s.jumpTarget.value !in s.labels
    ensures !s.paused && !s.cancelled ==>
              Drive(s, now, oracle) == Driven(s, Thrown(UnknownLabel(s.jumpTarget.value)))
    ensures var r := StartSpec(s, now, oracle);
            r.out == Thrown(UnknownLabel(s.jumpTarget.value)) && r.state.jumpTarget == s.jumpTarget &&
            r.state.ctrls == s.ctrls && r.state.trace == s.trace
  {
  }

  /** A jump to a known label moves the cursor there, clears the target, and (with no gate
      queued and no skipping) starts the step the label names. */
  lemma JumpLandsOnLabel(s: FlowState, now: real, oracle: nat -> bool)
    requires IdsBelow(s) && !s.paused && !s.cancelled && JumpPending(s) && s.jumpTarget.value in s.labels
    requires s.gates == [] && !s.skipMode
    requires s.labels[s.jumpTarget.value] < |s.steps| && ParseDuration(s.steps[s.labels[s.jumpTarget.value]].duration).Ok?
    ensures var k := s.labels[s.jumpTarget.value];
            var r := Drive(s, now, oracle);
            r.out == Normal && r.state.cursor == k && r.state.jumpTarget.None? &&
            r.state.steps[k].controller == Some(s.nextCtrl) && s.nextCtrl in r.state.ctrls &&
            r.state.ctrls[s.nextCtrl].owner == StepRef(s.gen, k)
  {
    var t := s.(cursor := s.labels[s.jumpTarget.value], jumpTarget := None);
    assert AfterJump(s) == Ok(t);
    assert DriveStep(s, now, oracle) == Dispatch(t, now);
  }

  // ---------------------------------------------------------------------------------------
  // Skipping

  /** Between histories `a` and its extension `b` only gate and loop conditions were called. */
  ghost predicate OnlyPredCalls(a: seq<Event>, b: seq<Event>)
  {
    IsPrefix(a, b) && forall i :: |a| <= i < |b| ==> b[i].PredCalled?
  }

  /** History `b` extends `a` by condition calls followed by the finish callback `cb`, if set. */
  ghost predicate PredsThenFinish(a: seq<Event>, b: seq<Event>, cb: Option<nat>)
  {
    var k := |FinishEvents(cb)|;
    |b| >= k && OnlyPredCalls(a, b[..|b| - k]) && b[|b| - k..] == FinishEvents(cb)
  }

  lemma PredsThenFinishTrans(a: seq<Event>, b: seq<Event>, c: seq<Event>, cb: Option<nat>)
    requires OnlyPredCalls(a, b) && PredsThenFinish(b, c, cb)
    ensures PredsThenFinish(a, c, cb)
  {
    var m := c[..|c| - |FinishEvents(cb)|];
    PrefixTrans(a, b, m);
    forall i | |a| <= i < |m| ensures m[i].PredCalled? {
      if i < |b| {
        assert m[i] == m[..|b|][i];
      }
    }
  }

  /** Condition calls and a finish call are no step function calls. */
  lemma PredsThenFinishCallsNoStepFn(a: seq<Event>, b: seq<Event>, cb: Option<nat>)
    requires PredsThenFinish(a, b, cb)
    ensures IsPrefix(a, b) && NoStepFnCall(a, b)
  {
    var k := |FinishEvents(cb)|;
    var m := b[..|b| - k];
    assert b == m + b[|b| - k..];
    forall i | |a| <= i < |b| ensures !b[i].StepFnCalled? {
      if i < |m| {
        assert b[i] == m[i];
      } else {
        assert b[i] == FinishEvents(cb)[i - |m|];
      }
    }
  }

  /** The gate phase of a skipping or failing cycle calls at most the head gate's condition. */
  lemma GateCallsOnlyPred(s: FlowState, oracle: nat -> bool)
    ensures OnlyPredCalls(s.trace, AfterGate(s, oracle).trace)
    ensures ConstGates(s.gates) ==> AfterGate(s, oracle).trace == s.trace && ConstGates(AfterGate(s, oracle).gates)
  {
    if |s.gates| > 0 {
      var s2 := AfterGate(s, oracle);
      if s.gates[0].pred.Call? {
        assert s2.trace == s.trace + [PredCalled(s.gates[0].pred.id)];
      }
      if ConstGates(s.gates) {
        forall i | 0 <= i < |s2.gates| ensures s2.gates[i].pred.Const? {
          assert s2.gates[i] == s.gates[i + 1];
        }
      }
    }
  }

  /** One cycle while skipping without a loop: the step at the cursor is passed over, or the
      pass ends with the finish callback. */
  lemma SkipCycle(s: FlowState, now: real, oracle: nat -> bool)
    requires IdsBelow(s) && !s.paused && !s.cancelled && !JumpPending(s) && s.skipMode && !s.loopEnabled
    ensures var c := DriveStep(s, now, oracle);
            var g := AfterGate(s, oracle);
            (s.cursor < |s.steps| ==> c == Next(g.(cursor := s.cursor + 1))) &&
            (s.cursor >= |s.steps| ==>
               Drive(s, now, oracle) == Driven(g.(skipMode := false, trace := g.trace + FinishEvents(s.onFinish)), Normal))
  {
    assert AfterJump(s) == Ok(s);
    var g := AfterGate(s, oracle);
    if s.cursor >= |s.steps| {
      assert DriveStep(s, now, oracle) == EndOfPass(g.(skipMode := false));
    }
  }

  /** Once skipping, `executeNext()` runs to the end of the pass: no step is started, whatever
      the later gates say (a passing gate never turns skipping off), only the queued gates'
      conditions are called, and the pass ends with the finish callback. With constant gates
      nothing but that callback is called. */
  lemma {:induction false} SkipRunsToEnd(s: FlowState, now: real, oracle: nat -> bool)
    requires IdsBelow(s) && !s.paused && !s.cancelled && !JumpPending(s) && s.skipMode && !s.loopEnabled
    ensures var r := Drive(s, now, oracle);
            r.out == Normal && r.state.ctrls == s.ctrls && r.state.steps == s.steps &&
            r.state.cursor == Max(s.cursor, |s.steps|) && !r.state.skipMode &&
            PredsThenFinish(s.trace, r.state.trace, s.onFinish) &&
            NoStepFnCall(s.trace, r.state.trace)
    ensures ConstGates(s.gates) ==> Drive(s, now, oracle).state.trace == s.trace + FinishEvents(s.onFinish)
    decreases Dist(s)
  {
    var g := AfterGate(s, oracle);
    SkipCycle(s, now, oracle);
    GateCallsOnlyPred(s, oracle);
    GateGrows(s, oracle);
    var r := Drive(s, now, oracle);
    if s.cursor < |s.steps| {
      var n := g.(cursor := s.cursor + 1);
      assert r == Drive(n, now, oracle);
      SkipRunsToEnd(n, now, oracle);
      PredsThenFinishTrans(s.trace, n.trace, r.state.trace, s.onFinish);
    } else {
      assert r.state.trace[..|g.trace|] == g.trace;
    }
    PredsThenFinishCallsNoStepFn(s.trace, r.state.trace, s.onFinish);
  }

  /** A failing `if` (or a passing `unless`) at the head of the queue, a function gate as much
      as a constant one, skips the step at the cursor and every step after it in the pass. */
  lemma FailingGateSkipsRest(s: FlowState, now: real, oracle: nat -> bool)
    requires IdsBelow(s) && !s.paused && !s.cancelled && !JumpPending(s) && !s.loopEnabled
    requires |s.gates| > 0 && Eval(s.gates[0].pred, s.trace, oracle).value == s.gates[0].negated
    ensures var r := Drive(s, now, oracle);
            r.out == Normal && r.state.ctrls == s.ctrls && r.state.steps == s.steps &&
            r.state.cursor == Max(s.cursor, |s.steps|) &&
            PredsThenFinish(s.trace, r.state.trace, s.onFinish) &&
            NoStepFnCall(s.trace, r.state.trace)
    ensures ConstGates(s.gates) ==> Drive(s, now, oracle).state.trace == s.trace + FinishEvents(s.onFinish)
  {
    assert AfterJump(s) == Ok(s);
    var s2 := AfterGate(s, oracle);
    GateCallsOnlyPred(s, oracle);
    assert s2.skipMode;
    var r := Drive(s, now, oracle);
    if s.cursor < |s.steps| {
      var n := s2.(cursor := s2.cursor + 1);
      assert DriveStep(s, now, oracle) == Next(n);
      SkipRunsToEnd(n, now, oracle);
      PredsThenFinishTrans(s.trace, n.trace, r.state.trace, s.onFinish);
    } else {
      assert DriveStep(s, now, oracle) == EndOfPass(s2.(skipMode := false));
      assert r.state.trace[..|s2.trace|] == s2.trace;
    }
    PredsThenFinishCallsNoStepFn(s.trace, r.state.trace, s.onFinish);
  }

  // ---------------------------------------------------------------------------------------
  // Loops

  /** A bounded loop over an empty timeline restarts until `++loopCount` reaches the bound and
      then finishes once: the count ends at the bound, or one more than before when the bound
      is already reached. */
  lemma {:induction false} EmptyTimelineLoops(s: FlowState, n: int, now: real, oracle: nat -> bool)
    requires IdsBelow(s) && !s.paused && !s.cancelled && !JumpPending(s) && s.gates == [] && !s.skipMode
    requires s.steps == [] && s.cursor == 0 && s.loopEnabled && s.loopLimit == Finite(n)
    ensures Drive(s, now, oracle) ==
              Driven(s.(loopCount := Max(s.loopCount + 1, n), trace := s.trace + FinishEvents(s.onFinish)), Normal)
    decreases if n > s.loopCount then n - s.loopCount else 0
  {
    assert AfterJump(s) == Ok(s) && AfterGate(s, oracle) == s;
    assert DriveStep(s, now, oracle) == EndOfPass(s);
    if s.loopCount + 1 < n {
      EmptyTimelineLoops(s.(loopCount := s.loopCount + 1), n, now, oracle);
    }
  }

  /** So `start()` on `loop(n)` with no steps counts `max(1, n)` passes and calls `onFinish`
      once. */
  lemma StartEmptyLoop(s: FlowState, n: int, now: real, oracle: nat -> bool)
    requires IdsBelow(s) && !JumpPending(s) && s.gates == [] && !s.skipMode && s.steps == []
    ensures var r := StartSpec(WithLoop(s, Finite(n)), now, oracle);
            r.out == Normal && r.state.loopCount == Max(1, n) && r.state.trace == s.trace + FinishEvents(s.onFinish)
  {
    var t := WithLoop(s, Finite(n)).(cancelled := false, paused := false, cursor := 0, loopCount := 0);
    EmptyTimelineLoops(t, n, now, oracle);
  }

  /** The end of a pass over a non-empty step list: the loop count grows when looping, the
      timeline restarts at the first step exactly when the grown count is still below the
      limit, and otherwise the run ends, having called `onFinish` once if one is set. */
  lemma EndOfNonEmptyPass(s: FlowState, now: real, oracle: nat -> bool)
    requires IdsBelow(s) && !s.paused && !s.cancelled && !JumpPending(s) && s.gates == []
    requires |s.steps| > 0 && s.cursor >= |s.steps|
    ensures var c := DriveStep(s, now, oracle);
            c.state.loopCount == (if s.loopEnabled then s.loopCount + 1 else s.loopCount) &&
            (c.Next? <==> s.loopEnabled && Below(s.loopCount + 1, s.loopLimit)) &&
            (c.Next? ==> c.state.cursor == 0 && c.state.trace == s.trace) &&
            (c.Halt? ==> Drive(s, now, oracle) == Driven(c.state, Normal) &&
                         c.state.trace == s.trace + FinishEvents(s.onFinish))
  {
    assert AfterJump(s) == Ok(s) && AfterGate(s, oracle) == s;
  }

  /** An unbounded loop over an empty timeline restarts without end: JavaScript overflows its
      stack. */
  lemma InfiniteEmptyLoopOverflows(s: FlowState, now: real, oracle: nat -> bool)
    requires IdsBelow(s) && !s.paused && !s.cancelled && !JumpPending(s) && s.gates == [] && !s.skipMode
    requires s.steps == [] && s.loopEnabled && s.loopLimit.Infinite?
    ensures Drive(s, now, oracle).out == Thrown(StackOverflow)
  {
    assert AfterJump(s) == Ok(s) && AfterGate(s, oracle) == s;
  }

  // ---------------------------------------------------------------------------------------
  // Who calls the step functions

  lemma CycleCallsNoStepFn(s: FlowState, now: real, oracle: nat -> bool)
    ensures NoStepFnCall(s.trace, DriveStep(s, now, oracle).state.trace)
  {
    if !(s.paused || s.cancelled) && AfterJump(s).Ok? {
      var s1 := AfterJump(s).value;
      var s2 := AfterGate(s1, oracle);
      assert s1.trace == s.trace;
      assert NoStepFnCall(s.trace, s2.trace) by {
        if |s1.gates| > 0 && s1.gates[0].pred.Call? {
          assert s2.trace == s.trace + [PredCalled(s1.gates[0].pred.id)];
        }
      }
      var s3 := s2.(skipMode := false);
      if !(s2.skipMode && s2.cursor < |s2.steps|) && s3.cursor >= |s3.steps| {
        var t := EndOfPass(s3).state.trace;
        assert t == s2.trace || t == s2.trace + [FinishCalled(s3.onFinish.value)];
      }
    }
  }

  /** `executeNext()` itself never calls a step's `fn`: only the timers do. */
  lemma {:induction false} DriveCallsNoStepFn(s: FlowState, now: real, oracle: nat -> bool)
    requires IdsBelow(s)
    ensures NoStepFnCall(s.trace, Drive(s, now, oracle).state.trace)
    decreases JumpRank(s), LoopsLeft(s), GateBudget(s), Dist(s)
  {
    CycleCallsNoStepFn(s, now, oracle);
    CycleGrows(s, now, oracle);
    match DriveStep(s, now, oracle)
    case Halt(_, _) =>
    case Next(t) =>
      CycleDecreases(s, now, oracle);
      DriveCallsNoStepFn(t, now, oracle);
      var r := Drive(t, now, oracle).state.trace;
      assert IsPrefix(t.trace, r);
      forall i | |s.trace| <= i < |r| ensures !r[i].StepFnCalled? {
        if i < |t.trace| {
          assert r[i] == r[..|t.trace|][i];
        }
      }
  }

  /** `start()` calls no step function. */
  lemma StartCallsNoStepFn(s: FlowState, now: real, oracle: nat -> bool)
    requires IdsBelow(s)
    ensures NoStepFnCall(s.trace, StartSpec(s, now, oracle).state.trace)
  {
    DriveCallsNoStepFn(s.(cancelled := false, paused := false, cursor := 0, loopCount := 0), now, oracle);
  }

  /** An `after` step's `fn` is never called: its timeout only advances the timeline. */
  lemma AfterStepNeverCallsFn(s: FlowState, id: nat, now: real, oracle: nat -> bool)
    requires IdsBelow(s) && Fireable(s, id, now) && s.ctrls[id].AfterCtrl?
    ensures NoStepFnCall(s.trace, FireSpec(s, id, now, oracle).state.trace)
  {
    DriveCallsNoStepFn(LeftAfter(s, id), now, oracle);
  }

  /** A `flow().after(d, f).onFinish(g)` that is started and whose timeout then runs calls `g`
      and never `f`. */
  lemma AfterThenFinish(d: real, f: nat, g: nat, now: real, oracle: nat -> bool)
    requires d >= 0.0
    ensures var s := WithOnFinish(WithAfter(Initial(), Number(d), Some(f)), Some(g));
            var r := StartSpec(s, now, oracle);
            r.out == Normal && Fireable(r.state, 0, now + d) &&
            FireSpec(r.state, 0, now + d, oracle) == Driven(FireSpec(r.state, 0, now + d, oracle).state, Normal) &&
            FireSpec(r.state, 0, now + d, oracle).state.trace == [FinishCalled(g)]
  {
    var s := WithOnFinish(WithAfter(Initial(), Number(d), Some(f)), Some(g));
    var s0 := s.(cancelled := false, paused := false, cursor := 0, loopCount := 0);
    assert AfterJump(s0) == Ok(s0) && AfterGate(s0, oracle) == s0;
    assert DriveStep(s0, now, oracle) == Dispatch(s0, now);
    var r := StartSpec(s, now, oracle);
    assert r.state == Dispatch(s0, now).state;
    var c := r.state.ctrls[0];
    var s1 := r.state.(ctrls := r.state.ctrls[0 := AfterCtrl(AfterFn.Fired(c.timer), c.owner, c.clearsOwner)]);
    var s2 := ClearOwner(s1, c.owner).(cursor := 1);
    assert AfterJump(s2) == Ok(s2) && AfterGate(s2, oracle) == s2;
    assert DriveStep(s2, now + d, oracle) == EndOfPass(s2);
  }

  /** A continuing tick of an `every` step below its `times`: its `while` condition holds, `fn`
      gets the wrapper's count, which then grows by one, the `doWhile` condition holds too, and
      the controller re-arms. A step without conditions is the case where neither is called. */
  lemma EveryTickCallsFn(s: FlowState, id: nat, now: real, oracle: nat -> bool)
    requires IdsBelow(s) && Fireable(s, id, now) && s.ctrls[id].EveryCtrl? && !s.paused && !s.cancelled
    requires var c := s.ctrls[id];
             Below(c.ticker.count, c.ticker.max) && c.fn.Some? && Below(c.count + 1, c.times) &&
             EvalOpt(c.whileCond, s.trace, oracle).value &&
             EvalOpt(c.doWhileCond, CalledTrace(s, id, oracle), oracle).value
    ensures var c := s.ctrls[id];
            FireSpec(s, id, now, oracle) ==
              Driven(s.(ctrls := s.ctrls[id := c.(ticker := EveryFn.AfterCall(EveryFn.Expired(c.ticker), now), count := c.count + 1)],
                        trace := EvalOpt(c.doWhileCond, CalledTrace(s, id, oracle), oracle).trace), Normal)
    ensures var c := s.ctrls[id];
            c.whileCond.None? && c.doWhileCond.None? ==>
              FireSpec(s, id, now, oracle).state.trace == s.trace + [StepFnCalled(c.fn.value, c.count)]
  {
    var c := s.ctrls[id];
    var s1 := s.(ctrls := s.ctrls[id := c.(ticker := EveryFn.Expired(c.ticker))]);
    assert s1.ctrls.Keys == s.ctrls.Keys;
    var w := EvalOpt(c.whileCond, s.trace, oracle);
    assert Wrapper(s1, id, now, oracle) == RunStepFn(s1.(trace := w.trace), id, now, oracle);
  }

  /** A step without `fn` throws on its first tick, once the wrapper's count has grown; the
      throw also skips the re-arm, so the controller still claims to run but no timeout is
      armed and the timeline never advances. */
  lemma MissingFnStallsStep(s: FlowState, id: nat, now: real, oracle: nat -> bool)
    requires IdsBelow(s) && Fireable(s, id, now) && s.ctrls[id].EveryCtrl? && !s.paused && !s.cancelled
    requires var c := s.ctrls[id];
             EveryFn.Timed(c.ticker) && Below(c.ticker.count, c.ticker.max) && c.whileCond.None? && c.fn.None?
    ensures var c := s.ctrls[id];
            var r := FireSpec(s, id, now, oracle);
            r == Driven(s.(ctrls := s.ctrls[id := c.(ticker := EveryFn.Expired(c.ticker), count := c.count + 1)]), Thrown(TypeError)) &&
            r.state.ctrls[id].ticker.running && r.state.ctrls[id].ticker.timer.None?
  {
    var c := s.ctrls[id];
    var s1 := s.(ctrls := s.ctrls[id := c.(ticker := EveryFn.Expired(c.ticker))]);
    assert s1.ctrls.Keys == s.ctrls.Keys;
    assert Wrapper(s1, id, now, oracle) == RunStepFn(s1, id, now, oracle);
    assert RunStepFn(s1, id, now, oracle) ==
             Driven(s.(ctrls := s.ctrls[id := c.(ticker := EveryFn.Expired(c.ticker), count := c.count + 1)]), Thrown(TypeError));
  }

  /** A failing `while` ends the step before `fn` runs: no step function is called, the
      timeline continues from the step after it, and yet the controller it cancelled is re-armed
      by the tick that ran the wrapper, so it goes on firing after the timeline has moved on. */
  lemma WhileExitLeavesTickerArmed(s: FlowState, id: nat, now: real, oracle: nat -> bool)
    requires IdsBelow(s) && Fireable(s, id, now) && s.ctrls[id].EveryCtrl? && !s.paused && !s.cancelled
    requires var c := s.ctrls[id]; Below(c.ticker.count, c.ticker.max) && !EvalOpt(c.whileCond, s.trace, oracle).value
    ensures var c := s.ctrls[id];
            var e := LeftEvery(Expiring(s, id).(trace := EvalOpt(c.whileCond, s.trace, oracle).trace), id);
            var d := Drive(e, now, oracle);
            var r := FireSpec(s, id, now, oracle);
            e.cursor == s.cursor + 1 && NoStepFnCall(s.trace, r.state.trace) &&
            (d.out.Thrown? ==> r == d) &&
            (d.out.Normal? ==> r.out.Normal? && r.state.trace == d.state.trace && r.state.cursor == d.state.cursor &&
                               r.state.ctrls[id].ticker == EveryFn.AfterCall(EveryFn.Expired(c.ticker), now) &&
                               r.state.ctrls[id].ticker.running && r.state.ctrls[id].ticker.timer.Some?)
  {
    var c := s.ctrls[id];
    var x := Expiring(s, id);
    var w := EvalOpt(c.whileCond, s.trace, oracle);
    var x1 := x.(trace := w.trace);
    assert x.ctrls.Keys == s.ctrls.Keys && x.ctrls[id].whileCond == c.whileCond;
    assert Wrapper(x, id, now, oracle) == ExitStep(x1, id, now, oracle);
    var e := LeftEvery(x1, id);
    var d := Drive(e, now, oracle);
    EvalCallsNoStepFn(c.whileCond, s.trace, oracle);
    DriveCallsNoStepFn(e, now, oracle);
    NoStepFnTrans(s.trace, e.trace, d.state.trace);
    EveryFn.ControlInsideCallbackIsOverridden(EveryFn.Expired(c.ticker), now, now);
  }

  /** The history of a tick whose `while` passes, up to and including the call of `fn`. */
  function CalledTrace(s: FlowState, id: nat, oracle: nat -> bool): seq<Event>
    requires id in s.ctrls && s.ctrls[id].EveryCtrl? && s.ctrls[id].fn.Some?
  {
    var c := s.ctrls[id];
    EvalOpt(c.whileCond, s.trace, oracle).trace + [StepFnCalled(c.fn.value, c.count)]
  }

  /** The state in which the wrapper leaves the step after calling `fn`: the timeout has
      expired, the count has grown and the `doWhile` condition has been evaluated. */
  function CalledState(s: FlowState, id: nat, oracle: nat -> bool): FlowState
    requires id in s.ctrls && s.ctrls[id].EveryCtrl? && s.ctrls[id].fn.Some? && s.ctrls[id].ticker.timer.Some?
  {
    var c := s.ctrls[id];
    var x := Expiring(s, id);
    x.(ctrls := x.ctrls[id := x.ctrls[id].(count := c.count + 1)],
       trace := EvalOpt(c.doWhileCond, CalledTrace(s, id, oracle), oracle).trace)
  }

  /** A tick whose `while` passes and whose call of `fn` is the last one of the step. */
  ghost predicate LastCall(s: FlowState, id: nat, now: real, oracle: nat -> bool)
  {
    IdsBelow(s) && Fireable(s, id, now) && s.ctrls[id].EveryCtrl? && !s.paused && !s.cancelled &&
    var c := s.ctrls[id];
    Below(c.ticker.count, c.ticker.max) && c.fn.Some? && EvalOpt(c.whileCond, s.trace, oracle).value &&
    (!EvalOpt(c.doWhileCond, CalledTrace(s, id, oracle), oracle).value || !Below(c.count + 1, c.times))
  }

  lemma LastCallWrapper(s: FlowState, id: nat, now: real, oracle: nat -> bool)
    requires LastCall(s, id, now, oracle)
    ensures IdsBelow(CalledState(s, id, oracle))
    ensures Wrapper(Expiring(s, id), id, now, oracle) == ExitStep(CalledState(s, id, oracle), id, now, oracle)
  {
    var c := s.ctrls[id];
    var x := Expiring(s, id);
    var x1 := x.(trace := EvalOpt(c.whileCond, s.trace, oracle).trace);
    assert x.ctrls.Keys == s.ctrls.Keys && x.ctrls[id].whileCond == c.whileCond;
    assert Wrapper(x, id, now, oracle) == RunStepFn(x1, id, now, oracle);
    var c1 := x1.ctrls[id];
    assert c1 == c.(ticker := EveryFn.Expired(c.ticker));
    var s2 := x1.(ctrls := x1.ctrls[id := c1.(count := c1.count + 1)],
                  trace := x1.trace + [StepFnCalled(c1.fn.value, c1.count)]);
    assert s2.trace == CalledTrace(s, id, oracle);
    var s3 := s2.(trace := EvalOpt(c1.doWhileCond, s2.trace, oracle).trace);
    assert x1.ctrls == x.ctrls && c1 == x.ctrls[id] && c1.count == c.count && c1.doWhileCond == c.doWhileCond;
    assert s3.ctrls == CalledState(s, id, oracle).ctrls;
    assert s3.trace == CalledState(s, id, oracle).trace;
    assert s3 == CalledState(s, id, oracle);
    assert s3.ctrls.Keys == s.ctrls.Keys;
    assert RunStepFn(x1, id, now, oracle) == ExitStep(s3, id, now, oracle);
  }

  /** A failing `doWhile`, or the call that reaches `times`, ends the step after `fn` has run:
      exactly one step-function call, with the wrapper's count, then the timeline continues
      from the step after it without calling any; the tick re-arms the controller as after a
      `while` exit. */
  lemma LastCallExitsStep(s: FlowState, id: nat, now: real, oracle: nat -> bool)
    requires LastCall(s, id, now, oracle)
    ensures var c := s.ctrls[id];
            var called := CalledTrace(s, id, oracle);
            var e := LeftEvery(CalledState(s, id, oracle), id);
            var d := Drive(e, now, oracle);
            var r := FireSpec(s, id, now, oracle);
            e.cursor == s.cursor + 1 && e.ctrls[id].count == c.count + 1 &&
            called[..|called| - 1] == EvalOpt(c.whileCond, s.trace, oracle).trace &&
            NoStepFnCall(s.trace, called[..|called| - 1]) && called[|called| - 1] == StepFnCalled(c.fn.value, c.count) &&
            IsPrefix(called, r.state.trace) && NoStepFnCall(called, r.state.trace) &&
            (d.out.Thrown? ==> r == d) &&
            (d.out.Normal? ==> r.out.Normal? && r.state.trace == d.state.trace && r.state.cursor == d.state.cursor &&
                               r.state.ctrls[id].ticker.running && r.state.ctrls[id].ticker.timer.Some?)
  {
    var c := s.ctrls[id];
    var called := CalledTrace(s, id, oracle);
    LastCallWrapper(s, id, now, oracle);
    var e := LeftEvery(CalledState(s, id, oracle), id);
    var d := Drive(e, now, oracle);
    assert called[..|called| - 1] == EvalOpt(c.whileCond, s.trace, oracle).trace;
    EvalCallsNoStepFn(c.whileCond, s.trace, oracle);
    EvalCallsNoStepFn(c.doWhileCond, called, oracle);
    DriveCallsNoStepFn(e, now, oracle);
    NoStepFnTrans(called, e.trace, d.state.trace);
    EveryFn.ControlInsideCallbackIsOverridden(EveryFn.Expired(c.ticker), now, now);
  }

  /** An `every` step with `times <= 0` never ends: its first tick cancels its controller
      without calling anything, the cursor stays, and the controller cannot be resumed. */
  lemma NonPositiveTimesStalls(s: FlowState, now: real, later: real, oracle: nat -> bool)
    requires IdsBelow(s) && s.cursor < |s.steps|
    requires var k := s.steps[s.cursor].kind; k.EveryKind? && k.times.Finite? && k.times.n <= 0
    requires ParseDuration(s.steps[s.cursor].duration).Ok?
    requires later >= Deadline(now, ParseDuration(s.steps[s.cursor].duration).value)
    ensures var d := Dispatch(s, now).state;
            var id := s.nextCtrl;
            IdsBelow(d) && Fireable(d, id, later) &&
            var f := FireSpec(d, id, later, oracle);
            var tk := f.state.ctrls[id].ticker;
            f.out == Normal && f.state.cursor == s.cursor && f.state.steps == d.steps && f.state.trace == s.trace &&
            !tk.running && tk.timer.None? && (forall t :: EveryFn.Resumed(tk, t) == tk)
  {
    DispatchGrows(s, now);
  }

  // ---------------------------------------------------------------------------------------
  // Pause, resume, cancel, reset

  /** The `after` step at the cursor, with a truthy start time and a delay. */
  ghost predicate TimedAfterStep(s: FlowState)
  {
    s.cursor < |s.steps| &&
    var st := s.steps[s.cursor]; st.kind.AfterKind? && st.delay.Some? && Truthy(st.startedAt)
  }

  /** Pausing an `after` step records its unelapsed time, `delay - (now - startedAt)`. */
  lemma PauseRecordsRemaining(s: FlowState, now: real)
    requires !s.paused && !s.cancelled && TimedAfterStep(s)
    ensures var st := s.steps[s.cursor];
            var p := PauseSpec(s, now);
            p.out == Normal && p.state.paused && !p.state.cancelled && p.state.cursor == s.cursor &&
            |p.state.steps| == |s.steps| &&
            p.state.steps[s.cursor] == st.(remaining := Some(st.delay.value - (now - st.startedAt.value)))
  {
    var st := s.steps[s.cursor];
    var s2 := WithCtrl(s.(paused := true), st.controller, PauseOp(now));
    assert s2.steps == s.steps && s2.cursor == s.cursor;
    var s3 := s2.(steps := s2.steps[s2.cursor := st.(remaining := Some(st.delay.value - (now - st.startedAt.value)))]);
    assert WithCtrl(s3, st.controller, CancelOp).steps == s3.steps;
  }

  /** Resuming an `after` step restarts its clock, whether or not the remaining time parses;
      when it does, a new controller with the next id runs for it, due after the remaining
      time, and the step points to it. */
  lemma ResumeRestartsClock(s: FlowState, now: real)
    requires s.paused && !s.cancelled && s.cursor < |s.steps| && s.steps[s.cursor].kind.AfterKind?
    ensures var st := s.steps[s.cursor];
            var q := ResumeSpec(s, now).state;
            !q.paused && !q.cancelled && q.cursor == s.cursor && |q.steps| == |s.steps| &&
            q.steps[s.cursor].kind == st.kind && q.steps[s.cursor].delay == st.delay &&
            q.steps[s.cursor].startedAt == Some(now)
    ensures var st := s.steps[s.cursor];
            var r := ResumeSpec(s, now);
            var id := s.nextCtrl;
            RemainingAsDuration(st.remaining).Ok? ==>
              r.out == Normal && id in r.state.ctrls && r.state.nextCtrl == id + 1 &&
              r.state.steps[s.cursor].controller == Some(id) &&
              r.state.ctrls[id] == AfterCtrl(AfterFn.Create(st.remaining.value, now), StepRef(s.gen, s.cursor), false) &&
              r.state.ctrls[id].timer.running && r.state.ctrls[id].timer.timer == Some(Deadline(now, st.remaining.value))
  {
  }

  /** The controller `resume()` creates for an `after` step moves the timeline past the step
      when its timeout runs, and leaves the step's `controller` pointing at it. */
  lemma ResumedAfterStepAdvances(s: FlowState, now: real, later: real, oracle: nat -> bool)
    requires IdsBelow(s) && s.paused && !s.cancelled && s.cursor < |s.steps| && s.steps[s.cursor].kind.AfterKind?
    requires RemainingAsDuration(s.steps[s.cursor].remaining).Ok?
    requires later >= Deadline(now, s.steps[s.cursor].remaining.value)
    ensures var q := ResumeSpec(s, now).state;
            var id := s.nextCtrl;
            IdsBelow(q) && Fireable(q, id, later) &&
            var e := LeftAfter(q, id);
            e.cursor == s.cursor + 1 && e.steps == q.steps && e.steps[s.cursor].controller == Some(id) &&
            FireSpec(q, id, later, oracle) == Drive(e, later, oracle)
  {
    ResumeRestartsClock(s, now);
  }

  /** The remaining time recorded on the step at the cursor. */
  function RemainingAtCursor(s: FlowState): Option<real>
  {
    if s.cursor < |s.steps| then s.steps[s.cursor].remaining else None
  }

  /** A second pause recomputes the remaining time from the original `delay` and the latest
      resume, forgetting the time the step ran before the first pause. */
  lemma SecondPauseForgetsFirstRun(s: FlowState, t1: real, t2: real, t3: real)
    requires !s.paused && !s.cancelled && TimedAfterStep(s)
    requires t2 != 0.0
    ensures var st := s.steps[s.cursor];
            var p1 := PauseSpec(s, t1).state;
            RemainingAtCursor(p1) == Some(st.delay.value - (t1 - st.startedAt.value)) &&
            RemainingAtCursor(PauseSpec(ResumeSpec(p1, t2).state, t3).state) == Some(st.delay.value - (t3 - t2))
  {
    PauseRecordsRemaining(s, t1);
    var p1 := PauseSpec(s, t1).state;
    ResumeRestartsClock(p1, t2);
    var q := ResumeSpec(p1, t2).state;
    var qst := q.steps[s.cursor];
    assert qst.delay == s.steps[s.cursor].delay && qst.startedAt == Some(t2);
    assert TimedAfterStep(q);
    PauseRecordsRemaining(q, t3);
  }

  /** Past the last step `pause()`, `resume()` and `cancel()` set their flag and then throw,
      and `reset()` then stops at the throw of its `cancel()`. */
  lemma PastEndThrows(s: FlowState, now: real)
    requires s.cursor >= |s.steps|
    ensures !s.paused && !s.cancelled ==> PauseSpec(s, now) == Driven(s.(paused := true), Thrown(NotAStep))
    ensures s.paused && !s.cancelled ==> ResumeSpec(s, now) == Driven(s.(paused := false), Thrown(NotAStep))
    ensures CancelSpec(s) == Driven(s.(cancelled := true), Thrown(NotAStep))
    ensures ResetSpec(s) == CancelSpec(s)
  {
  }

  /** `reset()` empties the step list but keeps the labels, the gate queue, the jump target,
      the skip flag, the loop settings, the pending conditions and the controllers, and leaves
      the timeline cancelled until the next `start()`. */
  lemma ResetKeepsConfiguration(s: FlowState)
    requires s.cursor < |s.steps|
    ensures var r := ResetSpec(s).state;
            ResetSpec(s).out == Normal &&
            r.steps == [] && r.gen == s.gen + 1 && r.cursor == 0 && r.loopCount == 0 && r.onFinish.None? &&
            r.cancelled && r.paused == s.paused && r.labels == s.labels && r.gates == s.gates &&
            r.jumpTarget == s.jumpTarget && r.skipMode == s.skipMode && r.loopEnabled == s.loopEnabled &&
            r.loopLimit == s.loopLimit && r.whileCond == s.whileCond && r.doWhileCond == s.doWhileCond &&
            r.ctrls.Keys == s.ctrls.Keys && r.trace == s.trace
  {
  }

  /** A resumed `after` step parses its remaining time written as milliseconds: a remaining
      time written as a numeral parses to that numeral's value, as `RemainingAsDuration` says,
      and a negative one is rejected, as no string parses to a negative duration. */
  lemma RemainingAgreesWithParser(n: string, rem: real, text: string)
    requires IsNumeral(n)
    ensures RemainingAsDuration(Some(NumeralValue(n))) == ParseDuration(Str(n + UnitText(Ms)))
    ensures rem < 0.0 ==> RemainingAsDuration(Some(rem)).Err? &&
                          (ParseDuration(Str(text)).Ok? ==> ParseDuration(Str(text)).value != rem)
  {
    WrittenDurationRoundTrip(n, Ms);
    NumeralNonNegative(n);
    if ParseDuration(Str(text)).Ok? {
      StringDurationNonNegative(text);
    }
  }

  // ---------------------------------------------------------------------------------------
  // The id invariant

  /** The runner's control methods keep controller ids below `nextCtrl`. */
  lemma ControlsKeepIds(s: FlowState, now: real, oracle: nat -> bool)
    requires IdsBelow(s)
    ensures IdsBelow(Initial())
    ensures IdsBelow(PauseSpec(s, now).state) && IdsBelow(ResumeSpec(s, now).state)
    ensures IdsBelow(CancelSpec(s).state) && IdsBelow(ResetSpec(s).state)
    ensures IdsBelow(StartSpec(s, now, oracle).state)
  {
    assert IdsBelow(PauseSpec(s, now).state) by {
      assert PauseSpec(s, now).state.ctrls.Keys <= s.ctrls.Keys;
    }
    assert IdsBelow(CancelSpec(s).state) by {
      assert CancelSpec(s).state.ctrls.Keys <= s.ctrls.Keys;
    }
  }

  /** So does a timeout: together with `ControlsKeepIds`, the invariant the runner's methods
      require holds from `flow()` on. */
  lemma FireKeepsIds(s: FlowState, id: nat, now: real, oracle: nat -> bool)
    requires IdsBelow(s) && Fireable(s, id, now)
    ensures IdsBelow(FireSpec(s, id, now, oracle).state)
  {
    var c := s.ctrls[id];
    if c.EveryCtrl? {
      var t := EveryFn.Expired(c.ticker);
      var s1 := s.(ctrls := s.ctrls[id := c.(ticker := t)]);
      assert s1.ctrls.Keys == s.ctrls.Keys;
      if Below(t.count, t.max) {
        var w := Wrapper(s1, id, now, oracle);
        assert w.state.ctrls.Keys == w.state.ctrls[id := w.state.ctrls[id]].Keys;
      }
    }
  }
}
