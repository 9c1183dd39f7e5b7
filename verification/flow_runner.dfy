/** The runner object `flow()` returns (src/TimeoutFlow.js), with the closure variables of
    `flow()` as its fields. Every method is proved to leave the fields as the corresponding
    function of `FlowSpec` says; `ExecuteNext` runs the self-calls of `executeNext()` as a
    loop. The `after()`/`every()` controllers are the values in `ctrls`. */
module FlowRunner {
  import opened Values
  import opened Durations
  import AfterFn
  import EveryFn
  import opened FlowSpec

  class Runner {
    var steps: seq<Step>
    var gen: nat
    var cursor: nat
    var paused: bool
    var cancelled: bool
    var loopEnabled: bool
    var loopLimit: Limit
    var loopCount: nat
    var onFinish: Option<nat>
    var labels: map<string, nat>
    var jumpTarget: Option<string>
    var gates: seq<Gate>
    var skipMode: bool
    var whileCond: Option<Pred>
    var doWhileCond: Option<Pred>
    var ctrls: map<nat, Ctrl>
    var nextCtrl: nat
    var trace: seq<Event>

    function State(): FlowState
      reads this
    {
      FlowState(steps, gen, cursor, paused, cancelled, loopEnabled, loopLimit, loopCount, onFinish,
                labels, jumpTarget, gates, skipMode, whileCond, doWhileCond, ctrls, nextCtrl, trace)
    }

    /** `flow()`. */
    constructor ()
      ensures State() == Initial()
    {
      steps := [];
      gen := 0;
      cursor := 0;
      paused := false;
      cancelled := false;
      loopEnabled := false;
      loopLimit := Infinite;
      loopCount := 0;
      onFinish := None;
      labels := map[];
      jumpTarget := None;
      gates := [];
      skipMode := false;
      whileCond := None;
      doWhileCond := None;
      ctrls := map[];
      nextCtrl := 0;
      trace := [];
    }

    // -------------------------------------------------------------------------------------
    // Builders

    method After(duration: Value, fn: Option<nat>)
      modifies this
      ensures State() == WithAfter(old(State()), duration, fn)
    {
      steps := steps + [Step(AfterKind, duration, fn, None, None, None, None)];
    }

    method Every(duration: Value, fn: Option<nat>, times: Limit)
      modifies this
      ensures State() == WithEvery(old(State()), duration, fn, times)
    {
      steps := steps + [Step(EveryKind(times, whileCond, doWhileCond), duration, fn, None, None, None, None)];
      whileCond := None;
      doWhileCond := None;
    }

    method Loop(n: Limit)
      modifies this
      ensures State() == WithLoop(old(State()), n)
    {
      loopEnabled := true;
      loopLimit := n;
    }

    method OnFinish(cb: Option<nat>)
      modifies this
      ensures State() == WithOnFinish(old(State()), cb)
    {
      onFinish := cb;
    }

    method Label(name: string)
      modifies this
      ensures State() == WithLabel(old(State()), name)
    {
      labels := labels[name := |steps|];
    }

    method JumpTo(name: string)
      modifies this
      ensures State() == WithJump(old(State()), name)
    {
      jumpTarget := Some(name);
    }

    method If(p: Pred)
      modifies this
      ensures State() == WithGate(old(State()), p, false)
    {
      gates := gates + [Gate(p, false)];
    }

    method Unless(p: Pred)
      modifies this
      ensures State() == WithGate(old(State()), p, true)
    {
      gates := gates + [Gate(p, true)];
    }

    method While(p: Pred)
      modifies this
      ensures State() == WithWhile(old(State()), p)
    {
      whileCond := Some(p);
    }

    method DoWhile(p: Pred)
      modifies this
      ensures State() == WithDoWhile(old(State()), p)
    {
      doWhileCond := Some(p);
    }

    function IsPaused(): (r: bool)
      reads this
      ensures r == State().paused
    {
      paused
    }

    // -------------------------------------------------------------------------------------
    // executeNext()

    /** Evaluates a condition, recording a call of a user predicate. */
    method EvalCond(p: Option<Pred>, oracle: nat -> bool) returns (v: bool)
      modifies this
      ensures var e := EvalOpt(p, old(trace), oracle);
              v == e.value && State() == old(State()).(trace := e.trace)
    {
      if p.Some? && p.value.Call? {
        v := oracle(|trace|);
        trace := trace + [PredCalled(p.value.id)];
      } else {
        v := if p.Some? then p.value.b else true;
      }
    }

    method EndPass() returns (halted: bool, out: Outcome)
      modifies this
      ensures var c := EndOfPass(old(State()));
              State() == c.state && halted == c.Halt? && (halted ==> out == c.out)
    {
      if loopEnabled && Below(loopCount + 1, loopLimit) {
        loopCount := loopCount + 1;
        cursor := 0;
        if |steps| == 0 && loopLimit.Infinite? {
          return true, Thrown(StackOverflow);
        }
        return false, Normal;
      }
      if loopEnabled {
        loopCount := loopCount + 1;
      }
      if onFinish.Some? {
        trace := trace + [FinishCalled(onFinish.value)];
      }
      return true, Normal;
    }

    method StartStep(now: real) returns (out: Outcome)
      requires cursor < |steps|
      modifies this
      ensures var c := Dispatch(old(State()), now);
              State() == c.state && c.Halt? && out == c.out
    {
      var st := steps[cursor];
      var parsed := ParseDuration(st.duration);
      if parsed.Err? {
        return Thrown(parsed.error);
      }
      var ms := parsed.value;
      var id := nextCtrl;
      var owner := StepRef(gen, cursor);
      if st.kind.AfterKind? {
        ctrls := ctrls[id := AfterCtrl(AfterFn.Create(ms, now), owner, true)];
        steps := steps[cursor := st.(delay := Some(ms), startedAt := Some(now), controller := Some(id))];
      } else {
        ctrls := ctrls[id := EveryCtrl(EveryFn.Create(ms, st.kind.times, false, now).state, owner, st.fn,
                                       st.kind.times, st.kind.whileCond, st.kind.doWhileCond, 0)];
        steps := steps[cursor := st.(controller := Some(id))];
      }
      nextCtrl := id + 1;
      out := Normal;
    }

    /** The jump phase of `executeNext()`. */
    method JumpPhase() returns (out: Outcome)
      modifies this
      ensures AfterJump(old(State())).Ok? ==> out == Normal && State() == AfterJump(old(State())).value
      ensures AfterJump(old(State())).Err? ==> out == Thrown(AfterJump(old(State())).error) && State() == old(State())
    {
      if jumpTarget.Some? && jumpTarget.value != "" {
        if jumpTarget.value in labels {
          cursor := labels[jumpTarget.value];
          jumpTarget := None;
        } else {
          return Thrown(UnknownLabel(jumpTarget.value));
        }
      }
      out := Normal;
    }

    /** The gate phase of `executeNext()`. */
    method GatePhase(oracle: nat -> bool)
      modifies this
      ensures State() == AfterGate(old(State()), oracle)
    {
      if |gates| > 0 {
        var g := gates[0];
        gates := gates[1..];
        var v := EvalCond(Some(g.pred), oracle);
        var pass := if g.negated then !v else v;
        if !pass {
          skipMode := true;
        }
      }
    }

    /** One invocation of `executeNext()`, up to the point where it calls itself or stops. */
    method RunCycle(now: real, oracle: nat -> bool) returns (halted: bool, out: Outcome)
      modifies this
      ensures var c := DriveStep(old(State()), now, oracle);
              State() == c.state && halted == c.Halt? && (halted ==> out == c.out)
    {
      if paused || cancelled {
        return true, Normal;
      }
      ghost var s0 := State();
      out := JumpPhase();
      if out.Thrown? {
        return true, out;
      }
      ghost var s1 := State();
      assert AfterJump(s0) == Ok(s1);
      GatePhase(oracle);
      ghost var s2 := State();
      if skipMode && cursor < |steps| {
        cursor := cursor + 1;
        assert DriveStep(s0, now, oracle) == Next(s2.(cursor := s2.cursor + 1));
        return false, Normal;
      }
      skipMode := false;
      ghost var s3 := State();
      assert s3 == s2.(skipMode := false);
      if cursor >= |steps| {
        assert DriveStep(s0, now, oracle) == EndOfPass(s3);
        halted, out := EndPass();
        return;
      }
      assert DriveStep(s0, now, oracle) == Dispatch(s3, now);
      out := StartStep(now);
      halted := true;
    }

    /** `executeNext()`. */
    method ExecuteNext(now: real, oracle: nat -> bool) returns (out: Outcome)
      requires IdsBelow(State())
      modifies this
      ensures var d := Drive(old(State()), now, oracle);
              State() == d.state && out == d.out
    {
      while true
        invariant IdsBelow(State())
        invariant Drive(State(), now, oracle) == Drive(old(State()), now, oracle)
        decreases JumpRank(State()), LoopsLeft(State()), GateBudget(State()), Dist(State())
      {
        ghost var before := State();
        CycleGrows(before, now, oracle);
        var halted;
        halted, out := RunCycle(now, oracle);
        if halted {
          return;
        }
        CycleDecreases(before, now, oracle);
      }
    }

    // -------------------------------------------------------------------------------------
    // Control methods

    method Start(now: real, oracle: nat -> bool) returns (out: Outcome)
      requires IdsBelow(State())
      modifies this
      ensures var d := StartSpec(old(State()), now, oracle);
              State() == d.state && out == d.out
    {
      cancelled := false;
      paused := false;
      cursor := 0;
      loopCount := 0;
      out := ExecuteNext(now, oracle);
    }

    /** `step?.controller?.op?.()`. */
    method ApplyToCtrl(cid: Option<nat>, op: CtrlOp)
      modifies this
      ensures State() == WithCtrl(old(State()), cid, op)
    {
      if cid.Some? && cid.value in ctrls {
        ctrls := ctrls[cid.value := CtrlApply(ctrls[cid.value], op)];
      }
    }

    method Pause(now: real) returns (out: Outcome)
      modifies this
      ensures var d := PauseSpec(old(State()), now);
              State() == d.state && out == d.out
    {
      if paused || cancelled {
        return Normal;
      }
      paused := true;
      if cursor >= |steps| {
        return Thrown(NotAStep);
      }
      var st := steps[cursor];
      ApplyToCtrl(st.controller, PauseOp(now));
      if st.kind.AfterKind? && Truthy(st.startedAt) {
        var rem := if st.delay.Some? then Some(st.delay.value - (now - st.startedAt.value)) else None;
        steps := steps[cursor := st.(remaining := rem)];
        ApplyToCtrl(st.controller, CancelOp);
      }
      out := Normal;
    }

    method Resume(now: real) returns (out: Outcome)
      modifies this
      ensures var d := ResumeSpec(old(State()), now);
              State() == d.state && out == d.out
    {
      if !paused || cancelled {
        return Normal;
      }
      paused := false;
      if cursor >= |steps| {
        return Thrown(NotAStep);
      }
      var st := steps[cursor];
      if st.kind.AfterKind? {
        var st1 := st.(startedAt := Some(now));
        steps := steps[cursor := st1];
        var parsed := RemainingAsDuration(st.remaining);
        if parsed.Err? {
          return Thrown(parsed.error);
        }
        var id := nextCtrl;
        ctrls := ctrls[id := AfterCtrl(AfterFn.Create(parsed.value, now), StepRef(gen, cursor), false)];
        steps := steps[cursor := st1.(controller := Some(id))];
        nextCtrl := id + 1;
      } else {
        ApplyToCtrl(st.controller, ResumeOp(now));
      }
      out := Normal;
    }

    method Cancel() returns (out: Outcome)
      modifies this
      ensures var d := CancelSpec(old(State()));
              State() == d.state && out == d.out
    {
      cancelled := true;
      if cursor >= |steps| {
        return Thrown(NotAStep);
      }
      var st := steps[cursor];
      ApplyToCtrl(st.controller, CancelOp);
      steps := steps[cursor := st.(controller := None)];
      out := Normal;
    }

    method Reset() returns (out: Outcome)
      modifies this
      ensures var d := ResetSpec(old(State()));
              State() == d.state && out == d.out
    {
      out := Cancel();
      if out.Thrown? {
        return;
      }
      steps := [];
      gen := gen + 1;
      cursor := 0;
      loopCount := 0;
      onFinish := None;
    }

    // -------------------------------------------------------------------------------------
    // Timer callbacks

    method ClearOwnerStep(owner: StepRef)
      modifies this
      ensures State() == ClearOwner(old(State()), owner)
    {
      if owner.gen == gen && owner.index < |steps| {
        steps := steps[owner.index := steps[owner.index].(controller := None)];
      }
    }

    /** The exit's bookkeeping before `executeNext()`: cancel, forget, advance. */
    method LeaveEvery(id: nat)
      requires IdsBelow(State()) && id in ctrls && ctrls[id].EveryCtrl?
      modifies this
      ensures State() == LeftEvery(old(State()), id)
    {
      var c := ctrls[id];
      ctrls := ctrls[id := c.(ticker := EveryFn.Cancelled(c.ticker))];
      ClearOwnerStep(c.owner);
      cursor := cursor + 1;
    }

    method Exit(id: nat, now: real, oracle: nat -> bool) returns (out: Outcome)
      requires IdsBelow(State()) && id in ctrls && ctrls[id].EveryCtrl?
      modifies this
      ensures var d := ExitStep(old(State()), id, now, oracle);
              State() == d.state && out == d.out
    {
      LeaveEvery(id);
      out := ExecuteNext(now, oracle);
    }

    method RunFn(id: nat, now: real, oracle: nat -> bool) returns (out: Outcome)
      requires IdsBelow(State()) && id in ctrls && ctrls[id].EveryCtrl?
      modifies this
      ensures var d := RunStepFn(old(State()), id, now, oracle);
              State() == d.state && out == d.out
    {
      var c := ctrls[id];
      ctrls := ctrls[id := c.(count := c.count + 1)];
      if c.fn.None? {
        return Thrown(TypeError);
      }
      trace := trace + [StepFnCalled(c.fn.value, c.count)];
      var v := EvalCond(c.doWhileCond, oracle);
      if !v || !Below(c.count + 1, c.times) {
        out := Exit(id, now, oracle);
      } else {
        out := Normal;
      }
    }

    method RunWrapper(id: nat, now: real, oracle: nat -> bool) returns (out: Outcome)
      requires IdsBelow(State()) && id in ctrls && ctrls[id].EveryCtrl?
      modifies this
      ensures var d := Wrapper(old(State()), id, now, oracle);
              State() == d.state && out == d.out
    {
      if paused || cancelled {
        return Normal;
      }
      var v := EvalCond(ctrls[id].whileCond, oracle);
      if !v {
        out := Exit(id, now, oracle);
      } else {
        out := RunFn(id, now, oracle);
      }
    }

    /** The `after()` callback's bookkeeping before `executeNext()`. */
    method LeaveAfter(id: nat)
      requires IdsBelow(State()) && id in ctrls && ctrls[id].AfterCtrl? && ctrls[id].timer.timer.Some?
      modifies this
      ensures State() == LeftAfter(old(State()), id)
    {
      var c := ctrls[id];
      ctrls := ctrls[id := AfterCtrl(AfterFn.Fired(c.timer), c.owner, c.clearsOwner)];
      if c.clearsOwner {
        ClearOwnerStep(c.owner);
      }
      cursor := cursor + 1;
    }

    /** The host runs the due timeout of `after()` controller `id`. */
    method FireAfter(id: nat, now: real, oracle: nat -> bool) returns (out: Outcome)
      requires IdsBelow(State()) && Fireable(State(), id, now) && ctrls[id].AfterCtrl?
      modifies this
      ensures var d := FireSpec(old(State()), id, now, oracle);
              State() == d.state && out == d.out
    {
      LeaveAfter(id);
      out := ExecuteNext(now, oracle);
    }

    /** The host runs the due timeout of `every()` controller `id`. */
    method FireEvery(id: nat, now: real, oracle: nat -> bool) returns (out: Outcome)
      requires IdsBelow(State()) && Fireable(State(), id, now) && ctrls[id].EveryCtrl?
      modifies this
      ensures var d := FireSpec(old(State()), id, now, oracle);
              State() == d.state && out == d.out
    {
      ghost var s0 := State();
      var c := ctrls[id];
      var t := EveryFn.Expired(c.ticker);
      if !Below(t.count, t.max) {
        ctrls := ctrls[id := c.(ticker := EveryFn.Cancelled(t))];
        return Normal;
      }
      ctrls := ctrls[id := c.(ticker := t)];
      ghost var s1 := State();
      assert s1 == s0.(ctrls := s0.ctrls[id := c.(ticker := t)]);
      assert IdsBelow(s1) by {
        assert s1.ctrls.Keys == s0.ctrls.Keys;
      }
      out := RunWrapper(id, now, oracle);
      ghost var w := Wrapper(s1, id, now, oracle);
      assert State() == w.state && out == w.out;
      if out.Thrown? {
        return;
      }
      var c' := ctrls[id];
      ctrls := ctrls[id := c'.(ticker := EveryFn.AfterCall(c'.ticker, now))];
    }

    /** The host runs the due timeout of controller `id`. */
    method Fire(id: nat, now: real, oracle: nat -> bool) returns (out: Outcome)
      requires IdsBelow(State()) && Fireable(State(), id, now)
      modifies this
      ensures var d := FireSpec(old(State()), id, now, oracle);
              State() == d.state && out == d.out
    {
      if ctrls[id].AfterCtrl? {
        out := FireAfter(id, now, oracle);
      } else {
        out := FireEvery(id, now, oracle);
      }
    }
  }
}
