/** The timeline `flow()` (src/TimeoutFlow.js), as functions on the runner's state. `FlowState`
    holds the closure variables of `flow()`: the step list, the cursor, the pause/cancel flags,
    the loop settings, the label map, the pending jump, the queue of `if`/`unless` gates, the
    skip flag and the pending `while`/`doWhile` conditions. The `after()`/`every()` controllers
    the timeline creates are kept as values in `ctrls`, keyed by creation order, so that
    controllers the timeline no longer points to go on existing and firing. User predicates and
    callbacks are opaque: each call is an `Event` on `trace`, and a predicate's answer is
    `oracle(|trace|)`, the environment's answer at that point of the history.

    `executeNext()` is `Drive`: one invocation of the JavaScript function is one `DriveStep`,
    and its tail calls are the `Next` results. */
module FlowSpec {
  import opened Values
  import opened Durations
  import AfterFn
  import EveryFn

  /** The argument of `if`, `unless`, `while` and `doWhile`: a function is called each time the
      condition is evaluated; anything else counts by its truthiness. */
  datatype Pred = Const(b: bool) | Call(id: nat)

  /** A call into user code. */
  datatype Event = PredCalled(id: nat) | StepFnCalled(fn: nat, arg: nat) | FinishCalled(cb: nat)

  /** An `if` gate (`negated == false`) or an `unless` gate. */
  datatype Gate = Gate(pred: Pred, negated: bool)

  datatype StepKind =
    | AfterKind
    | EveryKind(times: Limit, whileCond: Option<Pred>, doWhileCond: Option<Pred>)

  /** A step object. `delay`, `startedAt` and `remaining` stay unset (`None`) until the
      timeline writes them; `remaining` is `None` also when it was computed from an unset
      `delay` (NaN). */
  datatype Step = Step(
    kind: StepKind,
    duration: Value,
    fn: Option<nat>,
    controller: Option<nat>,
    delay: Option<real>,
    startedAt: Option<real>,
    remaining: Option<real>)

  /** Which step object a controller's closure refers to: `gen` counts the resets, which
      replace every step object. */
  datatype StepRef = StepRef(gen: nat, index: nat)

  /** A controller created by the timeline. An `after()` controller created when a step starts
      clears its step's `controller` when it fires (`clearsOwner`); the one `resume()` creates
      does not. An `every()` controller carries the wrapper's captured step data and its own
      call counter `count`. */
  datatype Ctrl =
    | AfterCtrl(timer: AfterFn.TimerState, owner: StepRef, clearsOwner: bool)
    | EveryCtrl(ticker: EveryFn.TickerState, owner: StepRef, fn: Option<nat>, times: Limit,
                whileCond: Option<Pred>, doWhileCond: Option<Pred>, count: nat)

  datatype FlowState = FlowState(
    steps: seq<Step>,
    gen: nat,
    cursor: nat,
    paused: bool,
    cancelled: bool,
    loopEnabled: bool,
    loopLimit: Limit,
    loopCount: nat,
    onFinish: Option<nat>,
    labels: map<string, nat>,
    jumpTarget: Option<string>,
    gates: seq<Gate>,
    skipMode: bool,
    whileCond: Option<Pred>,
    doWhileCond: Option<Pred>,
    ctrls: map<nat, Ctrl>,
    nextCtrl: nat,
    trace: seq<Event>)

  /** How a runner method or a timer callback ends: normally, or by throwing. */
  datatype Outcome = Normal | Thrown(error: JsError)

  datatype Driven = Driven(state: FlowState, out: Outcome)

  /** One invocation of `executeNext()`: it either calls itself again on the new state, or
      stops. */
  datatype Cycle = Next(state: FlowState) | Halt(state: FlowState, out: Outcome)

  function Initial(): FlowState
  {
    FlowState([], 0, 0, false, false, false, Infinite, 0, None, map[], None, [], false, None, None, map[], 0, [])
  }

  // ---------------------------------------------------------------------------------------
  // The chainable builders

  function WithAfter(s: FlowState, duration: Value, fn: Option<nat>): FlowState
  {
    s.(steps := s.steps + [Step(AfterKind, duration, fn, None, None, None, None)])
  }

  /** `every()` captures the pending `while`/`doWhile` conditions and clears them. */
  function WithEvery(s: FlowState, duration: Value, fn: Option<nat>, times: Limit): FlowState
  {
    s.(steps := s.steps + [Step(EveryKind(times, s.whileCond, s.doWhileCond), duration, fn, None, None, None, None)],
       whileCond := None, doWhileCond := None)
  }

  /** `loop(n)`; `loop()` and `loop(true)` are `Infinite`. */
  function WithLoop(s: FlowState, n: Limit): FlowState
  {
    s.(loopEnabled := true, loopLimit := n)
  }

  function WithOnFinish(s: FlowState, cb: Option<nat>): FlowState
  {
    s.(onFinish := cb)
  }

  /** A label names the index of the next step to be added; it adds no step itself. */
  function WithLabel(s: FlowState, name: string): FlowState
  {
    s.(labels := s.labels[name := |s.steps|])
  }

  function WithJump(s: FlowState, name: string): FlowState
  {
    s.(jumpTarget := Some(name))
  }

  function WithGate(s: FlowState, p: Pred, negated: bool): FlowState
  {
    s.(gates := s.gates + [Gate(p, negated)])
  }

  function WithWhile(s: FlowState, p: Pred): FlowState
  {
    s.(whileCond := Some(p))
  }

  function WithDoWhile(s: FlowState, p: Pred): FlowState
  {
    s.(doWhileCond := Some(p))
  }

  // ---------------------------------------------------------------------------------------
  // Conditions

  datatype Evaluated = Evaluated(value: bool, trace: seq<Event>)

  function Eval(p: Pred, trace: seq<Event>, oracle: nat -> bool): Evaluated
  {
    match p
    case Const(b) => Evaluated(b, trace)
    case Call(id) => Evaluated(oracle(|trace|), trace + [PredCalled(id)])
  }

  /** An absent condition is not evaluated and does not stop anything. */
  function EvalOpt(p: Option<Pred>, trace: seq<Event>, oracle: nat -> bool): Evaluated
  {
    if p.Some? then Eval(p.value, trace, oracle) else Evaluated(true, trace)
  }

  // ---------------------------------------------------------------------------------------
  // executeNext()

  /** A jump is pending when the target is a non-empty string: `""` is falsy. */
  predicate JumpPending(s: FlowState)
  {
    s.jumpTarget.Some? && s.jumpTarget.value != ""
  }

  /** The jump phase: move to the label and clear the target, or throw with the target kept. */
  function AfterJump(s: FlowState): Result<FlowState>
  {
    if !JumpPending(s) then Ok(s)
    else if s.jumpTarget.value in s.labels then Ok(s.(cursor := s.labels[s.jumpTarget.value], jumpTarget := None))
    else Err(UnknownLabel(s.jumpTarget.value))
  }

  /** The gate phase: the oldest gate is removed and evaluated; a failing one turns skipping on
      (a passing one never turns it off). */
  function AfterGate(s: FlowState, oracle: nat -> bool): FlowState
  {
    if |s.gates| == 0 then s
    else
      var g := s.gates[0];
      var e := Eval(g.pred, s.trace, oracle);
      var pass := if g.negated then !e.value else e.value;
      s.(gates := s.gates[1..], trace := e.trace, skipMode := s.skipMode || !pass)
  }

  /** The end of a pass: another pass when looping and `++loopCount < loopLimit`, else the
      finish callback. With no steps and no bound the restarts never end: JavaScript runs out of
      stack. */
  function EndOfPass(s: FlowState): Cycle
  {
    if s.loopEnabled && Below(s.loopCount + 1, s.loopLimit) then
      var s' := s.(loopCount := s.loopCount + 1, cursor := 0);
      if |s.steps| == 0 && s.loopLimit.Infinite? then Halt(s', Thrown(StackOverflow)) else Next(s')
    else
      var s' := s.(loopCount := if s.loopEnabled then s.loopCount + 1 else s.loopCount);
      Halt(if s.onFinish.Some? then s'.(trace := s'.trace + [FinishCalled(s.onFinish.value)]) else s', Normal)
  }

  /** Starting the step at the cursor: its duration is parsed (a bad one throws) and an
      `after()` or `every()` controller is created and stored on the step. */
  function Dispatch(s: FlowState, now: real): Cycle
    requires s.cursor < |s.steps|
  {
    var st := s.steps[s.cursor];
    match ParseDuration(st.duration)
    case Err(e) => Halt(s, Thrown(e))
    case Ok(ms) =>
      var id := s.nextCtrl;
      var owner := StepRef(s.gen, s.cursor);
      var ctrl := if st.kind.AfterKind? then AfterCtrl(AfterFn.Create(ms, now), owner, true)
                  else EveryCtrl(EveryFn.Create(ms, st.kind.times, false, now).state, owner, st.fn,
                                 st.kind.times, st.kind.whileCond, st.kind.doWhileCond, 0);
      var st' := if st.kind.AfterKind? then st.(delay := Some(ms), startedAt := Some(now), controller := Some(id))
                 else st.(controller := Some(id));
      Halt(s.(steps := s.steps[s.cursor := st'], ctrls := s.ctrls[id := ctrl], nextCtrl := id + 1), Normal)
  }

  /** One invocation of `executeNext()`. It never changes the flags; once past the jump phase it
      consumes exactly the oldest gate; it calls itself again only with no jump pending. */
  function DriveStep(s: FlowState, now: real, oracle: nat -> bool): (r: Cycle)
    ensures r.state.paused == s.paused && r.state.cancelled == s.cancelled
    ensures s.paused || s.cancelled ==> r == Halt(s, Normal)
    ensures !s.paused && !s.cancelled && AfterJump(s).Ok? ==>
              r.state.gates == (if s.gates == [] then [] else s.gates[1..])
    ensures r.Next? ==> !JumpPending(r.state)
  {
    if s.paused || s.cancelled then Halt(s, Normal)
    else
      match AfterJump(s)
      case Err(e) => Halt(s, Thrown(e))
      case Ok(s1) =>
        var s2 := AfterGate(s1, oracle);
        if s2.skipMode && s2.cursor < |s2.steps| then Next(s2.(cursor := s2.cursor + 1))
        else
          var s3 := s2.(skipMode := false);
          if s3.cursor >= |s3.steps| then EndOfPass(s3) else Dispatch(s3, now)
  }

  // The measure under which `executeNext()` stops calling itself: a jump happens at most once,
  // a bounded loop restarts finitely often, and within a pass every call either consumes a gate
  // or moves the cursor towards the end.

  function JumpRank(s: FlowState): nat
  {
    if JumpPending(s) then 1 else 0
  }

  function LoopsLeft(s: FlowState): nat
  {
    if s.loopEnabled && s.loopLimit.Finite? && s.loopLimit.n > s.loopCount then s.loopLimit.n - s.loopCount else 0
  }

  function GateBudget(s: FlowState): nat
  {
    |s.gates| + (if s.skipMode || s.cursor >= |s.steps| then 1 else 0)
  }

  function Dist(s: FlowState): nat
  {
    if s.cursor < |s.steps| then |s.steps| - s.cursor else 0
  }

  ghost predicate Smaller(t: FlowState, s: FlowState)
  {
    JumpRank(t) < JumpRank(s) ||
    (JumpRank(t) == JumpRank(s) &&
     (LoopsLeft(t) < LoopsLeft(s) ||
      (LoopsLeft(t) == LoopsLeft(s) &&
       (GateBudget(t) < GateBudget(s) || (GateBudget(t) == GateBudget(s) && Dist(t) < Dist(s))))))
  }

  /** Every self-call of `executeNext()` is on a smaller state. */
  lemma CycleDecreases(s: FlowState, now: real, oracle: nat -> bool)
    requires DriveStep(s, now, oracle).Next?
    ensures Smaller(DriveStep(s, now, oracle).state, s)
  {
    var s1 := AfterJump(s).value;
    var s2 := AfterGate(s1, oracle);
    assert !JumpPending(s1) && !JumpPending(s2);
    if s2.skipMode && s2.cursor < |s2.steps| {
      if !JumpPending(s) {
        assert s1 == s;
        assert |s2.gates| + 1 <= GateBudget(s);
      }
    } else {
      var s3 := s2.(skipMode := false);
      assert s3.cursor >= |s3.steps|;
      if !JumpPending(s) {
        assert s1 == s && s.cursor >= |s.steps|;
        assert GateBudget(s) == |s.gates| + 1;
      }
    }
  }

  /** Controller ids are below `nextCtrl`: the invariant every operation keeps. */
  ghost predicate IdsBelow(s: FlowState)
  {
    forall id :: id in s.ctrls ==> id < s.nextCtrl
  }

  /** `a` is an initial part of `b`: histories only grow. */
  ghost predicate IsPrefix(a: seq<Event>, b: seq<Event>)
  {
    |a| <= |b| && b[..|a|] == a
  }

  /** What `executeNext()` never undoes: existing controllers are left as they are, new ones
      get fresh ids, the history only grows and the step list keeps its length. */
  ghost predicate Grows(s: FlowState, t: FlowState)
  {
    (forall id :: id in s.ctrls ==> id in t.ctrls && t.ctrls[id] == s.ctrls[id]) &&
    s.nextCtrl <= t.nextCtrl &&
    (forall id :: id in t.ctrls && id !in s.ctrls ==> s.nextCtrl <= id < t.nextCtrl) &&
    IsPrefix(s.trace, t.trace) &&
    |t.steps| == |s.steps| && t.gen == s.gen
  }

  lemma PrefixTrans(a: seq<Event>, b: seq<Event>, c: seq<Event>)
    requires IsPrefix(a, b) && IsPrefix(b, c)
    ensures IsPrefix(a, c)
  {
    assert c[..|a|] == c[..|b|][..|a|];
  }

  lemma GrowsTrans(s: FlowState, t: FlowState, u: FlowState)
    requires Grows(s, t) && Grows(t, u)
    ensures Grows(s, u)
  {
    PrefixTrans(s.trace, t.trace, u.trace);
  }

  lemma GateGrows(s: FlowState, oracle: nat -> bool)
    ensures Grows(s, AfterGate(s, oracle)) && AfterGate(s, oracle).nextCtrl == s.nextCtrl
    ensures AfterGate(s, oracle).ctrls == s.ctrls
  {
    if |s.gates| > 0 {
      var e := Eval(s.gates[0].pred, s.trace, oracle);
      assert IsPrefix(s.trace, e.trace) by {
        if s.gates[0].pred.Call? {
          assert e.trace[..|s.trace|] == s.trace;
        }
      }
    }
  }

  lemma EndGrows(s: FlowState)
    ensures Grows(s, EndOfPass(s).state) && EndOfPass(s).state.ctrls == s.ctrls
    ensures EndOfPass(s).state.nextCtrl == s.nextCtrl
  {
    if !(s.loopEnabled && Below(s.loopCount + 1, s.loopLimit)) && s.onFinish.Some? {
      var t := EndOfPass(s).state.trace;
      assert t[..|s.trace|] == s.trace;
    }
  }

  lemma DispatchGrows(s: FlowState, now: real)
    requires s.cursor < |s.steps| && IdsBelow(s)
    ensures Grows(s, Dispatch(s, now).state) && IdsBelow(Dispatch(s, now).state)
  {
  }

  lemma CycleGrows(s: FlowState, now: real, oracle: nat -> bool)
    requires IdsBelow(s)
    ensures Grows(s, DriveStep(s, now, oracle).state)
    ensures IdsBelow(DriveStep(s, now, oracle).state)
  {
    if !(s.paused || s.cancelled) && AfterJump(s).Ok? {
      var s1 := AfterJump(s).value;
      var s2 := AfterGate(s1, oracle);
      GateGrows(s1, oracle);
      var s3 := s2.(skipMode := false);
      if s2.skipMode && s2.cursor < |s2.steps| {
      } else if s3.cursor >= |s3.steps| {
        EndGrows(s3);
        GrowsTrans(s, s3, EndOfPass(s3).state);
      } else {
        DispatchGrows(s3, now);
        GrowsTrans(s, s3, Dispatch(s3, now).state);
      }
    }
  }

  /** `executeNext()`. */
  function Drive(s: FlowState, now: real, oracle: nat -> bool): (r: Driven)
    requires IdsBelow(s)
    ensures Grows(s, r.state) && IdsBelow(r.state)
    ensures r.state.paused == s.paused && r.state.cancelled == s.cancelled
    decreases JumpRank(s), LoopsLeft(s), GateBudget(s), Dist(s)
  {
    CycleGrows(s, now, oracle);
    match DriveStep(s, now, oracle)
    case Halt(s', out) => Driven(s', out)
    case Next(s') =>
      CycleDecreases(s, now, oracle);
      var r := Drive(s', now, oracle);
      GrowsTrans(s, s', r.state);
      r
  }

  // ---------------------------------------------------------------------------------------
  // The runner's control methods

  /** `start()`: clears the flags, the cursor and the loop count (not the gates, the jump or the
      skip flag, and without stopping controllers already running), then runs. */
  function StartSpec(s: FlowState, now: real, oracle: nat -> bool): (r: Driven)
    requires IdsBelow(s)
    ensures Grows(s, r.state) && IdsBelow(r.state)
    ensures !r.state.paused && !r.state.cancelled
  {
    Drive(s.(cancelled := false, paused := false, cursor := 0, loopCount := 0), now, oracle)
  }

  /** What `controller.pause()`, `.resume()` and `.cancel()` do to either kind of controller. */
  datatype CtrlOp = PauseOp(now: real) | ResumeOp(now: real) | CancelOp

  function CtrlApply(c: Ctrl, op: CtrlOp): Ctrl
  {
    match c
    case AfterCtrl(timer, _, _) =>
      c.(timer := match op
                  case PauseOp(now) => AfterFn.Paused(timer, now)
                  case ResumeOp(now) => AfterFn.Resumed(timer, now)
                  case CancelOp => AfterFn.Cancelled(timer))
    case EveryCtrl(ticker, _, _, _, _, _, _) =>
      c.(ticker := match op
                   case PauseOp(now) => EveryFn.Paused(ticker, now)
                   case ResumeOp(now) => EveryFn.Resumed(ticker, now)
                   case CancelOp => EveryFn.Cancelled(ticker))
  }

  /** `step?.controller?.op?.()`: nothing happens without a controller. */
  function WithCtrl(s: FlowState, cid: Option<nat>, op: CtrlOp): FlowState
  {
    if cid.Some? && cid.value in s.ctrls then s.(ctrls := s.ctrls[cid.value := CtrlApply(s.ctrls[cid.value], op)])
    else s
  }

  /** `if (step.startedAt)`: unset and zero are falsy. */
  predicate Truthy(t: Option<real>)
  {
    t.Some? && t.value != 0.0
  }

  /** `pause()`: when already paused or cancelled it does nothing; otherwise, after setting the
      flag it reads the step at the cursor, which throws past the end. An `after` step's
      remaining time is recomputed from its original `delay`. It only touches the step at the
      cursor and its controller, and calls no user code. */
  function PauseSpec(s: FlowState, now: real): (r: Driven)
    ensures s.paused || s.cancelled ==> r == Driven(s, Normal)
    ensures r.state.paused || r.state.cancelled
    ensures r.state.cancelled == s.cancelled
    ensures r.out.Thrown? <==> !s.paused && !s.cancelled && s.cursor >= |s.steps|
    ensures r.state.trace == s.trace && r.state.ctrls.Keys == s.ctrls.Keys && r.state.nextCtrl == s.nextCtrl
    ensures r.state.cursor == s.cursor && |r.state.steps| == |s.steps|
    ensures forall i :: 0 <= i < |s.steps| && i != s.cursor ==> r.state.steps[i] == s.steps[i]
  {
    if s.paused || s.cancelled then Driven(s, Normal)
    else
      var s1 := s.(paused := true);
      if s1.cursor >= |s1.steps| then Driven(s1, Thrown(NotAStep))
      else
        var st := s1.steps[s1.cursor];
        var s2 := WithCtrl(s1, st.controller, PauseOp(now));
        if st.kind.AfterKind? && Truthy(st.startedAt) then
          var rem := if st.delay.Some? then Some(st.delay.value - (now - st.startedAt.value)) else None;
          var s3 := s2.(steps := s2.steps[s2.cursor := st.(remaining := rem)]);
          Driven(WithCtrl(s3, st.controller, CancelOp), Normal)
        else Driven(s2, Normal)
  }

  /** `after(step.remaining + 'ms', …)` parses the text of a number: an unset or NaN remaining
      and a negative one (its text starts with `-`) are invalid formats. */
  function RemainingAsDuration(rem: Option<real>): Result<real>
  {
    if rem.None? || rem.value < 0.0 then Err(InvalidDurationFormat) else Ok(rem.value)
  }

  /** `resume()`: unless paused and not cancelled it does nothing; otherwise an `after` step
      gets a new `after()` controller for its remaining time (whose callback advances the cursor
      but leaves `step.controller` alone), and an `every` step's controller is resumed. */
  function ResumeSpec(s: FlowState, now: real): (r: Driven)
    ensures !s.paused || s.cancelled ==> r == Driven(s, Normal)
    ensures r.state.cancelled == s.cancelled && (!s.cancelled ==> !r.state.paused)
    ensures r.out.Thrown? <==>
              s.paused && !s.cancelled &&
              (s.cursor >= |s.steps| ||
               (s.steps[s.cursor].kind.AfterKind? && RemainingAsDuration(s.steps[s.cursor].remaining).Err?))
    ensures r.state.trace == s.trace && r.state.cursor == s.cursor && |r.state.steps| == |s.steps|
    ensures forall id :: id in s.ctrls ==> id in r.state.ctrls
    ensures IdsBelow(s) ==> IdsBelow(r.state)
  {
    if !s.paused || s.cancelled then Driven(s, Normal)
    else
      var s1 := s.(paused := false);
      if s1.cursor >= |s1.steps| then Driven(s1, Thrown(NotAStep))
      else
        var st := s1.steps[s1.cursor];
        if st.kind.AfterKind? then
          var st1 := st.(startedAt := Some(now));
          match RemainingAsDuration(st.remaining)
          case Err(e) => Driven(s1.(steps := s1.steps[s1.cursor := st1]), Thrown(e))
          case Ok(ms) =>
            var id := s1.nextCtrl;
            Driven(s1.(steps := s1.steps[s1.cursor := st1.(controller := Some(id))],
                       ctrls := s1.ctrls[id := AfterCtrl(AfterFn.Create(ms, now), StepRef(s1.gen, s1.cursor), false)],
                       nextCtrl := id + 1), Normal)
        else Driven(WithCtrl(s1, st.controller, ResumeOp(now)), Normal)
  }

  /** `cancel()`: sets the flag, cancels the current step's controller and forgets it; past the
      end, writing `step.controller` throws. */
  function CancelSpec(s: FlowState): (r: Driven)
    ensures r.state.cancelled && r.state.paused == s.paused
    ensures r.out.Thrown? <==> s.cursor >= |s.steps|
    ensures r.state.trace == s.trace && r.state.ctrls.Keys == s.ctrls.Keys && r.state.nextCtrl == s.nextCtrl
    ensures r.state.cursor == s.cursor && |r.state.steps| == |s.steps|
    ensures r.out.Normal? ==>
              s.cursor < |s.steps| && r.state.steps[s.cursor].controller.None? &&
              (var cid := s.steps[s.cursor].controller;
               cid.Some? && cid.value in s.ctrls ==> Disarmed(r.state.ctrls[cid.value]))
  {
    var s1 := s.(cancelled := true);
    if s1.cursor >= |s1.steps| then Driven(s1, Thrown(NotAStep))
    else
      var st := s1.steps[s1.cursor];
      var s2 := WithCtrl(s1, st.controller, CancelOp);
      Driven(s2.(steps := s2.steps[s2.cursor := st.(controller := None)]), Normal)
  }

  /** `reset()`: `cancel()`, then an empty step list (new step objects from now on), cursor and
      loop count zero and no finish callback; a throwing `cancel()` aborts it. */
  function ResetSpec(s: FlowState): (r: Driven)
    ensures r.out == CancelSpec(s).out && r.state.cancelled
    ensures r.out.Normal? ==>
              r.state.steps == [] && r.state.gen == s.gen + 1 && r.state.cursor == 0 &&
              r.state.labels == s.labels && r.state.gates == s.gates && r.state.ctrls.Keys == s.ctrls.Keys
  {
    var c := CancelSpec(s);
    if c.out.Thrown? then c
    else Driven(c.state.(steps := [], gen := c.state.gen + 1, cursor := 0, loopCount := 0, onFinish := None), Normal)
  }

  // ---------------------------------------------------------------------------------------
  // Timer callbacks

  /** A controller with no armed host timeout. */
  predicate Disarmed(c: Ctrl)
  {
    match c
    case AfterCtrl(timer, _, _) => !timer.running && timer.timer.None?
    case EveryCtrl(ticker, _, _, _, _, _, _) => !ticker.running && ticker.timer.None?
  }

  /** `step.controller = null` in a callback: only a step object still in the list is written. */
  function ClearOwner(s: FlowState, owner: StepRef): FlowState
  {
    if owner.gen == s.gen && owner.index < |s.steps| then
      s.(steps := s.steps[owner.index := s.steps[owner.index].(controller := None)])
    else s
  }

  /** A controller whose host timeout is armed and due. */
  predicate Fireable(s: FlowState, id: nat, now: real)
  {
    id in s.ctrls &&
    match s.ctrls[id]
    case AfterCtrl(timer, _, _) => timer.timer.Some? && now >= timer.timer.value
    case EveryCtrl(ticker, _, _, _, _, _, _) => ticker.timer.Some? && now >= ticker.timer.value
  }

  /** The exit of an `every` step: cancel the controller, forget it, advance, `executeNext()`. */
  function ExitStep(s: FlowState, id: nat, now: real, oracle: nat -> bool): (r: Driven)
    requires IdsBelow(s) && id in s.ctrls && s.ctrls[id].EveryCtrl?
    ensures IdsBelow(r.state)
    ensures id in r.state.ctrls && r.state.ctrls[id] == s.ctrls[id].(ticker := EveryFn.Cancelled(s.ctrls[id].ticker))
    ensures IsPrefix(s.trace, r.state.trace)
  {
    Drive(LeftEvery(s, id), now, oracle)
  }

  /** The exit's bookkeeping before `executeNext()`: the controller is cancelled, its step
      forgets it, and the cursor moves on. */
  function LeftEvery(s: FlowState, id: nat): (r: FlowState)
    requires IdsBelow(s) && id in s.ctrls && s.ctrls[id].EveryCtrl?
    ensures IdsBelow(r) && r.ctrls.Keys == s.ctrls.Keys && r.nextCtrl == s.nextCtrl
    ensures r.ctrls == s.ctrls[id := s.ctrls[id].(ticker := EveryFn.Cancelled(s.ctrls[id].ticker))]
    ensures r.trace == s.trace && |r.steps| == |s.steps| && r.gen == s.gen
    ensures r.cursor == s.cursor + 1 && r.paused == s.paused && r.cancelled == s.cancelled
  {
    var c := s.ctrls[id];
    var s1 := ClearOwner(s.(ctrls := s.ctrls[id := c.(ticker := EveryFn.Cancelled(c.ticker))]), c.owner);
    s1.(cursor := s1.cursor + 1)
  }

  /** The function the timeline hands to `every()` as `fn`: it does nothing while the timeline
      is paused or cancelled, and a failing `while` condition ends the step before `fn` runs. */
  function Wrapper(s: FlowState, id: nat, now: real, oracle: nat -> bool): (r: Driven)
    requires IdsBelow(s) && id in s.ctrls && s.ctrls[id].EveryCtrl?
    ensures IdsBelow(r.state) && id in r.state.ctrls && r.state.ctrls[id].EveryCtrl?
    ensures IsPrefix(s.trace, r.state.trace)
  {
    if s.paused || s.cancelled then Driven(s, Normal)
    else
      var w := EvalOpt(s.ctrls[id].whileCond, s.trace, oracle);
      EvalGrows(s.ctrls[id].whileCond, s.trace, oracle);
      var s1 := s.(trace := w.trace);
      var r := if !w.value then ExitStep(s1, id, now, oracle) else RunStepFn(s1, id, now, oracle);
      PrefixTrans(s.trace, s1.trace, r.state.trace);
      r
  }

  /** The rest of the wrapper: `fn` gets the wrapper's own count (a missing `fn` throws once the
      count has been incremented); a failing `doWhile` condition, or reaching `times`, ends the
      step. */
  function RunStepFn(s: FlowState, id: nat, now: real, oracle: nat -> bool): (r: Driven)
    requires IdsBelow(s) && id in s.ctrls && s.ctrls[id].EveryCtrl?
    ensures IdsBelow(r.state) && id in r.state.ctrls && r.state.ctrls[id].EveryCtrl?
    ensures IsPrefix(s.trace, r.state.trace)
  {
    var c := s.ctrls[id];
    if c.fn.None? then Driven(s.(ctrls := s.ctrls[id := c.(count := c.count + 1)]), Thrown(TypeError))
    else
      var s2 := s.(ctrls := s.ctrls[id := c.(count := c.count + 1)],
                   trace := s.trace + [StepFnCalled(c.fn.value, c.count)]);
      var d := EvalOpt(c.doWhileCond, s2.trace, oracle);
      EvalGrows(c.doWhileCond, s2.trace, oracle);
      var s3 := s2.(trace := d.trace);
      assert IsPrefix(s.trace, s2.trace) by { assert s2.trace[..|s.trace|] == s.trace; }
      PrefixTrans(s.trace, s2.trace, s3.trace);
      if !d.value || !Below(c.count + 1, c.times) then
        var r := ExitStep(s3, id, now, oracle);
        PrefixTrans(s.trace, s3.trace, r.state.trace);
        r
      else Driven(s3, Normal)
  }

  lemma EvalGrows(p: Option<Pred>, trace: seq<Event>, oracle: nat -> bool)
    ensures IsPrefix(trace, EvalOpt(p, trace, oracle).trace)
  {
    if p.Some? && p.value.Call? {
      assert EvalOpt(p, trace, oracle).trace[..|trace|] == trace;
    }
  }

  /** The `after()` callback's bookkeeping before `executeNext()`: the controller has fired,
      its step forgets it (when it is the one the step created), and the cursor moves on. */
  function LeftAfter(s: FlowState, id: nat): (r: FlowState)
    requires IdsBelow(s) && id in s.ctrls && s.ctrls[id].AfterCtrl? && s.ctrls[id].timer.timer.Some?
    ensures IdsBelow(r) && r.ctrls.Keys == s.ctrls.Keys && r.nextCtrl == s.nextCtrl
    ensures r.ctrls == s.ctrls[id := s.ctrls[id].(timer := AfterFn.Fired(s.ctrls[id].timer))]
    ensures r.trace == s.trace && |r.steps| == |s.steps| && r.gen == s.gen
    ensures r.cursor == s.cursor + 1 && r.paused == s.paused && r.cancelled == s.cancelled
  {
    var c := s.ctrls[id];
    var s1 := s.(ctrls := s.ctrls[id := AfterCtrl(AfterFn.Fired(c.timer), c.owner, c.clearsOwner)]);
    var s2 := if c.clearsOwner then ClearOwner(s1, c.owner) else s1;
    s2.(cursor := s2.cursor + 1)
  }

  /** The host runs a controller's due timeout. An `after` controller stops and its callback
      advances the timeline. An `every` controller runs `tick`: at its limit it cancels;
      otherwise it calls the wrapper and, unless that threw, counts and re-arms — also when the
      wrapper has just cancelled it. */
  function FireSpec(s: FlowState, id: nat, now: real, oracle: nat -> bool): (r: Driven)
    requires IdsBelow(s) && Fireable(s, id, now)
    ensures IdsBelow(r.state) && id in r.state.ctrls && IsPrefix(s.trace, r.state.trace)
    ensures s.ctrls[id].AfterCtrl? ==> r.state.ctrls[id] == s.ctrls[id].(timer := AfterFn.Fired(s.ctrls[id].timer))
    ensures s.ctrls[id].EveryCtrl? ==> r.state.ctrls[id].EveryCtrl?
    ensures r.state.paused == s.paused && r.state.cancelled == s.cancelled
  {
    match s.ctrls[id]
    case AfterCtrl(_, _, _) => Drive(LeftAfter(s, id), now, oracle)
    case EveryCtrl(ticker, _, _, _, _, _, _) =>
      var c := s.ctrls[id];
      var t := EveryFn.Expired(ticker);
      if !Below(t.count, t.max) then Driven(s.(ctrls := s.ctrls[id := c.(ticker := EveryFn.Cancelled(t))]), Normal)
      else
        var w := Wrapper(s.(ctrls := s.ctrls[id := c.(ticker := t)]), id, now, oracle);
        if w.out.Thrown? then w
        else
          var c' := w.state.ctrls[id];
          Driven(w.state.(ctrls := w.state.ctrls[id := c'.(ticker := EveryFn.AfterCall(c'.ticker, now))]), Normal)
  }
}
