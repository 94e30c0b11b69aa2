/** What holds over every run of the dead-man switch: the journal, the plan steps attempted,
    the point of no return, and the bound by which a silent system is DORMANT. */
module DeadManRuns {
  import opened Common
  import opened DeadMan

  /** Settling is the outside world changing an order's status. */
  datatype Event =
    | BeatAt(now: real, signed: bool)
    | DisarmAt(now: real, keyMatches: bool)
    | TickAtTime(now: real, outcomes: seq<Outcome>)
    | Settle(order: nat, status: OrderStatus)

  function Apply(cfg: Config, d: Daemon, e: Event): Daemon
    requires ValidConfig(cfg)
  {
    match e
    case BeatAt(now, signed) => Beat(cfg, d, now, signed)
    case DisarmAt(now, key) => Disarm(d, now, key)
    case TickAtTime(now, outcomes) => Tick(cfg, d, now, outcomes)
    case Settle(i, status) => if i < |d.orders| then d.(orders := d.orders[i := status]) else d
  }

  function Run(cfg: Config, d: Daemon, es: seq<Event>): Daemon
    requires ValidConfig(cfg)
    decreases |es|
  {
    if es == [] then d else Run(cfg, Apply(cfg, d, es[0]), es[1..])
  }

  // ----- the journal -----

  ghost predicate LinkedAt(trace: seq<Edge>, i: nat)
    requires i < |trace|
  {
    && (trace[i].frm == trace[i].to || trace[i].to in Allowed(trace[i].frm))
    && trace[i].frm == if i == 0 then Armed else trace[i - 1].to
  }

  /** A chain of allowed moves and notes from ARMED to the given state. */
  ghost predicate Linked(trace: seq<Edge>, s: State) {
    && (forall i :: 0 <= i < |trace| ==> LinkedAt(trace, i))
    && s == if trace == [] then Armed else trace[|trace| - 1].to
  }

  lemma {:induction false} LinkedAppend(trace: seq<Edge>, s: State, to: State)
    requires Linked(trace, s) && (s == to || to in Allowed(s))
    ensures Linked(trace + [Edge(s, to)], to)
  {
    var t := trace + [Edge(s, to)];
    forall i | 0 <= i < |t| ensures LinkedAt(t, i) {
      assert i < |trace| ==> LinkedAt(trace, i);
    }
  }

  // ----- the attempts -----

  /** When step i may run at the earliest, after the last beat. */
  function Due(cfg: Config, i: nat): real {
    cfg.grace + i as real * cfg.period
  }

  lemma {:induction false} StepNoIsDue(cfg: Config, elapsed: real, i: nat)
    requires ValidConfig(cfg)
    ensures i <= StepNo(cfg, elapsed) <==> Due(cfg, i) <= elapsed
  {
    FloorScale(elapsed - cfg.grace, cfg.period, i);
  }

  lemma {:induction false} FloorScale(x: real, p: real, i: nat)
    requires 0.0 < p
    ensures i <= (x / p).Floor <==> i as real * p <= x
  {
    var q := x / p;
    assert q * p == x;
    if i as real <= q {
      assert 0.0 <= (q - i as real) * p;
    } else {
      assert 0.0 < (i as real - q) * p;
    }
  }

  ghost predicate OnTime(cfg: Config, a: Attempt) {
    Due(cfg, a.step) <= a.elapsed
  }

  /** Attempt j is plan step j + 1, on time, and only the last may have raised. */
  ghost predicate AttemptOk(cfg: Config, attempts: seq<Attempt>, j: nat)
    requires j < |attempts|
  {
    && attempts[j].step == j + 1
    && OnTime(cfg, attempts[j])
    && (attempts[j].raised ==> j == |attempts| - 1)
    && j < |cfg.plan| && attempts[j].raised == Raises(cfg.plan[j], attempts[j].outcome)
  }

  ghost predicate AttemptsOk(cfg: Config, attempts: seq<Attempt>) {
    |attempts| <= |cfg.plan| && forall j :: 0 <= j < |attempts| ==> AttemptOk(cfg, attempts, j)
  }

  predicate LastRaised(attempts: seq<Attempt>) {
    attempts != [] && attempts[|attempts| - 1].raised
  }

  lemma {:induction false} AttemptsAppend(cfg: Config, attempts: seq<Attempt>, elapsed: real, o: Outcome)
    requires AttemptsOk(cfg, attempts) && |attempts| < |cfg.plan| && !LastRaised(attempts)
    requires Due(cfg, |attempts| + 1) <= elapsed
    ensures AttemptsOk(cfg, attempts + [Attempt(|attempts| + 1, elapsed, o, Raises(cfg.plan[|attempts|], o))])
  {
    var more := attempts + [Attempt(|attempts| + 1, elapsed, o, Raises(cfg.plan[|attempts|], o))];
    forall j | 0 <= j < |more| ensures AttemptOk(cfg, more, j) {
      assert j < |attempts| ==> AttemptOk(cfg, attempts, j);
    }
  }

  // ----- the invariant -----

  /** Where the daemon stands, given its state. */
  ghost predicate Standing(cfg: Config, d: Daemon) {
    match d.state
    case Armed => d.stepIndex == 0 && d.liquidatingSince.None?
    case Watching => cfg.enabled && d.lastBeat.Some? && d.stepIndex == 0 && d.liquidatingSince.None?
    case Escalating =>
      && cfg.enabled && d.lastBeat.Some? && d.liquidatingSince.None?
      && d.stepIndex == |d.attempts| && !LastRaised(d.attempts)
      && (d.stepIndex == 0 || d.stepIndex < |cfg.plan|)
    case _ =>
      && cfg.enabled && d.lastBeat.Some? && d.attempts != []
      && (d.stepIndex == |d.attempts| || d.stepIndex == 0)
      && (|d.attempts| == |cfg.plan| || LastRaised(d.attempts))
  }

  ghost predicate Inv(cfg: Config, d: Daemon) {
    Linked(d.trace, d.state) && AttemptsOk(cfg, d.attempts) && Standing(cfg, d)
  }

  lemma {:induction false} InitialInv(cfg: Config)
    requires ValidConfig(cfg)
    ensures Inv(cfg, INITIAL)
  {}

  lemma {:induction false} MoveLinked(d: Daemon, target: State)
    requires Linked(d.trace, d.state)
    ensures Linked(Move(d, target).trace, Move(d, target).state)
  {
    if target in Allowed(d.state) {
      LinkedAppend(d.trace, d.state, target);
    }
  }

  lemma {:induction false} ExecutedLinked(d: Daemon, step: StepType, o: Outcome)
    requires Linked(d.trace, d.state)
    ensures var e := Executed(d, step, o);
      Linked(e.trace, e.state) && e.state == d.state && e.stepIndex == d.stepIndex && e.attempts == d.attempts
      && e.lastBeat == d.lastBeat && e.liquidatingSince == d.liquidatingSince
  {
    LinkedAppend(d.trace, d.state, d.state);
    LinkedAppend(Note(d).trace, d.state, d.state);
  }

  /** One catch-up keeps the invariant, stays in ESCALATING or enters LIQUIDATING, and
      reaches the target unless it ends the plan. */
  lemma {:induction false} CatchUpInv(cfg: Config, d: Daemon, target: nat, now: real, elapsed: real,
                                      outcomes: seq<Outcome>)
    requires ValidConfig(cfg) && Inv(cfg, d) && d.state == Escalating && target <= |cfg.plan|
    requires target <= StepNo(cfg, elapsed)
    ensures var e := CatchUp(cfg, d, target, now, elapsed, outcomes);
      && Inv(cfg, e)
      && e.lastBeat == d.lastBeat
      && d.attempts <= e.attempts
      && (forall j :: |d.attempts| <= j < |e.attempts| ==> e.attempts[j].elapsed == elapsed)
      && (e.state == Escalating || e.state == Liquidating)
      && (e.state == Escalating ==> e.stepIndex >= target && e.liquidatingSince.None?)
      && e.stepIndex >= d.stepIndex
      && (e.state == Liquidating ==> e.liquidatingSince == if LastRaised(e.attempts) then None else Some(now))
    decreases target - d.stepIndex
  {
    if d.stepIndex < target {
      var i := d.stepIndex;
      var o := OutcomeAt(outcomes, i);
      StepNoIsDue(cfg, elapsed, i + 1);
      AttemptsAppend(cfg, d.attempts, elapsed, o);
      ExecutedLinked(d.(stepIndex := i + 1), cfg.plan[i], o);
      var e := Attempted(cfg, d, elapsed, outcomes);
      if Raises(cfg.plan[i], o) {
        MoveLinked(e, Liquidating);
      } else if e.stepIndex == |cfg.plan| {
        MoveLinked(e.(liquidatingSince := Some(now)), Liquidating);
      } else {
        CatchUpInv(cfg, e, target, now, elapsed, outcomes);
      }
    }
  }

  lemma {:induction false} TickInv(cfg: Config, d: Daemon, now: real, outcomes: seq<Outcome>)
    requires ValidConfig(cfg) && Inv(cfg, d)
    ensures Inv(cfg, Tick(cfg, d, now, outcomes))
    ensures Tick(cfg, d, now, outcomes).lastBeat == d.lastBeat
    ensures Underway(d.state) && Underway(Tick(cfg, d, now, outcomes).state) ==>
      var more := Tick(cfg, d, now, outcomes).attempts;
      d.attempts <= more && forall j :: |d.attempts| <= j < |more| ==> more[j].elapsed == Elapsed(d, now)
  {
    var elapsed := Elapsed(d, now);
    var due := StepNo(cfg, elapsed);
    if cfg.enabled {
      match d.state
      case Armed => MoveLinked(d, Watching);
      case Watching =>
        MoveLinked(d, Armed);
        MoveLinked(d, Escalating);
      case Escalating =>
        MoveLinked(d, Armed);
        if due > d.stepIndex {
          CatchUpInv(cfg, d, if due <= |cfg.plan| then due else |cfg.plan|, now, elapsed, outcomes);
        }
      case Liquidating =>
        MoveLinked(d.(liquidatingSince := Some(now)), Dormant);
        MoveLinked(d, Dormant);
      case Dormant =>
    }
  }

  /** The plan has been armed and the escalation episode has not ended in a re-arm. */
  predicate Underway(s: State) {
    s == Escalating || s == Liquidating || s == Dormant
  }

  lemma {:induction false} ApplyInv(cfg: Config, d: Daemon, e: Event)
    requires ValidConfig(cfg) && Inv(cfg, d)
    ensures Inv(cfg, Apply(cfg, d, e))
  {
    match e
    case BeatAt(now, signed) => LinkedAppend(d.trace, d.state, d.state);
    case DisarmAt(now, key) => MoveLinked(d, Armed);
    case TickAtTime(now, outcomes) => TickInv(cfg, d, now, outcomes);
    case Settle(i, status) =>
  }

  /** Every reachable state satisfies the invariant. */
  lemma {:induction false} RunInv(cfg: Config, d: Daemon, es: seq<Event>)
    requires ValidConfig(cfg) && Inv(cfg, d)
    ensures Inv(cfg, Run(cfg, d, es))
    decreases |es|
  {
    if es != [] {
      ApplyInv(cfg, d, es[0]);
      RunInv(cfg, Apply(cfg, d, es[0]), es[1..]);
    }
  }

  // ----- what the invariant says -----

  /** While an episode is underway, the steps attempted are exactly plan[0..k), once each and
      in order, each at a tick at least grace + i * period after the last beat; all but the
      last completed; and LIQUIDATING means that the plan is complete or its last attempt
      raised. Beats, missed or resumed, do not change any of this. */
  lemma {:induction false} PlanExecution(cfg: Config, es: seq<Event>)
    requires ValidConfig(cfg)
    ensures var d := Run(cfg, INITIAL, es);
      && |d.attempts| <= |cfg.plan|
      && (forall j :: 0 <= j < |d.attempts| ==>
        && d.attempts[j].step == j + 1
        && d.attempts[j].elapsed >= cfg.grace + (j + 1) as real * cfg.period
        && (j < |d.attempts| - 1 ==> !d.attempts[j].raised))
      && (d.state == Escalating ==> d.stepIndex == |d.attempts| && !LastRaised(d.attempts))
      && (d.state == Liquidating || d.state == Dormant ==>
        d.attempts != [] && (|d.attempts| == |cfg.plan| || LastRaised(d.attempts)))
  {
    InitialInv(cfg);
    RunInv(cfg, INITIAL, es);
    var d := Run(cfg, INITIAL, es);
    forall j | 0 <= j < |d.attempts|
      ensures d.attempts[j].step == j + 1
      ensures d.attempts[j].elapsed >= cfg.grace + (j + 1) as real * cfg.period
      ensures j < |d.attempts| - 1 ==> !d.attempts[j].raised
    {
      assert AttemptOk(cfg, d.attempts, j);
    }
  }

  /** Attempts are never undone or repeated: an event inside an episode only appends to
      them, and only a tick does, at its own time. */
  lemma {:induction false} AttemptsOnlyGrow(cfg: Config, d: Daemon, e: Event)
    requires ValidConfig(cfg) && Inv(cfg, d)
    requires Underway(d.state) && Underway(Apply(cfg, d, e).state)
    ensures d.attempts <= Apply(cfg, d, e).attempts
    ensures !e.TickAtTime? ==> Apply(cfg, d, e).attempts == d.attempts
    ensures e.TickAtTime? ==> forall j :: |d.attempts| <= j < |Apply(cfg, d, e).attempts| ==>
      Apply(cfg, d, e).attempts[j].elapsed == Elapsed(d, e.now)
  {
    if e.TickAtTime? {
      TickInv(cfg, d, e.now, e.outcomes);
    }
  }

  // ----- the effects of the plan -----

  /** The attempt placed an order: an acquisition whose oracle answered. */
  predicate Placed(cfg: Config, a: Attempt) {
    1 <= a.step <= |cfg.plan| && cfg.plan[a.step - 1] == AcquireAssets && !a.outcome.OracleRaises?
  }

  function PlacedIn(cfg: Config, attempts: seq<Attempt>): nat {
    if attempts == [] then 0
    else PlacedIn(cfg, attempts[..|attempts| - 1]) + (if Placed(cfg, attempts[|attempts| - 1]) then 1 else 0)
  }

  ghost predicate OrdersMatch(cfg: Config, d: Daemon) {
    |d.orders| == d.ordersBefore + PlacedIn(cfg, d.attempts)
  }

  lemma {:induction false} AttemptedOrders(cfg: Config, d: Daemon, elapsed: real, outcomes: seq<Outcome>)
    requires OrdersMatch(cfg, d) && d.stepIndex < |cfg.plan|
    ensures OrdersMatch(cfg, Attempted(cfg, d, elapsed, outcomes))
    ensures d.orders <= Attempted(cfg, d, elapsed, outcomes).orders
  {
    var more := Attempted(cfg, d, elapsed, outcomes).attempts;
    assert more[..|more| - 1] == d.attempts;
  }

  lemma {:induction false} CatchUpOrders(cfg: Config, d: Daemon, target: nat, now: real, elapsed: real,
                                         outcomes: seq<Outcome>)
    requires OrdersMatch(cfg, d) && target <= |cfg.plan|
    ensures OrdersMatch(cfg, CatchUp(cfg, d, target, now, elapsed, outcomes))
    ensures d.orders <= CatchUp(cfg, d, target, now, elapsed, outcomes).orders
    decreases target - d.stepIndex
  {
    if d.stepIndex < target {
      AttemptedOrders(cfg, d, elapsed, outcomes);
      var e := Attempted(cfg, d, elapsed, outcomes);
      if !Raises(cfg.plan[d.stepIndex], OutcomeAt(outcomes, d.stepIndex)) && e.stepIndex != |cfg.plan| {
        CatchUpOrders(cfg, e, target, now, elapsed, outcomes);
      }
    }
  }

  lemma {:induction false} ApplyOrders(cfg: Config, d: Daemon, e: Event)
    requires ValidConfig(cfg) && OrdersMatch(cfg, d)
    ensures OrdersMatch(cfg, Apply(cfg, d, e))
    ensures |d.orders| <= |Apply(cfg, d, e).orders|
  {
    if e.TickAtTime? && cfg.enabled && d.state == Escalating {
      var due := StepNo(cfg, Elapsed(d, e.now));
      if due > d.stepIndex {
        CatchUpOrders(cfg, d, if due <= |cfg.plan| then due else |cfg.plan|, e.now, Elapsed(d, e.now), e.outcomes);
      }
    }
  }

  lemma {:induction false} RunOrders(cfg: Config, d: Daemon, es: seq<Event>)
    requires ValidConfig(cfg) && OrdersMatch(cfg, d)
    ensures OrdersMatch(cfg, Run(cfg, d, es))
    decreases |es|
  {
    if es != [] {
      ApplyOrders(cfg, d, es[0]);
      RunOrders(cfg, Apply(cfg, d, es[0]), es[1..]);
    }
  }

  /** Exactly once in its effects too: in every reachable state the orders placed since the plan
      was armed are as many as the acquisition steps attempted whose oracle did not raise. */
  lemma {:induction false} OrdersAreAttempts(cfg: Config, es: seq<Event>)
    requires ValidConfig(cfg)
    ensures var d := Run(cfg, INITIAL, es); |d.orders| - d.ordersBefore == PlacedIn(cfg, d.attempts)
  {
    RunOrders(cfg, INITIAL, es);
  }

  lemma {:induction false} SuffixLinks(trace: seq<Edge>, s: State, k: nat)
    requires Linked(trace, s) && k < |trace|
    ensures trace[k].frm == trace[k].to || trace[k].to in Allowed(trace[k].frm)
    ensures if k + 1 < |trace| then trace[k].to == trace[k + 1].frm else trace[k].to == s
  {
    assert LinkedAt(trace, k);
    assert k + 1 < |trace| ==> LinkedAt(trace, k + 1);
  }

  /** The journal the daemon keeps is a chain of allowed transitions ending in its state. */
  lemma {:induction false} JournalIsChain(cfg: Config, es: seq<Event>, i: nat)
    requires ValidConfig(cfg)
    requires i < |LastN(Run(cfg, INITIAL, es).trace, cfg.maxJournal)|
    ensures var d := Run(cfg, INITIAL, es); var journal := LastN(d.trace, cfg.maxJournal);
      && (journal[i].frm == journal[i].to || journal[i].to in Allowed(journal[i].frm))
      && journal[i].to == if i + 1 < |journal| then journal[i + 1].frm else d.state
  {
    InitialInv(cfg);
    RunInv(cfg, INITIAL, es);
    var d := Run(cfg, INITIAL, es);
    ChainOfSuffix(d.trace, d.state, cfg.maxJournal, i);
  }

  lemma {:induction false} ChainOfSuffix(trace: seq<Edge>, s: State, n: nat, i: nat)
    requires Linked(trace, s) && i < |LastN(trace, n)|
    ensures var journal := LastN(trace, n);
      && (journal[i].frm == journal[i].to || journal[i].to in Allowed(journal[i].frm))
      && journal[i].to == if i + 1 < |journal| then journal[i + 1].frm else s
  {
    SuffixLinks(trace, s, |trace| - |LastN(trace, n)| + i);
  }

  // ----- the point of no return -----

  predicate NoDisarm(es: seq<Event>) {
    forall i :: 0 <= i < |es| ==> !es[i].DisarmAt?
  }

  predicate Committed(cfg: Config, d: Daemon) {
    d.state == Liquidating || d.state == Dormant || (d.state == Escalating && d.stepIndex >= cfg.abortableUntil)
  }

  lemma {:induction false} CommittedStays(cfg: Config, d: Daemon, es: seq<Event>)
    requires ValidConfig(cfg) && Inv(cfg, d) && Committed(cfg, d) && NoDisarm(es)
    ensures Committed(cfg, Run(cfg, d, es))
    decreases |es|
  {
    if es != [] {
      var e := es[0];
      ApplyInv(cfg, d, e);
      if e.TickAtTime? && d.state == Escalating {
        var due := StepNo(cfg, Elapsed(d, e.now));
        if due > d.stepIndex {
          CatchUpInv(cfg, d, if due <= |cfg.plan| then due else |cfg.plan|, e.now, Elapsed(d, e.now), e.outcomes);
        }
      }
      assert !es[0].DisarmAt?;
      CommittedStays(cfg, Apply(cfg, d, e), es[1..]);
    }
  }

  /** The events' times never go back, and start no earlier than from. */
  ghost predicate InOrder(es: seq<Event>, from: real)
    decreases |es|
  {
    es == [] || match es[0]
      case BeatAt(now, _) => from <= now && InOrder(es[1..], now)
      case DisarmAt(now, _) => from <= now && InOrder(es[1..], now)
      case TickAtTime(now, _) => from <= now && InOrder(es[1..], now)
      case Settle(_, _) => InOrder(es[1..], from)
  }

  lemma {:induction false} BeatThenTick(cfg: Config, d: Daemon, now: real)
    requires ValidConfig(cfg) && Inv(cfg, d) && cfg.enabled && !Committed(cfg, d)
    ensures var es := [BeatAt(now, true), TickAtTime(now, [])];
      Run(cfg, d, es).state == Armed && InOrder(es, now) && NoDisarm(es)
  {
    var es := [BeatAt(now, true), TickAtTime(now, [])];
    var b := Apply(cfg, d, es[0]);
    assert es[1..] == [TickAtTime(now, [])];
    assert es[1..][1..] == [];
    assert Run(cfg, d, es) == Run(cfg, b, es[1..]);
    assert Run(cfg, b, es[1..]) == Apply(cfg, b, es[1]);
    assert Elapsed(b, now) == 0.0;
    assert InOrder(es[1..], now);
  }

  /** From any time on, some sequence of beats and ticks re-arms the daemon if and only if it has
      not passed the abort threshold while escalating; past it only the governance key can. */
  lemma {:induction false} ReturnIff(cfg: Config, d: Daemon, from: real)
    requires ValidConfig(cfg) && Inv(cfg, d) && cfg.enabled
    ensures (exists es :: NoDisarm(es) && InOrder(es, from) && Run(cfg, d, es).state == Armed) <==> !Committed(cfg, d)
  {
    if Committed(cfg, d) {
      forall es | NoDisarm(es) && InOrder(es, from) ensures Run(cfg, d, es).state != Armed {
        CommittedStays(cfg, d, es);
      }
    } else {
      BeatThenTick(cfg, d, from);
    }
  }

  lemma {:induction false} LiquidatingStays(cfg: Config, d: Daemon, es: seq<Event>)
    requires ValidConfig(cfg) && cfg.enabled && d.state in {Liquidating, Dormant} && NoDisarm(es)
    ensures Run(cfg, d, es).state in {Liquidating, Dormant} && Run(cfg, d, es).attempts == d.attempts
    decreases |es|
  {
    if es != [] {
      assert !es[0].DisarmAt?;
      LiquidatingStays(cfg, Apply(cfg, d, es[0]), es[1..]);
    }
  }

  /** A first beat, then silence until the first step falls due and its hook raises. */
  function RaisingRun(cfg: Config): seq<Event> {
    var late := cfg.grace + cfg.period;
    [BeatAt(0.0, true), TickAtTime(late + 1.0, []), TickAtTime(late + 1.0, []), TickAtTime(late + 1.0, [HookRaises(Failed)])]
  }

  lemma {:induction false} RunOfFour(cfg: Config, d: Daemon, a: Event, b: Event, c: Event, e: Event)
    requires ValidConfig(cfg)
    ensures Run(cfg, d, [a, b, c, e]) == Apply(cfg, Apply(cfg, Apply(cfg, Apply(cfg, d, a), b), c), e)
  {
    assert [a, b, c, e][1..] == [b, c, e] && [b, c, e][1..] == [c, e] && [c, e][1..] == [e] && [e][1..] == [];
    var d1 := Apply(cfg, d, a);
    var d2 := Apply(cfg, d1, b);
    var d3 := Apply(cfg, d2, c);
    assert Run(cfg, d, [a, b, c, e]) == Run(cfg, d1, [b, c, e]);
    assert Run(cfg, d1, [b, c, e]) == Run(cfg, d2, [c, e]);
    assert Run(cfg, d2, [c, e]) == Run(cfg, d3, [e]);
    assert Run(cfg, d3, [e]) == Run(cfg, Apply(cfg, d3, e), []);
  }

  /** A plan that a raising step cuts short for good, whatever the configuration: LIQUIDATING
      after the first step, and no beats and ticks lead back or run another step. */
  lemma {:induction false} RaisedStepEndsThePlan(cfg: Config, es: seq<Event>)
    requires ValidConfig(cfg) && cfg.enabled && 2 <= |cfg.plan| && NoDisarm(es)
    ensures var d := Run(cfg, INITIAL, RaisingRun(cfg));
      && d.state == Liquidating && |d.attempts| == 1
      && Run(cfg, d, es).state in {Liquidating, Dormant} && Run(cfg, d, es).attempts == d.attempts
  {
    var run := RaisingRun(cfg);
    RunOfFour(cfg, INITIAL, run[0], run[1], run[2], run[3]);
    var late := cfg.grace + cfg.period + 1.0;
    var escalating := Apply(cfg, Apply(cfg, Apply(cfg, INITIAL, run[0]), run[1]), run[2]);
    assert escalating.state == Escalating && escalating.stepIndex == 0 && escalating.attempts == [];
    assert Elapsed(escalating, late) == late;
    StepNoIsDue(cfg, late, 1);
    LiquidatingStays(cfg, Run(cfg, INITIAL, run), es);
  }

  // ----- liveness -----

  /** A silent system: ticks at most gap apart, no beats, no disarms; orders may settle. */
  ghost predicate Quiet(es: seq<Event>, from: real, gap: real)
    decreases |es|
  {
    if es == [] then true
    else match es[0]
      case TickAtTime(now, _) => from <= now <= from + gap && Quiet(es[1..], now, gap)
      case Settle(_, _) => Quiet(es[1..], from, gap)
      case _ => false
  }

  /** The time of the last tick. */
  function Clock(es: seq<Event>, from: real): real
    decreases |es|
  {
    if es == [] then from
    else Clock(es[1..], if es[0].TickAtTime? then es[0].now else from)
  }

  /** How late it can be after a tick that left the daemon where it is: t0 is when the
      silence began, due the time the last step of the plan falls due after it. */
  ghost predicate NotLate(cfg: Config, d: Daemon, t0: real, due: real, gap: real, now: real) {
    match d.state
    case Armed => now <= t0 + cfg.grace
    case Watching => now <= t0 + cfg.grace + cfg.period + gap
    case Escalating => now <= t0 + due + gap + gap
    case Liquidating =>
      (match d.liquidatingSince
       case None => now <= t0 + due + gap + gap + gap
       case Some(s) => s <= t0 + due + gap + gap + gap + gap && now <= t0 + due + gap + gap + gap + gap + cfg.liquidationGrace)
    case Dormant => true
  }

  lemma {:induction false} LastStepDue(cfg: Config, n: nat)
    requires ValidConfig(cfg) && 1 <= n
    ensures cfg.grace + cfg.period <= Due(cfg, n)
  {
    assert 0.0 <= (n as real - 1.0) * cfg.period;
  }

  /** A tick that leaves the daemon ESCALATING came before the last step fell due. */
  lemma {:induction false} StillEscalating(cfg: Config, d: Daemon, now: real, outcomes: seq<Outcome>)
    requires ValidConfig(cfg) && Inv(cfg, d) && cfg.plan != [] && d.state == Escalating
    requires Tick(cfg, d, now, outcomes).state == Escalating
    ensures Elapsed(d, now) < Due(cfg, |cfg.plan|)
  {
    var elapsed := Elapsed(d, now);
    var due := StepNo(cfg, elapsed);
    StepNoIsDue(cfg, elapsed, |cfg.plan|);
    if due > d.stepIndex {
      CatchUpInv(cfg, d, if due <= |cfg.plan| then due else |cfg.plan|, now, elapsed, outcomes);
    }
  }

  lemma {:induction false} LiquidatingSince(cfg: Config, d: Daemon, now: real, outcomes: seq<Outcome>)
    requires ValidConfig(cfg) && Inv(cfg, d) && d.state == Escalating
    ensures var e := Tick(cfg, d, now, outcomes);
      e.state == Liquidating ==> e.liquidatingSince == None || e.liquidatingSince == Some(now)
    ensures var e := Tick(cfg, d, now, outcomes);
      e.state == Armed ==> Elapsed(d, now) <= cfg.grace
    ensures Tick(cfg, d, now, outcomes).state != Watching
  {
    var elapsed := Elapsed(d, now);
    var due := StepNo(cfg, elapsed);
    if due > d.stepIndex {
      CatchUpInv(cfg, d, if due <= |cfg.plan| then due else |cfg.plan|, now, elapsed, outcomes);
    }
  }

  lemma {:induction false} TickNotLate(cfg: Config, d: Daemon, t0: real, gap: real, before: real, now: real,
                                       outcomes: seq<Outcome>)
    requires ValidConfig(cfg) && Inv(cfg, d) && cfg.enabled && cfg.plan != []
    requires 0.0 <= gap && t0 <= before <= now <= before + gap
    requires d.lastBeat.Some? && d.lastBeat.value <= t0
    requires NotLate(cfg, d, t0, Due(cfg, |cfg.plan|), gap, before)
    ensures NotLate(cfg, Tick(cfg, d, now, outcomes), t0, Due(cfg, |cfg.plan|), gap, now)
  {
    LastStepDue(cfg, |cfg.plan|);
    if d.state == Escalating {
      LiquidatingSince(cfg, d, now, outcomes);
      if Tick(cfg, d, now, outcomes).state == Escalating {
        StillEscalating(cfg, d, now, outcomes);
      }
      TickInv(cfg, d, now, outcomes);
      assert Tick(cfg, d, now, outcomes).state in {Armed, Escalating, Liquidating, Dormant};
    }
  }

  lemma {:induction false} RunNotLate(cfg: Config, d: Daemon, t0: real, gap: real, before: real, es: seq<Event>)
    requires ValidConfig(cfg) && Inv(cfg, d) && cfg.enabled && cfg.plan != []
    requires 0.0 <= gap && t0 <= before && Quiet(es, before, gap)
    requires d.lastBeat.Some? && d.lastBeat.value <= t0
    requires NotLate(cfg, d, t0, Due(cfg, |cfg.plan|), gap, before)
    ensures NotLate(cfg, Run(cfg, d, es), t0, Due(cfg, |cfg.plan|), gap, Clock(es, before))
    decreases |es|
  {
    if es != [] {
      var e := es[0];
      ApplyInv(cfg, d, e);
      if e.TickAtTime? {
        TickNotLate(cfg, d, t0, gap, before, e.now, e.outcomes);
        TickInv(cfg, d, e.now, e.outcomes);
        RunNotLate(cfg, Apply(cfg, d, e), t0, gap, e.now, es[1..]);
      } else {
        RunNotLate(cfg, Apply(cfg, d, e), t0, gap, before, es[1..]);
      }
    }
  }

  /** grace * (1 + liquidation multiplier) + n * escalation period, after the silence began. */
  function Deadline(cfg: Config, t0: real): real {
    t0 + Due(cfg, |cfg.plan|) + cfg.liquidationGrace
  }

  /** A silent system with a plan is DORMANT after every tick later than four gaps past the
      deadline, from any reachable state, whatever the steps' outcomes. */
  lemma {:induction false} DormantAfterDeadline(cfg: Config, d: Daemon, t0: real, gap: real, es: seq<Event>)
    requires ValidConfig(cfg) && Inv(cfg, d) && cfg.enabled && cfg.plan != []
    requires 0.0 <= gap && Quiet(es, t0, gap)
    requires d.lastBeat.Some? && d.lastBeat.value <= t0
    requires d.liquidatingSince.Some? ==> d.liquidatingSince.value <= t0
    requires Clock(es, t0) > Deadline(cfg, t0) + 4.0 * gap
    ensures Run(cfg, d, es).state == Dormant
  {
    LastStepDue(cfg, |cfg.plan|);
    RunNotLate(cfg, d, t0, gap, t0, es);
  }

  lemma {:induction false} QuietKeepsBeat(cfg: Config, d: Daemon, gap: real, from: real, es: seq<Event>)
    requires ValidConfig(cfg) && Inv(cfg, d) && Quiet(es, from, gap)
    ensures Run(cfg, d, es).lastBeat == d.lastBeat
    decreases |es|
  {
    if es != [] {
      var e := es[0];
      ApplyInv(cfg, d, e);
      if e.TickAtTime? {
        TickInv(cfg, d, e.now, e.outcomes);
        QuietKeepsBeat(cfg, Apply(cfg, d, e), gap, e.now, es[1..]);
      } else {
        QuietKeepsBeat(cfg, Apply(cfg, d, e), gap, from, es[1..]);
      }
    }
  }

  /** Exactly when a silent system goes DORMANT: escalation is enabled, the plan is not empty
      and a first beat was ever received. */
  lemma {:induction false} DormantIff(cfg: Config, d: Daemon, t0: real, gap: real, es: seq<Event>)
    requires ValidConfig(cfg) && Inv(cfg, d)
    requires 0.0 <= gap && Quiet(es, t0, gap)
    requires d.lastBeat.Some? ==> d.lastBeat.value <= t0
    requires d.liquidatingSince.Some? ==> d.liquidatingSince.value <= t0
    requires Clock(es, t0) > Deadline(cfg, t0) + 4.0 * gap
    ensures Run(cfg, d, es).state == Dormant <==> cfg.enabled && cfg.plan != [] && d.lastBeat.Some?
  {
    if cfg.enabled && cfg.plan != [] && d.lastBeat.Some? {
      DormantAfterDeadline(cfg, d, t0, gap, es);
    } else {
      RunInv(cfg, d, es);
      QuietKeepsBeat(cfg, d, gap, t0, es);
    }
  }

  lemma {:induction false} CrossingTick(cfg: Config, gap: real, from: real, es: seq<Event>, bound: real) returns (k: nat)
    requires 0.0 <= gap && Quiet(es, from, gap) && from <= bound < Clock(es, from)
    ensures k <= |es| && bound < Clock(es[..k], from) <= bound + gap && Quiet(es[..k], from, gap)
    decreases |es|
  {
    var e := es[0];
    var next := if e.TickAtTime? then e.now else from;
    if next > bound {
      k := 1;
      assert es[..1][1..] == [];
    } else {
      var j := CrossingTick(cfg, gap, next, es[1..], bound);
      k := j + 1;
      assert es[..k][1..] == es[1..][..j];
    }
  }

  /** The liveness bound: once ticks reach past it, the daemon went DORMANT at some tick no
      later than grace * (1 + liquidation multiplier) + n * escalation period + 5 gaps. */
  lemma {:induction false} DormantByBound(cfg: Config, d: Daemon, t0: real, gap: real, es: seq<Event>)
    requires ValidConfig(cfg) && Inv(cfg, d) && cfg.enabled && cfg.plan != []
    requires 0.0 <= gap && Quiet(es, t0, gap)
    requires d.lastBeat.Some? && d.lastBeat.value <= t0
    requires d.liquidatingSince.Some? ==> d.liquidatingSince.value <= t0
    requires Clock(es, t0) > Deadline(cfg, t0) + 4.0 * gap
    ensures exists k :: (
      0 <= k <= |es| && Clock(es[..k], t0) <= Deadline(cfg, t0) + 5.0 * gap && Run(cfg, d, es[..k]).state == Dormant)
  {
    LastStepDue(cfg, |cfg.plan|);
    var k := CrossingTick(cfg, gap, t0, es, Deadline(cfg, t0) + 4.0 * gap);
    DormantAfterDeadline(cfg, d, t0, gap, es[..k]);
  }
}
