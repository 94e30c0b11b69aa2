/** The dead-man switch: a timed five-state machine that walks a pre-registered plan.
    The functions say what each call does to the daemon's state as a value; the class is
    the daemon itself, whose methods are proved to do exactly that. */
module DeadMan {
  import opened Common

  datatype State = Armed | Watching | Escalating | Liquidating | Dormant
  datatype StepType = Notify | HaltPlacements | ReduceExposure | AcquireAssets | Seal
  datatype OrderStatus = Submitted | Settled | Failed

  /** How one attempt at a plan step ends. Only asset acquisition talks to the oracle, and
      an order it places is recorded even when the hook raises afterwards. */
  datatype Outcome =
    | Completes(order: OrderStatus)
    | OracleRaises
    | HookRaises(order: OrderStatus)

  datatype Config = Config(
    grace: real, period: real, liquidationGrace: real,
    enabled: bool, abortableUntil: nat, plan: seq<StepType>, strictSigning: bool, maxJournal: nat)

  predicate ValidConfig(cfg: Config) {
    0.0 < cfg.grace && 0.0 < cfg.period && cfg.grace <= cfg.liquidationGrace && 16 <= cfg.maxJournal
  }

  /** The periods that the schema's multipliers stand for. */
  function ConfigOf(heartbeat: real, graceMultiplier: nat, escalationMultiplier: nat, liquidationMultiplier: nat,
                    enabled: bool, abortableUntil: nat, plan: seq<StepType>, strict: bool, maxJournal: nat): Config
  {
    Config(heartbeat * graceMultiplier as real, heartbeat * escalationMultiplier as real,
           heartbeat * graceMultiplier as real * liquidationMultiplier as real,
           enabled, abortableUntil, plan, strict, maxJournal)
  }

  lemma {:induction false} SchemaBoundsSuffice(h: real, g: nat, e: nat, l: nat, en: bool, ab: nat, plan: seq<StepType>,
                                               st: bool, mj: nat)
    requires 0.0 < h && 1 <= g && 1 <= e && 1 <= l && 16 <= mj
    ensures ValidConfig(ConfigOf(h, g, e, l, en, ab, plan, st, mj))
  {
    var grace := h * g as real;
    assert 0.0 < grace && 0.0 < h * e as real;
    AtLeast(grace, l as real);
  }

  lemma {:induction false} AtLeast(x: real, y: real)
    requires 0.0 < x && 1.0 <= y
    ensures x <= x * y
  {
    assert 0.0 <= x * (y - 1.0);
  }

  /** One journal entry; a self-edge is a note. */
  datatype Edge = Edge(frm: State, to: State)

  /** One attempted plan step (numbered from 1), how long after the last beat, and how it ended. */
  datatype Attempt = Attempt(step: nat, elapsed: real, outcome: Outcome, raised: bool)

  /** The daemon's state. trace is the whole journal, of which the daemon keeps a suffix;
      attempts lists the plan steps attempted since the plan was last armed, and ordersBefore
      says how many orders there were then. */
  datatype Daemon = Daemon(
    state: State, lastBeat: Option<real>, stepIndex: nat, liquidatingSince: Option<real>,
    orders: seq<OrderStatus>, trace: seq<Edge>, attempts: seq<Attempt>, ordersBefore: nat)

  const INITIAL := Daemon(Armed, None, 0, None, [], [], [], 0)

  // ----- transitions -----

  function Allowed(s: State): set<State> {
    match s
    case Armed => {Watching}
    case Watching => {Escalating, Armed}
    case Escalating => {Armed, Liquidating}
    case Liquidating => {Dormant}
    case Dormant => {}
  }

  function Move(d: Daemon, target: State): Daemon {
    if target in Allowed(d.state) then d.(trace := d.trace + [Edge(d.state, target)], state := target) else d
  }

  function Note(d: Daemon): Daemon {
    d.(trace := d.trace + [Edge(d.state, d.state)])
  }

  function Elapsed(d: Daemon, now: real): real {
    match d.lastBeat case None => 0.0 case Some(last) => now - last
  }

  // ----- plan steps -----

  function OutcomeAt(outcomes: seq<Outcome>, i: nat): Outcome {
    if i < |outcomes| then outcomes[i] else Completes(Submitted)
  }

  predicate Raises(step: StepType, o: Outcome) {
    o.HookRaises? || (o.OracleRaises? && step == AcquireAssets)
  }

  /** What an attempt leaves behind: its notes, and the order of an acquisition. */
  function Executed(d: Daemon, step: StepType, o: Outcome): Daemon {
    if step == AcquireAssets && o.OracleRaises? then Note(d)
    else if step == AcquireAssets then Note(Note(d)).(orders := d.orders + [o.order])
    else Note(Note(d))
  }

  /** Attempt the next plan step. */
  function Attempted(cfg: Config, d: Daemon, elapsed: real, outcomes: seq<Outcome>): Daemon
    requires d.stepIndex < |cfg.plan|
  {
    var i := d.stepIndex;
    var o := OutcomeAt(outcomes, i);
    Executed(d.(stepIndex := i + 1), cfg.plan[i], o)
      .(attempts := d.attempts + [Attempt(i + 1, elapsed, o, Raises(cfg.plan[i], o))])
  }

  /** The catch-up: attempt the steps up to number target, stopping at the first that raises. */
  function CatchUp(cfg: Config, d: Daemon, target: nat, now: real, elapsed: real, outcomes: seq<Outcome>): Daemon
    requires target <= |cfg.plan|
    decreases target - d.stepIndex
  {
    if target <= d.stepIndex then d
    else
      var e := Attempted(cfg, d, elapsed, outcomes);
      if Raises(cfg.plan[d.stepIndex], OutcomeAt(outcomes, d.stepIndex)) then Move(e, Liquidating)
      else if e.stepIndex == |cfg.plan| then Move(e.(liquidatingSince := Some(now)), Liquidating)
      else CatchUp(cfg, e, target, now, elapsed, outcomes)
  }

  // ----- the calls -----

  function StepNo(cfg: Config, elapsed: real): int
    requires 0.0 < cfg.period
  {
    ((elapsed - cfg.grace) / cfg.period).Floor
  }

  predicate Pending(orders: seq<OrderStatus>) {
    exists i :: 0 <= i < |orders| && orders[i] == Submitted
  }

  function Beat(cfg: Config, d: Daemon, now: real, signed: bool): Daemon {
    if cfg.strictSigning && !signed then d
    else
      var e := d.(lastBeat := Some(now));
      if e.state == Armed then Note(e) else e
  }

  function Disarm(d: Daemon, now: real, keyMatches: bool): Daemon {
    if !keyMatches then d
    else Move(d, Armed).(stepIndex := 0, liquidatingSince := None, lastBeat := Some(now))
  }

  function Tick(cfg: Config, d: Daemon, now: real, outcomes: seq<Outcome>): Daemon
    requires ValidConfig(cfg)
  {
    TickAt(cfg, d, now, Elapsed(d, now), StepNo(cfg, Elapsed(d, now)), outcomes)
  }

  function TickAt(cfg: Config, d: Daemon, now: real, elapsed: real, due: int, outcomes: seq<Outcome>): Daemon {
    if !cfg.enabled then d.(state := Armed)
    else match d.state
      case Armed => if elapsed > cfg.grace then Move(d, Watching) else d
      case Watching =>
        if elapsed <= cfg.grace then Move(d, Armed).(stepIndex := 0, liquidatingSince := None)
        else if elapsed > cfg.grace + cfg.period then Move(d, Escalating).(attempts := [], ordersBefore := |d.orders|)
        else d
      case Escalating =>
        if elapsed <= cfg.grace && d.stepIndex < cfg.abortableUntil then Move(d, Armed).(stepIndex := 0)
        else if due <= d.stepIndex then d
        else CatchUp(cfg, d, if due <= |cfg.plan| then due else |cfg.plan|, now, elapsed, outcomes)
      case Liquidating =>
        var e := if d.liquidatingSince.None? then d.(liquidatingSince := Some(now)) else d;
        if !Pending(e.orders) || now - e.liquidatingSince.value > cfg.liquidationGrace then Move(e, Dormant) else e
      case Dormant => d
  }

  // ----- the daemon -----

  class DeadManSwitch {
    const cfg: Config
    const governanceKey: Option<string>
    var state: State
    var lastBeat: Option<real>
    var stepIndex: nat
    var liquidatingSince: Option<real>
    var orders: seq<OrderStatus>
    var journal: seq<Edge>
    ghost var trace: seq<Edge>
    ghost var attempts: seq<Attempt>
    ghost var ordersBefore: nat

    ghost function Value(): Daemon
      reads this
    {
      Daemon(state, lastBeat, stepIndex, liquidatingSince, orders, trace, attempts, ordersBefore)
    }

    /** The journal is the longest allowed suffix of everything ever journaled. */
    ghost predicate Valid()
      reads this
    {
      ValidConfig(cfg) && journal == LastN(trace, cfg.maxJournal)
    }

    constructor (cfg: Config, governanceKey: Option<string>)
      requires ValidConfig(cfg)
      ensures Valid() && this.cfg == cfg && this.governanceKey == governanceKey && Value() == INITIAL
    {
      this.cfg := cfg;
      this.governanceKey := governanceKey;
      state, lastBeat, stepIndex, liquidatingSince := Armed, None, 0, None;
      orders, journal := [], [];
      trace, attempts, ordersBefore := [], [], 0;
    }

    method Append(e: Edge)
      requires Valid()
      modifies this`journal, this`trace
      ensures Valid() && trace == old(trace) + [e]
    {
      LastNAppend(trace, e, cfg.maxJournal);
      journal := LastN(journal + [e], cfg.maxJournal);
      trace := trace + [e];
    }

    method AddNote()
      requires Valid()
      modifies this`journal, this`trace
      ensures Valid() && Value() == Note(old(Value()))
    {
      Append(Edge(state, state));
    }

    method MoveTo(target: State) returns (moved: bool)
      requires Valid()
      modifies this`journal, this`trace, this`state
      ensures Valid() && Value() == Move(old(Value()), target)
      ensures moved <==> target in Allowed(old(state))
    {
      if target !in Allowed(state) {
        return false;
      }
      Append(Edge(state, target));
      state := target;
      return true;
    }

    /** False stands for the PermissionError of an unsigned beat in strict mode. */
    method EmitBeat(now: real, signed: bool) returns (accepted: bool)
      requires Valid()
      modifies this
      ensures Valid() && Value() == Beat(cfg, old(Value()), now, signed)
      ensures accepted <==> signed || !cfg.strictSigning
    {
      if cfg.strictSigning && !signed {
        return false;
      }
      lastBeat := Some(now);
      if state == Armed {
        AddNote();
      }
      return true;
    }

    /** False stands for the PermissionError of a wrong or unset key. */
    method GovernanceDisarm(now: real, key: string) returns (accepted: bool)
      requires Valid()
      modifies this
      ensures Valid() && Value() == Disarm(old(Value()), now, governanceKey == Some(key))
      ensures accepted <==> governanceKey == Some(key)
    {
      if governanceKey.None? || key != governanceKey.value {
        return false;
      }
      var moved := MoveTo(Armed);
      stepIndex := 0;
      liquidatingSince := None;
      lastBeat := Some(now);
      return true;
    }

    /** False stands for an exception raised by the oracle or by the step's hook. */
    method ExecuteStep(step: StepType, o: Outcome) returns (ok: bool)
      requires Valid()
      modifies this`journal, this`trace, this`orders
      ensures Valid() && Value() == Executed(old(Value()), step, o)
      ensures ok <==> !Raises(step, o)
    {
      AddNote();
      if step == AcquireAssets {
        if o.OracleRaises? {
          return false;
        }
        orders := orders + [o.order];
      }
      AddNote();
      return !o.HookRaises?;
    }

    /** The body of the plan loop: the step counts as reached before it is attempted. */
    method AttemptNext(elapsed: real, outcomes: seq<Outcome>) returns (ok: bool)
      requires Valid() && stepIndex < |cfg.plan|
      modifies this
      ensures Valid() && Value() == Attempted(cfg, old(Value()), elapsed, outcomes)
      ensures ok <==> !Raises(cfg.plan[old(stepIndex)], OutcomeAt(outcomes, old(stepIndex)))
    {
      var step, o := cfg.plan[stepIndex], OutcomeAt(outcomes, stepIndex);
      stepIndex := stepIndex + 1;
      ok := ExecuteStep(step, o);
      attempts := attempts + [Attempt(stepIndex, elapsed, o, !ok)];
    }

    /** The plan loop of tick(). */
    method RunPlan(target: nat, now: real, elapsed: real, outcomes: seq<Outcome>)
      requires Valid() && target <= |cfg.plan|
      modifies this
      ensures Valid() && Value() == CatchUp(cfg, old(Value()), target, now, elapsed, outcomes)
    {
      while stepIndex < target
        invariant Valid()
        invariant CatchUp(cfg, old(Value()), target, now, elapsed, outcomes)
               == CatchUp(cfg, Value(), target, now, elapsed, outcomes)
        decreases target - stepIndex
      {
        var ok := AttemptNext(elapsed, outcomes);
        if !ok {
          var failed := MoveTo(Liquidating);
          return;
        }
        if stepIndex == |cfg.plan| {
          liquidatingSince := Some(now);
          var complete := MoveTo(Liquidating);
          return;
        }
      }
    }

    method TickNow(now: real, outcomes: seq<Outcome>) returns (s: State)
      requires Valid()
      modifies this
      ensures Valid() && Value() == Tick(cfg, old(Value()), now, outcomes)
      ensures s == state
    {
      var elapsed := match lastBeat { case None => 0.0 case Some(last) => now - last };
      s := TickStep(now, elapsed, StepNo(cfg, elapsed), outcomes);
    }

    method TickStep(now: real, elapsed: real, due: int, outcomes: seq<Outcome>) returns (s: State)
      requires Valid()
      modifies this
      ensures Valid() && Value() == TickAt(cfg, old(Value()), now, elapsed, due, outcomes)
      ensures s == state
    {
      if !cfg.enabled {
        state := Armed;
        return state;
      }
      match state {
        case Armed =>
          if elapsed > cfg.grace {
            var moved := MoveTo(Watching);
          }
        case Watching =>
          if elapsed <= cfg.grace {
            var moved := MoveTo(Armed);
            if moved {
              stepIndex := 0;
              liquidatingSince := None;
            }
          } else if elapsed > cfg.grace + cfg.period {
            var moved := MoveTo(Escalating);
            attempts, ordersBefore := [], |orders|;
          }
        case Escalating =>
          if elapsed <= cfg.grace && stepIndex < cfg.abortableUntil {
            var moved := MoveTo(Armed);
            if moved {
              stepIndex := 0;
            }
            return state;
          }
          if due <= stepIndex {
            return state;
          }
          RunPlan(if due <= |cfg.plan| then due else |cfg.plan|, now, elapsed, outcomes);
        case Liquidating =>
          if liquidatingSince.None? {
            liquidatingSince := Some(now);
          }
          if !Pending(orders) || now - liquidatingSince.value > cfg.liquidationGrace {
            var moved := MoveTo(Dormant);
          }
        case Dormant =>
      }
      return state;
    }
  }
}
