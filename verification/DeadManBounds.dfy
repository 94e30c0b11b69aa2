/** The dead-man switch is never early: what every input does in every state, in times and orders
    alone, and the lower bounds that match its liveness bounds. */
module DeadManBounds {
  import opened Common
  import opened DeadMan
  import opened DeadManRuns

  /** The only moves there are; a journal entry that is none of them is a note. */
  lemma {:induction false} SixMoves(s: State, t: State)
    ensures t in Allowed(s) <==>
      || (s == Armed && t == Watching) || (s == Watching && (t == Escalating || t == Armed))
      || (s == Escalating && (t == Armed || t == Liquidating)) || (s == Liquidating && t == Dormant)
  {
    match s
    case Armed => case Watching => case Escalating => case Liquidating => case Dormant =>
  }

  // ----- one tick -----

  /** Time since the last beat has passed the limit; without a beat no time passes. */
  predicate SilentFor(d: Daemon, now: real, limit: real) {
    d.lastBeat.Some? && now - d.lastBeat.value > limit
  }

  /** LIQUIDATING is over: every order has left SUBMITTED, or its grace since the clock started
      has passed; a clock that is not running starts now. */
  predicate Released(cfg: Config, d: Daemon, now: real) {
    Submitted !in d.orders || (d.liquidatingSince.Some? && now - d.liquidatingSince.value > cfg.liquidationGrace)
  }

  /** Where a tick leads from ARMED, WATCHING, LIQUIDATING and DORMANT, and when it re-arms out of
      ESCALATING. */
  lemma {:induction false} TickMoves(cfg: Config, d: Daemon, now: real, outcomes: seq<Outcome>)
    requires ValidConfig(cfg) && Inv(cfg, d)
    ensures var s := Tick(cfg, d, now, outcomes).state;
      if !cfg.enabled then s == Armed
      else match d.state
        case Armed => s == if SilentFor(d, now, cfg.grace) then Watching else Armed
        case Watching =>
          s == if !SilentFor(d, now, cfg.grace) then Armed
               else if SilentFor(d, now, cfg.grace + cfg.period) then Escalating else Watching
        case Escalating =>
          && (s == Armed <==> !SilentFor(d, now, cfg.grace) && d.stepIndex < cfg.abortableUntil)
          && (s == Armed || s == Escalating || s == Liquidating)
        case Liquidating => s == if Released(cfg, d, now) then Dormant else Liquidating
        case Dormant => s == Dormant
  {
    if cfg.enabled && d.state == Escalating {
      var due := StepNo(cfg, Elapsed(d, now));
      if due > d.stepIndex {
        CatchUpInv(cfg, d, if due <= |cfg.plan| then due else |cfg.plan|, now, Elapsed(d, now), outcomes);
      }
    }
  }

  /** What a tick keeps: outside ESCALATING no step, order or beat changes; the liquidation clock
      starts at the first tick in LIQUIDATING, and re-arming clears the plan's progress. */
  lemma {:induction false} TickKeeps(cfg: Config, d: Daemon, now: real, outcomes: seq<Outcome>)
    requires ValidConfig(cfg) && Inv(cfg, d)
    ensures var e := Tick(cfg, d, now, outcomes);
      && e.lastBeat == d.lastBeat
      && (d.state != Escalating ==> e.orders == d.orders)
      && (d.state != Escalating && e.state != Escalating ==> e.attempts == d.attempts)
      && (d.state == Watching && e.state == Escalating ==> e.attempts == [] && e.stepIndex == 0)
      && (cfg.enabled && d.state == Liquidating ==>
        e.liquidatingSince == if d.liquidatingSince.None? then Some(now) else d.liquidatingSince)
      && (cfg.enabled && d.state in {Watching, Escalating} && e.state == Armed ==>
        e.stepIndex == 0 && e.liquidatingSince == None && e.orders == d.orders && e.attempts == d.attempts)
  {
    TickInv(cfg, d, now, outcomes);
    TickMoves(cfg, d, now, outcomes);
  }

  /** From any state at all, reachable or not: a switched-off system is ARMED by force and without
      a journal entry; outside ESCALATING a move is journaled once and no move not at all; and
      re-arming clears the step count, out of WATCHING the liquidation clock too. */
  lemma {:induction false} TickRecords(cfg: Config, d: Daemon, now: real, outcomes: seq<Outcome>)
    requires ValidConfig(cfg)
    ensures var e := Tick(cfg, d, now, outcomes);
      && (!cfg.enabled ==> e == d.(state := Armed))
      && (cfg.enabled && d.state != Escalating ==>
        e.trace == d.trace + (if e.state == d.state then [] else [Edge(d.state, e.state)]))
      && (cfg.enabled && d.state == Watching && e.state == Armed ==> e.stepIndex == 0 && e.liquidatingSince == None)
      && (cfg.enabled && d.state == Escalating && !SilentFor(d, now, cfg.grace) && d.stepIndex < cfg.abortableUntil ==>
        e == d.(state := Armed, stepIndex := 0, trace := d.trace + [Edge(Escalating, Armed)]))
  {
    assert d.trace + [] == d.trace;
  }

  /** The catch-up is complete: after a tick in ESCALATING that does not re-arm, every step that
      is due has been attempted, unless an attempt raised. PlanExecution says that no other has. */
  lemma {:induction false} DueStepsAreAttempted(cfg: Config, d: Daemon, now: real, outcomes: seq<Outcome>, i: nat)
    requires ValidConfig(cfg) && Inv(cfg, d) && cfg.enabled && d.state == Escalating
    requires Tick(cfg, d, now, outcomes).state != Armed
    requires d.lastBeat.Some? && 1 <= i <= |cfg.plan| && cfg.grace + i as real * cfg.period <= now - d.lastBeat.value
    ensures var e := Tick(cfg, d, now, outcomes); i <= |e.attempts| || LastRaised(e.attempts)
  {
    var elapsed := Elapsed(d, now);
    StepNoIsDue(cfg, elapsed, i);
    NumberedStepsAreAttempted(cfg, d, now, elapsed, StepNo(cfg, elapsed), outcomes, i);
  }

  lemma {:induction false} NumberedStepsAreAttempted(cfg: Config, d: Daemon, now: real, elapsed: real, due: int,
                                                     outcomes: seq<Outcome>, i: nat)
    requires ValidConfig(cfg) && Inv(cfg, d) && cfg.enabled && d.state == Escalating && due == StepNo(cfg, elapsed)
    requires TickAt(cfg, d, now, elapsed, due, outcomes).state != Armed && i <= due && i <= |cfg.plan|
    ensures var e := TickAt(cfg, d, now, elapsed, due, outcomes); i <= |e.attempts| || LastRaised(e.attempts)
  {
    var target := if due <= |cfg.plan| then due else |cfg.plan|;
    if due > d.stepIndex {
      CatchUpInv(cfg, d, target, now, elapsed, outcomes);
    }
  }

  /** What one attempt does: its two notes, or one when the oracle raises; the order of an
      acquisition whose oracle answers; and whether it raised. */
  lemma {:induction false} AttemptEffects(cfg: Config, d: Daemon, elapsed: real, outcomes: seq<Outcome>)
    requires d.stepIndex < |cfg.plan| && d.stepIndex < |outcomes|
    ensures var e := Attempted(cfg, d, elapsed, outcomes);
      var o, buys := outcomes[d.stepIndex], cfg.plan[d.stepIndex] == AcquireAssets;
      var note := Edge(d.state, d.state);
      && e.state == d.state && e.stepIndex == d.stepIndex + 1 && e.lastBeat == d.lastBeat
      && e.orders == d.orders + (if buys && !o.OracleRaises? then [o.order] else [])
      && e.trace == d.trace + (if buys && o.OracleRaises? then [note] else [note, note])
      && |e.attempts| == |d.attempts| + 1
      && var a := e.attempts[|d.attempts|];
        a.step == d.stepIndex + 1 && a.elapsed == elapsed && a.outcome == o
        && (a.raised <==> o.HookRaises? || (buys && o.OracleRaises?))
  {
    var note := Edge(d.state, d.state);
    assert d.trace + [note] + [note] == d.trace + [note, note];
    assert d.orders + [] == d.orders;
  }

  // ----- beats and disarms -----

  /** A refused beat changes nothing; an accepted one restarts the clock and nothing else but the
      journal of ARMED. */
  lemma {:induction false} BeatRestartsClock(cfg: Config, d: Daemon, now: real, signed: bool)
    ensures var e := Beat(cfg, d, now, signed);
      if cfg.strictSigning && !signed then e == d
      else
        && e.lastBeat == Some(now) && e.state == d.state && e.stepIndex == d.stepIndex
        && e.liquidatingSince == d.liquidatingSince && e.orders == d.orders && e.attempts == d.attempts
        && e.trace == d.trace + (if d.state == Armed then [Edge(Armed, Armed)] else [])
  {
    assert d.trace + [] == d.trace;
  }

  /** A disarm with the wrong key changes nothing; with the right one it re-arms out of WATCHING
      and ESCALATING, clears the progress and both clocks, and never leaves LIQUIDATING. */
  lemma {:induction false} DisarmRearms(d: Daemon, now: real, keyMatches: bool)
    ensures var e := Disarm(d, now, keyMatches);
      if !keyMatches then e == d
      else
        && e.state == (if d.state == Watching || d.state == Escalating then Armed else d.state)
        && e.stepIndex == 0 && e.liquidatingSince == None && e.lastBeat == Some(now)
        && e.orders == d.orders && e.attempts == d.attempts
        && e.trace == d.trace + (if d.state == Watching || d.state == Escalating then [Edge(d.state, Armed)] else [])
  {
    assert d.trace + [] == d.trace;
  }

  // ----- never early -----

  /** Each stage is entered by a tick only, and not before its time: WATCHING after the grace,
      ESCALATING a period later, LIQUIDATING once the first step is due, DORMANT when released. */
  lemma {:induction false} EntersOnTime(cfg: Config, d: Daemon, e: Event)
    requires ValidConfig(cfg) && Inv(cfg, d) && Apply(cfg, d, e).state != d.state
    ensures match Apply(cfg, d, e).state
      case Armed => e.TickAtTime? || e.DisarmAt?
      case Watching => e.TickAtTime? && SilentFor(d, e.now, cfg.grace)
      case Escalating => e.TickAtTime? && d.state == Watching && SilentFor(d, e.now, cfg.grace + cfg.period)
      case Liquidating =>
        e.TickAtTime? && d.state == Escalating && d.lastBeat.Some?
        && (d.stepIndex == 0 ==> e.now - d.lastBeat.value >= cfg.grace + cfg.period)
      case Dormant => e.TickAtTime? && d.state == Liquidating && Released(cfg, d, e.now)
  {
    match e
    case TickAtTime(now, outcomes) =>
      TickMoves(cfg, d, now, outcomes);
      if d.state == Escalating {
        StepNoIsDue(cfg, Elapsed(d, now), 1);
      }
    case _ =>
  }

  /** Ticks and beats only, every tick within limit of the beat before it. */
  ghost predicate Attended(es: seq<Event>, last: real, limit: real)
    decreases |es|
  {
    if es == [] then true
    else match es[0]
      case BeatAt(now, signed) => signed && Attended(es[1..], now, limit)
      case TickAtTime(now, _) => now - last <= limit && Attended(es[1..], last, limit)
      case Settle(_, _) => Attended(es[1..], last, limit)
      case DisarmAt(_, _) => false
  }

  /** An operator who always beats again within the grace is never even watched. */
  lemma {:induction false} AttendedStaysArmed(cfg: Config, d: Daemon, es: seq<Event>)
    requires ValidConfig(cfg) && Inv(cfg, d) && d.state == Armed && d.lastBeat.Some?
    requires Attended(es, d.lastBeat.value, cfg.grace)
    ensures Run(cfg, d, es).state == Armed
    decreases |es|
  {
    if es != [] {
      ApplyInv(cfg, d, es[0]);
      if es[0].TickAtTime? {
        TickMoves(cfg, d, es[0].now, es[0].outcomes);
        TickKeeps(cfg, d, es[0].now, es[0].outcomes);
      }
      AttendedStaysArmed(cfg, Apply(cfg, d, es[0]), es[1..]);
    }
  }

  /** And one who beats within grace and one period is watched at most: no step ever runs. */
  lemma {:induction false} AttendedIsWatchedAtMost(cfg: Config, d: Daemon, es: seq<Event>)
    requires ValidConfig(cfg) && Inv(cfg, d) && d.state in {Armed, Watching} && d.lastBeat.Some?
    requires Attended(es, d.lastBeat.value, cfg.grace + cfg.period)
    ensures Run(cfg, d, es).state in {Armed, Watching} && Run(cfg, d, es).attempts == d.attempts
    decreases |es|
  {
    if es != [] {
      ApplyInv(cfg, d, es[0]);
      if es[0].TickAtTime? {
        TickMoves(cfg, d, es[0].now, es[0].outcomes);
        TickKeeps(cfg, d, es[0].now, es[0].outcomes);
      }
      AttendedIsWatchedAtMost(cfg, Apply(cfg, d, es[0]), es[1..]);
    }
  }

  // ----- LIQUIDATING waits -----

  /** The event leaves order i as it is, and does not tick outside the window. */
  predicate Waits(e: Event, i: nat, from: real, to: real) {
    match e
    case TickAtTime(now, _) => from <= now <= to
    case Settle(j, _) => j != i
    case _ => true
  }

  /** A system that holds a SUBMITTED order is not DORMANT before the liquidation grace has passed
      since its clock started, whatever beats, disarms and other settlements come in between. */
  lemma {:induction false} LiquidatingWaits(cfg: Config, d: Daemon, es: seq<Event>, since: real, i: nat)
    requires ValidConfig(cfg) && Inv(cfg, d) && cfg.enabled && d.state == Liquidating
    requires d.liquidatingSince.Some? ==> since <= d.liquidatingSince.value
    requires i < |d.orders| && d.orders[i] == Submitted
    requires forall k :: 0 <= k < |es| ==> Waits(es[k], i, since, since + cfg.liquidationGrace)
    ensures Run(cfg, d, es).state == Liquidating
    decreases |es|
  {
    if es != [] {
      assert Waits(es[0], i, since, since + cfg.liquidationGrace);
      ApplyInv(cfg, d, es[0]);
      if es[0].TickAtTime? {
        TickMoves(cfg, d, es[0].now, es[0].outcomes);
        TickKeeps(cfg, d, es[0].now, es[0].outcomes);
      }
      LiquidatingWaits(cfg, Apply(cfg, d, es[0]), es[1..], since, i);
    }
  }

  /** Ticks only, none later than the limit. */
  ghost predicate TicksUntil(es: seq<Event>, limit: real) {
    forall k :: 0 <= k < |es| ==> es[k].TickAtTime? && es[k].now <= limit
  }

  /** In a silence: the plan that completed did so no earlier than its last step was due, and
      DORMANT means that no order was left SUBMITTED or that a step raised. */
  ghost predicate NotEarly(cfg: Config, d: Daemon, beat: real) {
    && d.lastBeat == Some(beat)
    && (d.state == Liquidating && !LastRaised(d.attempts) ==>
      d.liquidatingSince.Some? && d.liquidatingSince.value - beat >= Due(cfg, |cfg.plan|))
    && (d.state == Dormant ==> Submitted !in d.orders || LastRaised(d.attempts))
  }

  lemma {:induction false} TickNotEarly(cfg: Config, d: Daemon, beat: real, now: real, outcomes: seq<Outcome>)
    requires ValidConfig(cfg) && Inv(cfg, d) && cfg.enabled && NotEarly(cfg, d, beat)
    requires now <= beat + Due(cfg, |cfg.plan|) + cfg.liquidationGrace
    ensures NotEarly(cfg, Tick(cfg, d, now, outcomes), beat)
  {
    TickInv(cfg, d, now, outcomes);
    TickMoves(cfg, d, now, outcomes);
    TickKeeps(cfg, d, now, outcomes);
    var e := Tick(cfg, d, now, outcomes);
    if d.state == Escalating && e.state == Liquidating {
      var due := StepNo(cfg, Elapsed(d, now));
      CatchUpInv(cfg, d, if due <= |cfg.plan| then due else |cfg.plan|, now, Elapsed(d, now), outcomes);
      if !LastRaised(e.attempts) {
        CompletedWasDue(cfg, e);
        OnTimeNow(cfg, d, e, now, outcomes);
      }
    }
  }

  /** The whole plan attempted, its last step is on time. */
  lemma {:induction false} CompletedWasDue(cfg: Config, e: Daemon)
    requires Inv(cfg, e) && e.state == Liquidating && !LastRaised(e.attempts)
    ensures |e.attempts| == |cfg.plan| && e.attempts != []
    ensures Due(cfg, |cfg.plan|) <= e.attempts[|e.attempts| - 1].elapsed
  {
    assert AttemptOk(cfg, e.attempts, |e.attempts| - 1);
  }

  lemma {:induction false} OnTimeNow(cfg: Config, d: Daemon, e: Daemon, now: real, outcomes: seq<Outcome>)
    requires ValidConfig(cfg) && Inv(cfg, d) && cfg.enabled && d.state == Escalating && e == Tick(cfg, d, now, outcomes)
    requires e.state == Liquidating && |e.attempts| == |cfg.plan| && e.attempts != []
    ensures e.attempts[|e.attempts| - 1].elapsed == Elapsed(d, now)
  {
    TickInv(cfg, d, now, outcomes);
    assert |d.attempts| < |cfg.plan|;
  }

  /** The lower bound that matches the liveness bound: silent since a beat, and up to
      grace * (1 + liquidation multiplier) + n * escalation period after it, the switch is DORMANT
      only if no order is left SUBMITTED or a step raised. */
  lemma {:induction false} NotDormantBeforeDeadline(cfg: Config, d: Daemon, beat: real, es: seq<Event>)
    requires ValidConfig(cfg) && Inv(cfg, d) && cfg.enabled && NotEarly(cfg, d, beat)
    requires TicksUntil(es, Deadline(cfg, beat))
    ensures var e := Run(cfg, d, es); e.state == Dormant ==> Submitted !in e.orders || LastRaised(e.attempts)
    decreases |es|
  {
    if es != [] {
      assert es[0].TickAtTime? && es[0].now <= Deadline(cfg, beat);
      TickNotEarly(cfg, d, beat, es[0].now, es[0].outcomes);
      TickInv(cfg, d, es[0].now, es[0].outcomes);
      assert forall k :: 0 <= k < |es[1..]| ==> es[1..][k] == es[k + 1];
      NotDormantBeforeDeadline(cfg, Apply(cfg, d, es[0]), beat, es[1..]);
    }
  }

  /** The deadline in the schema's own multipliers. */
  lemma {:induction false} DeadlineInMultipliers(h: real, g: nat, e: nat, l: nat, plan: seq<StepType>, t0: real,
                                                 en: bool, ab: nat, st: bool, mj: nat)
    ensures var cfg := ConfigOf(h, g, e, l, en, ab, plan, st, mj);
      Deadline(cfg, t0) == t0 + h * g as real + |plan| as real * (h * e as real) + h * g as real * l as real
  {}
}
