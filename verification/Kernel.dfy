/** The Iron Constitution kernel: a risk gate behind a four-state machine with two-phase
    recovery, saturating counters and a bounded transition journal. */
module Kernel {
  import opened Common
  import opened RiskGate

  datatype State = Normal | SoftDeleveraging | EmergencyHalt | AutonomousRecovery

  datatype Edge = Edge(frm: State, to: State)

  const U64_MAX: nat := 0xFFFF_FFFF_FFFF_FFFF
  const MAX_TRANSITION_HISTORY: nat := 64

  function SaturatingAdd(n: nat): nat {
    if n < U64_MAX then n + 1 else U64_MAX
  }

  /** The kernel's state; trace is the whole history, of which the kernel keeps a suffix. */
  datatype Value = Value(state: State, proposals: nat, emergencies: nat, transitions: nat, trace: seq<Edge>)

  const INITIAL := Value(Normal, 0, 0, 0, [])

  function Enter(k: Value, to: State): Value {
    k.(state := to, transitions := SaturatingAdd(k.transitions), trace := k.trace + [Edge(k.state, to)])
  }

  function EnterEmergency(k: Value): Value {
    var e := k.(emergencies := SaturatingAdd(k.emergencies));
    if k.state == EmergencyHalt then e else Enter(e, EmergencyHalt)
  }

  /** Drawdown at or beyond 80% of the emergency threshold. */
  predicate DeepDrawdown(s: Portfolio, rp: RiskParameters) {
    0.0 < s.highWaterMark && Drawdown(s) >= rp.maxDrawdown * 0.80
  }

  /** Deep is a loss of at least four fifths of the emergency threshold. */
  lemma {:induction false} DeepInCurrency(s: Portfolio, rp: RiskParameters)
    requires 0.0 < s.highWaterMark
    ensures DeepDrawdown(s, rp) <==> s.highWaterMark - s.equity >= rp.maxDrawdown * 0.80 * s.highWaterMark
  {
    DrawdownInCurrency(s, rp.maxDrawdown * 0.80);
  }

  function Process(k: Value, s: Portfolio, p: Proposal, rp: RiskParameters): (Value, Verdict) {
    ProcessVerdict(k, Evaluate(s, p, rp), 0.0 < s.highWaterMark, DeepDrawdown(s, rp))
  }

  /** process_proposal, given the gate's verdict on the proposal. */
  function ProcessVerdict(k: Value, verdict: Verdict, marked: bool, deep: bool): (Value, Verdict) {
    var c := k.(proposals := SaturatingAdd(k.proposals));
    if k.state == EmergencyHalt || k.state == AutonomousRecovery then (c, Rejected(MaxDrawdownBreached))
    else match verdict
      case EmergencyLiquidationAll => (EnterEmergency(c), EmergencyLiquidationAll)
      case Rejected(reason) =>
        if reason == MaxDrawdownBreached then (EnterEmergency(c), EmergencyLiquidationAll) else (c, verdict)
      case Approved(_) =>
        if marked && k.state == SoftDeleveraging && !deep then (Enter(c, Normal), verdict)
        else if marked && k.state == Normal && deep then (Enter(c, SoftDeleveraging), verdict)
        else (c, verdict)
  }

  function Recover(k: Value, proofValid: bool): (Value, bool) {
    if !proofValid then (k, false)
    else match k.state
      case EmergencyHalt => (Enter(k, AutonomousRecovery), true)
      case AutonomousRecovery => (Enter(k, Normal), true)
      case _ => (k, false)
  }

  // ----- runs -----

  datatype Call =
    | Propose(portfolio: Portfolio, proposal: Proposal)
    | Attempt(proofValid: bool)

  datatype Answer = Judged(verdict: Verdict) | Recovered(ok: bool)

  function Step(k: Value, c: Call, rp: RiskParameters): (Value, Answer) {
    match c
    case Propose(s, p) => var (n, v) := Process(k, s, p, rp); (n, Judged(v))
    case Attempt(valid) => var (n, ok) := Recover(k, valid); (n, Recovered(ok))
  }

  function Run(k: Value, cs: seq<Call>, rp: RiskParameters): Value
    decreases |cs|
  {
    if cs == [] then k else Run(Step(k, cs[0], rp).0, cs[1..], rp)
  }

  function Answers(k: Value, cs: seq<Call>, rp: RiskParameters): (r: seq<Answer>)
    ensures |r| == |cs|
    decreases |cs|
  {
    if cs == [] then [] else [Step(k, cs[0], rp).1] + Answers(Step(k, cs[0], rp).0, cs[1..], rp)
  }

  function Count(answers: seq<Answer>, a: Answer): nat {
    if answers == [] then 0 else (if answers[0] == a then 1 else 0) + Count(answers[1..], a)
  }

  const EMERGENCY := Judged(EmergencyLiquidationAll)
  const RECOVERY := Recovered(true)

  /** Successful recoveries still owed before trading resumes. */
  function Owed(s: State): nat {
    match s case EmergencyHalt => 2 case AutonomousRecovery => 1 case _ => 0
  }

  lemma {:induction false} StepOwed(k: Value, c: Call, rp: RiskParameters)
    ensures var (n, a) := Step(k, c, rp);
      && (if a == RECOVERY then 1 else 0) + Owed(n.state) == Owed(k.state) + (if a == EMERGENCY then 2 else 0)
      && n.emergencies == (if a == EMERGENCY then SaturatingAdd(k.emergencies) else k.emergencies)
      && (a.Judged? && a.verdict.Approved? ==> Owed(k.state) == 0 && Owed(n.state) == 0)
      && (a == EMERGENCY ==> n.state == EmergencyHalt)
  {}

  /** Recovery conservation over every run, from any state: successful recoveries plus those
      still owed are twice the emergencies, plus what was owed at the start. */
  lemma {:induction false} RecoveryConservation(k: Value, cs: seq<Call>, rp: RiskParameters)
    ensures Count(Answers(k, cs, rp), RECOVERY) + Owed(Run(k, cs, rp).state)
         == 2 * Count(Answers(k, cs, rp), EMERGENCY) + Owed(k.state)
    decreases |cs|
  {
    if cs != [] {
      StepOwed(k, cs[0], rp);
      RecoveryConservation(Step(k, cs[0], rp).0, cs[1..], rp);
      assert Answers(k, cs, rp)[1..] == Answers(Step(k, cs[0], rp).0, cs[1..], rp);
    }
  }

  /** The counter is exact until it saturates. */
  lemma {:induction false} EmergencyCountIsExact(k: Value, cs: seq<Call>, rp: RiskParameters)
    requires k.emergencies <= U64_MAX
    ensures Run(k, cs, rp).emergencies ==
      if k.emergencies + Count(Answers(k, cs, rp), EMERGENCY) <= U64_MAX
      then k.emergencies + Count(Answers(k, cs, rp), EMERGENCY) else U64_MAX
    decreases |cs|
  {
    if cs != [] {
      StepOwed(k, cs[0], rp);
      EmergencyCountIsExact(Step(k, cs[0], rp).0, cs[1..], rp);
      assert Answers(k, cs, rp)[1..] == Answers(Step(k, cs[0], rp).0, cs[1..], rp);
    }
  }

  function Proposals(cs: seq<Call>): nat {
    if cs == [] then 0 else (if cs[0].Propose? then 1 else 0) + Proposals(cs[1..])
  }

  /** Every proposal is counted, whatever its verdict, until the counter saturates at 2^64 - 1. */
  lemma {:induction false} ProposalCountIsExact(k: Value, cs: seq<Call>, rp: RiskParameters)
    requires k.proposals <= 0xFFFF_FFFF_FFFF_FFFF
    ensures Run(k, cs, rp).proposals ==
      if k.proposals + Proposals(cs) <= 0xFFFF_FFFF_FFFF_FFFF then k.proposals + Proposals(cs) else 0xFFFF_FFFF_FFFF_FFFF
    decreases |cs|
  {
    if cs != [] {
      ProposalCountIsExact(Step(k, cs[0], rp).0, cs[1..], rp);
    }
  }

  /** From a fresh kernel, below saturation: recoveries + owed = 2 * emergency_count. */
  lemma {:induction false} FreshConservation(cs: seq<Call>, rp: RiskParameters)
    requires Run(INITIAL, cs, rp).emergencies < U64_MAX
    ensures Count(Answers(INITIAL, cs, rp), RECOVERY) + Owed(Run(INITIAL, cs, rp).state)
         == 2 * Run(INITIAL, cs, rp).emergencies
  {
    RecoveryConservation(INITIAL, cs, rp);
    EmergencyCountIsExact(INITIAL, cs, rp);
  }

  /** Between an emergency and the next approval, with no emergency in between, there are
      exactly two successful recoveries: first is the emergency call, cs the calls between. */
  lemma {:induction false} TwoRecoveriesBeforeApproval(k: Value, first: Call, cs: seq<Call>, last: Call,
                                                       rp: RiskParameters)
    requires Step(k, first, rp).1 == EMERGENCY
    requires Count(Answers(Step(k, first, rp).0, cs, rp), EMERGENCY) == 0
    requires var a := Step(Run(Step(k, first, rp).0, cs, rp), last, rp).1; a.Judged? && a.verdict.Approved?
    ensures Count(Answers(Step(k, first, rp).0, cs, rp), RECOVERY) == 2
  {
    var halted := Step(k, first, rp).0;
    StepOwed(k, first, rp);
    RecoveryConservation(halted, cs, rp);
    StepOwed(Run(halted, cs, rp), last, rp);
  }

  /** The state after a decisive answer does not depend on the history: an approval leaves
      the regime its own drawdown calls for, an emergency always halts. */
  lemma {:induction false} DecisiveAnswerSetsState(k: Value, s: Portfolio, p: Proposal, rp: RiskParameters)
    ensures var (n, v) := Process(k, s, p, rp);
      && (v.Approved? ==> n.state == if DeepDrawdown(s, rp) then SoftDeleveraging else Normal)
      && (v == EmergencyLiquidationAll ==> n.state == EmergencyHalt)
      && (v.Rejected? ==> n.state == k.state)
      && (v.Approved? ==> v == Evaluate(s, p, rp))
      && (v.Rejected? ==>
        v == Evaluate(s, p, rp) || (v.reason == MaxDrawdownBreached && Owed(k.state) > 0))
  {
    ApprovedIff(s, p, rp);
  }

  // ----- when a call is decided, and the state it leaves -----

  /** While recoveries are owed every proposal is locked out; otherwise the gate's verdict
      stands. In SoftDeleveraging too: approvals and emergencies are exactly the gate's. */
  lemma {:induction false} ProcessIff(k: Value, s: Portfolio, p: Proposal, rp: RiskParameters)
    ensures var v := Process(k, s, p, rp).1;
      && (v.Approved? <==> Owed(k.state) == 0 && Evaluate(s, p, rp).Approved?)
      && (v == EmergencyLiquidationAll <==> Owed(k.state) == 0 && Evaluate(s, p, rp) == EmergencyLiquidationAll)
      && v == if Owed(k.state) == 0 then Evaluate(s, p, rp) else Rejected(MaxDrawdownBreached)
  {
    ApprovedIff(s, p, rp);
  }

  /** A run of the defaults that reaches SoftDeleveraging and has its next proposal approved
      there: a portfolio at 13% drawdown, proposing twice. */
  lemma {:induction false} SoftDeleveragingApproves()
    ensures var call := Propose(Portfolio(87.0, 100.0, []), Proposal("X", 1.0));
      var k := Step(INITIAL, call, DEFAULTS).0;
      && k.state == SoftDeleveraging
      && Step(k, call, DEFAULTS).1 == Judged(Approved(1.0))
      && Step(k, call, DEFAULTS).0.state == SoftDeleveraging
  {
    assert Exposure([], None) == 0.0 && Exposure([], Some("X")) == 0.0;
  }

  /** An answer that settles the state whatever came before. */
  predicate Decisive(a: Answer) {
    a.Judged? && !a.verdict.Rejected?
  }

  /** The state a decisive call leaves. */
  function Decided(c: Call, a: Answer, rp: RiskParameters): State {
    if a == EMERGENCY then EmergencyHalt
    else if c.Propose? && DeepDrawdown(c.portfolio, rp) then SoftDeleveraging
    else Normal
  }

  /** The state after r successful recoveries from s. */
  function AfterRecoveries(s: State, r: nat): State {
    match s
    case EmergencyHalt => if r == 0 then EmergencyHalt else if r == 1 then AutonomousRecovery else Normal
    case AutonomousRecovery => if r == 0 then AutonomousRecovery else Normal
    case _ => s
  }

  ghost predicate Undecided(answers: seq<Answer>) {
    forall i :: 0 <= i < |answers| ==> !Decisive(answers[i])
  }

  /** Without a decisive answer only successful recoveries move the state. */
  lemma {:induction false} UndecidedRun(k: Value, cs: seq<Call>, rp: RiskParameters)
    requires Undecided(Answers(k, cs, rp))
    ensures var r := Count(Answers(k, cs, rp), RECOVERY);
      r <= Owed(k.state) && Run(k, cs, rp).state == AfterRecoveries(k.state, r)
    decreases |cs|
  {
    if cs != [] {
      var (n, a) := Step(k, cs[0], rp);
      var rest := Answers(n, cs[1..], rp);
      assert Answers(k, cs, rp) == [a] + rest;
      assert !Decisive(Answers(k, cs, rp)[0]);
      assert forall i :: 0 <= i < |rest| ==> rest[i] == Answers(k, cs, rp)[i + 1];
      UndecidedRun(n, cs[1..], rp);
    }
  }

  lemma {:induction false} RunAppend(k: Value, xs: seq<Call>, ys: seq<Call>, rp: RiskParameters)
    ensures Run(k, xs + ys, rp) == Run(Run(k, xs, rp), ys, rp)
    ensures Answers(k, xs + ys, rp) == Answers(k, xs, rp) + Answers(Run(k, xs, rp), ys, rp)
    decreases |xs|
  {
    if xs == [] {
      assert xs + ys == ys;
    } else {
      assert (xs + ys)[0] == xs[0] && (xs + ys)[1..] == xs[1..] + ys;
      RunAppend(Step(k, xs[0], rp).0, xs[1..], ys, rp);
    }
  }

  lemma {:induction false} DecisiveStep(k: Value, c: Call, rp: RiskParameters)
    requires Decisive(Step(k, c, rp).1)
    ensures Step(k, c, rp).0.state == Decided(c, Step(k, c, rp).1, rp)
  {
    if c.Propose? {
      DecisiveAnswerSetsState(k, c.portfolio, c.proposal, rp);
    }
  }

  /** Over every run the state is a function of the last decisive call and the recoveries that
      succeeded since: an approval leaves the regime its own drawdown calls for, an emergency
      followed by 0, 1 or 2 recoveries leaves EmergencyHalt, AutonomousRecovery or Normal. */
  lemma {:induction false} StateIsLastDecision(k: Value, cs: seq<Call>, i: nat, rp: RiskParameters)
    requires i < |cs| && Decisive(Answers(k, cs, rp)[i])
    requires Undecided(Answers(k, cs, rp)[i + 1..])
    ensures var answers := Answers(k, cs, rp); var r := Count(answers[i + 1..], RECOVERY);
      && Run(k, cs, rp).state == AfterRecoveries(Decided(cs[i], answers[i], rp), r)
      && r <= (if answers[i] == EMERGENCY then 2 else 0)
  {
    var before, call, after := cs[..i], cs[i], cs[i + 1..];
    assert cs == before + ([call] + after);
    RunAppend(k, before, [call] + after, rp);
    var m := Run(k, before, rp);
    var (n, a) := Step(m, call, rp);
    assert ([call] + after)[1..] == after;
    assert Answers(m, [call] + after, rp) == [a] + Answers(n, after, rp);
    assert Answers(k, cs, rp) == Answers(k, before, rp) + [a] + Answers(n, after, rp);
    assert Answers(k, cs, rp)[i + 1..] == Answers(n, after, rp);
    DecisiveStep(m, call, rp);
    UndecidedRun(n, after, rp);
  }

  // ----- the journal -----

  predicate LegalEdge(e: Edge) {
    match e.frm
    case Normal => e.to == SoftDeleveraging || e.to == EmergencyHalt
    case SoftDeleveraging => e.to == Normal || e.to == EmergencyHalt
    case EmergencyHalt => e.to == AutonomousRecovery
    case AutonomousRecovery => e.to == Normal
  }

  ghost predicate LinkedAt(trace: seq<Edge>, i: nat)
    requires i < |trace|
  {
    LegalEdge(trace[i]) && trace[i].frm == if i == 0 then Normal else trace[i - 1].to
  }

  /** A chain of legal moves from Normal to the current state; no self-edges. */
  ghost predicate JournalOk(k: Value) {
    && (forall i :: 0 <= i < |k.trace| ==> LinkedAt(k.trace, i))
    && k.state == (if k.trace == [] then Normal else k.trace[|k.trace| - 1].to)
    && k.transitions == (if |k.trace| <= U64_MAX then |k.trace| else U64_MAX)
  }

  lemma {:induction false} EnterKeepsJournal(k: Value, to: State)
    requires JournalOk(k) && LegalEdge(Edge(k.state, to))
    ensures JournalOk(Enter(k, to))
  {
    var t := k.trace + [Edge(k.state, to)];
    forall i | 0 <= i < |t| ensures LinkedAt(t, i) {
      assert i < |k.trace| ==> LinkedAt(k.trace, i);
    }
  }

  lemma {:induction false} CounterKeepsJournal(k: Value, proposals: nat, emergencies: nat)
    requires JournalOk(k)
    ensures JournalOk(k.(proposals := proposals, emergencies := emergencies))
  {}

  lemma {:induction false} StepKeepsJournal(k: Value, c: Call, rp: RiskParameters)
    requires JournalOk(k)
    ensures JournalOk(Step(k, c, rp).0)
  {
    match c
    case Attempt(_) =>
      if k.state == EmergencyHalt {
        EnterKeepsJournal(k, AutonomousRecovery);
      } else if k.state == AutonomousRecovery {
        EnterKeepsJournal(k, Normal);
      }
    case Propose(s, p) =>
      VerdictKeepsJournal(k, Evaluate(s, p, rp), 0.0 < s.highWaterMark, DeepDrawdown(s, rp));
  }

  lemma {:induction false} VerdictKeepsJournal(k: Value, verdict: Verdict, marked: bool, deep: bool)
    requires JournalOk(k)
    ensures JournalOk(ProcessVerdict(k, verdict, marked, deep).0)
  {
    var c := k.(proposals := SaturatingAdd(k.proposals));
    var e := c.(emergencies := SaturatingAdd(k.emergencies));
    CounterKeepsJournal(k, c.proposals, k.emergencies);
    CounterKeepsJournal(k, c.proposals, e.emergencies);
    if k.state == Normal {
      EnterKeepsJournal(c, SoftDeleveraging);
      EnterKeepsJournal(e, EmergencyHalt);
    } else if k.state == SoftDeleveraging {
      EnterKeepsJournal(c, Normal);
      EnterKeepsJournal(e, EmergencyHalt);
    }
  }

  /** In every reachable state the journal is a chain of legal moves ending in the current
      state, and the transition counter is its length, saturated. */
  lemma {:induction false} RunKeepsJournal(k: Value, cs: seq<Call>, rp: RiskParameters)
    requires JournalOk(k)
    ensures JournalOk(Run(k, cs, rp))
    decreases |cs|
  {
    if cs != [] {
      StepKeepsJournal(k, cs[0], rp);
      RunKeepsJournal(Step(k, cs[0], rp).0, cs[1..], rp);
    }
  }

  lemma {:induction false} SuffixIsChain(k: Value, n: nat, i: nat)
    requires JournalOk(k) && i < |LastN(k.trace, n)|
    ensures var kept := LastN(k.trace, n);
      && LegalEdge(kept[i])
      && kept[i].to == if i + 1 < |kept| then kept[i + 1].frm else k.state
  {
    var j := |k.trace| - |LastN(k.trace, n)| + i;
    assert LinkedAt(k.trace, j);
    assert j + 1 < |k.trace| ==> LinkedAt(k.trace, j + 1);
  }

  /** So is the suffix that the kernel keeps: legal moves, each starting where the one before
      ended, the last ending in the current state. */
  lemma {:induction false} KeptJournalIsChain(cs: seq<Call>, rp: RiskParameters, i: nat)
    requires i < |LastN(Run(INITIAL, cs, rp).trace, MAX_TRANSITION_HISTORY)|
    ensures var t := Run(INITIAL, cs, rp).trace; |LastN(t, MAX_TRANSITION_HISTORY)| == if |t| <= 64 then |t| else 64
    ensures var k := Run(INITIAL, cs, rp); var kept := LastN(k.trace, MAX_TRANSITION_HISTORY);
      && LegalEdge(kept[i])
      && kept[i].to == if i + 1 < |kept| then kept[i + 1].frm else k.state
  {
    RunKeepsJournal(INITIAL, cs, rp);
    SuffixIsChain(Run(INITIAL, cs, rp), MAX_TRANSITION_HISTORY, i);
  }

  // ----- the kernel object -----

  class ConstitutionKernel {
    const params: RiskParameters
    var state: State
    var proposalCount: nat
    var emergencyCount: nat
    var transitionCount: nat
    var history: seq<Edge>
    ghost var trace: seq<Edge>

    ghost function AsValue(): Value
      reads this
    {
      Value(state, proposalCount, emergencyCount, transitionCount, trace)
    }

    /** The journal kept is the longest allowed suffix of the whole history. */
    ghost predicate Valid()
      reads this
    {
      history == LastN(trace, MAX_TRANSITION_HISTORY)
    }

    constructor (rp: RiskParameters)
      ensures Valid() && params == rp && AsValue() == INITIAL
    {
      params := rp;
      state, proposalCount, emergencyCount, transitionCount := Normal, 0, 0, 0;
      history, trace := [], [];
    }

    method RecordTransition(frm: State, to: State)
      requires Valid()
      modifies this`transitionCount, this`history, this`trace
      ensures Valid() && trace == old(trace) + [Edge(frm, to)]
      ensures transitionCount == SaturatingAdd(old(transitionCount))
    {
      LastNAppend(trace, Edge(frm, to), MAX_TRANSITION_HISTORY);
      transitionCount := SaturatingAdd(transitionCount);
      history := Trimmed(history + [Edge(frm, to)]);
      trace := trace + [Edge(frm, to)];
    }

    static method Trimmed(entries: seq<Edge>) returns (kept: seq<Edge>)
      ensures kept == LastN(entries, MAX_TRANSITION_HISTORY)
    {
      kept := entries;
      while |kept| > MAX_TRANSITION_HISTORY
        invariant |kept| >= MAX_TRANSITION_HISTORY || kept == entries
        invariant |kept| <= |entries| && kept == entries[|entries| - |kept|..]
      {
        kept := kept[1..];
      }
    }

    method EnterEmergencyState()
      requires Valid()
      modifies this
      ensures Valid() && AsValue() == EnterEmergency(old(AsValue()))
    {
      emergencyCount := SaturatingAdd(emergencyCount);
      var frm := state;
      state := EmergencyHalt;
      if frm != EmergencyHalt {
        RecordTransition(frm, EmergencyHalt);
      }
    }

    method ProcessProposal(s: Portfolio, p: Proposal) returns (verdict: Verdict)
      requires Valid()
      modifies this
      ensures Valid() && (AsValue(), verdict) == Process(old(AsValue()), s, p, params)
    {
      verdict := ProcessGated(Evaluate(s, p, params), 0.0 < s.highWaterMark, DeepDrawdown(s, params));
    }

    method ProcessGated(gate: Verdict, marked: bool, deep: bool) returns (verdict: Verdict)
      requires Valid()
      modifies this
      ensures Valid() && (AsValue(), verdict) == ProcessVerdict(old(AsValue()), gate, marked, deep)
    {
      proposalCount := SaturatingAdd(proposalCount);
      if state == EmergencyHalt || state == AutonomousRecovery {
        return Rejected(MaxDrawdownBreached);
      }
      match gate {
        case EmergencyLiquidationAll =>
          EnterEmergencyState();
          return EmergencyLiquidationAll;
        case Rejected(reason) =>
          if reason == MaxDrawdownBreached {
            EnterEmergencyState();
            return EmergencyLiquidationAll;
          }
          return gate;
        case Approved(_) =>
          if marked {
            if state == SoftDeleveraging {
              if !deep {
                RecordTransition(SoftDeleveraging, Normal);
                state := Normal;
              }
            } else if state == Normal {
              if deep {
                RecordTransition(Normal, SoftDeleveraging);
                state := SoftDeleveraging;
              }
            }
          }
          return gate;
      }
    }

    method AttemptRecovery(proofValid: bool) returns (ok: bool)
      requires Valid()
      modifies this
      ensures Valid() && (AsValue(), ok) == Recover(old(AsValue()), proofValid)
    {
      if !proofValid {
        return false;
      }
      match state {
        case EmergencyHalt =>
          RecordTransition(EmergencyHalt, AutonomousRecovery);
          state := AutonomousRecovery;
          return true;
        case AutonomousRecovery =>
          RecordTransition(AutonomousRecovery, Normal);
          state := Normal;
          return true;
        case _ =>
          return false;
      }
    }
  }
}
