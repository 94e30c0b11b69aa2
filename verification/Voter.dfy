/** The triple-redundancy voter: what one faulty replica can and cannot change. */
module Voter {
  import opened Common
  import opened RiskGate

  type Ballots = v: seq<Verdict> | |v| == 3 witness [EmergencyLiquidationAll, EmergencyLiquidationAll, EmergencyLiquidationAll]

  datatype TMRVerdict = TMRVerdict(unanimous: bool, majorityConsistent: bool, divergentReplicas: nat)

  function One(b: bool): nat {
    if b then 1 else 0
  }

  function ApprovedVotes(v: Ballots): nat {
    One(v[0].Approved?) + One(v[1].Approved?) + One(v[2].Approved?)
  }

  function RejectedVotes(v: Ballots): nat {
    One(v[0].Rejected?) + One(v[1].Rejected?) + One(v[2].Rejected?)
  }

  function EmergencyVotes(v: Ballots): nat {
    One(v[0].EmergencyLiquidationAll?) + One(v[1].EmergencyLiquidationAll?) + One(v[2].EmergencyLiquidationAll?)
  }

  function Larger(a: nat, b: nat): nat {
    if a < b then b else a
  }

  function Vote(v: Ballots): TMRVerdict {
    var a, r, e := ApprovedVotes(v), RejectedVotes(v), EmergencyVotes(v);
    TMRVerdict(v[0] == v[1] && v[1] == v[2], a >= 2 || r >= 2 || e >= 2, 3 - Larger(Larger(a, r), e))
  }

  /** The same class of verdict, whatever the amount or reason. */
  predicate Agree(a: Verdict, b: Verdict) {
    (a.Approved? && b.Approved?) || (a.Rejected? && b.Rejected?) || (a.EmergencyLiquidationAll? && b.EmergencyLiquidationAll?)
  }

  /** The ballot counts classes: a majority is some pair that agrees, and the divergent replicas
      are those outside the largest class. */
  lemma {:induction false} VoteIsPairs(v: Ballots)
    ensures var pairs := One(Agree(v[0], v[1])) + One(Agree(v[1], v[2])) + One(Agree(v[0], v[2]));
      && (Vote(v).unanimous <==> v[0] == v[1] == v[2])
      && (Vote(v).majorityConsistent <==> pairs >= 1)
      && Vote(v).divergentReplicas == (if pairs == 3 then 0 else if pairs == 1 then 1 else 2) && pairs != 2
  {}

  /** The smallest approved amount; None is the fold's starting infinity. */
  function SmallestApproved(v: seq<Verdict>): Option<real> {
    if v == [] then None
    else
      var front := SmallestApproved(v[..|v| - 1]);
      match v[|v| - 1]
      case Approved(x) => if front.None? then Some(x) else Some(Min(front.value, x))
      case _ => front
  }

  function FirstReason(v: seq<Verdict>): Violation {
    if v == [] then InvalidNumericalState
    else if v[0].Rejected? then v[0].reason
    else FirstReason(v[1..])
  }

  function Reconcile(v: Ballots, threshold: nat): Verdict {
    var ballot := Vote(v);
    if ballot.unanimous then v[0]
    else if !ballot.majorityConsistent then Rejected(InvalidNumericalState)
    else if ApprovedVotes(v) >= threshold && SmallestApproved(v).Some? then Approved(SmallestApproved(v).value)
    else if RejectedVotes(v) >= threshold then Rejected(FirstReason(v))
    else if EmergencyVotes(v) >= threshold then EmergencyLiquidationAll
    else Rejected(InvalidNumericalState)
  }

  const RECONCILE_THRESHOLD := 2

  /** Two replicas return honest, the one at position i returns anything. */
  function OneFault(honest: Verdict, i: nat, faulty: Verdict): Ballots
    requires i < 3
  {
    [honest, honest, honest][i := faulty]
  }

  lemma {:induction false} Unroll(a: Verdict, b: Verdict, c: Verdict)
    ensures FirstReason([a, b, c]) ==
      if a.Rejected? then a.reason else if b.Rejected? then b.reason
      else if c.Rejected? then c.reason else InvalidNumericalState
    ensures SmallestApproved([a, b, c]) ==
      Least(Least(Least(None, a), b), c)
  {
    assert [a, b, c][1..] == [b, c] && [b, c][1..] == [c] && [c][1..] == [];
    assert FirstReason([c]) == if c.Rejected? then c.reason else InvalidNumericalState;
    assert FirstReason([b, c]) == if b.Rejected? then b.reason else FirstReason([c]);
    assert [a, b, c][..2] == [a, b] && [a, b][..1] == [a] && [a][..0] == [];
    assert SmallestApproved([a]) == Least(None, a);
    assert SmallestApproved([a, b]) == Least(SmallestApproved([a]), b);
  }

  function Least(acc: Option<real>, v: Verdict): Option<real> {
    match v
    case Approved(x) => if acc.None? then Some(x) else Some(Min(acc.value, x))
    case _ => acc
  }

  /** One faulty replica cannot change the class of the verdict, cannot raise an approved
      amount, and can only alter a reason by being the first to reject. */
  lemma {:induction false} OneFaultIsMasked(honest: Verdict, i: nat, faulty: Verdict)
    requires i < 3
    ensures var r := Reconcile(OneFault(honest, i, faulty), RECONCILE_THRESHOLD);
      match honest
      case Approved(x) =>
        r == Approved(if faulty.Approved? then Min(x, faulty.amount) else x)
      case Rejected(why) =>
        r == Rejected(if i == 0 && faulty.Rejected? then faulty.reason else why)
      case EmergencyLiquidationAll => r == EmergencyLiquidationAll
  {
    var v := OneFault(honest, i, faulty);
    assert v == [v[0], v[1], v[2]];
    Unroll(v[0], v[1], v[2]);
  }

  /** Without a majority for one class the outcome is the fail-safe rejection. Kept for the
      reader: one faulty replica of three never gets there. */
  lemma {:induction false} NoMajorityRejects(v: Ballots)
    requires ApprovedVotes(v) < 2 && RejectedVotes(v) < 2 && EmergencyVotes(v) < 2
    ensures Reconcile(v, RECONCILE_THRESHOLD) == Rejected(InvalidNumericalState)
    ensures Vote(v) == TMRVerdict(false, false, 2)
  {}

  /** Three replicas of the gate, at most one of them faulty with positive amounts: approved
      exactly when the honest gate approves, never more than its headroom. */
  lemma {:induction false} ReplicatedGate(s: Portfolio, p: Proposal, rp: RiskParameters, i: nat, faulty: Verdict)
    requires i < 3
    requires faulty.Approved? ==> 0.0 < faulty.amount
    ensures var r := Reconcile(OneFault(Evaluate(s, p, rp), i, faulty), RECONCILE_THRESHOLD);
      && (r.Approved? <==> Evaluate(s, p, rp).Approved?)
      && (r == EmergencyLiquidationAll <==> Evaluate(s, p, rp) == EmergencyLiquidationAll)
      && (r.Approved? ==>
        0.0 < r.amount <= p.notional && r.amount <= Min(LeverageRoom(s, rp), ConcentrationRoom(s, p.asset, rp)))
  {
    OneFaultIsMasked(Evaluate(s, p, rp), i, faulty);
    ApprovedIff(s, p, rp);
  }
}
