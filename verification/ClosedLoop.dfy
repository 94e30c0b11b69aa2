/** The trading loop closed: approved notionals are appended to the portfolio that the next
    proposal is judged against, and the caps hold over every run. */
module ClosedLoop {
  import opened Common
  import opened RiskGate
  import Kernel
  import opened Voter

  /** Gross exposure within its cap, and every single asset within its own. */
  ghost predicate Within(ps: seq<Position>, caps: Caps) {
    Exposure(ps, None) <= caps.gross && forall a :: Exposure(ps, Some(a)) <= caps.single
  }

  /** Both risk caps hold. */
  ghost predicate InCaps(s: Portfolio, rp: RiskParameters) {
    Within(s.positions, CapsAt(s.equity, rp))
  }

  function Append(s: Portfolio, asset: string, notional: real, price: real): Portfolio {
    s.(positions := s.positions + [Position(asset, notional, price)])
  }

  lemma {:induction false} AppendWithin(ps: seq<Position>, p: Position, caps: Caps)
    requires Within(ps, caps) && 0.0 < p.notional
    requires p.notional <= caps.gross - Exposure(ps, None) && p.notional <= caps.single - Exposure(ps, Some(p.asset))
    ensures Within(ps + [p], caps)
  {
    ExposureAppend(ps, p, None);
    forall a ensures Exposure(ps + [p], Some(a)) <= caps.single {
      ExposureAppend(ps, p, Some(a));
    }
  }

  lemma {:induction false} AppendKeepsCaps(s: Portfolio, asset: string, x: real, price: real, rp: RiskParameters)
    requires InCaps(s, rp)
    requires 0.0 < x && x <= LeverageRoom(s, rp) && x <= ConcentrationRoom(s, asset, rp)
    ensures InCaps(Append(s, asset, x, price), rp)
  {
    AppendWithin(s.positions, Position(asset, x, price), CapsAt(s.equity, rp));
  }

  /** One pass of the loop: a proposal at a price, or a recovery attempt. */
  datatype Pass = Trade(proposal: Proposal, price: real) | Proof(valid: bool)

  function Loop(k: Kernel.Value, s: Portfolio, ps: seq<Pass>, rp: RiskParameters): (Kernel.Value, Portfolio)
    decreases |ps|
  {
    if ps == [] then (k, s)
    else match ps[0]
      case Trade(p, price) =>
        var (n, v) := Kernel.Process(k, s, p, rp);
        Loop(n, if v.Approved? then Append(s, p.asset, v.amount, price) else s, ps[1..], rp)
      case Proof(valid) => Loop(Kernel.Recover(k, valid).0, s, ps[1..], rp)
  }

  lemma {:induction false} KernelApprovalFits(k: Kernel.Value, s: Portfolio, p: Proposal, rp: RiskParameters)
    ensures var v := Kernel.Process(k, s, p, rp).1;
      v.Approved? ==> 0.0 < v.amount && v.amount <= LeverageRoom(s, rp) && v.amount <= ConcentrationRoom(s, p.asset, rp)
  {
    Kernel.DecisiveAnswerSetsState(k, s, p, rp);
    ApprovedIff(s, p, rp);
  }

  /** From a portfolio within its caps, no run of proposals and recoveries, at fixed equity,
      ever leaves them. */
  lemma {:induction false} LoopKeepsCaps(k: Kernel.Value, s: Portfolio, ps: seq<Pass>, rp: RiskParameters)
    requires InCaps(s, rp)
    ensures var t := Loop(k, s, ps, rp).1;
      InCaps(t, rp) && t.equity == s.equity && t.highWaterMark == s.highWaterMark && s.positions <= t.positions
    decreases |ps|
  {
    if ps != [] {
      match ps[0]
      case Trade(p, price) =>
        var (n, v) := Kernel.Process(k, s, p, rp);
        KernelApprovalFits(k, s, p, rp);
        if v.Approved? {
          AppendKeepsCaps(s, p.asset, v.amount, price, rp);
          LoopKeepsCaps(n, Append(s, p.asset, v.amount, price), ps[1..], rp);
        } else {
          LoopKeepsCaps(n, s, ps[1..], rp);
        }
      case Proof(valid) => LoopKeepsCaps(Kernel.Recover(k, valid).0, s, ps[1..], rp);
    }
  }

  // ----- the same, on amounts -----

  /** What a run approves, in order. */
  function Approvals(k: Kernel.Value, s: Portfolio, ps: seq<Pass>, rp: RiskParameters): seq<Position>
    decreases |ps|
  {
    if ps == [] then []
    else match ps[0]
      case Trade(p, price) =>
        var (n, v) := Kernel.Process(k, s, p, rp);
        if v.Approved? then
          [Position(p.asset, v.amount, price)] + Approvals(n, Append(s, p.asset, v.amount, price), ps[1..], rp)
        else Approvals(n, s, ps[1..], rp)
      case Proof(valid) => Approvals(Kernel.Recover(k, valid).0, s, ps[1..], rp)
  }

  /** The amounts in one asset, or in all, added up. */
  function Amounts(xs: seq<Position>, asset: Option<string>): real {
    if xs == [] then 0.0
    else (if asset == None || asset == Some(xs[0].asset) then xs[0].notional else 0.0) + Amounts(xs[1..], asset)
  }

  ghost predicate AllPositive(xs: seq<Position>) {
    forall i :: 0 <= i < |xs| ==> 0.0 < xs[i].notional
  }

  lemma {:induction false} AmountsAreExposure(xs: seq<Position>, asset: Option<string>)
    requires AllPositive(xs)
    ensures Amounts(xs, asset) == Exposure(xs, asset)
  {
    if xs != [] {
      AmountsAreExposure(xs[1..], asset);
      assert xs == [xs[0]] + xs[1..];
      ExposureAdds([xs[0]], xs[1..], asset);
      ExposureOfOne(xs[0], if asset.Some? then asset.value else "");
    }
  }

  /** The book after a run: what it held, then every approval. */
  lemma {:induction false} BookIsApprovals(k: Kernel.Value, s: Portfolio, ps: seq<Pass>, rp: RiskParameters)
    ensures Loop(k, s, ps, rp).1 == s.(positions := s.positions + Approvals(k, s, ps, rp))
    ensures AllPositive(Approvals(k, s, ps, rp))
    decreases |ps|
  {
    if ps == [] {
      assert s.positions + [] == s.positions;
    } else {
      match ps[0]
      case Trade(p, price) =>
        var (n, v) := Kernel.Process(k, s, p, rp);
        KernelApprovalFits(k, s, p, rp);
        if v.Approved? {
          var t, x := Append(s, p.asset, v.amount, price), Position(p.asset, v.amount, price);
          BookIsApprovals(n, t, ps[1..], rp);
          var more := Approvals(n, t, ps[1..], rp);
          assert s.positions + [x] + more == s.positions + ([x] + more);
        } else {
          BookIsApprovals(n, s, ps[1..], rp);
        }
      case Proof(valid) => BookIsApprovals(Kernel.Recover(k, valid).0, s, ps[1..], rp);
    }
  }

  lemma {:induction false} ExposureIsNotNegative(ps: seq<Position>, asset: Option<string>)
    ensures 0.0 <= Exposure(ps, asset)
  {
    if ps != [] {
      ExposureIsNotNegative(ps[..|ps| - 1], asset);
    }
  }

  /** Without room in both caps nothing is ever approved. */
  lemma {:induction false} NoRoomNoApprovals(k: Kernel.Value, s: Portfolio, ps: seq<Pass>, rp: RiskParameters)
    requires CapsAt(s.equity, rp).gross < 0.0 || CapsAt(s.equity, rp).single < 0.0
    ensures Approvals(k, s, ps, rp) == []
    decreases |ps|
  {
    if ps != [] {
      match ps[0]
      case Trade(p, price) =>
        KernelApprovalFits(k, s, p, rp);
        ExposureIsNotNegative(s.positions, None);
        ExposureIsNotNegative(s.positions, Some(p.asset));
        NoRoomNoApprovals(Kernel.Process(k, s, p, rp).0, s, ps[1..], rp);
      case Proof(valid) => NoRoomNoApprovals(Kernel.Recover(k, valid).0, s, ps[1..], rp);
    }
  }

  lemma {:induction false} EmptyBookInCaps(s: Portfolio, rp: RiskParameters)
    requires s.positions == [] && 0.0 <= CapsAt(s.equity, rp).gross && 0.0 <= CapsAt(s.equity, rp).single
    ensures InCaps(s, rp)
  {
    assert forall a :: Exposure([], Some(a)) == 0.0;
  }

  lemma {:induction false} AmountsInCaps(k: Kernel.Value, s: Portfolio, ps: seq<Pass>, rp: RiskParameters,
                                         caps: Caps, asset: string)
    requires s.positions == [] && caps == CapsAt(s.equity, rp) && Approvals(k, s, ps, rp) != []
    ensures Amounts(Approvals(k, s, ps, rp), None) <= caps.gross
    ensures Amounts(Approvals(k, s, ps, rp), Some(asset)) <= caps.single
  {
    var granted := Approvals(k, s, ps, rp);
    if 0.0 <= caps.gross && 0.0 <= caps.single {
      EmptyBookInCaps(s, rp);
      LoopKeepsCaps(k, s, ps, rp);
      BookIsApprovals(k, s, ps, rp);
      assert [] + granted == granted;
      AmountsAreExposure(granted, None);
      AmountsAreExposure(granted, Some(asset));
    } else {
      NoRoomNoApprovals(k, s, ps, rp);
    }
  }

  /** From an empty book the amounts that any run approves add up to at most leverageCap * equity,
      and in each asset to at most maxConcentration * equity. */
  lemma {:induction false} ApprovedAmountsAreCapped(k: Kernel.Value, s: Portfolio, ps: seq<Pass>, rp: RiskParameters,
                                                    asset: string)
    requires s.positions == []
    ensures var granted := Approvals(k, s, ps, rp);
      granted != [] ==>
        Amounts(granted, None) <= rp.leverageCap * s.equity && Amounts(granted, Some(asset)) <= rp.maxConcentration * s.equity
  {
    var granted := Approvals(k, s, ps, rp);
    var caps := Caps(rp.leverageCap * s.equity, rp.maxConcentration * s.equity);
    if granted != [] {
      AmountsInCaps(k, s, ps, rp, caps, asset);
    }
  }

  // ----- diversification -----

  lemma {:induction false} Diversified(s: Portfolio, rp: RiskParameters)
    requires InCaps(s, rp)
    ensures GrossWithinAssets(s, rp)
  {
    GrossByAsset(s.positions, CapsAt(s.equity, rp).single);
  }

  /** Gross exposure is at most concentration * equity * number of assets held. */
  ghost predicate GrossWithinAssets(s: Portfolio, rp: RiskParameters) {
    Exposure(s.positions, None) <= CapsAt(s.equity, rp).single * |Assets(s.positions)| as real
  }

  /** Hence the loop also keeps gross exposure within concentration * equity for each asset held. */
  lemma {:induction false} GrossIsDiversified(k: Kernel.Value, s: Portfolio, ps: seq<Pass>, rp: RiskParameters)
    requires InCaps(s, rp)
    ensures GrossWithinAssets(Loop(k, s, ps, rp).1, rp)
  {
    LoopKeepsCaps(k, s, ps, rp);
    Diversified(Loop(k, s, ps, rp).1, rp);
  }

  /** The same loop behind three replicas of the gate, one of which may be faulty each time. */
  datatype Ballot = Ballot(proposal: Proposal, price: real, position: nat, faulty: Verdict)

  ghost predicate Plausible(bs: seq<Ballot>) {
    forall i :: 0 <= i < |bs| ==> bs[i].position < 3 && (bs[i].faulty.Approved? ==> 0.0 < bs[i].faulty.amount)
  }

  function ReplicatedLoop(s: Portfolio, bs: seq<Ballot>, rp: RiskParameters): Portfolio
    requires Plausible(bs)
    decreases |bs|
  {
    if bs == [] then s
    else
      var b := bs[0];
      var v := Reconcile(OneFault(Evaluate(s, b.proposal, rp), b.position, b.faulty), RECONCILE_THRESHOLD);
      ReplicatedLoop(if v.Approved? then Append(s, b.proposal.asset, v.amount, b.price) else s, bs[1..], rp)
  }

  lemma {:induction false} ReplicatedLoopKeepsCaps(s: Portfolio, bs: seq<Ballot>, rp: RiskParameters)
    requires Plausible(bs) && InCaps(s, rp)
    ensures InCaps(ReplicatedLoop(s, bs, rp), rp) && ReplicatedLoop(s, bs, rp).equity == s.equity
    decreases |bs|
  {
    if bs != [] {
      var b := bs[0];
      var v := Reconcile(OneFault(Evaluate(s, b.proposal, rp), b.position, b.faulty), RECONCILE_THRESHOLD);
      ReplicatedGate(s, b.proposal, rp, b.position, b.faulty);
      if v.Approved? {
        AppendKeepsCaps(s, b.proposal.asset, v.amount, b.price, rp);
        ReplicatedLoopKeepsCaps(Append(s, b.proposal.asset, v.amount, b.price), bs[1..], rp);
      } else {
        ReplicatedLoopKeepsCaps(s, bs[1..], rp);
      }
    }
  }
}
