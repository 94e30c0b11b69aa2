/** The risk gate: which proposals are approved, stated without its divisions, and why the
    order of the open positions cannot matter. */
module RiskGate {
  import opened Common

  datatype Position = Position(asset: string, notional: real, entryPrice: real)

  datatype Portfolio = Portfolio(equity: real, highWaterMark: real, positions: seq<Position>)

  datatype Proposal = Proposal(asset: string, notional: real)

  datatype RiskParameters = RiskParameters(
    maxDrawdown: real, leverageCap: real, maxConcentration: real)

  datatype Violation =
    | MaxDrawdownBreached
    | GlobalLeverageCapExceeded
    | AssetConcentrationLimitExceeded
    | InvalidNumericalState

  datatype Verdict =
    | Approved(amount: real)
    | Rejected(reason: Violation)
    | EmergencyLiquidationAll

  const DEFAULTS := RiskParameters(0.15, 2.5, 0.20)

  /** Summed |notional| of the positions in one asset, or of all of them. */
  function Exposure(ps: seq<Position>, asset: Option<string>): real {
    if ps == [] then 0.0
    else
      var p := ps[|ps| - 1];
      Exposure(ps[..|ps| - 1], asset) + (if asset.None? || p.asset == asset.value then Abs(p.notional) else 0.0)
  }

  predicate ValidNumbers(s: Portfolio, p: Proposal) {
    0.0 < s.equity && 0.0 < s.highWaterMark && 0.0 < p.notional
  }

  function Drawdown(s: Portfolio): real
    requires 0.0 < s.highWaterMark
  {
    (s.highWaterMark - s.equity) / s.highWaterMark
  }

  /** evaluate_proposal, on finite numbers. */
  function Evaluate(s: Portfolio, p: Proposal, rp: RiskParameters): Verdict {
    if s.equity <= 0.0 || s.highWaterMark <= 0.0 || p.notional <= 0.0 then Rejected(InvalidNumericalState)
    else if Drawdown(s) >= rp.maxDrawdown then EmergencyLiquidationAll
    else if Exceeds(Exposure(s.positions, None) + p.notional, s.equity, rp.leverageCap)
      then Rejected(GlobalLeverageCapExceeded)
    else if Exceeds(Exposure(s.positions, Some(p.asset)) + p.notional, s.equity, rp.maxConcentration)
      then Rejected(AssetConcentrationLimitExceeded)
    else Approved(p.notional)
  }

  /** The ratio of an exposure to equity is over its cap. */
  predicate Exceeds(exposure: real, equity: real, cap: real)
    requires 0.0 < equity
  {
    exposure / equity > cap
  }

  // ----- the gate without divisions -----

  lemma {:induction false} ExceedsIff(x: real, d: real, cap: real)
    requires 0.0 < d
    ensures Exceeds(x, d, cap) <==> x > cap * d
  {
    var q := x / d;
    assert q * d == x;
    if q > cap {
      assert (q - cap) * d > 0.0;
    } else {
      assert (cap - q) * d >= 0.0;
    }
  }

  /** The two caps in currency, at a given equity. */
  datatype Caps = Caps(gross: real, single: real)

  function CapsAt(equity: real, rp: RiskParameters): Caps {
    Caps(rp.leverageCap * equity, rp.maxConcentration * equity)
  }

  /** How much more notional the leverage cap and the concentration cap leave room for. */
  function LeverageRoom(s: Portfolio, rp: RiskParameters): real {
    CapsAt(s.equity, rp).gross - Exposure(s.positions, None)
  }

  function ConcentrationRoom(s: Portfolio, asset: string, rp: RiskParameters): real {
    CapsAt(s.equity, rp).single - Exposure(s.positions, Some(asset))
  }

  predicate InDrawdown(s: Portfolio, rp: RiskParameters) {
    0.0 < s.highWaterMark && Drawdown(s) >= rp.maxDrawdown
  }

  lemma {:induction false} RoomFor(held: real, notional: real, equity: real, cap: real, limit: real)
    requires 0.0 < equity && limit == cap * equity
    ensures Exceeds(held + notional, equity, cap) <==> notional > limit - held
  {
    ExceedsIff(held + notional, equity, cap);
  }

  lemma {:induction false} RoomIff(s: Portfolio, p: Proposal, rp: RiskParameters)
    requires 0.0 < s.equity
    ensures Exceeds(Exposure(s.positions, None) + p.notional, s.equity, rp.leverageCap)
      <==> p.notional > LeverageRoom(s, rp)
    ensures Exceeds(Exposure(s.positions, Some(p.asset)) + p.notional, s.equity, rp.maxConcentration)
      <==> p.notional > ConcentrationRoom(s, p.asset, rp)
  {
    var caps := CapsAt(s.equity, rp);
    RoomFor(Exposure(s.positions, None), p.notional, s.equity, rp.leverageCap, caps.gross);
    RoomFor(Exposure(s.positions, Some(p.asset)), p.notional, s.equity, rp.maxConcentration, caps.single);
  }

  /** The gate approves exactly the valid amounts up to the smaller headroom, in full; an
      emergency is exactly a valid call in drawdown; each rejection names the first cap that
      is exceeded; and a drawdown is never reported as a rejection. */
  lemma {:induction false} GateIff(s: Portfolio, p: Proposal, rp: RiskParameters)
    ensures Evaluate(s, p, rp) ==
      if !ValidNumbers(s, p) then Rejected(InvalidNumericalState)
      else if InDrawdown(s, rp) then EmergencyLiquidationAll
      else if p.notional > LeverageRoom(s, rp) then Rejected(GlobalLeverageCapExceeded)
      else if p.notional > ConcentrationRoom(s, p.asset, rp) then Rejected(AssetConcentrationLimitExceeded)
      else Approved(p.notional)
  {
    if ValidNumbers(s, p) {
      RoomIff(s, p, rp);
    }
  }

  lemma {:induction false} ApprovedIff(s: Portfolio, p: Proposal, rp: RiskParameters)
    ensures Evaluate(s, p, rp).Approved? <==>
      ValidNumbers(s, p) && !InDrawdown(s, rp)
      && p.notional <= Min(LeverageRoom(s, rp), ConcentrationRoom(s, p.asset, rp))
    ensures Evaluate(s, p, rp).Approved? ==> Evaluate(s, p, rp).amount == p.notional
    ensures Evaluate(s, p, rp) != Rejected(MaxDrawdownBreached)
  {
    GateIff(s, p, rp);
  }

  // ----- what exposure is -----

  /** One position alone: its size, in its own asset and overall, and nothing in another. */
  lemma {:induction false} ExposureOfOne(p: Position, asset: string)
    ensures Exposure([p], None) == Abs(p.notional)
    ensures Exposure([p], Some(asset)) == if p.asset == asset then Abs(p.notional) else 0.0
  {
    assert [p][..0] == [] && Exposure([], None) == 0.0 && Exposure([], Some(asset)) == 0.0;
  }

  /** And positions add up, whatever their signs. */
  lemma {:induction false} ExposureAdds(ps: seq<Position>, qs: seq<Position>, asset: Option<string>)
    ensures Exposure(ps + qs, asset) == Exposure(ps, asset) + Exposure(qs, asset)
  {
    if qs == [] {
      assert ps + qs == ps;
    } else {
      var front, last := qs[..|qs| - 1], qs[|qs| - 1];
      assert ps + qs == (ps + front) + [last] && qs == front + [last];
      ExposureAdds(ps, front, asset);
      ExposureSnoc(ps + front, last, asset);
      ExposureSnoc(front, last, asset);
    }
  }

  lemma {:induction false} DrawdownInCurrency(s: Portfolio, limit: real)
    requires 0.0 < s.highWaterMark
    ensures Drawdown(s) >= limit <==> s.highWaterMark - s.equity >= limit * s.highWaterMark
  {
    QuotientAtLeast(s.highWaterMark - s.equity, s.highWaterMark, limit, Drawdown(s));
  }

  lemma {:induction false} QuotientAtLeast(x: real, d: real, limit: real, q: real)
    requires 0.0 < d && q == x / d
    ensures q >= limit <==> x >= limit * d
  {
    assert q * d == x;
    if q >= limit {
      assert (q - limit) * d >= 0.0;
    } else {
      assert (limit - q) * d > 0.0;
    }
  }

  /** The gate in currency: the first of five conditions that applies names the verdict, and what
      is approved is the amount asked for. */
  lemma {:induction false} GateInCurrency(s: Portfolio, p: Proposal, rp: RiskParameters)
    ensures Evaluate(s, p, rp) ==
      if s.equity <= 0.0 || s.highWaterMark <= 0.0 || p.notional <= 0.0 then Rejected(InvalidNumericalState)
      else if s.highWaterMark - s.equity >= rp.maxDrawdown * s.highWaterMark then EmergencyLiquidationAll
      else if Exposure(s.positions, None) + p.notional > rp.leverageCap * s.equity
        then Rejected(GlobalLeverageCapExceeded)
      else if Exposure(s.positions, Some(p.asset)) + p.notional > rp.maxConcentration * s.equity
        then Rejected(AssetConcentrationLimitExceeded)
      else Approved(p.notional)
  {
    var limits := Limits(rp.maxDrawdown * s.highWaterMark, rp.leverageCap * s.equity, rp.maxConcentration * s.equity);
    if 0.0 < s.highWaterMark {
      DrawdownInCurrency(s, rp.maxDrawdown);
    }
    if 0.0 < s.equity {
      CapInCurrency(Exposure(s.positions, None), p.notional, s.equity, rp.leverageCap);
      CapInCurrency(Exposure(s.positions, Some(p.asset)), p.notional, s.equity, rp.maxConcentration);
    }
    GateAtLimits(s, p, rp, limits);
  }

  /** The gate's three limits, in currency. */
  datatype Limits = Limits(loss: real, gross: real, single: real)

  lemma {:induction false} GateAtLimits(s: Portfolio, p: Proposal, rp: RiskParameters, limits: Limits)
    requires 0.0 < s.highWaterMark ==> (Drawdown(s) >= rp.maxDrawdown <==> s.highWaterMark - s.equity >= limits.loss)
    requires 0.0 < s.equity ==>
      var gross, single := Exposure(s.positions, None) + p.notional, Exposure(s.positions, Some(p.asset)) + p.notional;
      && (Exceeds(gross, s.equity, rp.leverageCap) <==> gross > limits.gross)
      && (Exceeds(single, s.equity, rp.maxConcentration) <==> single > limits.single)
    ensures Evaluate(s, p, rp) ==
      if s.equity <= 0.0 || s.highWaterMark <= 0.0 || p.notional <= 0.0 then Rejected(InvalidNumericalState)
      else if s.highWaterMark - s.equity >= limits.loss then EmergencyLiquidationAll
      else if Exposure(s.positions, None) + p.notional > limits.gross then Rejected(GlobalLeverageCapExceeded)
      else if Exposure(s.positions, Some(p.asset)) + p.notional > limits.single
        then Rejected(AssetConcentrationLimitExceeded)
      else Approved(p.notional)
  {}

  lemma {:induction false} CapInCurrency(held: real, notional: real, equity: real, cap: real)
    requires 0.0 < equity
    ensures Exceeds(held + notional, equity, cap) <==> held + notional > cap * equity
  {
    ExceedsIff(held + notional, equity, cap);
  }

  /** The defaults at work on an equity of 100: a fifth in one asset, not more, however it was
      built up; two and a half times overall; an emergency at 15% drawdown. */
  lemma {:induction false} DefaultsAtWork()
    ensures var held := [Position("X", 20.0, 1.0)];
      var book := [Position("X", 20.0, 1.0), Position("Y", -225.0, 1.0)];
      && Evaluate(Portfolio(100.0, 100.0, []), Proposal("X", 20.0), DEFAULTS) == Approved(20.0)
      && Evaluate(Portfolio(100.0, 100.0, []), Proposal("X", 20.1), DEFAULTS) == Rejected(AssetConcentrationLimitExceeded)
      && Evaluate(Portfolio(100.0, 100.0, held), Proposal("X", 20.0), DEFAULTS) == Rejected(AssetConcentrationLimitExceeded)
      && Evaluate(Portfolio(100.0, 100.0, held), Proposal("Z", 20.0), DEFAULTS) == Approved(20.0)
      && Evaluate(Portfolio(100.0, 100.0, book), Proposal("Z", 5.0), DEFAULTS) == Approved(5.0)
      && Evaluate(Portfolio(100.0, 100.0, book), Proposal("Z", 5.1), DEFAULTS) == Rejected(GlobalLeverageCapExceeded)
      && Evaluate(Portfolio(85.0, 100.0, []), Proposal("X", 1.0), DEFAULTS) == EmergencyLiquidationAll
      && Evaluate(Portfolio(86.0, 100.0, []), Proposal("X", 1.0), DEFAULTS) == Approved(1.0)
  {
    var x, y := Position("X", 20.0, 1.0), Position("Y", -225.0, 1.0);
    ExposureOfOne(x, "X");
    ExposureOfOne(x, "Z");
    ExposureOfOne(y, "Z");
    assert [x, y] == [x] + [y];
    ExposureAdds([x], [y], None);
    ExposureAdds([x], [y], Some("Z"));
    assert Exposure([], None) == 0.0 && Exposure([], Some("X")) == 0.0;
  }

  // ----- position order -----

  function Without(ps: seq<Position>, j: nat): (r: seq<Position>)
    requires j < |ps|
    ensures |r| == |ps| - 1
  {
    ps[..j] + ps[j + 1..]
  }

  function Share(p: Position, asset: Option<string>): real {
    if asset.None? || p.asset == asset.value then Abs(p.notional) else 0.0
  }

  lemma {:induction false} ExposureSnoc(front: seq<Position>, last: Position, asset: Option<string>)
    ensures Exposure(front + [last], asset) == Exposure(front, asset) + Share(last, asset)
  {
    assert (front + [last])[..|front|] == front;
  }

  lemma {:induction false} WithoutSnoc(front: seq<Position>, last: Position, j: nat)
    requires j < |front|
    ensures Without(front + [last], j) == Without(front, j) + [last]
  {}

  lemma {:induction false} ExposureWithout(ps: seq<Position>, j: nat, asset: Option<string>)
    requires j < |ps|
    ensures Exposure(ps, asset) == Exposure(Without(ps, j), asset) + Share(ps[j], asset)
  {
    var front, last := ps[..|ps| - 1], ps[|ps| - 1];
    assert ps == front + [last];
    ExposureSnoc(front, last, asset);
    if j == |front| {
      assert Without(ps, j) == front;
    } else {
      ExposureWithout(front, j, asset);
      WithoutSnoc(front, last, j);
      ExposureSnoc(Without(front, j), last, asset);
    }
  }

  lemma {:induction false} WithoutMultiset(ps: seq<Position>, j: nat)
    requires j < |ps|
    ensures multiset(Without(ps, j)) == multiset(ps) - multiset{ps[j]}
  {
    assert ps == ps[..j] + [ps[j]] + ps[j + 1..];
  }

  lemma {:induction false} RemoveLast(ps: seq<Position>, qs: seq<Position>, j: nat)
    requires multiset(ps) == multiset(qs) && ps != [] && j < |qs| && qs[j] == ps[|ps| - 1]
    ensures multiset(ps[..|ps| - 1]) == multiset(Without(qs, j))
  {
    WithoutMultiset(qs, j);
    WithoutMultiset(ps, |ps| - 1);
    assert Without(ps, |ps| - 1) == ps[..|ps| - 1];
  }

  lemma {:induction false} ExposureOfPermutation(ps: seq<Position>, qs: seq<Position>, asset: Option<string>)
    requires multiset(ps) == multiset(qs)
    ensures Exposure(ps, asset) == Exposure(qs, asset)
    decreases |ps|
  {
    if ps == [] {
      assert |multiset(qs)| == 0;
      assert |qs| == 0;
    } else {
      assert ps[|ps| - 1] in multiset(qs);
      var j :| 0 <= j < |qs| && qs[j] == ps[|ps| - 1];
      RemoveLast(ps, qs, j);
      ExposureOfPermutation(ps[..|ps| - 1], Without(qs, j), asset);
      ExposureWithout(qs, j, asset);
    }
  }

  /** The verdict does not depend on the order in which positions are listed. */
  lemma {:induction false} OrderIndependent(s: Portfolio, qs: seq<Position>, p: Proposal, rp: RiskParameters)
    requires multiset(s.positions) == multiset(qs)
    ensures Evaluate(s.(positions := qs), p, rp) == Evaluate(s, p, rp)
  {
    ExposureOfPermutation(s.positions, qs, None);
    ExposureOfPermutation(s.positions, qs, Some(p.asset));
  }

  lemma {:induction false} ExposureAppend(ps: seq<Position>, p: Position, asset: Option<string>)
    ensures Exposure(ps + [p], asset) == Exposure(ps, asset) + Share(p, asset)
    ensures ps + [] == ps
  {
    assert (ps + [p])[..|ps|] == ps;
  }

  // ----- exposure by asset -----

  function Assets(ps: seq<Position>): (r: set<string>)
    ensures forall p :: p in ps ==> p.asset in r
  {
    set p | p in ps :: p.asset
  }

  /** The positions in other assets. */
  function Excluding(ps: seq<Position>, asset: string): seq<Position> {
    if ps == [] then []
    else
      var p := ps[|ps| - 1];
      Excluding(ps[..|ps| - 1], asset) + (if p.asset == asset then [] else [p])
  }

  lemma {:induction false} ExcludingSplits(ps: seq<Position>, asset: string)
    ensures Exposure(ps, None) == Exposure(ps, Some(asset)) + Exposure(Excluding(ps, asset), None)
  {
    if ps != [] {
      ExcludingSplits(ps[..|ps| - 1], asset);
      ExposureAppend(Excluding(ps[..|ps| - 1], asset), ps[|ps| - 1], None);
    }
  }

  lemma {:induction false} ExcludingKeeps(ps: seq<Position>, asset: string, b: string)
    requires b != asset
    ensures Exposure(Excluding(ps, asset), Some(b)) == Exposure(ps, Some(b))
  {
    if ps != [] {
      ExcludingKeeps(ps[..|ps| - 1], asset, b);
      ExposureAppend(Excluding(ps[..|ps| - 1], asset), ps[|ps| - 1], Some(b));
    }
  }

  lemma {:induction false} ExcludingMembers(ps: seq<Position>, asset: string, assets: set<string>)
    requires forall i :: 0 <= i < |ps| ==> ps[i].asset in assets
    ensures forall i :: 0 <= i < |Excluding(ps, asset)| ==> Excluding(ps, asset)[i].asset in assets - {asset}
  {
    if ps != [] {
      ExcludingMembers(ps[..|ps| - 1], asset, assets);
    }
  }

  function Times(cap: real, n: nat): real {
    if n == 0 then 0.0 else Times(cap, n - 1) + cap
  }

  lemma {:induction false} TimesIsProduct(cap: real, n: nat)
    ensures Times(cap, n) == cap * n as real
  {
    if n > 0 {
      TimesIsProduct(cap, n - 1);
      assert cap * n as real == cap * (n - 1) as real + cap;
    }
  }

  lemma {:induction false} GrossWithin(ps: seq<Position>, assets: set<string>, cap: real)
    requires forall i :: 0 <= i < |ps| ==> ps[i].asset in assets
    requires forall a :: a in assets ==> Exposure(ps, Some(a)) <= cap
    ensures Exposure(ps, None) <= Times(cap, |assets|)
    decreases |assets|
  {
    if assets == {} {
      assert ps == [];
    } else {
      var a :| a in assets;
      var rest := assets - {a};
      ExcludingSplits(ps, a);
      ExcludingMembers(ps, a, assets);
      forall b | b in rest ensures Exposure(Excluding(ps, a), Some(b)) <= cap {
        ExcludingKeeps(ps, a, b);
      }
      GrossWithin(Excluding(ps, a), rest, cap);
    }
  }

  /** The partition law: if every asset stays under cap, the gross exposure stays under
      cap times the number of assets. */
  lemma {:induction false} GrossByAsset(ps: seq<Position>, cap: real)
    requires forall a :: a in Assets(ps) ==> Exposure(ps, Some(a)) <= cap
    ensures Exposure(ps, None) <= cap * |Assets(ps)| as real
  {
    GrossWithin(ps, Assets(ps), cap);
    TimesIsProduct(cap, |Assets(ps)|);
  }
}
