/** The structure classifier on top of the pivots, and what the pivots make unreachable. */
module MarketContext {
  import opened Common
  import opened Candles
  import opened Zigzag
  import Median
  import TrueRange

  datatype Params = Params(
    atrPeriod: nat, swingAtrMultiple: real, rangeHeightAtr: real, extensionAtrMultiple: real,
    minSwings: nat, lookbackSwings: nat, impulseAtrMultiple: real)

  /** The bounds the parameter schema enforces. */
  predicate Valid(p: Params) {
    && 2 <= p.atrPeriod && 2 <= p.minSwings && 2 <= p.lookbackSwings
    && 0.0 < p.swingAtrMultiple && 0.0 < p.rangeHeightAtr
    && 0.0 < p.extensionAtrMultiple && 0.0 < p.impulseAtrMultiple
  }

  const DEFAULTS := Params(14, 1.5, 1.2, 3.0, 3, 8, 2.5)

  datatype Regime = SeedingRegime | TrendUp | TrendDown | RangeBound | ExpansionRegime
  datatype Phase = SeedingPhase | Coil | Trend | Exhaustion | ExpansionPhase
  datatype Bias = Flat | Long | Short

  datatype Context = Context(
    closedCandles: nat, atr: real, regime: Regime, phase: Phase, bias: Bias, momentum: real,
    swingHigh: Option<real>, swingLow: Option<real>, coilBounds: Option<(real, real)>,
    structureAge: int, expectedRemaining: Option<real>, expansionPotential: Option<real>,
    integrity: bool, breakLevel: Option<real>)

  // ----- the quantities the labels depend on -----

  function Prices(swings: seq<Swing>, kind: Kind): seq<real> {
    if swings == [] then []
    else
      var rest := Prices(swings[..|swings| - 1], kind);
      var s := swings[|swings| - 1];
      if s.kind == kind then rest + [s.price] else rest
  }

  function Highest(xs: seq<real>): real
    requires xs != []
  {
    if |xs| == 1 then xs[0] else Max(Highest(xs[..|xs| - 1]), xs[|xs| - 1])
  }

  function Lowest(xs: seq<real>): real
    requires xs != []
  {
    if |xs| == 1 then xs[0] else Min(Lowest(xs[..|xs| - 1]), xs[|xs| - 1])
  }

  lemma {:induction false} BandIsExact(xs: seq<real>)
    requires xs != []
    ensures forall i :: 0 <= i < |xs| ==> Lowest(xs) <= xs[i] <= Highest(xs)
    ensures Highest(xs) in xs && Lowest(xs) in xs
  {
    if |xs| > 1 {
      BandIsExact(xs[..|xs| - 1]);
    }
  }

  /** highs[-lookback // 2:], Python's floor division of the negated lookback. */
  function Recent(swings: seq<Swing>, kind: Kind, p: Params): seq<real> {
    LastN(Prices(swings, kind), (p.lookbackSwings + 1) / 2)
  }

  function Step(xs: seq<real>): int {
    if |xs| < 2 then 0
    else if xs[|xs| - 1] > xs[|xs| - 2] then 1
    else if xs[|xs| - 1] < xs[|xs| - 2] then -1
    else 0
  }

  function Polarity(swings: seq<Swing>): int {
    Step(Prices(LastN(swings, 8), High)) + Step(Prices(LastN(swings, 8), Low))
  }

  /** The parameters in price units, at a given ATR. */
  datatype Scale = Scale(atr: real, minMove: real, band: real, impulse: real, extension: real, span: real)

  function ScaleAt(p: Params, atr: real): Scale {
    Scale(atr, MinMove(atr, p.swingAtrMultiple), p.rangeHeightAtr * atr, p.impulseAtrMultiple * atr,
          p.extensionAtrMultiple * atr, atr * p.atrPeriod as real)
  }

  function RecentHigh(swings: seq<Swing>, p: Params): real {
    var highs := Recent(swings, High, p);
    if highs == [] then 0.0 else Highest(highs)
  }

  function RecentLow(swings: seq<Swing>, p: Params): real {
    var lows := Recent(swings, Low, p);
    if lows == [] then 0.0 else Lowest(lows)
  }

  /** The close k candles before the last, 0 when there is none. */
  function CloseBack(cs: seq<Candle>, k: nat): real {
    if k < |cs| then cs[|cs| - 1 - k].close else 0.0
  }

  /** The candles between neighbouring swings. */
  function Gaps(swings: seq<Swing>): (gaps: seq<int>)
    ensures |gaps| == if swings == [] then 0 else |swings| - 1
  {
    if |swings| <= 1 then []
    else
      var n := |swings|;
      Gaps(swings[..n - 1]) + [swings[n - 1].index as int - swings[n - 2].index as int]
  }

  /** The typical time between the last six swings, once there are three. */
  function CycleMedian(swings: seq<Swing>): Option<real> {
    var recent := LastN(swings, 6);
    if |recent| < 3 then None else Some(Median.Of(Gaps(recent)))
  }

  /** Candles since the last swing was confirmed. */
  function Age(n: nat, swings: seq<Swing>): int {
    if swings == [] then 0 else n - 1 - swings[|swings| - 1].index
  }

  /** Everything the labels depend on. Polarity and band matter only when the swings suffice. */
  datatype Evidence = Evidence(
    count: nat, enoughCandles: bool, enoughSwings: bool, polarity: int, high: real, low: real,
    last: real, previous: real, past: real, age: int, cycle: Option<real>, afterLow: bool)
  {
    predicate Ready(u: Scale) {
      enoughCandles && u.atr > 0.0
    }

    /** A single-bar displacement many ATRs wide. */
    predicate Impulse(u: Scale) {
      Ready(u) && Abs(last - previous) >= u.impulse
    }

    /** Enough confirmed swings to classify, and no impulse bar overriding them. */
    predicate Structured(u: Scale) {
      Ready(u) && !Impulse(u) && enoughSwings
    }

    /** The recent highs and lows fit in the coil band. */
    predicate Coiled(u: Scale) {
      Structured(u) && high - low < u.band
    }

    /** How far the last close is inside the band, in ATRs. */
    function Room(u: Scale): real {
      if u.atr > 0.0 then Max(Min(last - low, high - last) / u.atr, 0.0) else 0.0
    }

    /** Price has left the coil. */
    predicate CoilBroken(u: Scale) {
      Coiled(u) && !(low <= last <= high)
    }
  }

  function EvidenceOf(cs: seq<Candle>, p: Params, u: Scale, swings: seq<Swing>): Evidence {
    Evidence(|cs|, |cs| >= p.atrPeriod + 2, |swings| >= p.minSwings,
             Polarity(swings), RecentHigh(swings, p), RecentLow(swings, p),
             CloseBack(cs, 0), CloseBack(cs, 1), if p.atrPeriod == 0 then 0.0 else CloseBack(cs, p.atrPeriod - 1),
             Age(|cs|, swings), CycleMedian(swings), swings != [] && swings[|swings| - 1].kind == Low)
  }

  // ----- the pivots constrain the band -----

  /** Of the last two swings one is the last High and the other the last Low. */
  lemma {:induction false} LastPair(cs: seq<Candle>, mm: real, swings: seq<Swing>)
    requires IsZigzag(cs, mm, swings) && |swings| >= 2
    ensures var highs, lows := Prices(swings, High), Prices(swings, Low);
      highs != [] && lows != [] && highs[|highs| - 1] - lows[|lows| - 1] >= mm
  {
    var n := |swings|;
    SwingsAlternate(cs, mm, swings, n - 1);
    var front := swings[..n - 1];
    assert front[n - 2] == swings[n - 2];
    assert Prices(front, swings[n - 2].kind) == Prices(front[..n - 2], swings[n - 2].kind) + [swings[n - 2].price];
  }

  lemma {:induction false} RecentBandIsWide(cs: seq<Candle>, p: Params, mm: real, swings: seq<Swing>)
    requires Valid(p) && IsZigzag(cs, mm, swings) && |swings| >= 2
    ensures Recent(swings, High, p) != [] && Recent(swings, Low, p) != []
    ensures RecentHigh(swings, p) - RecentLow(swings, p) >= mm
  {
    LastPair(cs, mm, swings);
    var highs, lows := Recent(swings, High, p), Recent(swings, Low, p);
    assert highs[|highs| - 1] == Prices(swings, High)[|Prices(swings, High)| - 1];
    assert lows[|lows| - 1] == Prices(swings, Low)[|Prices(swings, Low)| - 1];
  }

  lemma {:induction false} BandArithmetic(p: Params, u: Scale)
    requires u == ScaleAt(p, u.atr) && 0.0 < u.atr && u.minMove < u.band
    ensures p.swingAtrMultiple < p.rangeHeightAtr
  {
    assert (p.rangeHeightAtr - p.swingAtrMultiple) * u.atr > 0.0;
  }

  lemma {:induction false} CoilFitsItsBand(cs: seq<Candle>, p: Params, u: Scale, swings: seq<Swing>)
    requires Valid(p) && IsZigzag(cs, u.minMove, swings)
    requires EvidenceOf(cs, p, u, swings).Coiled(u)
    ensures 0.0 < u.atr && u.minMove < u.band
  {
    RecentBandIsWide(cs, p, u.minMove, swings);
  }

  /** The coil theorem: the band that a coil must fit in is at least as wide as the reversal
      that separates its own last High and Low, so a coil needs range_height_atr to exceed
      swing_atr_multiple, whatever the candles. */
  lemma {:induction false} CoilNeedsWideBand(cs: seq<Candle>, p: Params, u: Scale, swings: seq<Swing>)
    requires Valid(p) && u == ScaleAt(p, u.atr) && IsZigzag(cs, u.minMove, swings)
    requires EvidenceOf(cs, p, u, swings).Coiled(u)
    ensures p.rangeHeightAtr > p.swingAtrMultiple
  {
    CoilFitsItsBand(cs, p, u, swings);
    BandArithmetic(p, u);
  }

  // ----- the snapshot -----

  /** ctx is the snapshot that the evidence calls for. */
  ghost predicate Describes(ctx: Context, e: Evidence, u: Scale) {
    && ctx.closedCandles == e.count
    // the first case that applies names the regime, and the phase follows it
    && ctx.regime == (
      if e.Impulse(u) || e.CoilBroken(u) then ExpansionRegime
      else if !e.Structured(u) then SeedingRegime
      else if e.polarity > 0 then TrendUp
      else if e.polarity < 0 then TrendDown
      else if e.Coiled(u) then RangeBound
      else SeedingRegime)
    && (ctx.phase == Coil <==> ctx.regime == RangeBound)
    && (ctx.phase == ExpansionPhase <==> ctx.regime == ExpansionRegime)
    && (ctx.phase == SeedingPhase <==> ctx.regime == SeedingRegime)
    && (ctx.regime in {TrendUp, TrendDown} ==>
      (ctx.phase == Exhaustion <==>
        Abs(ctx.momentum) < 0.25 && Abs(e.last - (if e.polarity > 0 then e.low else e.high)) >= u.extension))
    // structure and coil
    && ctx.atr == (if e.enoughCandles then u.atr else 0.0)
    && (e.Ready(u) ==> u.span != 0.0)
    && ctx.swingHigh == (if e.Structured(u) then Some(e.high) else None)
    && ctx.swingLow == (if e.Structured(u) then Some(e.low) else None)
    && (e.Structured(u) ==> ctx.momentum == (e.last - e.past) / u.span)
    && (e.Impulse(u) ==> ctx.momentum == (e.last - e.previous) / u.span)
    && (!e.Structured(u) && !e.Impulse(u) ==> ctx.momentum == 0.0)
    && ctx.coilBounds == (if e.Coiled(u) then Some((e.low, e.high)) else None)
    && ctx.structureAge == (if ctx.regime in {TrendUp, TrendDown} && e.age > 0 then e.age else 0)
    // anticipation: a cycle of no candles counts as none once the coil is broken
    && ctx.expectedRemaining == (
      if e.cycle.None? then None
      else if e.CoilBroken(u) then if e.cycle.value == 0.0 then None else e.cycle
      else if ctx.regime in {TrendUp, TrendDown} then Some(Max(0.0, e.cycle.value - ctx.structureAge as real))
      else None)
    && ctx.expansionPotential == (if ctx.regime == RangeBound then Some(e.Room(u)) else None)
    // integrity is lost exactly when the last close violates the structure in force, and
    // the break level is the level it violates
    && (ctx.integrity <==> ctx.breakLevel.None?)
    && (!ctx.integrity <==>
      || e.Impulse(u) || e.CoilBroken(u)
      || (ctx.regime == TrendUp && e.last < e.low)
      || (ctx.regime == TrendDown && e.last > e.high))
    && (ctx.breakLevel.Some? ==>
      if e.Impulse(u) then ctx.breakLevel.value == e.previous
      else (ctx.breakLevel.value == e.low && e.last < e.low) || (ctx.breakLevel.value == e.high && e.last > e.high))
    // the direction called is the direction of the evidence
    && (ctx.regime == TrendUp ==> ctx.bias == Long)
    && (ctx.regime == TrendDown ==> ctx.bias == Short)
    && (e.Impulse(u) ==> ctx.bias == if e.last > e.previous then Long else Short)
    && (e.CoilBroken(u) ==> ctx.bias == if e.last > e.high then Long else Short)
    && (e.Structured(u) && ctx.regime in {RangeBound, SeedingRegime} ==> ctx.bias == if e.afterLow then Long else Short)
    && (!e.Structured(u) && !e.Impulse(u) ==> ctx.bias == Flat)
  }

  /** The description leaves nothing open, because the recent high is never below the recent
      low: one history, one snapshot. */
  lemma {:induction false} SnapshotIsDetermined(c: Context, d: Context, e: Evidence, u: Scale)
    requires Describes(c, e, u) && Describes(d, e, u) && (e.Structured(u) ==> e.low <= e.high)
    ensures c == d
  {
    assert c.regime == d.regime && c.momentum == d.momentum;
    assert c.phase == d.phase && c.bias == d.bias;
    assert c.integrity == d.integrity && c.breakLevel == d.breakLevel;
    assert c.structureAge == d.structureAge && c.expectedRemaining == d.expectedRemaining;
  }

  lemma {:induction false} RecentBandIsOrdered(cs: seq<Candle>, p: Params, u: Scale, swings: seq<Swing>)
    requires Valid(p) && u == ScaleAt(p, u.atr) && IsZigzag(cs, u.minMove, swings)
    ensures var e := EvidenceOf(cs, p, u, swings); e.Structured(u) ==> e.low < e.high
  {
    if |swings| >= 2 {
      RecentBandIsWide(cs, p, u.minMove, swings);
    }
  }

  lemma {:induction false} GapsAreSteps(swings: seq<Swing>, i: nat)
    requires i < |Gaps(swings)|
    ensures Gaps(swings)[i] == swings[i + 1].index as int - swings[i].index as int
    decreases |swings|
  {
    if i + 2 < |swings| {
      GapsAreSteps(swings[..|swings| - 1], i);
    }
  }

  /** Swings never step back in time, so neither anticipation is ever negative. */
  lemma {:induction false} CycleIsNonNegative(cs: seq<Candle>, mm: real, swings: seq<Swing>)
    requires IsZigzag(cs, mm, swings)
    ensures CycleMedian(swings).Some? <==> |swings| >= 3
    ensures CycleMedian(swings).Some? ==> 0.0 <= CycleMedian(swings).value <= |cs| as real
  {
    var recent := LastN(swings, 6);
    if |recent| >= 3 {
      var d := |swings| - |recent|;
      forall i | 0 <= i < |Gaps(recent)| ensures 0 <= Gaps(recent)[i] <= |cs| {
        GapsAreSteps(recent, i);
        SwingsAlternate(cs, mm, swings, d + i + 1);
        assert recent[i + 1] == swings[d + i + 1] && recent[i] == swings[d + i];
        SwingPriceIsExact(cs, mm, swings, d + i + 1);
      }
      Median.MedianIsBetween(Gaps(recent), 0, |cs|);
    }
  }

  /** Below that width the coil labels are dead code: no coil bounds, no RANGE or COIL, and
      EXPANSION only from an impulse bar. The default parameters are below it. */
  lemma {:induction false} CoilLabelsUnreachable(ctx: Context, cs: seq<Candle>, p: Params, u: Scale, swings: seq<Swing>)
    requires Valid(p) && u == ScaleAt(p, u.atr) && IsZigzag(cs, u.minMove, swings)
    requires Describes(ctx, EvidenceOf(cs, p, u, swings), u)
    requires p == DEFAULTS || p.rangeHeightAtr <= p.swingAtrMultiple
    ensures ctx.coilBounds == None && ctx.regime != RangeBound && ctx.phase != Coil
    ensures ctx.regime == ExpansionRegime ==> EvidenceOf(cs, p, u, swings).Impulse(u)
  {
    if EvidenceOf(cs, p, u, swings).Coiled(u) {
      CoilNeedsWideBand(cs, p, u, swings);
    }
  }

  /** A snapshot of structure that is out of its coil, or in none. */
  function Structure(e: Evidence, u: Scale): Context
    requires u.span != 0.0
  {
    Context(e.count, u.atr, SeedingRegime, SeedingPhase, if e.afterLow then Long else Short, (e.last - e.past) / u.span,
            Some(e.high), Some(e.low), if e.high - e.low < u.band then Some((e.low, e.high)) else None,
            0, None, None, true, None)
  }

  /** Structure whose coil the last close has left. */
  function BrokenCoil(e: Evidence, u: Scale): Context
    requires u.span != 0.0
  {
    var up := e.last > e.high;
    Structure(e, u).(regime := ExpansionRegime, phase := ExpansionPhase, bias := if up then Long else Short,
                     integrity := false, breakLevel := Some(if up then e.high else e.low),
                     expectedRemaining := if e.cycle == Some(0.0) then None else e.cycle)
  }

  /** The trend that the polarity calls, with or without its reference level. */
  function TrendOf(e: Evidence, u: Scale): Context
    requires u.span != 0.0
  {
    var s := Structure(e, u);
    var age := if e.age > 0 then e.age else 0;
    var ref := if e.polarity > 0 then e.low else e.high;
    var broken := if e.polarity > 0 then e.last < ref else e.last > ref;
    s.(regime := if e.polarity > 0 then TrendUp else TrendDown,
       bias := if e.polarity > 0 then Long else Short,
       structureAge := age,
       expectedRemaining := if e.cycle.Some? then Some(Max(0.0, e.cycle.value - age as real)) else None,
       phase := if Abs(e.last - ref) >= u.extension && Abs(s.momentum) < 0.25 then Exhaustion else Trend,
       integrity := !broken, breakLevel := if broken then Some(ref) else None)
  }

  /** What the branches below assemble. */
  function Classified(e: Evidence, u: Scale): Context
    requires u.span != 0.0
  {
    if e.CoilBroken(u) then BrokenCoil(e, u)
    else if e.polarity != 0 then TrendOf(e, u)
    else if e.Coiled(u) then Structure(e, u).(regime := RangeBound, phase := Coil, expansionPotential := Some(e.Room(u)))
    else Structure(e, u)
  }

  lemma {:induction false} ClassifiedSnapshot(e: Evidence, u: Scale)
    requires e.Structured(u) && u.span != 0.0
    ensures Describes(Classified(e, u), e, u)
  {}

  /** The part of build_context that runs once the swings suffice. */
  method Classify(start: Context, ghost e: Evidence, u: Scale, last: real, past: real, high: real, low: real,
                  score: int, age: int, cycle: Option<real>, bias: Bias) returns (ctx: Context)
    requires e.Structured(u) && u.span != 0.0
    requires last == e.last && past == e.past && high == e.high && low == e.low && score == e.polarity
    requires age == e.age && cycle == e.cycle && bias == if e.afterLow then Long else Short
    requires start == Seeding(e.count, u.atr)
    ensures Describes(ctx, e, u)
  {
    ctx := ClassifyBranches(start, e, u, last, past, high, low, score, age, cycle, bias);
    ClassifiedSnapshot(e, u);
  }

  method ClassifyBranches(start: Context, ghost e: Evidence, u: Scale, last: real, past: real, high: real, low: real,
                  score: int, age: int, cycle: Option<real>, bias: Bias) returns (ctx: Context)
    requires e.Structured(u) && u.span != 0.0
    requires last == e.last && past == e.past && high == e.high && low == e.low && score == e.polarity
    requires age == e.age && cycle == e.cycle && bias == if e.afterLow then Long else Short
    requires start == Seeding(e.count, u.atr)
    ensures ctx == Classified(e, u)
  {
    ctx := start.(swingHigh := Some(high), swingLow := Some(low), bias := bias);
    if high - low < u.band {
      ctx := ctx.(coilBounds := Some((low, high)));
    }
    ctx := ctx.(momentum := (last - past) / u.span);
    if ctx.coilBounds.Some? && (last > high || last < low) {
      ctx := ctx.(regime := ExpansionRegime, phase := ExpansionPhase,
                  bias := if last > high then Long else Short,
                  integrity := false, breakLevel := Some(if last > high then high else low),
                  expectedRemaining := if cycle == Some(0.0) then None else cycle);
      return;
    }
    if score != 0 {
      ctx := if score > 0 then ctx.(regime := TrendUp, bias := Long)
             else ctx.(regime := TrendDown, bias := Short);
      ctx := ctx.(structureAge := if age > 0 then age else 0);
      if cycle.Some? {
        ctx := ctx.(expectedRemaining := Some(Max(0.0, cycle.value - ctx.structureAge as real)));
      }
      var ref := if score > 0 then low else high;
      ctx := ctx.(phase := if Abs(last - ref) >= u.extension && Abs(ctx.momentum) < 0.25 then Exhaustion else Trend);
      if if score > 0 then last < ref else last > ref {
        ctx := ctx.(integrity := false, breakLevel := Some(ref));
      }
      return;
    }
    if ctx.coilBounds.Some? {
      var dist := Min(last - low, high - last);
      ctx := ctx.(regime := RangeBound, phase := Coil, expansionPotential := Some(Max(dist / u.atr, 0.0)));
    }
  }

  lemma {:induction false} SpanIsUsable(p: Params, atr: real)
    requires Valid(p)
    ensures ScaleAt(p, atr).atr == atr && (atr > 0.0 ==> ScaleAt(p, atr).span != 0.0)
  {}

  /** A snapshot without structure. */
  function Seeding(count: nat, atr: real): Context {
    Context(count, atr, SeedingRegime, SeedingPhase, Flat, 0.0, None, None, None, 0, None, None, true, None)
  }

  lemma {:induction false} SeedingSnapshot(e: Evidence, u: Scale)
    requires !e.Impulse(u) && !e.Structured(u) && (e.Ready(u) ==> u.span != 0.0)
    ensures Describes(Seeding(e.count, if e.enoughCandles then u.atr else 0.0), e, u)
  {}

  lemma {:induction false} ImpulseSnapshot(e: Evidence, u: Scale, bias: Bias, momentum: real)
    requires e.Impulse(u) && u.span != 0.0
    requires bias == (if e.last > e.previous then Long else Short) && momentum == (e.last - e.previous) / u.span
    ensures Describes(Context(e.count, u.atr, ExpansionRegime, ExpansionPhase, bias, momentum, None, None, None,
                              0, None, None, false, Some(e.previous)), e, u)
  {}

  method BuildContextAt(cs: seq<Candle>, p: Params, u: Scale) returns (ctx: Context, ghost e: Evidence)
    requires Valid(p) && (u.atr > 0.0 ==> u.span != 0.0)
    ensures e == EvidenceOf(cs, p, u, Swings(cs, u.minMove)) && Describes(ctx, e, u)
  {
    e := EvidenceOf(cs, p, u, Swings(cs, u.minMove));
    ctx := Seeding(|cs|, 0.0);
    if |cs| < p.atrPeriod + 2 {
      SeedingSnapshot(e, u);
      return;
    }
    ctx := ctx.(atr := u.atr);
    if u.atr <= 0.0 {
      SeedingSnapshot(e, u);
      return;
    }
    var last, previous := cs[|cs| - 1].close, cs[|cs| - 2].close;
    var move := last - previous;
    if Abs(move) >= u.impulse {
      ctx := ctx.(regime := ExpansionRegime, phase := ExpansionPhase,
                  bias := if move > 0.0 then Long else Short,
                  momentum := move / u.span,
                  integrity := false, breakLevel := Some(previous));
      ImpulseSnapshot(e, u, ctx.bias, ctx.momentum);
      return;
    }
    var swings := ZigzagSwings(cs, u.minMove);
    if |swings| < p.minSwings {
      SeedingSnapshot(e, u);
      return;
    }
    RecentBandIsWide(cs, p, u.minMove, swings);
    var high, low := Highest(Recent(swings, High, p)), Lowest(Recent(swings, Low, p));
    ctx := Classify(ctx, e, u, last, cs[|cs| - p.atrPeriod].close, high, low, Polarity(swings),
                    |cs| - 1 - swings[|swings| - 1].index, CycleMedian(swings),
                    if swings[|swings| - 1].kind == Low then Long else Short);
  }

  function ScaleOf(cs: seq<Candle>, p: Params): Scale {
    ScaleAt(p, TrueRange.Atr(cs, p.atrPeriod))
  }

  method BuildContext(cs: seq<Candle>, p: Params) returns (ctx: Context)
    requires Valid(p)
    ensures Describes(ctx, EvidenceOf(cs, p, ScaleOf(cs, p), Swings(cs, ScaleOf(cs, p).minMove)), ScaleOf(cs, p))
  {
    var atr := TrueRange.AtrOf(cs, p.atrPeriod);
    var u := ScaleAt(p, atr);
    SpanIsUsable(p, atr);
    assert u == ScaleOf(cs, p);
    ghost var e;
    ctx, e := BuildContextAt(cs, p, u);
  }
}
