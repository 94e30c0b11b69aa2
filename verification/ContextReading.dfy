/** What a snapshot says, in terms of candles and confirmed pivots alone: an independent
    reference for the classifier, and histories that read as a trend each way. */
module ContextReading {
  import opened Common
  import opened Candles
  import opened Zigzag
  import opened MarketContext
  import Median
  import TrueRange

  // ----- the reference -----

  /** Of the pivots that count for the band: the last lookback ones, rounded up to pairs. */
  predicate InWindow(swings: seq<Swing>, p: Params, kind: Kind, i: nat) {
    i < |swings| && swings[i].kind == kind && |swings| - i <= p.lookbackSwings + p.lookbackSwings % 2
  }

  ghost predicate IsTop(swings: seq<Swing>, p: Params, x: real) {
    && (exists i: nat :: InWindow(swings, p, High, i) && swings[i].price == x)
    && (forall i: nat :: InWindow(swings, p, High, i) ==> swings[i].price <= x)
  }

  ghost predicate IsBottom(swings: seq<Swing>, p: Params, x: real) {
    && (exists i: nat :: InWindow(swings, p, Low, i) && swings[i].price == x)
    && (forall i: nat :: InWindow(swings, p, Low, i) ==> x <= swings[i].price)
  }

  /** Pivot i is above, or below, the one before it of its own kind. */
  predicate Rising(swings: seq<Swing>, i: int) {
    2 <= i < |swings| && swings[i].price > swings[i - 2].price
  }

  predicate Falling(swings: seq<Swing>, i: int) {
    2 <= i < |swings| && swings[i].price < swings[i - 2].price
  }

  /** More of the last two pivots rise than fall. */
  predicate TrendsUp(swings: seq<Swing>) {
    var n := |swings|;
    (Rising(swings, n - 1) && !Falling(swings, n - 2)) || (Rising(swings, n - 2) && !Falling(swings, n - 1))
  }

  predicate TrendsDown(swings: seq<Swing>) {
    var n := |swings|;
    (Falling(swings, n - 1) && !Rising(swings, n - 2)) || (Falling(swings, n - 2) && !Rising(swings, n - 1))
  }

  /** The typical gap: the median number of candles between the last six pivots. */
  ghost predicate IsCycle(swings: seq<Swing>, cycle: Option<real>) {
    if |swings| < 3 then cycle == None
    else exists gaps :: AreGaps(swings, gaps) && cycle == Some(Median.Of(gaps))
  }

  ghost predicate AreGaps(swings: seq<Swing>, gaps: seq<int>) {
    && gaps != [] && |gaps| == (if |swings| <= 6 then |swings| - 1 else 5)
    && forall k :: 0 <= k < |gaps| ==> gaps[k] == GapBefore(swings, |swings| - |gaps| + k)
  }

  function GapBefore(swings: seq<Swing>, i: int): int {
    if 1 <= i < |swings| then swings[i].index as int - swings[i - 1].index as int else 0
  }

  /** The quantities that a snapshot is read from; the levels matter only with enough pivots. */
  datatype Facts = Facts(
    atr: real, last: real, previous: real, past: real, top: real, bottom: real, cycle: Option<real>,
    impulse: real, band: real, extension: real, span: real)

  /** The reversal that confirms a pivot. */
  function Reversal(atr: real, p: Params): real {
    Max(atr * p.swingAtrMultiple, 0.000000000001)
  }

  predicate AreScaled(f: Facts, p: Params) {
    && f.impulse == p.impulseAtrMultiple * f.atr && f.band == p.rangeHeightAtr * f.atr
    && f.extension == p.extensionAtrMultiple * f.atr && f.span == f.atr * p.atrPeriod as real
  }

  predicate AreCloses(f: Facts, cs: seq<Candle>, p: Params) {
    var n := |cs|;
    1 <= p.atrPeriod <= n - 2 ==>
      f.last == cs[n - 1].close && f.previous == cs[n - 2].close && f.past == cs[n - p.atrPeriod].close
  }

  ghost predicate ArePivots(f: Facts, p: Params, swings: seq<Swing>) {
    && (|swings| >= 2 ==> IsTop(swings, p, f.top) && IsBottom(swings, p, f.bottom))
    && IsCycle(swings, f.cycle)
  }

  ghost predicate AreFacts(f: Facts, cs: seq<Candle>, p: Params, swings: seq<Swing>) {
    && f.atr == TrueRange.Atr(cs, p.atrPeriod) && IsZigzag(cs, Reversal(f.atr, p), swings)
    && AreScaled(f, p) && AreCloses(f, cs, p) && ArePivots(f, p, swings)
  }

  predicate Ready(f: Facts, cs: seq<Candle>, p: Params) {
    |cs| >= p.atrPeriod + 2 && f.atr > 0.0
  }

  /** The last close moved by impulse_atr_multiple ATRs or more. */
  predicate Impulsive(f: Facts, cs: seq<Candle>, p: Params) {
    Ready(f, cs, p) && Abs(f.last - f.previous) >= f.impulse
  }

  predicate Classifiable(f: Facts, cs: seq<Candle>, p: Params, swings: seq<Swing>) {
    Ready(f, cs, p) && !Impulsive(f, cs, p) && |swings| >= p.minSwings
  }

  predicate Narrow(f: Facts) {
    f.top - f.bottom < f.band
  }

  predicate Outside(f: Facts) {
    f.last > f.top || f.last < f.bottom
  }

  /** No structure yet. */
  ghost predicate SaysSeeding(ctx: Context) {
    && ctx.regime == SeedingRegime && ctx.phase == SeedingPhase && ctx.bias == Flat && ctx.momentum == 0.0
    && ctx.swingHigh == None && ctx.swingLow == None && ctx.coilBounds == None && ctx.structureAge == 0
    && ctx.expectedRemaining == None && ctx.expansionPotential == None && ctx.integrity && ctx.breakLevel == None
  }

  ghost predicate SaysImpulse(ctx: Context, f: Facts) {
    && ctx.regime == ExpansionRegime && ctx.phase == ExpansionPhase
    && ctx.bias == (if f.last > f.previous then Long else Short)
    && ctx.momentum * f.span == f.last - f.previous
    && !ctx.integrity && ctx.breakLevel == Some(f.previous)
  }

  ghost predicate SaysBroken(ctx: Context, f: Facts) {
    && ctx.regime == ExpansionRegime && ctx.phase == ExpansionPhase && !ctx.integrity
    && ctx.bias == (if f.last > f.top then Long else Short)
    && ctx.breakLevel == Some(if f.last > f.top then f.top else f.bottom)
    && ctx.expectedRemaining == (if f.cycle == Some(0.0) then None else f.cycle)
  }

  /** A trend, held by ref: exhausted when far from it without momentum, broken when beyond it. */
  ghost predicate SaysTrend(ctx: Context, f: Facts, up: bool, age: int) {
    var ref := if up then f.bottom else f.top;
    var lost := if up then f.last < ref else f.last > ref;
    && ctx.regime == (if up then TrendUp else TrendDown) && ctx.bias == (if up then Long else Short)
    && ctx.phase == (
      if Abs(f.last - ref) >= f.extension && 4.0 * Abs(f.last - f.past) < f.span then Exhaustion else Trend)
    && (ctx.integrity <==> !lost) && ctx.breakLevel == (if lost then Some(ref) else None)
    && ctx.structureAge == (if age > 0 then age else 0)
    && ctx.expectedRemaining == (
      if f.cycle.None? then None else Some(Max(0.0, f.cycle.value - ctx.structureAge as real)))
  }

  ghost predicate SaysRange(ctx: Context, f: Facts) {
    && ctx.regime == RangeBound && ctx.phase == Coil && ctx.integrity && ctx.breakLevel == None
    && ctx.expansionPotential.Some?
    && ctx.expansionPotential.value * f.atr == Min(f.last - f.bottom, f.top - f.last)
  }

  /** Structure: out of its coil, in a trend, in its coil, or none of these. */
  ghost predicate SaysStructure(ctx: Context, f: Facts, swings: seq<Swing>, age: int) {
    var coil := Narrow(f);
    var towards := if swings != [] && swings[|swings| - 1].kind == Low then Long else Short;
    && ctx.swingHigh == Some(f.top) && ctx.swingLow == Some(f.bottom)
    && ctx.coilBounds == (if coil then Some((f.bottom, f.top)) else None)
    && ctx.momentum * f.span == f.last - f.past
    && (if coil && Outside(f) then SaysBroken(ctx, f)
        else if TrendsUp(swings) then SaysTrend(ctx, f, true, age)
        else if TrendsDown(swings) then SaysTrend(ctx, f, false, age)
        else if coil then SaysRange(ctx, f) && ctx.bias == towards
        else ctx.regime == SeedingRegime && ctx.phase == SeedingPhase && ctx.integrity && ctx.bias == towards)
  }

  /** The snapshot that candles and pivots call for. */
  ghost predicate Reads(ctx: Context, f: Facts, cs: seq<Candle>, p: Params, swings: seq<Swing>) {
    && ctx.closedCandles == |cs| && ctx.atr == (if |cs| >= p.atrPeriod + 2 then f.atr else 0.0)
    && (if Impulsive(f, cs, p) then SaysImpulse(ctx, f)
        else if !Classifiable(f, cs, p, swings) then SaysSeeding(ctx)
        else swings != [] && SaysStructure(ctx, f, swings, |cs| - 1 - swings[|swings| - 1].index))
  }

  // ----- prices of pivots that alternate -----

  predicate TurnsAt(swings: seq<Swing>, i: int) {
    0 < i < |swings| && swings[i].kind != swings[i - 1].kind
  }

  ghost predicate Alternates(swings: seq<Swing>) {
    forall i :: 0 < i < |swings| ==> TurnsAt(swings, i)
  }

  lemma {:induction false} ZigzagsAlternate(cs: seq<Candle>, mm: real, swings: seq<Swing>)
    requires IsZigzag(cs, mm, swings)
    ensures Alternates(swings)
  {
    forall i | 0 < i < |swings| ensures TurnsAt(swings, i) {
      SwingsAlternate(cs, mm, swings, i);
    }
  }

  /** Where the pivot of a kind stands that has j of its kind after it. */
  function FromEnd(swings: seq<Swing>, kind: Kind, j: nat): int
    requires swings != []
  {
    |swings| - 1 - (if swings[|swings| - 1].kind == kind then 0 else 1) - 2 * j
  }

  lemma {:induction false} FrontAlternates(swings: seq<Swing>)
    requires Alternates(swings) && swings != []
    ensures Alternates(swings[..|swings| - 1])
  {
    var front := swings[..|swings| - 1];
    forall i | 0 < i < |front| ensures TurnsAt(front, i) {
      assert TurnsAt(swings, i);
    }
  }

  lemma {:induction false} PriceFromEnd(swings: seq<Swing>, kind: Kind, j: nat)
    requires Alternates(swings) && swings != []
    ensures var i := FromEnd(swings, kind, j); var prices := Prices(swings, kind);
      if i < 0 then |prices| <= j
      else |prices| > j && prices[|prices| - 1 - j] == swings[i].price && swings[i].kind == kind
    decreases |swings|
  {
    var n := |swings|;
    var front := swings[..n - 1];
    FrontAlternates(swings);
    if n == 1 {
      assert front == [] && Prices(front, kind) == [];
    } else {
      assert TurnsAt(swings, n - 1);
      assert front[n - 2] == swings[n - 2];
      if swings[n - 1].kind != kind {
        PriceFromEnd(front, kind, j);
      } else if j > 0 {
        PriceFromEnd(front, kind, j - 1);
      }
    }
  }

  // ----- the band -----

  lemma {:induction false} WindowIsRecent(swings: seq<Swing>, p: Params, kind: Kind, i: nat)
    requires Alternates(swings) && InWindow(swings, p, kind, i)
    ensures swings[i].price in Recent(swings, kind, p)
  {
    var j := KindAfter(swings, kind, i);
    PriceFromEnd(swings, kind, j);
    var prices, recent := Prices(swings, kind), Recent(swings, kind, p);
    assert recent[|recent| - 1 - j] == prices[|prices| - 1 - j];
  }

  /** Pivots of one kind are two apart. */
  lemma {:induction false} KindAfter(swings: seq<Swing>, kind: Kind, i: nat) returns (j: nat)
    requires Alternates(swings) && i < |swings| && swings[i].kind == kind
    ensures i == FromEnd(swings, kind, j)
    decreases |swings| - i
  {
    if i + 1 == |swings| {
      j := 0;
    } else {
      assert TurnsAt(swings, i + 1);
      if i + 2 == |swings| {
        j := 0;
      } else {
        assert TurnsAt(swings, i + 2);
        var later := KindAfter(swings, kind, i + 2);
        j := later + 1;
      }
    }
  }

  lemma {:induction false} RecentIsWindow(swings: seq<Swing>, p: Params, kind: Kind, x: real) returns (i: nat)
    requires Alternates(swings) && swings != [] && x in Recent(swings, kind, p)
    ensures InWindow(swings, p, kind, i) && swings[i].price == x
  {
    var prices, recent := Prices(swings, kind), Recent(swings, kind, p);
    var k :| 0 <= k < |recent| && recent[k] == x;
    var j := |recent| - 1 - k;
    assert prices[|prices| - 1 - j] == x;
    PriceFromEnd(swings, kind, j);
    i := FromEnd(swings, kind, j);
  }

  lemma {:induction false} BandIsWindow(cs: seq<Candle>, p: Params, mm: real, swings: seq<Swing>)
    requires Valid(p) && IsZigzag(cs, mm, swings) && |swings| >= 2
    ensures IsTop(swings, p, RecentHigh(swings, p)) && IsBottom(swings, p, RecentLow(swings, p))
  {
    ZigzagsAlternate(cs, mm, swings);
    RecentBandIsWide(cs, p, mm, swings);
    var highs, lows := Recent(swings, High, p), Recent(swings, Low, p);
    BandIsExact(highs);
    BandIsExact(lows);
    var h := RecentIsWindow(swings, p, High, Highest(highs));
    var l := RecentIsWindow(swings, p, Low, Lowest(lows));
    forall i: nat | InWindow(swings, p, High, i) ensures swings[i].price <= Highest(highs) {
      WindowIsRecent(swings, p, High, i);
    }
    forall i: nat | InWindow(swings, p, Low, i) ensures Lowest(lows) <= swings[i].price {
      WindowIsRecent(swings, p, Low, i);
    }
  }

  // ----- the polarity -----

  lemma {:induction false} TailAlternates(swings: seq<Swing>, n: nat)
    requires Alternates(swings)
    ensures Alternates(LastN(swings, n))
  {
    var tail := LastN(swings, n);
    forall i | 0 < i < |tail| ensures TurnsAt(tail, i) {
      assert TurnsAt(swings, |swings| - |tail| + i);
    }
  }

  function Turn(swings: seq<Swing>, i: int): int {
    if Rising(swings, i) then 1 else if Falling(swings, i) then -1 else 0
  }

  lemma {:induction false} StepIsTurn(swings: seq<Swing>, kind: Kind)
    requires Alternates(swings) && |swings| >= 2
    ensures Step(Prices(swings, kind)) == Turn(swings, FromEnd(swings, kind, 0))
  {
    assert TurnsAt(swings, |swings| - 1);
    PriceFromEnd(swings, kind, 0);
    PriceFromEnd(swings, kind, 1);
  }

  lemma {:induction false} TurnInTail(swings: seq<Swing>, i: nat)
    requires 1 <= i <= 2 <= |swings|
    ensures var tail := LastN(swings, 8); Turn(tail, |tail| - i) == Turn(swings, |swings| - i)
  {}

  lemma {:induction false} PolarityIsTurns(swings: seq<Swing>)
    requires Alternates(swings) && |swings| >= 2
    ensures Polarity(swings) == Turn(swings, |swings| - 1) + Turn(swings, |swings| - 2)
  {
    var tail := LastN(swings, 8);
    TailAlternates(swings, 8);
    StepIsTurn(tail, High);
    StepIsTurn(tail, Low);
    assert TurnsAt(tail, |tail| - 1);
    TurnInTail(swings, 1);
    TurnInTail(swings, 2);
  }

  // ----- the cycle -----

  lemma {:induction false} CycleIsMedian(swings: seq<Swing>)
    ensures IsCycle(swings, CycleMedian(swings))
  {
    if |swings| >= 3 {
      var recent := LastN(swings, 6);
      var gaps := Gaps(recent);
      forall k | 0 <= k < |gaps| ensures gaps[k] == GapBefore(swings, |swings| - |gaps| + k) {
        GapsAreSteps(recent, k);
      }
      assert AreGaps(swings, gaps);
    }
  }

  // ----- every snapshot reads as the reference says -----

  function FactsOf(cs: seq<Candle>, p: Params): Facts {
    var u := ScaleOf(cs, p);
    var swings := Swings(cs, u.minMove);
    Facts(u.atr, CloseBack(cs, 0), CloseBack(cs, 1), if p.atrPeriod == 0 then 0.0 else CloseBack(cs, p.atrPeriod - 1),
          RecentHigh(swings, p), RecentLow(swings, p), CycleMedian(swings), u.impulse, u.band, u.extension, u.span)
  }

  lemma {:induction false} ClosesAreFacts(cs: seq<Candle>, p: Params)
    ensures AreCloses(FactsOf(cs, p), cs, p)
  {}

  lemma {:induction false} ScaleIsRaw(p: Params, atr: real, f: Facts)
    requires f.atr == atr && f.impulse == ScaleAt(p, atr).impulse && f.band == ScaleAt(p, atr).band
    requires f.extension == ScaleAt(p, atr).extension && f.span == ScaleAt(p, atr).span
    ensures AreScaled(f, p) && ScaleAt(p, atr).minMove == Reversal(atr, p)
  {}

  lemma {:induction false} ScaleIsFact(cs: seq<Candle>, p: Params)
    ensures AreScaled(FactsOf(cs, p), p) && ScaleOf(cs, p).minMove == Reversal(FactsOf(cs, p).atr, p)
  {
    ScaleIsRaw(p, TrueRange.Atr(cs, p.atrPeriod), FactsOf(cs, p));
  }

  lemma {:induction false} PivotsAreFacts(cs: seq<Candle>, p: Params, swings: seq<Swing>)
    requires Valid(p) && swings == Swings(cs, ScaleOf(cs, p).minMove)
    ensures ArePivots(FactsOf(cs, p), p, swings)
  {
    SwingsIsZigzag(cs, ScaleOf(cs, p).minMove);
    if |swings| >= 2 {
      BandIsWindow(cs, p, ScaleOf(cs, p).minMove, swings);
    }
    CycleIsMedian(swings);
  }

  lemma {:induction false} FactsAreFacts(cs: seq<Candle>, p: Params, swings: seq<Swing>)
    requires Valid(p) && swings == Swings(cs, ScaleOf(cs, p).minMove)
    ensures AreFacts(FactsOf(cs, p), cs, p, swings)
  {
    SwingsIsZigzag(cs, ScaleOf(cs, p).minMove);
    ClosesAreFacts(cs, p);
    ScaleIsFact(cs, p);
    PivotsAreFacts(cs, p, swings);
  }

  lemma {:induction false} BelowQuarter(m: real, span: real, x: real)
    requires 0.0 < span && m * span == x
    ensures Abs(m) < 0.25 <==> 4.0 * Abs(x) < span
  {
    ScaledBelow(m, span, x);
    ScaledBelow(-m, span, -x);
  }

  lemma {:induction false} ScaledBelow(m: real, span: real, x: real)
    requires 0.0 < span && m * span == x
    ensures m < 0.25 <==> 4.0 * x < span
  {
    var d := 0.25 - m;
    assert d * span == 0.25 * span - x;
    if d > 0.0 {
      assert d * span > 0.0;
    } else {
      assert d * span <= 0.0;
    }
  }

  lemma {:induction false} SpanIsPositive(p: Params, atr: real)
    requires Valid(p) && 0.0 < atr
    ensures 0.0 < ScaleAt(p, atr).span
  {}

  /** The last close stays the room it has inside the band, in ATRs. */
  lemma {:induction false} RoomIsDistance(e: Evidence, u: Scale)
    requires 0.0 < u.atr && e.low <= e.last <= e.high
    ensures e.Room(u) * u.atr == Min(e.last - e.low, e.high - e.last)
  {
    var d := Min(e.last - e.low, e.high - e.last);
    QuotientTimes(d, u.atr);
    NonNegativeQuotient(d, u.atr);
  }

  lemma {:induction false} NonNegativeQuotient(x: real, y: real)
    requires 0.0 <= x && 0.0 < y
    ensures 0.0 <= x / y
  {}

  lemma {:induction false} MomentumTimes(ctx: Context, e: Evidence, u: Scale)
    requires Describes(ctx, e, u) && e.Ready(u)
    ensures e.Structured(u) ==> ctx.momentum * u.span == e.last - e.past
    ensures e.Impulse(u) ==> ctx.momentum * u.span == e.last - e.previous
  {
    QuotientTimes(e.last - e.past, u.span);
    QuotientTimes(e.last - e.previous, u.span);
  }

  /** The evidence, as facts. */
  ghost predicate Matches(e: Evidence, u: Scale, f: Facts, cs: seq<Candle>, p: Params, swings: seq<Swing>) {
    && u.atr == f.atr && u.impulse == f.impulse && u.band == f.band && u.extension == f.extension && u.span == f.span
    && (0.0 < u.atr ==> 0.0 < u.span)
    && e.count == |cs| && e.enoughCandles == (|cs| >= p.atrPeriod + 2) && e.enoughSwings == (|swings| >= p.minSwings)
    && e.last == f.last && e.previous == f.previous && e.past == f.past && e.high == f.top && e.low == f.bottom
    && e.cycle == f.cycle && e.afterLow == (swings != [] && swings[|swings| - 1].kind == Low)
    && (swings != [] ==> e.age == |cs| - 1 - swings[|swings| - 1].index)
    && (|swings| >= 2 ==> (e.polarity > 0 <==> TrendsUp(swings)) && (e.polarity < 0 <==> TrendsDown(swings)))
  }

  lemma {:induction false} PolarityIsTrend(swings: seq<Swing>)
    requires Alternates(swings) && |swings| >= 2
    ensures (Polarity(swings) > 0 <==> TrendsUp(swings)) && (Polarity(swings) < 0 <==> TrendsDown(swings))
  {
    PolarityIsTurns(swings);
  }

  lemma {:induction false} FieldsMatch(cs: seq<Candle>, p: Params, u: Scale, swings: seq<Swing>, f: Facts)
    requires u == ScaleOf(cs, p) && swings == Swings(cs, u.minMove) && f == FactsOf(cs, p) && (0.0 < u.atr ==> 0.0 < u.span)
    requires |swings| >= 2 ==> (Polarity(swings) > 0 <==> TrendsUp(swings)) && (Polarity(swings) < 0 <==> TrendsDown(swings))
    requires Valid(p)
    ensures Matches(EvidenceOf(cs, p, u, swings), u, f, cs, p, swings)
  {}

  lemma {:induction false} EvidenceMatches(cs: seq<Candle>, p: Params, u: Scale, swings: seq<Swing>)
    requires Valid(p) && u == ScaleOf(cs, p) && swings == Swings(cs, u.minMove)
    ensures Matches(EvidenceOf(cs, p, u, swings), u, FactsOf(cs, p), cs, p, swings)
  {
    if 0.0 < u.atr {
      SpanIsPositive(p, u.atr);
    }
    if |swings| >= 2 {
      SwingsIsZigzag(cs, u.minMove);
      ZigzagsAlternate(cs, u.minMove, swings);
      PolarityIsTrend(swings);
    }
    FieldsMatch(cs, p, u, swings, FactsOf(cs, p));
  }

  lemma {:induction false} EarlyReads(ctx: Context, e: Evidence, u: Scale, f: Facts, cs: seq<Candle>, p: Params,
                                      swings: seq<Swing>)
    requires Valid(p) && Describes(ctx, e, u) && Matches(e, u, f, cs, p, swings) && !e.Structured(u)
    ensures Reads(ctx, f, cs, p, swings)
  {
    if e.Impulse(u) {
      MomentumTimes(ctx, e, u);
    }
  }

  lemma {:induction false} TrendReads(ctx: Context, e: Evidence, u: Scale, f: Facts, cs: seq<Candle>, p: Params,
                                      swings: seq<Swing>)
    requires Valid(p) && Describes(ctx, e, u) && Matches(e, u, f, cs, p, swings)
    requires e.Structured(u) && !e.CoilBroken(u) && e.polarity != 0 && e.low <= e.high
    ensures SaysTrend(ctx, f, e.polarity > 0, e.age)
  {
    MomentumTimes(ctx, e, u);
    BelowQuarter(ctx.momentum, u.span, f.last - f.past);
  }

  lemma {:induction false} BrokenReads(ctx: Context, e: Evidence, u: Scale, f: Facts, cs: seq<Candle>, p: Params,
                                       swings: seq<Swing>)
    requires Describes(ctx, e, u) && Matches(e, u, f, cs, p, swings) && e.CoilBroken(u) && e.low <= e.high
    ensures SaysBroken(ctx, f) && Narrow(f) && Outside(f)
  {}

  lemma {:induction false} RestReads(ctx: Context, e: Evidence, u: Scale, f: Facts, cs: seq<Candle>, p: Params,
                                     swings: seq<Swing>)
    requires Describes(ctx, e, u) && Matches(e, u, f, cs, p, swings) && e.Structured(u) && !e.CoilBroken(u)
    requires e.polarity == 0
    ensures ctx.bias == if swings != [] && swings[|swings| - 1].kind == Low then Long else Short
    ensures if Narrow(f) then SaysRange(ctx, f)
            else ctx.regime == SeedingRegime && ctx.phase == SeedingPhase && ctx.integrity
  {
    if e.Coiled(u) {
      RoomIsDistance(e, u);
    }
  }

  lemma {:induction false} LevelsRead(ctx: Context, e: Evidence, u: Scale, f: Facts, cs: seq<Candle>, p: Params,
                                      swings: seq<Swing>)
    requires Describes(ctx, e, u) && Matches(e, u, f, cs, p, swings) && e.Structured(u)
    ensures ctx.swingHigh == Some(f.top) && ctx.swingLow == Some(f.bottom)
    ensures ctx.coilBounds == (if Narrow(f) then Some((f.bottom, f.top)) else None)
    ensures ctx.momentum * f.span == f.last - f.past
    ensures e.CoilBroken(u) <==> Narrow(f) && Outside(f)
  {
    MomentumTimes(ctx, e, u);
  }

  lemma {:induction false} StructureSays(ctx: Context, e: Evidence, u: Scale, f: Facts, cs: seq<Candle>, p: Params,
                                         swings: seq<Swing>)
    requires Valid(p) && Describes(ctx, e, u) && Matches(e, u, f, cs, p, swings)
    requires e.Structured(u) && e.low <= e.high
    ensures SaysStructure(ctx, f, swings, e.age)
  {
    LevelsRead(ctx, e, u, f, cs, p, swings);
    if e.CoilBroken(u) {
      BrokenReads(ctx, e, u, f, cs, p, swings);
    } else if e.polarity != 0 {
      TrendReads(ctx, e, u, f, cs, p, swings);
    } else {
      RestReads(ctx, e, u, f, cs, p, swings);
    }
  }

  lemma {:induction false} StructureReads(ctx: Context, e: Evidence, u: Scale, f: Facts, cs: seq<Candle>, p: Params,
                                          swings: seq<Swing>)
    requires Valid(p) && Describes(ctx, e, u) && Matches(e, u, f, cs, p, swings)
    requires e.Structured(u) && e.low <= e.high
    ensures Reads(ctx, f, cs, p, swings)
  {
    StructureSays(ctx, e, u, f, cs, p, swings);
  }

  /** Every snapshot that build_context may give is the one the reference reads off the candles
      and their zigzag. */
  lemma {:induction false} SnapshotReads(ctx: Context, cs: seq<Candle>, p: Params) returns (f: Facts, swings: seq<Swing>)
    requires Valid(p)
    requires Describes(ctx, EvidenceOf(cs, p, ScaleOf(cs, p), Swings(cs, ScaleOf(cs, p).minMove)), ScaleOf(cs, p))
    ensures AreFacts(f, cs, p, swings) && Reads(ctx, f, cs, p, swings)
  {
    var u := ScaleOf(cs, p);
    swings := Swings(cs, u.minMove);
    f := FactsOf(cs, p);
    var e := EvidenceOf(cs, p, u, swings);
    FactsAreFacts(cs, p, swings);
    EvidenceMatches(cs, p, u, swings);
    SwingsIsZigzag(cs, u.minMove);
    RecentBandIsOrdered(cs, p, u, swings);
    if e.Structured(u) {
      StructureReads(ctx, e, u, f, cs, p, swings);
    } else {
      EarlyReads(ctx, e, u, f, cs, p, swings);
    }
  }

  // ----- trends -----

  /** ctx is a snapshot of these candles, which show structure and have not left their coil. */
  ghost predicate Settled(ctx: Context, cs: seq<Candle>, p: Params) {
    var u := ScaleOf(cs, p);
    var e := EvidenceOf(cs, p, u, Swings(cs, u.minMove));
    Describes(ctx, e, u) && e.Structured(u) && !e.CoilBroken(u)
  }

  /** The last High and the last Low both rose: the snapshot says TREND_UP and Long. */
  lemma {:induction false} RisingPivotsTrendUp(ctx: Context, cs: seq<Candle>, p: Params, swings: seq<Swing>)
    requires Valid(p) && Settled(ctx, cs, p) && IsZigzag(cs, Reversal(TrueRange.Atr(cs, p.atrPeriod), p), swings)
    requires var n := |swings|;
      n >= 4 && swings[n - 1].price > swings[n - 3].price && swings[n - 2].price > swings[n - 4].price
    ensures ctx.regime == TrendUp && ctx.bias == Long
  {
    var u := ScaleOf(cs, p);
    ScaleIsFact(cs, p);
    SwingsIsZigzag(cs, u.minMove);
    IsZigzagUnique(cs, u.minMove, swings, Swings(cs, u.minMove));
    ZigzagsAlternate(cs, u.minMove, swings);
    PolarityIsTrend(swings);
  }

  /** Both fell: TREND_DOWN and Short. */
  lemma {:induction false} FallingPivotsTrendDown(ctx: Context, cs: seq<Candle>, p: Params, swings: seq<Swing>)
    requires Valid(p) && Settled(ctx, cs, p) && IsZigzag(cs, Reversal(TrueRange.Atr(cs, p.atrPeriod), p), swings)
    requires var n := |swings|;
      n >= 4 && swings[n - 1].price < swings[n - 3].price && swings[n - 2].price < swings[n - 4].price
    ensures ctx.regime == TrendDown && ctx.bias == Short
  {
    var u := ScaleOf(cs, p);
    ScaleIsFact(cs, p);
    SwingsIsZigzag(cs, u.minMove);
    IsZigzagUnique(cs, u.minMove, swings, Swings(cs, u.minMove));
    ZigzagsAlternate(cs, u.minMove, swings);
    PolarityIsTrend(swings);
  }

  // ----- a history each way -----

  /** The defaults with half an ATR as the reversal. */
  const QUICK := DEFAULTS.(swingAtrMultiple := 0.5)

  /** Candle i of a staircase: one unit tall, one step from the last, closing where it opens. */
  function Stair(n: nat, up: bool, i: nat): Candle {
    var level := if up then i as real + 1.0 else n as real - i as real;
    var close := if up then level else level + 1.0;
    Candle(close, level + 1.0, level, close, 0.0, 0.0, 0.0)
  }

  function Stairs(n: nat, up: bool): (cs: seq<Candle>)
    ensures |cs| == n && forall i :: 0 <= i < n ==> cs[i] == Stair(n, up, i)
  {
    seq(n, i requires 0 <= i < n => Stair(n, up, i))
  }

  /** Every stair confirms a High, over it and the stair before, and a Low of its own. */
  function StairSwing(n: nat, up: bool, j: nat): Swing {
    var i := j / 2;
    if j % 2 == 0 then Swing(High, Stair(n, up, if up || i == 0 then i else i - 1).high, i)
    else Swing(Low, Stair(n, up, i).low, i)
  }

  function StairSwings(n: nat, up: bool): (swings: seq<Swing>)
    ensures |swings| == 2 * n && forall j :: 0 <= j < 2 * n ==> swings[j] == StairSwing(n, up, j)
  {
    seq(2 * n, j requires 0 <= j < 2 * n => StairSwing(n, up, j))
  }

  lemma {:induction false} StairConfirms(n: nat, up: bool, j: nat)
    requires j < 2 * n
    ensures NextAt(Stairs(n, up), 1.0, StairSwings(n, up), j)
  {
    var cs, swings, i := Stairs(n, up), StairSwings(n, up), j / 2;
    var prev := Before(swings, j);
    if j % 2 == 0 {
      assert j > 0 ==> prev == Some(StairSwing(n, up, j - 1)) && (j - 1) / 2 == i - 1;
      assert MaxHigh(cs, LegStart(prev), i) == StairSwing(n, up, j).price;
    } else {
      assert prev == Some(StairSwing(n, up, j - 1)) && (j - 1) / 2 == i;
      assert MinLow(cs, i, i) == cs[i].low;
    }
  }

  lemma {:induction false} StairsZigzag(n: nat, up: bool)
    ensures IsZigzag(Stairs(n, up), 1.0, StairSwings(n, up))
  {
    var cs, swings := Stairs(n, up), StairSwings(n, up);
    forall j | 0 <= j < |swings| ensures NextAt(cs, 1.0, swings, j) {
      StairConfirms(n, up, j);
    }
    assert n > 0 ==> Before(swings, 2 * n) == Some(StairSwing(n, up, 2 * n - 1)) && (2 * n - 1) / 2 == n - 1;
  }

  lemma {:induction false} StairsAtr(n: nat, up: bool)
    requires n >= 2
    ensures TrueRange.Atr(Stairs(n, up), 14) == 2.0
  {
    var cs := Stairs(n, up);
    forall i | 0 <= i < n - 1 ensures TrueRange.RangeAt(cs, i) == 2.0 {}
    TrueRange.AtrOfEqual(cs, 14, 2.0);
  }

  lemma {:induction false} StairsScale(n: nat, up: bool)
    requires n >= 2
    ensures ScaleOf(Stairs(n, up), QUICK) == ScaleAt(QUICK, 2.0) == Scale(2.0, 1.0, 2.4, 5.0, 6.0, 28.0)
  {
    StairsAtr(n, up);
  }

  lemma {:induction false} StairsLevels(n: nat, up: bool)
    requires n >= 16
    ensures var swings := StairSwings(n, up); var m := 2 * n;
      && |swings| == m
      && swings[m - 1].price - swings[m - 3].price == (if up then 1.0 else -1.0)
      && swings[m - 2].price - swings[m - 4].price == (if up then 1.0 else -1.0)
  {
    var m := 2 * n;
    assert (m - 1) / 2 == n - 1 && (m - 3) / 2 == n - 2 && (m - 2) / 2 == n - 1 && (m - 4) / 2 == n - 2;
  }

  /** The band of four pairs of stairs is four units, too wide for a coil. */
  lemma {:induction false} StairsAreWide(n: nat, up: bool, hi: real, lo: real)
    requires n >= 16 && IsTop(StairSwings(n, up), QUICK, hi) && IsBottom(StairSwings(n, up), QUICK, lo)
    ensures hi - lo >= 3.0
  {
    var swings, m := StairSwings(n, up), 2 * n;
    assert InWindow(swings, QUICK, High, m - 2) && InWindow(swings, QUICK, High, m - 8);
    assert InWindow(swings, QUICK, Low, m - 1) && InWindow(swings, QUICK, Low, m - 7);
    assert (m - 2) / 2 == n - 1 && (m - 8) / 2 == n - 4 && (m - 1) / 2 == n - 1 && (m - 7) / 2 == n - 4;
  }

  lemma {:induction false} StairsAreSettled(ctx: Context, cs: seq<Candle>, swings: seq<Swing>, n: nat, up: bool)
    requires n >= 16 && cs == Stairs(n, up) && swings == StairSwings(n, up) == Swings(cs, 1.0)
    requires ScaleOf(cs, QUICK) == Scale(2.0, 1.0, 2.4, 5.0, 6.0, 28.0)
    requires Describes(ctx, EvidenceOf(cs, QUICK, ScaleOf(cs, QUICK), swings), ScaleOf(cs, QUICK))
    ensures Settled(ctx, cs, QUICK)
  {
    StairsZigzag(n, up);
    BandIsWindow(cs, QUICK, 1.0, swings);
    StairsAreWide(n, up, RecentHigh(swings, QUICK), RecentLow(swings, QUICK));
    WideIsSettled(EvidenceOf(cs, QUICK, ScaleOf(cs, QUICK), swings), ScaleOf(cs, QUICK));
  }

  lemma {:induction false} WideIsSettled(e: Evidence, u: Scale)
    requires e.enoughCandles && e.enoughSwings && u.atr > 0.0 && Abs(e.last - e.previous) < u.impulse && e.high - e.low >= u.band
    ensures e.Structured(u) && !e.CoilBroken(u)
  {}

  /** Long enough staircases read as trends: up the rising one, down the falling one, in whatever
      snapshot describes them. */
  lemma {:induction false} StairsTrend(n: nat, up: bool, ctx: Context)
    requires n >= 16
    requires var cs := Stairs(n, up); var u := ScaleOf(cs, QUICK);
      Describes(ctx, EvidenceOf(cs, QUICK, u, Swings(cs, u.minMove)), u)
    ensures ctx.regime == (if up then TrendUp else TrendDown) && ctx.bias == (if up then Long else Short)
  {
    var cs, swings := Stairs(n, up), StairSwings(n, up);
    StairsScale(n, up);
    StairsZigzag(n, up);
    SwingsIsZigzag(cs, 1.0);
    IsZigzagUnique(cs, 1.0, swings, Swings(cs, 1.0));
    StairsLevels(n, up);
    StairsAreSettled(ctx, cs, swings, n, up);
    if up {
      RisingPivotsTrendUp(ctx, cs, QUICK, swings);
    } else {
      FallingPivotsTrendDown(ctx, cs, QUICK, swings);
    }
  }
}
