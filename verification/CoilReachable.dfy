/** The other side of the coil theorem: ticks whose candles read as RANGE / COIL whenever the
    band is wider than the reversal. The pivots all lie at two levels, one apart; candles without
    extent then calm the ATR window, and the wick of the last candle alone sets the ATR. No pivot
    high follows that wick, so its length is free. */
module CoilReachable {
  import opened Common
  import opened Candles
  import opened Zigzag
  import opened MarketContext
  import CandleAggregation
  import TrueRange

  // ----- what the classifier reads off pivots at two levels -----

  function Level(kind: Kind, top: real, bottom: real): real {
    if kind == High then top else bottom
  }

  /** Every High lies at the top, every Low at the bottom. */
  ghost predicate AtLevels(swings: seq<Swing>, top: real, bottom: real) {
    forall i :: 0 <= i < |swings| ==> swings[i].price == Level(swings[i].kind, top, bottom)
  }

  lemma {:induction false} PricesAtLevel(swings: seq<Swing>, top: real, bottom: real, kind: Kind)
    requires AtLevels(swings, top, bottom)
    ensures forall x :: x in Prices(swings, kind) ==> x == Level(kind, top, bottom)
  {
    if swings != [] {
      PricesAtLevel(swings[..|swings| - 1], top, bottom, kind);
    }
  }

  lemma {:induction false} LevelsHaveNoStep(swings: seq<Swing>, top: real, bottom: real, kind: Kind)
    requires AtLevels(swings, top, bottom)
    ensures Step(Prices(swings, kind)) == 0
  {
    PricesAtLevel(swings, top, bottom, kind);
    var prices := Prices(swings, kind);
    assert |prices| >= 2 ==> prices[|prices| - 1] in prices && prices[|prices| - 2] in prices;
  }

  lemma {:induction false} LevelsHaveNoPolarity(swings: seq<Swing>, top: real, bottom: real)
    requires AtLevels(swings, top, bottom)
    ensures Polarity(swings) == 0
  {
    var tail := LastN(swings, 8);
    LevelsHaveNoStep(tail, top, bottom, High);
    LevelsHaveNoStep(tail, top, bottom, Low);
  }

  lemma {:induction false} LevelsAreTheBand(cs: seq<Candle>, p: Params, mm: real, top: real, bottom: real)
    requires Valid(p) && |Swings(cs, mm)| >= 2 && AtLevels(Swings(cs, mm), top, bottom)
    ensures RecentHigh(Swings(cs, mm), p) == top && RecentLow(Swings(cs, mm), p) == bottom
  {
    var swings := Swings(cs, mm);
    SwingsIsZigzag(cs, mm);
    RecentBandIsWide(cs, p, mm, swings);
    PricesAtLevel(swings, top, bottom, High);
    PricesAtLevel(swings, top, bottom, Low);
    var highs, lows := Recent(swings, High, p), Recent(swings, Low, p);
    BandIsExact(highs);
    BandIsExact(lows);
    assert Highest(highs) in Prices(swings, High) && Lowest(lows) in Prices(swings, Low);
  }

  /** The history reads as RANGE / COIL, in whatever snapshot describes it, and there is one. */
  ghost predicate ReadsAsRange(cs: seq<Candle>, p: Params) {
    var u := ScaleOf(cs, p);
    var e := EvidenceOf(cs, p, u, Swings(cs, u.minMove));
    && (exists ctx :: Describes(ctx, e, u))
    && (forall ctx :: Describes(ctx, e, u) ==> ctx.regime == RangeBound && ctx.phase == Coil && ctx.integrity)
  }

  lemma {:induction false} CoilEvidenceIsRange(ctx: Context, e: Evidence, u: Scale)
    requires Describes(ctx, e, u) && e.Coiled(u) && !e.CoilBroken(u) && e.polarity == 0
    ensures ctx.regime == RangeBound && ctx.phase == Coil && ctx.integrity
  {}

  lemma {:induction false} RangeSnapshot(e: Evidence, u: Scale)
    requires e.Coiled(u) && !e.CoilBroken(u) && e.polarity == 0 && u.span != 0.0
    ensures exists ctx :: Describes(ctx, e, u)
  {
    var ctx := Context(e.count, u.atr, RangeBound, Coil, if e.afterLow then Long else Short, (e.last - e.past) / u.span,
                       Some(e.high), Some(e.low), Some((e.low, e.high)), 0, None, Some(e.Room(u)), true, None);
    assert Describes(ctx, e, u);
  }

  /** A close that rests inside a narrow band without polarity. */
  ghost predicate Rests(e: Evidence, u: Scale) {
    && e.enoughCandles && e.enoughSwings && e.polarity == 0
    && 0.0 < u.atr && 0.0 < u.impulse && u.span != 0.0
    && e.high - e.low < u.band && e.low <= e.last <= e.high && e.last == e.previous
  }

  lemma {:induction false} RangeEvidence(cs: seq<Candle>, p: Params, e: Evidence, u: Scale)
    requires u == ScaleOf(cs, p) && e == EvidenceOf(cs, p, u, Swings(cs, u.minMove)) && Rests(e, u)
    ensures ReadsAsRange(cs, p)
  {
    RangeSnapshot(e, u);
    forall ctx | Describes(ctx, e, u) ensures ctx.regime == RangeBound && ctx.phase == Coil && ctx.integrity {
      CoilEvidenceIsRange(ctx, e, u);
    }
  }

  lemma {:induction false} LastCloses(cs: seq<Candle>)
    requires 2 <= |cs|
    ensures CloseBack(cs, 0) == cs[|cs| - 1].close && CloseBack(cs, 1) == cs[|cs| - 2].close
  {}

  lemma {:induction false} LevelsRest(e: Evidence, u: Scale, top: real, bottom: real)
    requires e.enoughCandles && e.enoughSwings && e.polarity == 0 && e.high == top && e.low == bottom
    requires 0.0 < u.atr && 0.0 < u.impulse && u.span != 0.0
    requires top - bottom < u.band && e.last == e.previous && bottom <= e.last <= top
    ensures Rests(e, u)
  {}

  /** Enough pivots at two levels closer than the coil width, and a last close that is between
      them and did not move. */
  lemma {:induction false} LevelsReadAsRange(cs: seq<Candle>, p: Params, u: Scale, swings: seq<Swing>, top: real, bottom: real)
    requires Valid(p) && u == ScaleOf(cs, p) && 0.0 < u.atr && 0.0 < u.impulse && u.span != 0.0
    requires swings == Swings(cs, u.minMove) && AtLevels(swings, top, bottom) && |swings| >= p.minSwings
    requires p.atrPeriod + 2 <= |cs| && top - bottom < u.band
    requires cs[|cs| - 1].close == cs[|cs| - 2].close && bottom <= cs[|cs| - 1].close <= top
    ensures ReadsAsRange(cs, p)
  {
    LevelsAreTheBand(cs, p, u.minMove, top, bottom);
    LevelsHaveNoPolarity(swings, top, bottom);
    LastCloses(cs);
    var e := EvidenceOf(cs, p, u, swings);
    LevelsRest(e, u, top, bottom);
    RangeEvidence(cs, p, e, u);
  }

  // ----- the history -----

  /** A candle that opens and closes at its low of 1. */
  function Bar(high: real): Candle {
    Candle(1.0, high, 1.0, 1.0, 0.0, 0.0, 0.0)
  }

  /** m tall candles, k without extent, and a last one with a wick of length x. */
  function Coiling(m: nat, k: nat, x: real): (cs: seq<Candle>)
    ensures |cs| == m + k + 1
    ensures forall i :: 0 <= i < |cs| ==> cs[i] == Bar(if i < m then 2.0 else if i < m + k then 1.0 else 1.0 + x)
  {
    seq(m + k + 1, i => Bar(if i < m then 2.0 else if i < m + k then 1.0 else 1.0 + x))
  }

  lemma {:induction false} LowIsOne(m: nat, k: nat, x: real, a: nat, b: nat)
    requires a <= b <= m + k
    ensures MinLow(Coiling(m, k, x), a, b) == 1.0
    decreases b
  {
    if a < b {
      LowIsOne(m, k, x, a, b - 1);
    }
  }

  /** After the High that the first short candle confirms, at most the wick confirms a Low. */
  lemma {:induction false} TailAtLevels(m: nat, k: nat, x: real, mm: real, j: nat)
    requires 0.0 < mm && m <= j <= m + k + 1
    ensures AtLevels(SwingsFrom(Coiling(m, k, x), mm, Some(Swing(High, 2.0, m)), j), 2.0, 1.0)
    decreases m + k + 1 - j
  {
    var cs, prev := Coiling(m, k, x), Some(Swing(High, 2.0, m));
    if j <= m + k {
      LowIsOne(m, k, x, m, j);
      if Confirms(cs, mm, prev, j) {
        assert j == m + k;
        assert SwingsFrom(cs, mm, prev, j) == [Swing(Low, 1.0, j)];
      } else {
        TailAtLevels(m, k, x, mm, j + 1);
      }
    }
  }

  /** The Low that candle j - 1 confirmed. */
  function LowBefore(j: nat): Option<Swing> {
    if j == 0 then None else Some(Swing(Low, 1.0, j - 1))
  }

  /** The first short candle confirms the High of the last tall one. */
  lemma {:induction false} ShortConfirmsHigh(m: nat, k: nat, x: real, mm: real)
    requires 0.0 < mm <= 1.0 && 1 <= m && 1 <= k
    ensures AtLevels(SwingsFrom(Coiling(m, k, x), mm, LowBefore(m), m), 2.0, 1.0)
  {
    var cs, high := Coiling(m, k, x), Swing(High, 2.0, m);
    assert MaxHigh(cs, m - 1, m) == 2.0;
    assert SwingsFrom(cs, mm, LowBefore(m), m) == [high] + SwingsFrom(cs, mm, Some(high), m);
    TailAtLevels(m, k, x, mm, m);
  }

  lemma {:induction false} TallConfirmsBoth(m: nat, k: nat, x: real, mm: real, j: nat)
    requires 0.0 < mm <= 1.0 && j < m
    ensures var cs := Coiling(m, k, x);
      SwingsFrom(cs, mm, LowBefore(j), j)
        == [Swing(High, 2.0, j), Swing(Low, 1.0, j)] + SwingsFrom(cs, mm, LowBefore(j + 1), j + 1)
  {
    var cs := Coiling(m, k, x);
    var high, low := Swing(High, 2.0, j), Swing(Low, 1.0, j);
    assert MaxHigh(cs, LegStart(LowBefore(j)), j) == 2.0 && MinLow(cs, j, j) == 1.0;
    assert SwingsFrom(cs, mm, Some(high), j) == [low] + SwingsFrom(cs, mm, Some(low), j + 1);
    assert SwingsFrom(cs, mm, LowBefore(j), j) == [high] + SwingsFrom(cs, mm, Some(high), j);
  }

  /** All pivots lie at the two levels, two for every tall candle. */
  lemma {:induction false} CoilingSwings(m: nat, k: nat, x: real, mm: real, j: nat)
    requires 0.0 < mm <= 1.0 && 1 <= m && 1 <= k && j <= m
    ensures var swings := SwingsFrom(Coiling(m, k, x), mm, LowBefore(j), j);
      AtLevels(swings, 2.0, 1.0) && |swings| >= 2 * (m - j)
    decreases m - j
  {
    if j == m {
      ShortConfirmsHigh(m, k, x, mm);
    } else {
      CoilingSwings(m, k, x, mm, j + 1);
      TallConfirmsBoth(m, k, x, mm, j);
    }
  }

  /** Short candles have no true range. */
  lemma {:induction false} ShortRanges(m: nat, k: nat, x: real, lo: nat, hi: nat)
    requires 1 <= m <= lo + 1 && lo <= hi < m + k
    ensures TrueRange.RangeSum(Coiling(m, k, x), lo, hi) == 0.0
    decreases hi
  {
    if lo < hi {
      ShortRanges(m, k, x, lo, hi - 1);
      assert TrueRange.RangeAt(Coiling(m, k, x), hi - 1) == 0.0;
    }
  }

  lemma {:induction false} MeanOf(n: nat, w: real)
    requires 0 < n
    ensures (w * n as real) / n as real == w
  {}

  /** The wick alone sets the ATR. */
  lemma {:induction false} WickSetsAtr(m: nat, period: nat, x: real, w: real)
    requires 1 <= m && 1 <= period && 0.0 <= x == w * period as real
    ensures TrueRange.Atr(Coiling(m, period, x), period) == w
  {
    var cs := Coiling(m, period, x);
    ShortRanges(m, period, x, m, m + period - 1);
    assert TrueRange.RangeAt(cs, m + period - 1) == x;
    MeanOf(period, w);
  }

  lemma {:induction false} Positive(x: real, y: real)
    requires 0.0 < x && 0.0 < y
    ensures 0.0 < x * y
  {}

  lemma {:induction false} ScaleFacts(p: Params, w: real)
    requires Valid(p) && 0.0 < w
    ensures var u := ScaleAt(p, w);
      u.atr == w && 0.0 < u.minMove && 0.0 < u.impulse && u.span != 0.0
  {
    Positive(p.impulseAtrMultiple, w);
    Positive(w, p.atrPeriod as real);
  }

  lemma {:induction false} Inverse(t: real) returns (w: real)
    requires 0.0 < t
    ensures 0.0 < w && w * t == 1.0
  {
    w := 1.0 / t;
  }

  lemma {:induction false} Stretch(w: real, x: real, y: real)
    requires 0.0 < w && x < y
    ensures w * x < w * y
  {
    Positive(w, y - x);
    assert w * (y - x) == w * y - w * x;
  }

  lemma {:induction false} ScaleBounds(p: Params, w: real, low: real, high: real)
    requires w * p.swingAtrMultiple == low && w * p.rangeHeightAtr == high && low < 1.0 < high
    ensures ScaleAt(p, w).minMove <= 1.0 < ScaleAt(p, w).band
  {}

  /** An ATR of which the reversal is less than one and the coil width more. */
  lemma {:induction false} UnitBand(p: Params) returns (w: real)
    requires Valid(p) && p.swingAtrMultiple < p.rangeHeightAtr
    ensures 0.0 < w && ScaleAt(p, w).minMove <= 1.0 < ScaleAt(p, w).band
  {
    var t := (p.swingAtrMultiple + p.rangeHeightAtr) / 2.0;
    w := Inverse(t);
    Stretch(w, p.swingAtrMultiple, t);
    Stretch(w, t, p.rangeHeightAtr);
    ScaleBounds(p, w, w * p.swingAtrMultiple, w * p.rangeHeightAtr);
  }

  // ----- what is read depends on prices only -----

  lemma {:induction false} SameExtrema(cs: seq<Candle>, ds: seq<Candle>, a: nat, b: nat)
    requires CandleAggregation.SameBars(cs, ds) && a <= b < |cs|
    ensures MaxHigh(cs, a, b) == MaxHigh(ds, a, b) && MinLow(cs, a, b) == MinLow(ds, a, b)
    decreases b
  {
    assert CandleAggregation.SameBar(cs[b], ds[b]);
    if a < b {
      SameExtrema(cs, ds, a, b - 1);
    }
  }

  lemma {:induction false} SameSwings(cs: seq<Candle>, ds: seq<Candle>, mm: real, prev: Option<Swing>, k: nat)
    requires CandleAggregation.SameBars(cs, ds) && LegStart(prev) <= k
    ensures SwingsFrom(cs, mm, prev, k) == SwingsFrom(ds, mm, prev, k)
    decreases |cs| - k, if prev.Some? && prev.value.kind == High then 0 else 1
  {
    if k < |cs| {
      SameExtrema(cs, ds, LegStart(prev), k);
      assert CandleAggregation.SameBar(cs[k], ds[k]);
      if Confirms(cs, mm, prev, k) {
        var s := Confirmed(cs, mm, prev, k);
        SameSwings(cs, ds, mm, Some(s), FirstCandidate(Some(s)));
      } else {
        SameSwings(cs, ds, mm, prev, k + 1);
      }
    }
  }

  lemma {:induction false} SameRanges(cs: seq<Candle>, ds: seq<Candle>, lo: nat, hi: nat)
    requires CandleAggregation.SameBars(cs, ds) && lo <= hi && (lo < hi ==> hi < |cs|)
    ensures TrueRange.RangeSum(cs, lo, hi) == TrueRange.RangeSum(ds, lo, hi)
  {
    if lo < hi {
      SameRanges(cs, ds, lo, hi - 1);
      assert CandleAggregation.SameBar(cs[hi - 1], ds[hi - 1]) && CandleAggregation.SameBar(cs[hi], ds[hi]);
    }
  }

  lemma {:induction false} SameAtr(cs: seq<Candle>, ds: seq<Candle>, period: nat)
    requires CandleAggregation.SameBars(cs, ds)
    ensures TrueRange.Atr(cs, period) == TrueRange.Atr(ds, period)
  {
    var n := TrueRange.Covered(cs, period);
    if n > 0 {
      SameRanges(cs, ds, |cs| - 1 - n, |cs| - 1);
    }
  }

  lemma {:induction false} SameClose(cs: seq<Candle>, ds: seq<Candle>, k: nat)
    requires CandleAggregation.SameBars(cs, ds)
    ensures CloseBack(cs, k) == CloseBack(ds, k)
  {
    if k < |cs| {
      assert CandleAggregation.SameBar(cs[|cs| - 1 - k], ds[|cs| - 1 - k]);
    }
  }

  lemma {:induction false} SameReading(cs: seq<Candle>, ds: seq<Candle>, p: Params)
    requires CandleAggregation.SameBars(cs, ds) && ReadsAsRange(cs, p)
    ensures ReadsAsRange(ds, p)
  {
    SameAtr(cs, ds, p.atrPeriod);
    var u := ScaleOf(cs, p);
    SameSwings(cs, ds, u.minMove, None, 0);
    SameClose(cs, ds, 0);
    SameClose(cs, ds, 1);
    if p.atrPeriod > 0 {
      SameClose(cs, ds, p.atrPeriod - 1);
    }
    assert EvidenceOf(cs, p, u, Swings(cs, u.minMove)) == EvidenceOf(ds, p, u, Swings(ds, u.minMove));
  }

  // ----- main results -----

  /** Whenever the band is wider than the reversal, well-formed candles reach the coil labels. */
  lemma {:induction false} CoilIsReachable(p: Params) returns (cs: seq<Candle>)
    requires Valid(p) && p.swingAtrMultiple < p.rangeHeightAtr
    ensures CandleAggregation.AllWellFormed(cs) && ReadsAsRange(cs, p)
  {
    var w := UnitBand(p);
    ScaleFacts(p, w);
    Positive(w, p.atrPeriod as real);
    var m, x := p.minSwings, w * p.atrPeriod as real;
    cs := Coiling(m, p.atrPeriod, x);
    WickSetsAtr(m, p.atrPeriod, x, w);
    var u := ScaleAt(p, w);
    assert u == ScaleOf(cs, p);
    CoilingSwings(m, p.atrPeriod, x, u.minMove, 0);
    LevelsReadAsRange(cs, p, u, Swings(cs, u.minMove), 2.0, 1.0);
  }

  /** The aggregator closes candles that read as RANGE / COIL at these ticks. */
  ghost predicate TicksReadAsRange(tf: real, ticks: seq<CandleAggregation.Tick>, p: Params) {
    && 0.0 < tf && CandleAggregation.Genuine(tf, ticks)
    && ReadsAsRange(CandleAggregation.Closed(CandleAggregation.Runs(ticks)), p)
  }

  lemma {:induction false} WideBandIsNecessary(cs: seq<Candle>, p: Params)
    requires Valid(p) && ReadsAsRange(cs, p)
    ensures p.swingAtrMultiple < p.rangeHeightAtr
  {
    var u := ScaleOf(cs, p);
    var swings := Swings(cs, u.minMove);
    var ctx :| Describes(ctx, EvidenceOf(cs, p, u, swings), u);
    SwingsIsZigzag(cs, u.minMove);
    CoilNeedsWideBand(cs, p, u, swings);
  }

  /** Exactly when the coil labels are live code, from the ticks on and over arbitrary candle
      lists alike: the band is wider than the reversal. */
  lemma {:induction false} CoilIff(tf: real, p: Params)
    requires 0.0 < tf && Valid(p)
    ensures (exists ticks :: TicksReadAsRange(tf, ticks, p)) <==> p.swingAtrMultiple < p.rangeHeightAtr
    ensures (exists cs :: ReadsAsRange(cs, p)) <==> p.swingAtrMultiple < p.rangeHeightAtr
  {
    if cs :| ReadsAsRange(cs, p) {
      WideBandIsNecessary(cs, p);
    }
    if p.swingAtrMultiple < p.rangeHeightAtr {
      var cs := CoilIsReachable(p);
      var ticks := CandleAggregation.EveryHistoryHasTicks(tf, cs);
      var closed := CandleAggregation.Closed(CandleAggregation.Runs(ticks));
      assert CandleAggregation.SameBars(cs, closed);
      SameReading(cs, closed, p);
      assert TicksReadAsRange(tf, ticks, p);
    }
  }
}
