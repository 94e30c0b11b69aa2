/** The incremental engine: ticks in, bounded candle history, structure snapshot out. */
module ContextEngine {
  import opened Common
  import opened Candles
  import opened CandleAggregation
  import MC = MarketContext
  import CR = ContextReading
  import TrueRange
  import Zigzag

  /** ctx is what the reference reads off exactly these candles and their zigzag. */
  ghost predicate SnapshotOf(ctx: MC.Context, cs: seq<Candle>, p: MC.Params) {
    exists f, swings :: CR.AreFacts(f, cs, p, swings) && CR.Reads(ctx, f, cs, p, swings)
  }

  /** A timestamp may be missing, present but null, or a time. */
  datatype Stamp = Missing | Null | At(time: real)

  /** A tick message; a missing price counts as 0, a missing timestamp as the time of arrival. */
  datatype Message = Message(price: Option<real>, timestamp: Stamp) {
    function PriceRead(): real {
      if price.Some? then price.value else 0.0
    }

    function TimeRead(now: real): real {
      if timestamp.At? then timestamp.time else now
    }
  }

  /** The dictionary that snapshot() returns. */
  datatype Report = Report(
    assetId: string, timeframe: real, closedCandles: nat, atr: real, regime: MC.Regime, phase: MC.Phase, bias: MC.Bias,
    momentum: real, swingHigh: Option<real>, swingLow: Option<real>, coilBounds: Option<(real, real)>, structureAge: int,
    expectedRemaining: Option<real>, expansionPotential: Option<real>, integrity: bool, breakLevel: Option<real>)

  lemma {:induction false} RoundsToDecimals(x: real)
    ensures IsRounded(Round2(x), x, 100.0) && IsRounded(Round6(x), x, 1000000.0) && IsRounded(Round8(x), x, 100000000.0)
  {
    Rounds(x, 100.0);
    Rounds(x, 1000000.0);
    Rounds(x, 100000000.0);
  }

  function Hundredths(x: Option<real>): (r: Option<real>)
    ensures IsRoundedOption(r, x, 100.0)
  {
    match x
    case None => None
    case Some(value) => RoundsToDecimals(value); Some(Round2(value))
  }

  predicate IsRoundedOption(x: Option<real>, y: Option<real>, scale: real) {
    x.Some? == y.Some? && (x.Some? ==> IsRounded(x.value, y.value, scale))
  }

  /** The report says what the snapshot says: labels, levels and counts exactly, the four derived
      quantities rounded to eight, six and two decimals. */
  ghost predicate Reports(r: Report, ctx: MC.Context) {
    && r.closedCandles == ctx.closedCandles && r.regime == ctx.regime && r.phase == ctx.phase && r.bias == ctx.bias
    && r.swingHigh == ctx.swingHigh && r.swingLow == ctx.swingLow && r.coilBounds == ctx.coilBounds
    && r.structureAge == ctx.structureAge && r.integrity == ctx.integrity && r.breakLevel == ctx.breakLevel
    && IsRounded(r.atr, ctx.atr, 100000000.0) && IsRounded(r.momentum, ctx.momentum, 1000000.0)
    && IsRoundedOption(r.expectedRemaining, ctx.expectedRemaining, 100.0)
    && IsRoundedOption(r.expansionPotential, ctx.expansionPotential, 100.0)
  }

  /** What one tick yields: an exception, nothing, or the report of the candle it closed. */
  datatype Outcome = TypeError | NoCandle | Closed(report: Report)

  class MarketContextEngine {
    const assetId: string
    const params: MC.Params
    const maxCandles: nat
    const aggregator: CandleAggregator
    var candles: seq<Candle>
    var context: MC.Context

    /** The history kept is the longest allowed suffix of all candles ever closed, and the
        context is its snapshot. */
    ghost predicate Valid()
      reads this, aggregator
    {
      && MC.Valid(params) && 30 <= maxCandles
      && aggregator.Valid()
      && candles == LastN(aggregator.ClosedCandles(), maxCandles)
      && SnapshotOf(context, candles, params)
    }

    constructor (assetId: string, p: MC.Params, tf: real, maxCandles: nat)
      requires MC.Valid(p) && 0.0 < tf && 30 <= maxCandles
      ensures Valid() && fresh(aggregator) && this.assetId == assetId && params == p && aggregator.tf == tf
      ensures candles == [] && aggregator.ticks == []
    {
      this.assetId, params := assetId, p;
      this.maxCandles := maxCandles;
      aggregator := new CandleAggregator(tf);
      candles := [];
      context := MC.Seeding(0, 0.0);
      EmptySnapshot(p);
    }

    /** A report is returned exactly when a candle closes, and it is that of the history that
        includes the candle. A null timestamp raises before anything changes. */
    method Ingest(tick: Message, now: real) returns (r: Outcome)
      requires Valid()
      modifies this, aggregator
      ensures Valid()
      ensures r == TypeError <==> tick.timestamp.Null?
      ensures tick.timestamp.Null? || tick.price.None? || tick.price.value <= 0.0 ==>
        aggregator.ticks == old(aggregator.ticks)
      ensures !tick.timestamp.Null? && tick.price.Some? && tick.price.value > 0.0 ==>
        var ts := if tick.timestamp.Missing? then now else tick.timestamp.time;
        aggregator.ticks == old(aggregator.ticks) + [Tick(tick.price.value, ts, Bucket(aggregator.tf, ts))]
      ensures r.Closed? <==> |aggregator.ClosedCandles()| > |old(aggregator.ClosedCandles())|
      ensures !r.Closed? ==> candles == old(candles) && context == old(context)
      ensures r.Closed? ==> Reports(r.report, context) && r.report.assetId == assetId && r.report.timeframe == aggregator.tf
    {
      if tick.timestamp.Null? {
        return TypeError;
      }
      ghost var all := aggregator.ClosedCandles();
      var closed := aggregator.Feed(tick.PriceRead(), tick.TimeRead(now));
      if closed.None? {
        assert all + [] == all;
        return NoCandle;
      }
      LastNAppend(all, closed.value, maxCandles);
      var report := Close(closed.value);
      return Closed(report);
    }

    /** The rest of ingest() once a candle has closed. */
    method Close(c: Candle) returns (report: Report)
      requires MC.Valid(params)
      modifies this`candles, this`context
      ensures candles == LastN(old(candles) + [c], maxCandles)
      ensures SnapshotOf(context, candles, params) && Reports(report, context)
      ensures report.assetId == assetId && report.timeframe == aggregator.tf
    {
      Remember(c);
      context := MC.BuildContext(candles, params);
      ghost var f, swings := CR.SnapshotReads(context, candles, params);
      report := Snapshot();
    }

    /** Readable at any time; before the first candle it reports an empty history. */
    method Snapshot() returns (r: Report)
      ensures Reports(r, context) && r.assetId == assetId && r.timeframe == aggregator.tf
    {
      RoundsToDecimals(context.atr);
      RoundsToDecimals(context.momentum);
      r := Report(
        assetId, aggregator.tf, context.closedCandles, Round8(context.atr), context.regime, context.phase, context.bias,
        Round6(context.momentum), context.swingHigh, context.swingLow, context.coilBounds, context.structureAge,
        Hundredths(context.expectedRemaining), Hundredths(context.expansionPotential),
        context.integrity, context.breakLevel);
    }

    method Remember(c: Candle)
      modifies this`candles
      ensures candles == LastN(old(candles) + [c], maxCandles)
    {
      candles := candles + [c];
      if |candles| > maxCandles {
        candles := candles[|candles| - maxCandles..];
      }
    }
  }

  lemma {:induction false} EmptySnapshot(p: MC.Params)
    requires MC.Valid(p)
    ensures SnapshotOf(MC.Seeding(0, 0.0), [], p)
  {
    var u := MC.ScaleOf([], p);
    MC.SpanIsUsable(p, u.atr);
    MC.SeedingSnapshot(MC.EvidenceOf([], p, u, Zigzag.Swings([], u.minMove)), u);
    var f, swings := CR.SnapshotReads(MC.Seeding(0, 0.0), [], p);
  }
}
