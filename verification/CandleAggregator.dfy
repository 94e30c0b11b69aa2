/** The streaming tick-to-candle fold, proved to compute the maximal runs of ticks that
    share a time bucket, and the bounded candle history built from it. */
module CandleAggregation {
  import opened Common
  import opened Candles

  /** A price tick, stamped with the time bucket its timestamp falls in. */
  datatype Tick = Tick(price: real, ts: real, bucket: real)

  function Bucket(tf: real, ts: real): real
    requires 0.0 < tf
  {
    (ts / tf).Floor as real * tf
  }

  /** A tick's bucket is the multiple of the timeframe that its time lies in. */
  lemma {:induction false} BucketIsFloor(tf: real, ts: real)
    requires 0.0 < tf
    ensures Bucket(tf, ts) <= ts < Bucket(tf, ts) + tf
    ensures exists k :: IsMultiple(tf, Bucket(tf, ts), k)
  {
    var q := ts / tf;
    var b := Bucket(tf, ts);
    QuotientTimes(ts, tf);
    Multiples(q.Floor as real, q, tf, b, ts);
    assert IsMultiple(tf, b, q.Floor);
  }

  lemma {:induction false} ShareOf(d: real, y: real)
    requires 0.0 < y && 0.0 <= d < 1.0
    ensures 0.0 <= d * y < y
  {
    assert 0.0 < (1.0 - d) * y;
  }

  predicate IsMultiple(tf: real, x: real, k: int) {
    x == k as real * tf
  }

  lemma {:induction false} Multiples(k: real, q: real, tf: real, b: real, ts: real)
    requires 0.0 < tf && k <= q < k + 1.0 && b == k * tf && ts == q * tf
    ensures b <= ts < b + tf
  {
    var d := q - k;
    assert d * tf == ts - b;
    ShareOf(d, tf);
  }

  // ----- the definition: maximal runs -----

  function Flatten(groups: seq<seq<Tick>>): seq<Tick> {
    if groups == [] then [] else Flatten(groups[..|groups| - 1]) + groups[|groups| - 1]
  }

  ghost predicate OneBucket(g: seq<Tick>)
  {
    g != [] && forall i :: 0 <= i < |g| ==> g[i].bucket == g[0].bucket
  }

  /** Run i lies in another bucket than run i - 1. */
  ghost predicate BreaksAt(groups: seq<seq<Tick>>, i: nat)
    requires 0 < i < |groups|
  {
    groups[i - 1] != [] && groups[i] != [] && groups[i - 1][0].bucket != groups[i][0].bucket
  }

  /** groups cuts ticks into runs that cannot be extended. */
  ghost predicate IsRuns(groups: seq<seq<Tick>>, ticks: seq<Tick>)
  {
    && Flatten(groups) == ticks
    && (forall i :: 0 <= i < |groups| ==> OneBucket(groups[i]))
    && (forall i :: 0 < i < |groups| ==> BreaksAt(groups, i))
  }

  ghost predicate NonEmpty(groups: seq<seq<Tick>>) {
    forall i :: 0 <= i < |groups| ==> groups[i] != []
  }

  /** A tick extends the last run or starts a new one. */
  function AddTick(groups: seq<seq<Tick>>, t: Tick): (r: seq<seq<Tick>>)
    requires NonEmpty(groups)
    ensures r != [] && NonEmpty(r)
  {
    var n := |groups|;
    if n > 0 && groups[n - 1][0].bucket == t.bucket
    then groups[..n - 1] + [groups[n - 1] + [t]]
    else groups + [[t]]
  }

  /** The runs of a tick list. */
  function Runs(ticks: seq<Tick>): (groups: seq<seq<Tick>>)
    ensures groups != [] <==> ticks != []
    ensures NonEmpty(groups)
  {
    if ticks == [] then [] else AddTick(Runs(ticks[..|ticks| - 1]), ticks[|ticks| - 1])
  }

  lemma {:induction false} FlattenAppend(groups: seq<seq<Tick>>, g: seq<Tick>)
    ensures Flatten(groups + [g]) == Flatten(groups) + g
  {
    assert (groups + [g])[..|groups|] == groups;
  }

  lemma {:induction false} ExtendIsRuns(front: seq<seq<Tick>>, g: seq<Tick>, ticks: seq<Tick>, t: Tick)
    requires IsRuns(front + [g], ticks) && g != [] && g[0].bucket == t.bucket
    ensures IsRuns(front + [g + [t]], ticks + [t])
  {
    var groups, longer := front + [g], front + [g + [t]];
    FlattenAppend(front, g);
    FlattenAppend(front, g + [t]);
    assert groups[|front|] == g && longer[|front|] == g + [t];
    assert OneBucket(groups[|front|]);
    assert OneBucket(g + [t]);
    forall i | 0 <= i < |longer| ensures OneBucket(longer[i]) {
      assert i < |front| ==> longer[i] == groups[i] && OneBucket(groups[i]);
    }
    forall i | 0 < i < |longer| ensures BreaksAt(longer, i) {
      assert BreaksAt(groups, i);
    }
  }

  lemma {:induction false} BreakIsRuns(groups: seq<seq<Tick>>, ticks: seq<Tick>, t: Tick)
    requires IsRuns(groups, ticks) && NonEmpty(groups)
    requires groups != [] ==> groups[|groups| - 1][0].bucket != t.bucket
    ensures IsRuns(groups + [[t]], ticks + [t])
  {
    var longer := groups + [[t]];
    FlattenAppend(groups, [t]);
    forall i | 0 <= i < |longer| ensures OneBucket(longer[i]) {
      assert i < |groups| ==> longer[i] == groups[i] && OneBucket(groups[i]);
    }
    forall i | 0 < i < |longer| ensures BreaksAt(longer, i) {
      if i < |groups| {
        assert BreaksAt(groups, i);
      } else {
        assert longer[i] == [t] && OneBucket(groups[|groups| - 1]) && OneBucket(longer[i - 1]);
      }
    }
  }

  lemma {:induction false} AddTickIsRuns(groups: seq<seq<Tick>>, ticks: seq<Tick>, t: Tick)
    requires IsRuns(groups, ticks) && NonEmpty(groups)
    ensures IsRuns(AddTick(groups, t), ticks + [t])
  {
    var n := |groups|;
    if n > 0 && groups[n - 1][0].bucket == t.bucket {
      assert groups == groups[..n - 1] + [groups[n - 1]];
      ExtendIsRuns(groups[..n - 1], groups[n - 1], ticks, t);
    } else {
      BreakIsRuns(groups, ticks, t);
    }
  }

  lemma {:induction false} RunsAreRuns(ticks: seq<Tick>)
    ensures IsRuns(Runs(ticks), ticks)
  {
    if ticks != [] {
      var front, t := ticks[..|ticks| - 1], ticks[|ticks| - 1];
      RunsAreRuns(front);
      AddTickIsRuns(Runs(front), front, t);
      assert ticks == front + [t];
    }
  }

  /** The runs of a tick list are unique, so Runs is the grouping by bucket. */
  lemma {:induction false} IsRunsUnique(a: seq<seq<Tick>>, b: seq<seq<Tick>>, ticks: seq<Tick>)
    requires IsRuns(a, ticks) && IsRuns(b, ticks)
    ensures a == b
    decreases |ticks|
  {
    assert a != [] ==> OneBucket(a[|a| - 1]);
    assert b != [] ==> OneBucket(b[|b| - 1]);
    if a != [] && b != [] {
      LastRunAgrees(a, b, ticks);
      var x := a[|a| - 1];
      var rest := ticks[..|ticks| - |x|];
      assert OneBucket(x);
      assert Flatten(a[..|a| - 1]) == rest == Flatten(b[..|b| - 1]);
      FrontIsRuns(a, ticks);
      FrontIsRuns(b, ticks);
      IsRunsUnique(a[..|a| - 1], b[..|b| - 1], rest);
    }
  }

  lemma {:induction false} FrontIsRuns(a: seq<seq<Tick>>, ticks: seq<Tick>)
    requires IsRuns(a, ticks) && a != []
    ensures IsRuns(a[..|a| - 1], Flatten(a[..|a| - 1]))
  {
    var f := a[..|a| - 1];
    forall i | 0 <= i < |f| ensures OneBucket(f[i]) {
      assert OneBucket(a[i]);
    }
    forall i | 0 < i < |f| ensures BreaksAt(f, i) {
      assert BreaksAt(a, i);
    }
  }

  /** The tick before the last run, if any, lies in another bucket. */
  lemma {:induction false} LastRunStarts(a: seq<seq<Tick>>, ticks: seq<Tick>)
    requires IsRuns(a, ticks) && a != []
    ensures var x := a[|a| - 1]; var k := |ticks| - |x|;
      && 0 <= k < |ticks| && ticks[k..] == x
      && (forall i :: k <= i < |ticks| ==> ticks[i].bucket == ticks[|ticks| - 1].bucket)
      && (k > 0 ==> ticks[k - 1].bucket != ticks[|ticks| - 1].bucket)
  {
    var x := a[|a| - 1];
    var front := Flatten(a[..|a| - 1]);
    var k := |ticks| - |x|;
    assert OneBucket(x);
    assert ticks == front + x;
    assert forall i :: k <= i < |ticks| ==> ticks[i] == x[i - k];
    if |a| >= 2 {
      var y := a[|a| - 2];
      assert OneBucket(y) && BreaksAt(a, |a| - 1);
      assert a[..|a| - 1][|a| - 2] == y;
      assert front == Flatten(a[..|a| - 1][..|a| - 2]) + y;
      assert ticks[k - 1] == y[|y| - 1];
    }
  }

  lemma {:induction false} LastRunAgrees(a: seq<seq<Tick>>, b: seq<seq<Tick>>, ticks: seq<Tick>)
    requires IsRuns(a, ticks) && IsRuns(b, ticks) && a != [] && b != []
    ensures a[|a| - 1] == b[|b| - 1]
  {
    LastRunStarts(a, ticks);
    LastRunStarts(b, ticks);
    var k, m := |ticks| - |a[|a| - 1]|, |ticks| - |b[|b| - 1]|;
    assert k == m;
  }

  // ----- candles of runs -----

  function Highest(g: seq<Tick>): real
    requires g != []
  {
    if |g| == 1 then g[0].price else Max(Highest(g[..|g| - 1]), g[|g| - 1].price)
  }

  function Lowest(g: seq<Tick>): real
    requires g != []
  {
    if |g| == 1 then g[0].price else Min(Lowest(g[..|g| - 1]), g[|g| - 1].price)
  }

  function CandleOf(g: seq<Tick>, tClose: real): Candle
    requires g != []
  {
    Candle(g[0].price, Highest(g), Lowest(g), g[|g| - 1].price, g[0].bucket, tClose, |g| as real)
  }

  /** All runs but the last one are closed, each by the bucket of the next. */
  function Closed(groups: seq<seq<Tick>>): (cs: seq<Candle>)
    requires NonEmpty(groups)
    ensures |cs| == if groups == [] then 0 else |groups| - 1
  {
    if |groups| <= 1 then []
    else
      var front := groups[..|groups| - 1];
      Closed(front) + [CandleOf(front[|front| - 1], groups[|groups| - 1][0].bucket)]
  }

  lemma {:induction false} ClosedAt(groups: seq<seq<Tick>>, i: nat)
    requires NonEmpty(groups) && i + 1 < |groups|
    ensures Closed(groups)[i] == CandleOf(groups[i], groups[i + 1][0].bucket)
  {
    if i + 2 < |groups| {
      ClosedAt(groups[..|groups| - 1], i);
    }
  }

  /** The candle of a run, price by price: from its first tick to its last, between attained
      bounds, from the start of its bucket to the start of the next run's. */
  lemma {:induction false} CandleSummarizesRun(groups: seq<seq<Tick>>, i: nat)
    requires NonEmpty(groups) && i + 1 < |groups|
    ensures var c, g := Closed(groups)[i], groups[i];
      && c.open == g[0].price && c.close == g[|g| - 1].price && c.volume == |g| as real
      && c.tOpen == g[0].bucket && c.tClose == groups[i + 1][0].bucket
      && (forall k :: 0 <= k < |g| ==> c.low <= g[k].price <= c.high)
      && (exists k :: 0 <= k < |g| && g[k].price == c.high) && (exists k :: 0 <= k < |g| && g[k].price == c.low)
  {
    ClosedAt(groups, i);
    ExtremaBound(groups[i]);
  }

  lemma {:induction false} ExtremaBound(g: seq<Tick>)
    requires g != []
    ensures forall i :: 0 <= i < |g| ==> Lowest(g) <= g[i].price <= Highest(g)
    ensures exists i :: 0 <= i < |g| && g[i].price == Highest(g)
    ensures exists i :: 0 <= i < |g| && g[i].price == Lowest(g)
  {
    if |g| > 1 {
      var f := g[..|g| - 1];
      ExtremaBound(f);
      var i :| 0 <= i < |f| && f[i].price == Highest(f);
      var j :| 0 <= j < |f| && f[j].price == Lowest(f);
      assert g[i].price == Highest(f) && g[j].price == Lowest(f);
      assert g[|g| - 1].price == Highest(g) || g[i].price == Highest(g);
      assert g[|g| - 1].price == Lowest(g) || g[j].price == Lowest(g);
    } else {
      assert g[0].price == Highest(g) == Lowest(g);
    }
  }

  ghost predicate Accepted(ticks: seq<Tick>) {
    forall i :: 0 <= i < |ticks| ==> 0.0 < ticks[i].price
  }

  lemma {:induction false} RunsKeepPrices(ticks: seq<Tick>)
    requires Accepted(ticks)
    ensures forall i :: 0 <= i < |Runs(ticks)| ==> Accepted(Runs(ticks)[i])
  {
    if ticks != [] {
      RunsKeepPrices(ticks[..|ticks| - 1]);
    }
  }

  /** Every closed candle is well formed: the candles the rest of the program reads. */
  lemma {:induction false} ClosedCandlesWellFormed(ticks: seq<Tick>, i: nat)
    requires Accepted(ticks)
    requires i < |Closed(Runs(ticks))|
    ensures WellFormed(Closed(Runs(ticks))[i])
  {
    RunsKeepPrices(ticks);
    ClosedAt(Runs(ticks), i);
    ExtremaBound(Runs(ticks)[i]);
  }

  function Volume(cs: seq<Candle>): real {
    if cs == [] then 0.0 else Volume(cs[..|cs| - 1]) + cs[|cs| - 1].volume
  }

  /** No accepted tick is lost or counted twice. */
  lemma {:induction false} VolumeIsConserved(groups: seq<seq<Tick>>)
    requires groups != []
    requires NonEmpty(groups)
    ensures Volume(Closed(groups)) + |groups[|groups| - 1]| as real == |Flatten(groups)| as real
  {
    if |groups| > 1 {
      var front := groups[..|groups| - 1];
      VolumeIsConserved(front);
      var last := CandleOf(front[|front| - 1], groups[|groups| - 1][0].bucket);
      assert Closed(groups)[..|groups| - 2] == Closed(front) && Closed(groups)[|groups| - 2] == last;
      assert Volume(Closed(groups)) == Volume(Closed(front)) + last.volume;
    } else {
      assert Flatten(groups[..0]) == [];
    }
  }

  // ----- the streaming fold -----

  lemma {:induction false} RunsOfMore(ticks: seq<Tick>, t: Tick)
    ensures Runs(ticks + [t]) == AddTick(Runs(ticks), t)
  {
    assert (ticks + [t])[..|ticks|] == ticks;
  }

  lemma {:induction false} ClosedSnoc(front: seq<seq<Tick>>, g: seq<Tick>)
    requires NonEmpty(front) && front != [] && g != []
    ensures NonEmpty(front + [g])
    ensures Closed(front + [g]) == Closed(front) + [CandleOf(front[|front| - 1], g[0].bucket)]
  {
    assert (front + [g])[..|front|] == front;
  }

  /** The candle of the last run is not closed, so its later ticks do not matter. */
  lemma {:induction false} ClosedIgnoresLast(front: seq<seq<Tick>>, g: seq<Tick>, h: seq<Tick>)
    requires NonEmpty(front) && g != [] && h != [] && g[0].bucket == h[0].bucket
    ensures NonEmpty(front + [g]) && NonEmpty(front + [h])
    ensures Closed(front + [g]) == Closed(front + [h])
  {
    if front != [] {
      ClosedSnoc(front, g);
      ClosedSnoc(front, h);
    }
  }

  lemma {:induction false} AddExtends(front: seq<seq<Tick>>, g: seq<Tick>, t: Tick)
    requires NonEmpty(front) && g != [] && g[0].bucket == t.bucket
    ensures NonEmpty(front + [g]) && AddTick(front + [g], t) == front + [g + [t]]
    ensures Closed(AddTick(front + [g], t)) == Closed(front + [g])
  {
    assert (front + [g])[..|front|] == front;
    ClosedIgnoresLast(front, g, g + [t]);
  }

  lemma {:induction false} RunsExtend(ticks: seq<Tick>, t: Tick)
    requires ticks != [] && var r := Runs(ticks); r[|r| - 1][0].bucket == t.bucket
    ensures var r, now := Runs(ticks), Runs(ticks + [t]);
      && now == r[..|r| - 1] + [r[|r| - 1] + [t]]
      && Closed(now) == Closed(r)
  {
    RunsOfMore(ticks, t);
    var r := Runs(ticks);
    var front, g := r[..|r| - 1], r[|r| - 1];
    assert r == front + [g];
    AddExtends(front, g, t);
  }

  lemma {:induction false} RunsBreak(ticks: seq<Tick>, t: Tick)
    requires ticks != [] && var r := Runs(ticks); r[|r| - 1][0].bucket != t.bucket
    ensures var r, now := Runs(ticks), Runs(ticks + [t]);
      && now == r + [[t]]
      && Closed(now) == Closed(r) + [CandleOf(r[|r| - 1], t.bucket)]
  {
    RunsOfMore(ticks, t);
    ClosedSnoc(Runs(ticks), [t]);
  }

  lemma {:induction false} CandleExtend(g: seq<Tick>, t: Tick, x: real)
    requires g != []
    ensures var a := CandleOf(g, x);
      CandleOf(g + [t], x) ==
        a.(high := Max(a.high, t.price), low := Min(a.low, t.price), close := t.price, volume := a.volume + 1.0)
  {
    assert (g + [t])[..|g|] == g;
  }

  /** The candle of the run that is still open. */
  function Current(ticks: seq<Tick>): Candle
    requires ticks != []
  {
    var r := Runs(ticks);
    CandleOf(r[|r| - 1], 0.0)
  }

  lemma {:induction false} LastRunBucket(r: seq<seq<Tick>>, ticks: seq<Tick>)
    requires IsRuns(r, ticks) && r != []
    ensures r[|r| - 1] != [] && ticks != [] && r[|r| - 1][0].bucket == ticks[|ticks| - 1].bucket
  {
    var g := r[|r| - 1];
    assert OneBucket(g);
    assert ticks[|ticks| - 1] == g[|g| - 1];
  }

  lemma {:induction false} CurrentBucket(ticks: seq<Tick>)
    requires ticks != []
    ensures Current(ticks).tOpen == ticks[|ticks| - 1].bucket
  {
    RunsAreRuns(ticks);
    LastRunBucket(Runs(ticks), ticks);
  }

  /** What the fields hold and what has been closed, after the given ticks. */
  ghost predicate Tracks(ticks: seq<Tick>, open: Option<Candle>, closed: seq<Candle>) {
    && (open.None? <==> ticks == [])
    && (open.Some? ==> open.value == Current(ticks))
    && closed == Closed(Runs(ticks))
  }

  function Fresh(t: Tick): Candle {
    Candle(t.price, t.price, t.price, t.price, t.bucket, 0.0, 1.0)
  }

  function Extended(a: Candle, t: Tick): Candle {
    a.(high := Max(a.high, t.price), low := Min(a.low, t.price), close := t.price, volume := a.volume + 1.0)
  }

  lemma {:induction false} FirstTick(ticks: seq<Tick>, closed: seq<Candle>, t: Tick)
    requires Tracks(ticks, None, closed)
    ensures Tracks(ticks + [t], Some(Fresh(t)), closed)
  {
    assert ticks + [t] == [t];
    assert [t][..0] == [];
    assert Runs([t]) == [[t]];
  }

  lemma {:induction false} SameBucket(ticks: seq<Tick>, open: Candle, closed: seq<Candle>, t: Tick)
    requires Tracks(ticks, Some(open), closed) && t.bucket == open.tOpen
    ensures Tracks(ticks + [t], Some(Extended(open, t)), closed)
  {
    var r := Runs(ticks);
    RunsExtend(ticks, t);
    CandleExtend(r[|r| - 1], t, 0.0);
  }

  lemma {:induction false} NextBucket(ticks: seq<Tick>, open: Candle, closed: seq<Candle>, t: Tick)
    requires Tracks(ticks, Some(open), closed) && t.bucket != open.tOpen
    ensures Tracks(ticks + [t], Some(Fresh(t)), closed + [open.(tClose := t.bucket)])
  {
    RunsBreak(ticks, t);
  }

  ghost predicate Stamped(tf: real, ticks: seq<Tick>)
    requires 0.0 < tf
  {
    forall i :: 0 <= i < |ticks| ==> ticks[i].bucket == Bucket(tf, ticks[i].ts)
  }

  lemma {:induction false} StampedAppend(tf: real, ticks: seq<Tick>, price: real, ts: real)
    requires 0.0 < tf && 0.0 < price && Accepted(ticks) && Stamped(tf, ticks)
    ensures var more := ticks + [Tick(price, ts, Bucket(tf, ts))]; Accepted(more) && Stamped(tf, more)
  {}

  // ----- which candles can be closed -----

  /** Equal prices; times and volume may differ. */
  predicate SameBar(a: Candle, b: Candle) {
    a.open == b.open && a.high == b.high && a.low == b.low && a.close == b.close
  }

  ghost predicate SameBars(cs: seq<Candle>, ds: seq<Candle>) {
    |cs| == |ds| && forall i :: 0 <= i < |cs| ==> SameBar(cs[i], ds[i])
  }

  /** What the aggregator guarantees of all its candles. */
  ghost predicate AllWellFormed(cs: seq<Candle>) {
    forall i :: 0 <= i < |cs| ==> WellFormed(cs[i])
  }

  /** Four ticks that trace a candle, all at the start of bucket b. */
  function BarTicks(c: Candle, b: real): (ticks: seq<Tick>)
    ensures |ticks| == 4
  {
    [Tick(c.open, b, b), Tick(c.high, b, b), Tick(c.low, b, b), Tick(c.close, b, b)]
  }

  lemma {:induction false} BarOfTicks(c: Candle, b: real, tClose: real)
    requires WellFormed(c)
    ensures SameBar(CandleOf(BarTicks(c, b), tClose), c) && OneBucket(BarTicks(c, b)) && Accepted(BarTicks(c, b))
  {
    var g := BarTicks(c, b);
    ExtremaBound(g);
    assert g[1].price == c.high && g[2].price == c.low;
  }

  /** Where bucket i starts. */
  function StartOf(tf: real, i: nat): real {
    i as real * tf
  }

  lemma {:induction false} BucketOfMultiple(tf: real, i: nat, ts: real)
    requires 0.0 < tf && ts == i as real * tf
    ensures ts / tf == i as real
  {}

  lemma {:induction false} NextMultiple(tf: real, x: real)
    requires 0.0 < tf
    ensures x * tf < (x + 1.0) * tf
  {}

  lemma {:induction false} StartIsBucket(tf: real, i: nat)
    requires 0.0 < tf
    ensures Bucket(tf, StartOf(tf, i)) == StartOf(tf, i) && StartOf(tf, i) < StartOf(tf, i + 1)
  {
    BucketOfMultiple(tf, i, StartOf(tf, i));
    assert (StartOf(tf, i) / tf).Floor == i;
    NextMultiple(tf, i as real);
  }

  /** The runs that trace the candles, one per bucket. */
  function RunsFor(tf: real, cs: seq<Candle>): (groups: seq<seq<Tick>>)
    ensures |groups| == |cs|
    ensures forall i :: 0 <= i < |cs| ==> groups[i] == BarTicks(cs[i], StartOf(tf, i))
  {
    seq(|cs|, i requires 0 <= i < |cs| => BarTicks(cs[i], StartOf(tf, i)))
  }

  /** A tick in the next bucket closes the last of them. */
  function ClosingRun(tf: real, n: nat): seq<Tick> {
    [Tick(1.0, StartOf(tf, n), StartOf(tf, n))]
  }

  lemma {:induction false} ForIsRuns(tf: real, cs: seq<Candle>)
    requires 0.0 < tf && AllWellFormed(cs)
    ensures var groups := RunsFor(tf, cs) + [ClosingRun(tf, |cs|)]; IsRuns(groups, Flatten(groups)) && NonEmpty(groups)
  {
    var groups := RunsFor(tf, cs) + [ClosingRun(tf, |cs|)];
    forall i | 0 <= i < |groups| ensures OneBucket(groups[i]) {
      if i < |cs| {
        BarOfTicks(cs[i], StartOf(tf, i), 0.0);
      }
    }
    forall i | 0 < i < |groups| ensures BreaksAt(groups, i) {
      StartIsBucket(tf, i - 1);
      assert groups[i - 1][0].bucket == StartOf(tf, i - 1) && groups[i][0].bucket == StartOf(tf, i);
    }
  }

  ghost predicate Genuine(tf: real, ticks: seq<Tick>)
    requires 0.0 < tf
  {
    Accepted(ticks) && Stamped(tf, ticks)
  }

  lemma {:induction false} FlattenIsGenuine(tf: real, groups: seq<seq<Tick>>)
    requires 0.0 < tf && forall i :: 0 <= i < |groups| ==> Genuine(tf, groups[i])
    ensures Genuine(tf, Flatten(groups))
  {
    if groups != [] {
      FlattenIsGenuine(tf, groups[..|groups| - 1]);
    }
  }

  lemma {:induction false} BarTicksAreGenuine(tf: real, c: Candle, i: nat)
    requires 0.0 < tf && WellFormed(c)
    ensures Genuine(tf, BarTicks(c, StartOf(tf, i))) && Genuine(tf, ClosingRun(tf, i))
  {
    StartIsBucket(tf, i);
  }

  /** Well-formedness is all that the aggregator's candles have in common: every list of
      well-formed candles is closed by some ticks. */
  lemma {:induction false} EveryHistoryHasTicks(tf: real, cs: seq<Candle>) returns (ticks: seq<Tick>)
    requires 0.0 < tf && AllWellFormed(cs)
    ensures Genuine(tf, ticks) && SameBars(Closed(Runs(ticks)), cs)
  {
    var groups := RunsFor(tf, cs) + [ClosingRun(tf, |cs|)];
    ticks := Flatten(groups);
    ForIsRuns(tf, cs);
    RunsAreRuns(ticks);
    IsRunsUnique(groups, Runs(ticks), ticks);
    forall i | 0 <= i < |groups| ensures Genuine(tf, groups[i]) {
      if i < |cs| {
        BarTicksAreGenuine(tf, cs[i], i);
      } else {
        StartIsBucket(tf, |cs|);
      }
    }
    FlattenIsGenuine(tf, groups);
    forall i | 0 <= i < |cs| ensures SameBar(Closed(groups)[i], cs[i]) {
      ClosedAt(groups, i);
      BarOfTicks(cs[i], StartOf(tf, i), groups[i + 1][0].bucket);
    }
  }

  class CandleAggregator {
    const tf: real
    var bucketOpen: Option<real>
    var o: real
    var h: real
    var l: real
    var c: real
    var v: real
    /** Every tick accepted so far. */
    ghost var ticks: seq<Tick>

    ghost predicate Valid()
      reads this
    {
      0.0 < tf && Accepted(ticks) && Stamped(tf, ticks) && Tracks(ticks, Open(), ClosedCandles())
    }

    /** The candle in the fields; its closing time is not known yet. */
    ghost function Open(): Option<Candle>
      reads this
    {
      if bucketOpen.None? then None else Some(Candle(o, h, l, c, bucketOpen.value, 0.0, v))
    }

    ghost function ClosedCandles(): seq<Candle>
      reads this
    {
      Closed(Runs(ticks))
    }

    constructor (tf: real)
      requires 0.0 < tf
      ensures Valid() && this.tf == tf && ticks == []
    {
      this.tf := tf;
      bucketOpen := None;
      o, h, l, c, v := 0.0, 0.0, 0.0, 0.0, 0.0;
      ticks := [];
    }

    /** Feeding a tick returns the one candle, if any, by which the closed runs grew. */
    method Feed(price: real, ts: real) returns (closed: Option<Candle>)
      requires Valid()
      modifies this
      ensures Valid()
      ensures ticks == if price <= 0.0 then old(ticks) else old(ticks) + [Tick(price, ts, Bucket(tf, ts))]
      ensures ClosedCandles() == old(ClosedCandles()) + (if closed.Some? then [closed.value] else [])
    {
      closed := None;
      if price <= 0.0 {
        return;
      }
      var bucket := Bucket(tf, ts);
      StampedAppend(tf, ticks, price, ts);
      closed := FeedBucket(price, Tick(price, ts, bucket));
    }

    method FeedBucket(price: real, t: Tick) returns (closed: Option<Candle>)
      requires Tracks(ticks, Open(), ClosedCandles()) && t.price == price
      modifies this
      ensures ticks == old(ticks) + [t] && Tracks(ticks, Open(), ClosedCandles())
      ensures ClosedCandles() == old(ClosedCandles()) + (if closed.Some? then [closed.value] else [])
    {
      ghost var open, before := Open(), ClosedCandles();
      closed := Fold(price, t.bucket);
      if open.None? {
        FirstTick(ticks, before, t);
      } else if t.bucket == open.value.tOpen {
        SameBucket(ticks, open.value, before, t);
      } else {
        NextBucket(ticks, open.value, before, t);
      }
      ticks := ticks + [t];
    }

    method Fold(price: real, bucket: real) returns (closed: Option<Candle>)
      modifies this`bucketOpen, this`o, this`h, this`l, this`c, this`v
      ensures closed == if bucketOpen.Some? && old(Open()).Some? && old(Open()).value.tOpen != bucket
        then Some(old(Open()).value.(tClose := bucket)) else None
      ensures Open() == if old(Open()).Some? && old(Open()).value.tOpen == bucket
        then Some(Extended(old(Open()).value, Tick(price, 0.0, bucket))) else Some(Fresh(Tick(price, 0.0, bucket)))
    {
      closed := None;
      if bucketOpen.None? {
        Restart(price, bucket);
      } else if bucket != bucketOpen.value {
        closed := Some(Candle(o, h, l, c, bucketOpen.value, bucket, v));
        Restart(price, bucket);
      }
      Absorb(price);
    }

    /** A new bucket opens on the price that reached it. */
    method Restart(price: real, bucket: real)
      modifies this`bucketOpen, this`o, this`h, this`l, this`c, this`v
      ensures bucketOpen == Some(bucket) && o == h == l == c == price && v == 0.0
    {
      bucketOpen := Some(bucket);
      o, h, l, c := price, price, price, price;
      v := 0.0;
    }

    /** The price enters the open bucket. */
    method Absorb(price: real)
      modifies this`h, this`l, this`c, this`v
      ensures h == Max(old(h), price) && l == Min(old(l), price) && c == price && v == old(v) + 1.0
    {
      h := Max(h, price);
      l := Min(l, price);
      c := price;
      v := v + 1.0;
    }

    /** The unclosed candle, when ts still lies in its bucket. */
    method Forming(ts: real) returns (candle: Option<Candle>)
      requires Valid()
      ensures candle ==
        if ticks == [] || ticks[|ticks| - 1].bucket != Bucket(tf, ts) then None
        else Some(Current(ticks).(tClose := ts))
    {
      if ticks != [] {
        CurrentBucket(ticks);
      }
      candle := Snapshot(Bucket(tf, ts), ts);
    }

    method Snapshot(bucket: real, ts: real) returns (candle: Option<Candle>)
      ensures candle == if Open().None? || Open().value.tOpen != bucket then None else Some(Open().value.(tClose := ts))
    {
      if bucketOpen.None? || bucket != bucketOpen.value {
        return None;
      }
      return Some(Candle(o, h, l, c, bucketOpen.value, ts, v));
    }
  }
}
