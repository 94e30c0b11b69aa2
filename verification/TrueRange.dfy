/** The average true range, written three times in the program: over a trailing window
    (market structure reader), over a whole prefix, and over a 17-candle tail (learner).
    All three are the mean of the last `period` true ranges. */
module TrueRange {
  import opened Common
  import opened Candles

  function Range(prevClose: real, c: Candle): real {
    Max(Max(c.high - c.low, Abs(c.high - prevClose)), Abs(c.low - prevClose))
  }

  /** The true range of candle i + 1. */
  function RangeAt(cs: seq<Candle>, i: nat): real
    requires i + 1 < |cs|
  {
    Range(cs[i].close, cs[i + 1])
  }

  /** The true ranges lo, .., hi - 1, added up. */
  function RangeSum(cs: seq<Candle>, lo: nat, hi: nat): real
    requires lo <= hi && (lo < hi ==> hi < |cs|)
  {
    if lo == hi then 0.0 else RangeSum(cs, lo, hi - 1) + RangeAt(cs, hi - 1)
  }

  /** How many true ranges the average covers. */
  function Covered(cs: seq<Candle>, period: nat): nat {
    if |cs| <= 1 then 0 else if |cs| - 1 <= period then |cs| - 1 else period
  }

  /** The definition: the mean of the last `period` true ranges, 0 without any. */
  function Atr(cs: seq<Candle>, period: nat): real {
    var n := Covered(cs, period);
    if n == 0 then 0.0 else RangeSum(cs, |cs| - 1 - n, |cs| - 1) / n as real
  }

  lemma {:induction false} RangeSumOfTail(cs: seq<Candle>, d: nat, lo: nat, hi: nat)
    requires d + hi < |cs| && lo <= hi
    ensures RangeSum(cs[d..], lo, hi) == RangeSum(cs, d + lo, d + hi)
  {
    if lo < hi {
      RangeSumOfTail(cs, d, lo, hi - 1);
    }
  }

  /** Only the last period + 1 candles matter: any longer tail has the same ATR. */
  lemma {:induction false} AtrIsLocal(cs: seq<Candle>, n: nat, period: nat)
    requires period + 1 <= n
    ensures Atr(LastN(cs, n), period) == Atr(cs, period)
  {
    if |cs| > n && period > 0 {
      RangeSumOfTail(cs, |cs| - n, n - 1 - period, n - 1);
    }
  }

  // ----- what the average is -----

  /** The true range is the extent of the candle together with the close before it, so a gap
      counts on either side. */
  lemma {:induction false} RangeIsExtent(prevClose: real, c: Candle)
    requires c.low <= c.high
    ensures Range(prevClose, c) == Max(prevClose, c.high) - Min(prevClose, c.low)
  {}

  lemma {:induction false} RangeSumOfMore(cs: seq<Candle>, c: Candle, lo: nat, hi: nat)
    requires lo <= hi < |cs|
    ensures RangeSum(cs + [c], lo, hi) == RangeSum(cs, lo, hi)
  {
    if lo < hi {
      RangeSumOfMore(cs, c, lo, hi - 1);
    }
  }

  lemma {:induction false} RangeSumDropsFirst(cs: seq<Candle>, lo: nat, hi: nat)
    requires lo < hi < |cs|
    ensures RangeSum(cs, lo, hi) == RangeAt(cs, lo) + RangeSum(cs, lo + 1, hi)
  {
    if lo + 1 < hi {
      RangeSumDropsFirst(cs, lo, hi - 1);
    } else {
      assert RangeSum(cs, lo, lo) == 0.0;
    }
  }

  lemma {:induction false} MeanTimes(total: real, n: nat)
    requires 0 < n
    ensures total / n as real * n as real == total
  {}

  /** The last `period` true ranges, added up. */
  function Total(cs: seq<Candle>, period: nat): real {
    if |cs| < 2 then 0.0 else RangeSum(cs, |cs| - 1 - Covered(cs, period), |cs| - 1)
  }

  /** The average, times how many ranges it covers, is their total. */
  lemma {:induction false} AtrTotal(cs: seq<Candle>, period: nat)
    requires 2 <= |cs| && 1 <= period
    ensures Atr(cs, period) * (if |cs| <= period then |cs| - 1 else period) as real == Total(cs, period)
  {
    MeanTimes(Total(cs, period), Covered(cs, period));
  }

  lemma {:induction false} NewestRange(cs: seq<Candle>, c: Candle, lo: nat)
    requires cs != [] && lo < |cs|
    ensures RangeSum(cs + [c], lo, |cs|) == RangeSum(cs, lo, |cs| - 1) + Range(cs[|cs| - 1].close, c)
  {
    RangeSumOfMore(cs, c, lo, |cs| - 1);
  }

  lemma {:induction false} TotalGrows(cs: seq<Candle>, c: Candle, period: nat)
    requires 1 <= period && 1 <= |cs| <= period
    ensures Total(cs + [c], period) == Total(cs, period) + Range(cs[|cs| - 1].close, c)
  {
    NewestRange(cs, c, 0);
  }

  lemma {:induction false} TotalTurnsOver(cs: seq<Candle>, c: Candle, period: nat)
    requires 1 <= period < |cs|
    ensures Total(cs + [c], period) + RangeAt(cs, |cs| - 1 - period) == Total(cs, period) + Range(cs[|cs| - 1].close, c)
  {
    NewestRange(cs, c, |cs| - period);
    RangeSumDropsFirst(cs, |cs| - 1 - period, |cs| - 1);
  }

  /** The total is fixed by how it moves: each candle adds its true range, and a full window drops
      its oldest. */
  lemma {:induction false} TotalSlides(cs: seq<Candle>, c: Candle, period: nat)
    requires 1 <= period && cs != []
    ensures Total([], period) == 0.0 == Total([c], period)
    ensures Total(cs + [c], period) + (if |cs| <= period then 0.0 else RangeAt(cs, |cs| - 1 - period))
      == Total(cs, period) + Range(cs[|cs| - 1].close, c)
  {
    if |cs| <= period {
      TotalGrows(cs, c, period);
    } else {
      TotalTurnsOver(cs, c, period);
    }
  }

  function Copies(x: real, n: nat): real {
    if n == 0 then 0.0 else Copies(x, n - 1) + x
  }

  lemma {:induction false} CopiesIsProduct(x: real, n: nat)
    ensures Copies(x, n) == x * n as real
  {
    if n > 0 {
      CopiesIsProduct(x, n - 1);
      assert x * n as real == x * (n - 1) as real + x;
    }
  }

  lemma {:induction false} EqualRanges(cs: seq<Candle>, lo: nat, hi: nat, x: real)
    requires lo <= hi && (lo < hi ==> hi < |cs|) && forall i :: lo <= i < hi ==> RangeAt(cs, i) == x
    ensures RangeSum(cs, lo, hi) == Copies(x, hi - lo)
  {
    if lo < hi {
      EqualRanges(cs, lo, hi - 1, x);
    }
  }

  lemma {:induction false} MeanOfEqual(total: real, n: nat, x: real)
    requires 0 < n && total == Copies(x, n)
    ensures total / n as real == x
  {
    CopiesIsProduct(x, n);
    QuotientIs(x, n as real);
  }

  lemma {:induction false} QuotientIs(x: real, n: real)
    requires 0.0 < n
    ensures x * n / n == x
  {}

  /** Equal ranges average to themselves. */
  lemma {:induction false} AtrOfEqual(cs: seq<Candle>, period: nat, x: real)
    requires 1 <= period && 2 <= |cs| && forall i :: 0 <= i < |cs| - 1 ==> RangeAt(cs, i) == x
    ensures Atr(cs, period) == x
  {
    var n := Covered(cs, period);
    var lo := |cs| - 1 - n;
    EqualRanges(cs, lo, |cs| - 1, x);
    MeanOfEqual(RangeSum(cs, lo, |cs| - 1), n, x);
  }

  function Sum(xs: seq<real>): real {
    if xs == [] then 0.0 else Sum(xs[..|xs| - 1]) + xs[|xs| - 1]
  }

  ghost predicate AreRanges(cs: seq<Candle>, lo: nat, xs: seq<real>) {
    lo + |xs| <= |cs| && forall k :: 0 <= k < |xs| && lo + k + 1 < |cs| ==> xs[k] == RangeAt(cs, lo + k)
  }

  lemma {:induction false} SumOfRanges(cs: seq<Candle>, lo: nat, xs: seq<real>)
    requires AreRanges(cs, lo, xs) && lo + |xs| < |cs|
    ensures Sum(xs) == RangeSum(cs, lo, lo + |xs|)
  {
    if xs != [] {
      var k := |xs| - 1;
      assert forall j :: 0 <= j < k ==> xs[..k][j] == xs[j];
      SumOfRanges(cs, lo, xs[..k]);
    }
  }

  /** The reader: the true ranges of the trailing window only. */
  method AtrOf(candles: seq<Candle>, period: nat) returns (atr: real)
    requires period >= 1
    ensures atr == Atr(candles, period)
  {
    if |candles| == 0 {
      return 0.0;
    }
    var window := LastN(candles, period + 1);
    if |window| <= 1 {
      return 0.0;
    }
    var trs := WindowRanges(window);
    atr := Mean(trs);
    SumOfRanges(window, 0, trs);
    AtrIsLocal(candles, period + 1, period);
  }

  /** The reader's loop, which carries the previous close along. */
  method WindowRanges(window: seq<Candle>) returns (trs: seq<real>)
    requires window != []
    ensures |trs| == |window| - 1 && AreRanges(window, 0, trs)
  {
    trs := [];
    var prevClose := window[0].close;
    for i := 1 to |window|
      invariant prevClose == window[i - 1].close
      invariant |trs| == i - 1 && AreRanges(window, 0, trs)
    {
      var c := window[i];
      trs := trs + [Range(prevClose, c)];
      prevClose := c.close;
    }
  }

  /** The learner's loop over every candle it is given. */
  method AtrOfAll(candles: seq<Candle>, period: nat) returns (atr: real)
    requires period >= 1
    ensures atr == Atr(candles, period)
  {
    if |candles| < 2 {
      return 0.0;
    }
    var trs: seq<real> := [];
    for i := 1 to |candles|
      invariant |trs| == i - 1 && AreRanges(candles, 0, trs)
    {
      var p, c := candles[i - 1], candles[i];
      trs := trs + [Range(p.close, c)];
    }
    var window := LastN(trs, period);
    assert AreRanges(candles, |trs| - |window|, window);
    SumOfRanges(candles, |trs| - |window|, window);
    atr := Mean(window);
  }

  method Mean(xs: seq<real>) returns (m: real)
    requires xs != []
    ensures m == Sum(xs) / |xs| as real
  {
    var total := 0.0;
    for i := 0 to |xs|
      invariant total == Sum(xs[..i])
    {
      assert xs[..i + 1][..i] == xs[..i];
      total := total + xs[i];
    }
    assert xs[..|xs|] == xs;
    m := total / |xs| as real;
  }
}
