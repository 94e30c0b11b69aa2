/** The pullback lifecycle tracker. Its two hand-written halves are modelled as written, and
    proved to be exact mirror images over every run; then what every run keeps. */
module Pullback {
  import opened Common
  import opened Candles

  datatype Params = Params(minImpulseAtr: real, minDepth: real, maxDepth: real, bufferAtr: real)

  datatype State = Aligned | ArmedState | Broken
  /** RESUMED is only ever returned, never stored. */
  datatype Transition = ToArmed | ToResumed | ToBroken

  const CAP := 200

  datatype Tracker = Tracker(
    direction: int, origin: real, extreme: real, retrace: Option<real>, state: State, depths: seq<real>)

  const INITIAL := Tracker(0, 0.0, 0.0, None, Aligned, [])

  function Depth(s: Tracker, price: real): real {
    var leg := Abs(s.extreme - s.origin);
    if leg <= 0.0 then 0.0
    else if s.direction > 0 then (s.extreme - price) / leg
    else (price - s.extreme) / leg
  }

  function Recorded(depths: seq<real>, depth: real): seq<real> {
    if 0.0 < depth < 1.0 then LastN(depths + [depth], CAP) else depths
  }

  /** Half an ATR, buffer_atr and min_impulse_atr in price units, at the current ATR. */
  datatype Scale = Scale(atr: real, half: real, buffer: real, impulse: real)

  function ScaleAt(p: Params, atr: real): Scale {
    Scale(atr, 0.5 * atr, p.bufferAtr * atr, p.minImpulseAtr * atr)
  }

  function StepBull(p: Params, s: Tracker, c: Candle, u: Scale): (Tracker, Option<Transition>) {
    var leg := s.extreme - s.origin;
    if c.close < s.origin then (s.(state := Broken), Some(ToBroken))
    else if c.high > s.extreme + u.buffer then
      if s.state == ArmedState && s.retrace.Some? then
        (s.(depths := Recorded(s.depths, Depth(s, s.retrace.value)), state := Aligned,
            origin := s.retrace.value, extreme := Max(s.extreme, c.high), retrace := None),
         Some(ToResumed))
      else (s.(state := Aligned, extreme := Max(s.extreme, c.high), retrace := None), None)
    else if s.state == Aligned && c.low < s.extreme && leg >= u.impulse then
      if p.minDepth <= Depth(s, c.low) < p.maxDepth
      then (s.(state := ArmedState, retrace := Some(c.low)), Some(ToArmed))
      else (s, None)
    else if s.state == ArmedState && (s.retrace.None? || c.low < s.retrace.value)
      then (s.(retrace := Some(c.low)), None)
    else (s, None)
  }

  function StepBear(p: Params, s: Tracker, c: Candle, u: Scale): (Tracker, Option<Transition>) {
    var leg := s.origin - s.extreme;
    if c.close > s.origin then (s.(state := Broken), Some(ToBroken))
    else if c.low < s.extreme - u.buffer then
      if s.state == ArmedState && s.retrace.Some? then
        (s.(depths := Recorded(s.depths, Depth(s, s.retrace.value)), state := Aligned,
            origin := s.retrace.value, extreme := Min(s.extreme, c.low), retrace := None),
         Some(ToResumed))
      else (s.(state := Aligned, extreme := Min(s.extreme, c.low), retrace := None), None)
    else if s.state == Aligned && c.high > s.extreme && leg >= u.impulse then
      if p.minDepth <= Depth(s, c.high) < p.maxDepth
      then (s.(state := ArmedState, retrace := Some(c.high)), Some(ToArmed))
      else (s, None)
    else if s.state == ArmedState && (s.retrace.None? || c.high > s.retrace.value)
      then (s.(retrace := Some(c.high)), None)
    else (s, None)
  }

  function Update(p: Params, s: Tracker, c: Candle, u: Scale): (Tracker, Option<Transition>) {
    if u.atr <= 0.0 then (s, None)
    else if s.direction == 0 then
      var body := c.close - c.open;
      if Abs(body) >= u.half
      then (s.(direction := if body > 0.0 then 1 else -1, origin := c.open,
               extreme := if body > 0.0 then c.high else c.low), None)
      else (s, None)
    else if s.direction > 0 then StepBull(p, s, c, u)
    else StepBear(p, s, c, u)
  }

  /** One call of update: a candle and the ATR passed with it. */
  datatype Bar = Bar(candle: Candle, u: Scale)

  ghost predicate ScaledBars(bars: seq<Bar>) {
    forall i :: 0 <= i < |bars| ==> (0.0 < bars[i].u.atr ==> 0.0 < bars[i].u.half)
  }

  function BarsAt(p: Params, candles: seq<Candle>, atrs: seq<real>): (bars: seq<Bar>)
    requires |candles| == |atrs|
    ensures |bars| == |candles|
  {
    if candles == [] then [] else
      var n := |candles| - 1;
      BarsAt(p, candles[..n], atrs[..n]) + [Bar(candles[n], ScaleAt(p, atrs[n]))]
  }

  lemma {:induction false} BarsAtAreScaled(p: Params, candles: seq<Candle>, atrs: seq<real>)
    requires |candles| == |atrs|
    ensures ScaledBars(BarsAt(p, candles, atrs))
  {
    if candles != [] {
      var n := |candles| - 1;
      BarsAtAreScaled(p, candles[..n], atrs[..n]);
    }
  }

  function Run(p: Params, s: Tracker, bars: seq<Bar>): Tracker {
    if bars == [] then s else
      var front, b := bars[..|bars| - 1], bars[|bars| - 1];
      Update(p, Run(p, s, front), b.candle, b.u).0
  }

  /** The non-None results of update, in order. */
  function Log(p: Params, s: Tracker, bars: seq<Bar>): seq<Transition> {
    if bars == [] then [] else
      var front, b := bars[..|bars| - 1], bars[|bars| - 1];
      var out := Update(p, Run(p, s, front), b.candle, b.u).1;
      Log(p, s, front) + (if out.Some? then [out.value] else [])
  }

  // ----- the mirror -----

  function MirrorCandle(c: Candle, k: real): Candle {
    c.(open := k - c.open, high := k - c.low, low := k - c.high, close := k - c.close)
  }

  function Mirror(s: Tracker, k: real): Tracker {
    if s.direction == 0 then s
    else s.(direction := -s.direction, origin := k - s.origin, extreme := k - s.extreme,
            retrace := if s.retrace.None? then None else Some(k - s.retrace.value))
  }

  lemma {:induction false} DepthMirrors(s: Tracker, k: real, price: real)
    requires s.direction != 0
    ensures Depth(Mirror(s, k), k - price) == Depth(s, price)
  {
    var m := Mirror(s, k);
    assert Abs(m.extreme - m.origin) == Abs(s.extreme - s.origin);
    assert (k - price) - m.extreme == s.extreme - price;
  }

  lemma {:induction false} BullMirrorsBear(p: Params, s: Tracker, c: Candle, u: Scale, k: real)
    requires s.direction > 0
    ensures var (t, out) := StepBull(p, s, c, u);
      StepBear(p, Mirror(s, k), MirrorCandle(c, k), u) == (Mirror(t, k), out)
  {
    DepthMirrors(s, k, c.low);
    if s.retrace.Some? {
      DepthMirrors(s, k, s.retrace.value);
    }
  }

  lemma {:induction false} BearMirrorsBull(p: Params, s: Tracker, c: Candle, u: Scale, k: real)
    requires s.direction < 0
    ensures var (t, out) := StepBear(p, s, c, u);
      StepBull(p, Mirror(s, k), MirrorCandle(c, k), u) == (Mirror(t, k), out)
  {
    DepthMirrors(s, k, c.high);
    if s.retrace.Some? {
      DepthMirrors(s, k, s.retrace.value);
    }
  }

  ghost predicate Fresh(s: Tracker) {
    s.direction == 0 ==> s == INITIAL
  }

  lemma {:induction false} UpdateMirrors(p: Params, s: Tracker, c: Candle, u: Scale, k: real)
    requires Fresh(s) && (0.0 < u.atr ==> 0.0 < u.half)
    ensures Update(p, Mirror(s, k), MirrorCandle(c, k), u) == (Mirror(Update(p, s, c, u).0, k), Update(p, s, c, u).1)
    ensures Fresh(Update(p, s, c, u).0)
  {
    if s.direction > 0 {
      BullMirrorsBear(p, s, c, u, k);
    } else if s.direction < 0 {
      BearMirrorsBull(p, s, c, u, k);
    }
  }

  function MirrorBars(bars: seq<Bar>, k: real): (r: seq<Bar>)
    ensures |r| == |bars|
  {
    if bars == [] then [] else
      var b := bars[|bars| - 1];
      MirrorBars(bars[..|bars| - 1], k) + [Bar(MirrorCandle(b.candle, k), b.u)]
  }

  /** Reflecting every price p to k - p gives the reflected tracker and the same transitions,
      at every step of every run: the bear half is the bull half in a mirror. */
  lemma {:induction false} RunMirrors(p: Params, bars: seq<Bar>, k: real)
    requires ScaledBars(bars)
    ensures Run(p, INITIAL, MirrorBars(bars, k)) == Mirror(Run(p, INITIAL, bars), k)
    ensures Log(p, INITIAL, MirrorBars(bars, k)) == Log(p, INITIAL, bars)
    ensures Fresh(Run(p, INITIAL, bars))
  {
    if bars != [] {
      var front, b := bars[..|bars| - 1], bars[|bars| - 1];
      RunMirrors(p, front, k);
      var mirrored := MirrorBars(bars, k);
      assert mirrored[..|mirrored| - 1] == MirrorBars(front, k);
      assert mirrored[|mirrored| - 1] == Bar(MirrorCandle(b.candle, k), b.u);
      UpdateMirrors(p, Run(p, INITIAL, front), b.candle, b.u, k);
    }
  }

  function MirrorCandles(cs: seq<Candle>, k: real): (r: seq<Candle>)
    ensures |r| == |cs| && forall i :: 0 <= i < |cs| ==> r[i] == MirrorCandle(cs[i], k)
  {
    seq(|cs|, i requires 0 <= i < |cs| => MirrorCandle(cs[i], k))
  }

  lemma {:induction false} BarsAtMirror(p: Params, candles: seq<Candle>, atrs: seq<real>, k: real)
    requires |candles| == |atrs|
    ensures BarsAt(p, MirrorCandles(candles, k), atrs) == MirrorBars(BarsAt(p, candles, atrs), k)
  {
    if candles != [] {
      var n := |candles| - 1;
      BarsAtMirror(p, candles[..n], atrs[..n], k);
      assert MirrorCandles(candles, k)[..n] == MirrorCandles(candles[..n], k);
      var bars := BarsAt(p, candles, atrs);
      assert bars[..n] == BarsAt(p, candles[..n], atrs[..n]);
    }
  }

  /** For every list of candles, each with the ATR passed along: the reflected candles give the
      reflected tracker, the same transitions, and to a caller the same state, depth and
      survival record. */
  lemma {:induction false} CandlesMirror(p: Params, candles: seq<Candle>, atrs: seq<real>, k: real, price: real)
    requires |candles| == |atrs|
    ensures var bars, mirrored := BarsAt(p, candles, atrs), BarsAt(p, MirrorCandles(candles, k), atrs);
      var s, m := Run(p, INITIAL, bars), Run(p, INITIAL, mirrored);
      && m == Mirror(s, k) && Log(p, INITIAL, mirrored) == Log(p, INITIAL, bars)
      && m.state == s.state && m.depths == s.depths && m.direction == -s.direction
      && (s.direction != 0 ==> Depth(m, k - price) == Depth(s, price))
  {
    var bars := BarsAt(p, candles, atrs);
    BarsAtAreScaled(p, candles, atrs);
    BarsAtMirror(p, candles, atrs, k);
    RunMirrors(p, bars, k);
    if Run(p, INITIAL, bars).direction != 0 {
      DepthMirrors(Run(p, INITIAL, bars), k, price);
    }
  }

  // ----- the lifecycle -----

  predicate ValidParams(p: Params) {
    0.0 < p.minDepth
  }

  /** x lies strictly behind y in the tracker's direction. */
  predicate Behind(s: Tracker, x: real, y: real) {
    if s.direction > 0 then x < y else y < x
  }

  ghost predicate DepthsOk(p: Params, depths: seq<real>) {
    |depths| <= CAP && forall i :: 0 <= i < |depths| ==> p.minDepth <= depths[i] < 1.0
  }

  ghost predicate Inv(p: Params, s: Tracker) {
    && Fresh(s)
    && DepthsOk(p, s.depths)
    && (s.direction != 0 ==> Behind(s, s.origin, s.extreme))
    && (s.state == ArmedState ==>
      && s.direction != 0 && s.retrace.Some?
      && Behind(s, s.retrace.value, s.extreme)
      && p.minDepth <= Depth(s, s.retrace.value))
  }

  lemma {:induction false} QuotientGrows(x: real, y: real, leg: real)
    requires x <= y && 0.0 < leg
    ensures x / leg <= y / leg
  {
    assert (y - x) / leg >= 0.0;
    assert y / leg - x / leg == (y - x) / leg;
  }

  /** A price further behind the extreme is a deeper pullback. */
  lemma {:induction false} DepthGrows(s: Tracker, x: real, y: real)
    requires s.direction != 0 && Behind(s, s.origin, s.extreme)
    requires x == y || Behind(s, x, y)
    ensures Depth(s, y) <= Depth(s, x)
  {
    var leg := Abs(s.extreme - s.origin);
    if s.direction > 0 {
      QuotientGrows(s.extreme - y, s.extreme - x, leg);
    } else {
      QuotientGrows(y - s.extreme, x - s.extreme, leg);
    }
  }

  lemma {:induction false} RecordedOk(p: Params, depths: seq<real>, depth: real)
    requires DepthsOk(p, depths) && p.minDepth <= depth
    ensures DepthsOk(p, Recorded(depths, depth))
  {}

  lemma {:induction false} StepBullInv(p: Params, s: Tracker, c: Candle, u: Scale)
    requires ValidParams(p) && Inv(p, s) && s.direction > 0
    ensures Inv(p, StepBull(p, s, c, u).0)
    ensures StepBull(p, s, c, u).0.direction == s.direction
    ensures s.extreme <= StepBull(p, s, c, u).0.extreme
  {
    if s.state == ArmedState {
      RecordedOk(p, s.depths, Depth(s, s.retrace.value));
      if c.low < s.retrace.value {
        DepthGrows(s, c.low, s.retrace.value);
        DepthIgnoresRetrace(s, c.low);
      }
    } else {
      DepthIgnoresRetrace(s, c.low);
    }
  }

  /** Depth reads only the direction and the leg. */
  lemma {:induction false} DepthIgnoresRetrace(s: Tracker, price: real)
    ensures Depth(s.(state := ArmedState, retrace := Some(price)), price) == Depth(s, price)
    ensures Depth(s.(retrace := Some(price)), price) == Depth(s, price)
  {}

  lemma {:induction false} StepBearInv(p: Params, s: Tracker, c: Candle, u: Scale)
    requires ValidParams(p) && Inv(p, s) && s.direction < 0
    ensures Inv(p, StepBear(p, s, c, u).0)
    ensures StepBear(p, s, c, u).0.direction == s.direction
    ensures StepBear(p, s, c, u).0.extreme <= s.extreme
  {
    if s.state == ArmedState {
      RecordedOk(p, s.depths, Depth(s, s.retrace.value));
      if c.high > s.retrace.value {
        DepthGrows(s, c.high, s.retrace.value);
        DepthIgnoresRetrace(s, c.high);
      }
    } else {
      DepthIgnoresRetrace(s, c.high);
    }
  }

  /** One candle keeps the lifecycle invariant; once a direction is set it never changes and
      the extreme never retreats. */
  lemma {:induction false} UpdateInv(p: Params, s: Tracker, c: Candle, u: Scale)
    requires ValidParams(p) && Inv(p, s)
    requires WellFormed(c) && (0.0 < u.atr ==> 0.0 < u.half)
    ensures var t := Update(p, s, c, u).0;
      && Inv(p, t)
      && (s.direction != 0 ==> t.direction == s.direction && (t.extreme == s.extreme || Behind(s, s.extreme, t.extreme)))
  {
    if s.direction > 0 {
      StepBullInv(p, s, c, u);
    } else if s.direction < 0 {
      StepBearInv(p, s, c, u);
    }
  }

  ghost predicate WellFormedBars(bars: seq<Bar>) {
    ScaledBars(bars) && forall i :: 0 <= i < |bars| ==> WellFormed(bars[i].candle)
  }

  lemma {:induction false} RunInv(p: Params, bars: seq<Bar>)
    requires ValidParams(p) && WellFormedBars(bars)
    ensures Inv(p, Run(p, INITIAL, bars))
  {
    if bars != [] {
      var front, b := bars[..|bars| - 1], bars[|bars| - 1];
      RunInv(p, front);
      UpdateInv(p, Run(p, INITIAL, front), b.candle, b.u);
    }
  }

  /** ARMED and BROKEN are exactly the states that the last transition announced. */
  ghost predicate LogMatches(log: seq<Transition>, s: State) {
    && (s == ArmedState <==> log != [] && log[|log| - 1] == ToArmed)
    && (s == Broken ==> log != [] && log[|log| - 1] == ToBroken)
    && forall i :: 0 <= i < |log| && log[i] == ToResumed ==> ResumesAt(log, i)
  }

  ghost predicate ResumesAt(log: seq<Transition>, i: nat) {
    0 < i <= |log| && log[i - 1] == ToArmed
  }

  lemma {:induction false} UpdateTransition(p: Params, s: Tracker, c: Candle, u: Scale)
    requires Inv(p, s)
    ensures var (t, out) := Update(p, s, c, u);
      match out
      case None => t.state == s.state || (t.state == Aligned && s.state == Broken)
      case Some(ToArmed) => s.state == Aligned && t.state == ArmedState
      case Some(ToResumed) => s.state == ArmedState && t.state == Aligned
      case Some(ToBroken) => t.state == Broken
  {}

  /** Every "resumed" is immediately preceded, among all transitions, by its own "armed":
      re-entries fire only out of an unbroken healthy pullback. */
  lemma {:induction false} LogIsMatched(p: Params, bars: seq<Bar>)
    requires ValidParams(p) && WellFormedBars(bars)
    ensures LogMatches(Log(p, INITIAL, bars), Run(p, INITIAL, bars).state)
  {
    if bars != [] {
      var front, b := bars[..|bars| - 1], bars[|bars| - 1];
      RunInv(p, front);
      LogIsMatched(p, front);
      var s := Run(p, INITIAL, front);
      UpdateTransition(p, s, b.candle, b.u);
      var log := Log(p, INITIAL, front);
      var more := Log(p, INITIAL, bars);
      forall i | 0 <= i < |more| && more[i] == ToResumed ensures ResumesAt(more, i) {
        assert i < |log| ==> log[i] == ToResumed;
        assert i < |log| ==> ResumesAt(log, i);
      }
    }
  }

  // ----- percentiles -----

  lemma {:induction false} BarsAtAreWellFormed(p: Params, candles: seq<Candle>, atrs: seq<real>)
    requires |candles| == |atrs| && forall i :: 0 <= i < |candles| ==> WellFormed(candles[i])
    ensures WellFormedBars(BarsAt(p, candles, atrs))
  {
    BarsAtAreScaled(p, candles, atrs);
    if candles != [] {
      var n := |candles| - 1;
      BarsAtAreWellFormed(p, candles[..n], atrs[..n]);
    }
  }

  /** The lifecycle of every run on well-formed candles: the invariant holds, and every
      "resumed" is immediately preceded by its own "armed". */
  lemma {:induction false} CandlesLifecycle(p: Params, candles: seq<Candle>, atrs: seq<real>)
    requires ValidParams(p) && |candles| == |atrs| && forall i :: 0 <= i < |candles| ==> WellFormed(candles[i])
    ensures var bars := BarsAt(p, candles, atrs);
      Inv(p, Run(p, INITIAL, bars)) && LogMatches(Log(p, INITIAL, bars), Run(p, INITIAL, bars).state)
  {
    BarsAtAreWellFormed(p, candles, atrs);
    RunInv(p, BarsAt(p, candles, atrs));
    LogIsMatched(p, BarsAt(p, candles, atrs));
  }

  function CountBelow(xs: seq<real>, x: real): (n: nat)
    ensures n <= |xs|
  {
    if xs == [] then 0 else CountBelow(xs[..|xs| - 1], x) + (if xs[|xs| - 1] < x then 1 else 0)
  }

  function Percentile(depths: seq<real>, x: real): real {
    if depths == [] then 0.5 else CountBelow(depths, x) as real / |depths| as real
  }

  lemma {:induction false} CountIsSize(xs: seq<real>, x: real)
    ensures CountBelow(xs, x) == |set i | 0 <= i < |xs| && xs[i] < x|
  {
    if xs != [] {
      var k := |xs| - 1;
      CountIsSize(xs[..k], x);
      var before := set i | 0 <= i < |xs[..k]| && xs[..k][i] < x;
      assert (set i | 0 <= i < |xs| && xs[i] < x) == if xs[k] < x then before + {k} else before;
    }
  }

  /** The percentile is the share of the recorded depths that are smaller; a half without any. */
  lemma {:induction false} PercentileIsShare(depths: seq<real>, x: real)
    ensures if depths == [] then Percentile(depths, x) == 0.5
            else Percentile(depths, x) * |depths| as real == |set i | 0 <= i < |depths| && depths[i] < x| as real
  {
    CountIsSize(depths, x);
    if depths != [] {
      QuotientTimes(CountBelow(depths, x) as real, |depths| as real);
    }
  }

  lemma {:induction false} CountBelowGrows(xs: seq<real>, x: real, y: real)
    requires x <= y
    ensures CountBelow(xs, x) <= CountBelow(xs, y)
  {
    if xs != [] {
      CountBelowGrows(xs[..|xs| - 1], x, y);
    }
  }

  lemma {:induction false} CountBelowBounds(p: Params, xs: seq<real>, x: real)
    requires forall i :: 0 <= i < |xs| ==> p.minDepth <= xs[i] < 1.0
    ensures x <= p.minDepth ==> CountBelow(xs, x) == 0
    ensures 1.0 <= x ==> CountBelow(xs, x) == |xs|
  {
    if xs != [] {
      CountBelowBounds(p, xs[..|xs| - 1], x);
    }
  }

  lemma {:induction false} ShareBounds(n: real, m: real, total: real)
    requires 0.0 <= n <= m <= total && 0.0 < total
    ensures 0.0 <= n / total <= m / total <= 1.0
    ensures n == 0.0 ==> n / total == 0.0
    ensures m == total ==> m / total == 1.0
  {
    QuotientGrows(0.0, n, total);
    QuotientGrows(n, m, total);
    QuotientGrows(m, total, total);
  }

  lemma {:induction false} PercentileGrows(p: Params, depths: seq<real>, x: real, y: real)
    requires DepthsOk(p, depths) && depths != [] && x <= y
    ensures 0.0 <= Percentile(depths, x) <= Percentile(depths, y) <= 1.0
    ensures x <= p.minDepth ==> Percentile(depths, x) == 0.0
    ensures 1.0 <= y ==> Percentile(depths, y) == 1.0
  {
    CountBelowGrows(depths, x, y);
    CountBelowBounds(p, depths, x);
    CountBelowBounds(p, depths, y);
    ShareBounds(CountBelow(depths, x) as real, CountBelow(depths, y) as real, |depths| as real);
  }

  /** The percentile is a distribution function on the depths that survival allows: monotone
      within [0, 1], 0 up to the arming depth and 1 from a full retrace on. */
  lemma {:induction false} PercentileIsDistribution(p: Params, bars: seq<Bar>, x: real, y: real)
    requires ValidParams(p) && WellFormedBars(bars) && x <= y
    ensures var depths := Run(p, INITIAL, bars).depths;
      && 0.0 <= Percentile(depths, x) <= Percentile(depths, y) <= 1.0
      && (depths != [] && x <= p.minDepth ==> Percentile(depths, x) == 0.0)
      && (depths != [] && 1.0 <= y ==> Percentile(depths, y) == 1.0)
  {
    RunInv(p, bars);
    if Run(p, INITIAL, bars).depths != [] {
      PercentileGrows(p, Run(p, INITIAL, bars).depths, x, y);
    }
  }

  // ----- the tracker object -----

  class PullbackTracker {
    const p: Params
    var direction: int
    var origin: real
    var extreme: real
    var retrace: Option<real>
    var state: State
    var aliveDepths: seq<real>

    ghost function Value(): Tracker
      reads this
    {
      Tracker(direction, origin, extreme, retrace, state, aliveDepths)
    }

    constructor (p: Params)
      ensures this.p == p && Value() == INITIAL
    {
      this.p := p;
      direction, origin, extreme, retrace, state, aliveDepths := 0, 0.0, 0.0, None, Aligned, [];
    }

    method UpdateWith(c: Candle, atr: real) returns (out: Option<Transition>)
      modifies this
      ensures (Value(), out) == Update(p, old(Value()), c, ScaleAt(p, atr))
    {
      out := UpdateAtScale(c, ScaleAt(p, atr));
    }

    method UpdateAtScale(c: Candle, u: Scale) returns (out: Option<Transition>)
      modifies this
      ensures (Value(), out) == Update(p, old(Value()), c, u)
    {
      if u.atr <= 0.0 {
        return None;
      }
      if direction == 0 {
        var body := c.close - c.open;
        if Abs(body) >= u.half {
          direction := if body > 0.0 then 1 else -1;
          origin := c.open;
          extreme := if body > 0.0 then c.high else c.low;
        }
        return None;
      }
      if direction > 0 {
        out := StepBullWith(c, u);
      } else {
        out := StepBearWith(c, u);
      }
    }

    method DepthOf(price: real) returns (depth: real)
      ensures depth == Depth(Value(), price)
    {
      var leg := Abs(extreme - origin);
      if leg <= 0.0 {
        return 0.0;
      }
      return if direction > 0 then (extreme - price) / leg else (price - extreme) / leg;
    }

    method RecordAlive(depth: real)
      modifies this`aliveDepths
      ensures aliveDepths == Recorded(old(aliveDepths), depth)
    {
      if 0.0 < depth < 1.0 {
        aliveDepths := aliveDepths + [depth];
        if |aliveDepths| > CAP {
          aliveDepths := aliveDepths[|aliveDepths| - CAP..];
        }
      }
    }

    method StepBullWith(c: Candle, u: Scale) returns (out: Option<Transition>)
      modifies this
      ensures (Value(), out) == StepBull(p, old(Value()), c, u)
    {
      var leg := extreme - origin;
      if c.close < origin {
        state := Broken;
        return Some(ToBroken);
      }
      if c.high > extreme + u.buffer {
        if state == ArmedState && retrace.Some? {
          var depth := DepthOf(retrace.value);
          RecordAlive(depth);
          state := Aligned;
          origin := retrace.value;
          extreme := Max(extreme, c.high);
          retrace := None;
          return Some(ToResumed);
        }
        state := Aligned;
        extreme := Max(extreme, c.high);
        retrace := None;
        return None;
      }
      if state == Aligned && c.low < extreme && leg >= u.impulse {
        var depth := DepthOf(c.low);
        if p.minDepth <= depth < p.maxDepth {
          state := ArmedState;
          retrace := Some(c.low);
          return Some(ToArmed);
        }
      } else if state == ArmedState {
        if retrace.None? {
          retrace := Some(c.low);
        } else if c.low < retrace.value {
          retrace := Some(c.low);
        }
      }
      return None;
    }

    method StepBearWith(c: Candle, u: Scale) returns (out: Option<Transition>)
      modifies this
      ensures (Value(), out) == StepBear(p, old(Value()), c, u)
    {
      var leg := origin - extreme;
      if c.close > origin {
        state := Broken;
        return Some(ToBroken);
      }
      if c.low < extreme - u.buffer {
        if state == ArmedState && retrace.Some? {
          var depth := DepthOf(retrace.value);
          RecordAlive(depth);
          state := Aligned;
          origin := retrace.value;
          extreme := Min(extreme, c.low);
          retrace := None;
          return Some(ToResumed);
        }
        state := Aligned;
        extreme := Min(extreme, c.low);
        retrace := None;
        return None;
      }
      if state == Aligned && c.high > extreme && leg >= u.impulse {
        var depth := DepthOf(c.high);
        if p.minDepth <= depth < p.maxDepth {
          state := ArmedState;
          retrace := Some(c.high);
          return Some(ToArmed);
        }
      } else if state == ArmedState {
        if retrace.None? {
          retrace := Some(c.high);
        } else if c.high > retrace.value {
          retrace := Some(c.high);
        }
      }
      return None;
    }

    method PercentileOf(x: real) returns (share: real)
      ensures share == Percentile(aliveDepths, x)
    {
      if |aliveDepths| == 0 {
        return 0.5;
      }
      var n: nat := 0;
      for i := 0 to |aliveDepths|
        invariant n == CountBelow(aliveDepths[..i], x)
      {
        assert aliveDepths[..i + 1][..i] == aliveDepths[..i];
        if aliveDepths[i] < x {
          n := n + 1;
        }
      }
      assert aliveDepths[..|aliveDepths|] == aliveDepths;
      share := n as real / |aliveDepths| as real;
    }

    method Reset()
      modifies this
      ensures Value() == INITIAL
    {
      direction, origin, extreme, retrace, state, aliveDepths := 0, 0.0, 0.0, None, Aligned, [];
    }
  }
}
