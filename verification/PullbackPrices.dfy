/** The pullback tracker in prices: an independent reference for one update, without depths or
    quotients, and what a depth is. */
module PullbackPrices {
  import opened Common
  import opened Candles
  import opened Pullback

  // ----- depth -----

  /** Depth is the share of the leg given back: giving back x times the leg is a depth of x. */
  lemma {:induction false} DepthIsShare(s: Tracker, x: real)
    requires s.direction != 0 && Behind(s, s.origin, s.extreme)
    ensures Depth(s, s.extreme - x * (s.extreme - s.origin)) == x
  {
    var leg := s.extreme - s.origin;
    if s.direction > 0 {
      ProductOver(x, leg);
    } else {
      ProductOver(x, -leg);
      assert x * -leg == -(x * leg);
    }
  }

  /** Without a leg there is no depth. */
  lemma {:induction false} NoLegNoDepth(s: Tracker, price: real)
    requires s.origin == s.extreme
    ensures Depth(s, price) == 0.0
  {}

  /** What has been given back at a price, in price units. */
  function GivenBack(s: Tracker, price: real): real {
    if s.direction > 0 then s.extreme - price else price - s.extreme
  }

  function Leg(s: Tracker): real {
    if s.direction > 0 then s.extreme - s.origin else s.origin - s.extreme
  }

  lemma {:induction false} DepthTimesLeg(s: Tracker, price: real)
    requires s.direction != 0 && Behind(s, s.origin, s.extreme)
    ensures Depth(s, price) * Leg(s) == GivenBack(s, price)
  {
    QuotientTimes(GivenBack(s, price), Leg(s));
  }

  lemma {:induction false} Scaled(x: real, y: real, leg: real)
    requires 0.0 < leg
    ensures x <= y <==> x * leg <= y * leg
  {
    if x <= y {
      assert 0.0 <= (y - x) * leg;
    } else {
      assert 0.0 < (x - y) * leg;
    }
  }

  /** Bounds on the depth are bounds on what was given back. */
  lemma {:induction false} DepthInPrices(s: Tracker, price: real, x: real)
    requires s.direction != 0 && Behind(s, s.origin, s.extreme)
    ensures x <= Depth(s, price) <==> x * Leg(s) <= GivenBack(s, price)
    ensures Depth(s, price) <= x <==> GivenBack(s, price) <= x * Leg(s)
  {
    DepthTimesLeg(s, price);
    Scaled(x, Depth(s, price), Leg(s));
    Scaled(Depth(s, price), x, Leg(s));
  }

  // ----- one update -----

  /** The first impulse: half an ATR of body sets the direction and the leg. */
  ghost predicate StartsLeg(s: Tracker, c: Candle, atr: real, t: Tracker, out: Option<Transition>) {
    && out == None && t.state == s.state && t.depths == s.depths && t.retrace == s.retrace
    && (if 2.0 * (c.close - c.open) >= atr then t.direction == 1 && t.origin == c.open && t.extreme == c.high
        else if 2.0 * (c.open - c.close) >= atr then t.direction == -1 && t.origin == c.open && t.extreme == c.low
        else t == s)
  }

  /** The record after a pullback that gave back some of the leg, but not all of it. */
  ghost predicate Survives(s: Tracker, price: real, depths: seq<real>) {
    if 0.0 < GivenBack(s, price) < Leg(s) then
      exists x :: x * Leg(s) == GivenBack(s, price) && depths == LastN(s.depths + [x], 200)
    else depths == s.depths
  }

  /** The thresholds of one update, in price units. */
  datatype Limits = Limits(impulse: real, buffer: real, least: real, most: real)

  function LimitsOf(p: Params, s: Tracker, atr: real): Limits {
    Limits(p.minImpulseAtr * atr, p.bufferAtr * atr, p.minDepth * Leg(s), p.maxDepth * Leg(s))
  }

  /** One candle in a tracker with a direction: far is the candle's price towards the extreme,
      near its price back towards the origin. */
  ghost predicate Follows(lim: Limits, s: Tracker, c: Candle, t: Tracker, out: Option<Transition>) {
    var far, near := if s.direction > 0 then c.high else c.low, if s.direction > 0 then c.low else c.high;
    var broken := if s.direction > 0 then c.close < s.origin else c.close > s.origin;
    var beyond := if s.direction > 0 then c.high > s.extreme + lim.buffer else c.low < s.extreme - lim.buffer;
    var back := GivenBack(s, near);
    if broken then t == s.(state := Broken) && out == Some(ToBroken)
    else if beyond then
      && t.direction == s.direction && t.state == Aligned && t.retrace == None
      && t.extreme == (if GivenBack(s, far) < 0.0 then far else s.extreme)
      && (if s.state == ArmedState && s.retrace.Some? then
            out == Some(ToResumed) && t.origin == s.retrace.value && Survives(s, s.retrace.value, t.depths)
          else out == None && t.origin == s.origin && t.depths == s.depths)
    else if s.state == Aligned then
      if back > 0.0 && Leg(s) >= lim.impulse && lim.least <= back < lim.most
      then out == Some(ToArmed) && t == s.(state := ArmedState, retrace := Some(near))
      else out == None && t == s
    else if s.state == ArmedState && (s.retrace.None? || back > GivenBack(s, s.retrace.value))
      then out == None && t == s.(retrace := Some(near))
    else out == None && t == s
  }

  /** The whole update, for a tracker as it can be met. */
  ghost predicate Updates(p: Params, s: Tracker, c: Candle, atr: real, t: Tracker, out: Option<Transition>) {
    if atr <= 0.0 then t == s && out == None
    else if s.direction == 0 then StartsLeg(s, c, atr, t, out)
    else Follows(LimitsOf(p, s, atr), s, c, t, out)
  }

  lemma {:induction false} RecordSurvives(s: Tracker, price: real)
    requires s.direction != 0 && Behind(s, s.origin, s.extreme)
    ensures Survives(s, price, Recorded(s.depths, Depth(s, price)))
  {
    DepthTimesLeg(s, price);
    DepthInPrices(s, price, 0.0);
    DepthInPrices(s, price, 1.0);
  }

  lemma {:induction false} BullFollows(p: Params, s: Tracker, c: Candle, u: Scale, lim: Limits)
    requires s.direction > 0 && Behind(s, s.origin, s.extreme) && u.buffer == lim.buffer && u.impulse == lim.impulse
    requires p.minDepth <= Depth(s, c.low) < p.maxDepth <==> lim.least <= s.extreme - c.low < lim.most
    ensures var (t, out) := StepBull(p, s, c, u); Follows(lim, s, c, t, out)
  {
    if s.retrace.Some? {
      RecordSurvives(s, s.retrace.value);
    }
  }

  lemma {:induction false} BearFollows(p: Params, s: Tracker, c: Candle, u: Scale, lim: Limits)
    requires s.direction < 0 && Behind(s, s.origin, s.extreme) && u.buffer == lim.buffer && u.impulse == lim.impulse
    requires p.minDepth <= Depth(s, c.high) < p.maxDepth <==> lim.least <= c.high - s.extreme < lim.most
    ensures var (t, out) := StepBear(p, s, c, u); Follows(lim, s, c, t, out)
  {
    if s.retrace.Some? {
      RecordSurvives(s, s.retrace.value);
    }
  }

  lemma {:induction false} SharesInPrices(p: Params, s: Tracker, price: real)
    requires s.direction != 0 && Behind(s, s.origin, s.extreme)
    ensures p.minDepth <= Depth(s, price) < p.maxDepth
      <==> p.minDepth * Leg(s) <= GivenBack(s, price) < p.maxDepth * Leg(s)
  {
    DepthInPrices(s, price, p.minDepth);
    DepthInPrices(s, price, p.maxDepth);
  }

  lemma {:induction false} BullUpdate(p: Params, s: Tracker, c: Candle, u: Scale)
    requires s.direction > 0 && 0.0 < u.atr
    ensures Update(p, s, c, u) == StepBull(p, s, c, u)
  {}

  lemma {:induction false} BearUpdate(p: Params, s: Tracker, c: Candle, u: Scale)
    requires s.direction < 0 && 0.0 < u.atr
    ensures Update(p, s, c, u) == StepBear(p, s, c, u)
  {}

  lemma {:induction false} DirectedInPrices(p: Params, s: Tracker, c: Candle, u: Scale, lim: Limits)
    requires Inv(p, s) && s.direction != 0 && 0.0 < u.atr && u.buffer == lim.buffer && u.impulse == lim.impulse
    requires lim.least == p.minDepth * Leg(s) && lim.most == p.maxDepth * Leg(s)
    ensures Follows(lim, s, c, Update(p, s, c, u).0, Update(p, s, c, u).1)
  {
    if s.direction > 0 {
      SharesInPrices(p, s, c.low);
      BullUpdate(p, s, c, u);
      BullFollows(p, s, c, u, lim);
    } else {
      SharesInPrices(p, s, c.high);
      BearUpdate(p, s, c, u);
      BearFollows(p, s, c, u, lim);
    }
  }

  lemma {:induction false} UndirectedInPrices(p: Params, s: Tracker, c: Candle, atr: real)
    requires s.direction == 0 || atr <= 0.0
    ensures Updates(p, s, c, atr, Update(p, s, c, ScaleAt(p, atr)).0, Update(p, s, c, ScaleAt(p, atr)).1)
  {}

  /** Every update of a tracker that a run can reach is the one the reference describes. */
  lemma {:induction false} UpdateInPrices(p: Params, s: Tracker, c: Candle, atr: real)
    requires Inv(p, s)
    ensures Updates(p, s, c, atr, Update(p, s, c, ScaleAt(p, atr)).0, Update(p, s, c, ScaleAt(p, atr)).1)
  {
    if 0.0 < atr && s.direction != 0 {
      DirectedInPrices(p, s, c, ScaleAt(p, atr), LimitsOf(p, s, atr));
    } else {
      UndirectedInPrices(p, s, c, atr);
    }
  }

  lemma {:induction false} FollowsArms(lim: Limits, s: Tracker, c: Candle, t: Tracker, out: Option<Transition>)
    requires Follows(lim, s, c, t, out) && s.direction != 0 && s.state == Aligned && Leg(s) >= lim.impulse && 0.0 < lim.least
    requires if s.direction > 0 then s.origin <= c.close && c.high <= s.extreme + lim.buffer
             else c.close <= s.origin && s.extreme - lim.buffer <= c.low
    ensures out == Some(ToArmed)
      <==> lim.least <= (if s.direction > 0 then s.extreme - c.low else c.high - s.extreme) < lim.most
  {}

  lemma {:induction false} PositiveProduct(x: real, y: real)
    requires 0.0 < x && 0.0 < y
    ensures 0.0 < x * y
  {}

  lemma {:induction false} UpdatesArms(p: Params, s: Tracker, c: Candle, atr: real, t: Tracker, out: Option<Transition>)
    requires ValidParams(p) && Updates(p, s, c, atr, t, out) && Behind(s, s.origin, s.extreme)
    requires 0.0 < atr && s.direction != 0 && s.state == Aligned
    requires if s.direction > 0 then s.origin <= c.close && c.high <= s.extreme + p.bufferAtr * atr
             else c.close <= s.origin && s.extreme - p.bufferAtr * atr <= c.low
    requires Leg(s) >= p.minImpulseAtr * atr
    ensures var back := if s.direction > 0 then s.extreme - c.low else c.high - s.extreme;
      out == Some(ToArmed) <==> p.minDepth * Leg(s) <= back < p.maxDepth * Leg(s)
  {
    PositiveProduct(p.minDepth, Leg(s));
    FollowsArms(LimitsOf(p, s, atr), s, c, t, out);
  }

  /** Out of ALIGNED, without a break or a new extreme, a leg that is large enough arms iff what is
      given back lies between the two shares of it. */
  lemma {:induction false} ArmsIff(p: Params, s: Tracker, c: Candle, atr: real)
    requires ValidParams(p) && Inv(p, s) && 0.0 < atr && s.direction != 0 && s.state == Aligned
    requires if s.direction > 0 then s.origin <= c.close && c.high <= s.extreme + p.bufferAtr * atr
             else c.close <= s.origin && s.extreme - p.bufferAtr * atr <= c.low
    requires Leg(s) >= p.minImpulseAtr * atr
    ensures var back := if s.direction > 0 then s.extreme - c.low else c.high - s.extreme;
      Update(p, s, c, ScaleAt(p, atr)).1 == Some(ToArmed) <==> p.minDepth * Leg(s) <= back < p.maxDepth * Leg(s)
  {
    UpdateInPrices(p, s, c, atr);
    UpdatesArms(p, s, c, atr, Update(p, s, c, ScaleAt(p, atr)).0, Update(p, s, c, ScaleAt(p, atr)).1);
  }

  /** A leg from 100 to 110 at an ATR of 5, with the source's defaults: 40% given back arms,
      a new high resumes from there, and the pullback is on record as 0.4. */
  lemma {:induction false} FortyPercentArms()
    ensures var p := Params(1.0, 0.25, 0.65, 0.3); var s := Tracker(1, 100.0, 110.0, None, Aligned, []);
      var (t, out) := Update(p, s, Candle(108.0, 109.0, 106.0, 107.0, 0.0, 0.0, 1.0), ScaleAt(p, 5.0));
      var (r, again) := Update(p, t, Candle(107.0, 112.0, 107.0, 111.0, 0.0, 0.0, 1.0), ScaleAt(p, 5.0));
      && out == Some(ToArmed) && t == s.(state := ArmedState, retrace := Some(106.0))
      && again == Some(ToResumed) && r == Tracker(1, 106.0, 112.0, None, Aligned, [0.4])
  {
    var s := Tracker(1, 100.0, 110.0, None, Aligned, []);
    assert Depth(s, 106.0) == 0.4;
    assert Depth(s.(state := ArmedState, retrace := Some(106.0)), 106.0) == 0.4;
    assert [] + [0.4] == [0.4];
  }
}
