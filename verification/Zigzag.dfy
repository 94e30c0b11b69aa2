/** The zigzag pivot finder: a single pass with a three-way direction and two optional
    running extrema, proved equal to the leg-by-leg definition of a confirmed swing. */
module Zigzag {
  import opened Common
  import opened Candles

  datatype Kind = High | Low

  datatype Swing = Swing(kind: Kind, price: real, index: nat)

  /** The reversal that confirms a swing: mult ATRs, floored at 1e-12. */
  function MinMove(atr: real, mult: real): (mm: real)
    ensures 0.000000000001 <= mm && atr * mult <= mm
  {
    Max(atr * mult, 0.000000000001)
  }

  // ----- the declarative definition -----

  /** The highest high of cs[a..b]. */
  function MaxHigh(cs: seq<Candle>, a: nat, b: nat): real
    requires a <= b < |cs|
    decreases b
  {
    if a == b then cs[a].high else Max(MaxHigh(cs, a, b - 1), cs[b].high)
  }

  /** The lowest low of cs[a..b]. */
  function MinLow(cs: seq<Candle>, a: nat, b: nat): real
    requires a <= b < |cs|
    decreases b
  {
    if a == b then cs[a].low else Min(MinLow(cs, a, b - 1), cs[b].low)
  }

  /** The extrema are attained bounds. */
  lemma {:induction false} ExtremaAreExact(cs: seq<Candle>, a: nat, b: nat)
    requires a <= b < |cs|
    ensures forall k :: a <= k <= b ==> cs[k].high <= MaxHigh(cs, a, b) && MinLow(cs, a, b) <= cs[k].low
    ensures exists k :: a <= k <= b && cs[k].high == MaxHigh(cs, a, b)
    ensures exists k :: a <= k <= b && cs[k].low == MinLow(cs, a, b)
    decreases b
  {
    if a < b {
      ExtremaAreExact(cs, a, b - 1);
    } else {
      assert cs[a].high == MaxHigh(cs, a, b) && cs[a].low == MinLow(cs, a, b);
    }
  }

  /** Where the extremum of the leg after prev starts: at the candle that confirmed prev. */
  function LegStart(prev: Option<Swing>): nat {
    match prev case None => 0 case Some(s) => s.index
  }

  /** The first candle that may confirm the swing after prev. A High leaves its own
      candle open to the following Low; a Low does not reopen its candle. */
  function FirstCandidate(prev: Option<Swing>): nat {
    match prev
    case None => 0
    case Some(s) => if s.kind == Low then s.index + 1 else s.index
  }

  predicate Drops(cs: seq<Candle>, mm: real, a: nat, k: nat)
    requires a <= k < |cs|
  {
    MaxHigh(cs, a, k) - cs[k].low >= mm
  }

  predicate Rises(cs: seq<Candle>, mm: real, a: nat, k: nat)
    requires a <= k < |cs|
  {
    cs[k].high - MinLow(cs, a, k) >= mm
  }

  /** Candle k completes a reversal of mm in a direction still open after prev. */
  predicate Confirms(cs: seq<Candle>, mm: real, prev: Option<Swing>, k: nat)
    requires LegStart(prev) <= k < |cs|
  {
    || (!(prev.Some? && prev.value.kind == High) && Drops(cs, mm, LegStart(prev), k))
    || (!(prev.Some? && prev.value.kind == Low) && Rises(cs, mm, LegStart(prev), k))
  }

  /** The swing that candle k confirms after prev. */
  function Confirmed(cs: seq<Candle>, mm: real, prev: Option<Swing>, k: nat): Swing
    requires LegStart(prev) <= k < |cs|
  {
    var a := LegStart(prev);
    if prev.Some? && prev.value.kind == High then Swing(Low, MinLow(cs, a, k), k)
    else if prev.Some? then Swing(High, MaxHigh(cs, a, k), k)
    else if Drops(cs, mm, a, k) then Swing(High, MaxHigh(cs, a, k), k)
    else Swing(Low, MinLow(cs, a, k), k)
  }

  /** s is the swing after prev: no earlier candle confirms one. */
  ghost predicate IsNext(cs: seq<Candle>, mm: real, prev: Option<Swing>, s: Swing) {
    && FirstCandidate(prev) <= s.index < |cs|
    && Confirms(cs, mm, prev, s.index)
    && (forall k :: FirstCandidate(prev) <= k < s.index ==> !Confirms(cs, mm, prev, k))
    && s == Confirmed(cs, mm, prev, s.index)
  }

  /** From prev on, the candles never reverse by mm again. */
  ghost predicate NoNext(cs: seq<Candle>, mm: real, prev: Option<Swing>) {
    forall k :: FirstCandidate(prev) <= k < |cs| ==> !Confirms(cs, mm, prev, k)
  }

  function Before(swings: seq<Swing>, j: nat): Option<Swing>
    requires j <= |swings|
  {
    if j == 0 then None else Some(swings[j - 1])
  }

  /** Swing j is the one after swing j - 1. */
  ghost predicate NextAt(cs: seq<Candle>, mm: real, swings: seq<Swing>, j: nat)
    requires j < |swings|
  {
    IsNext(cs, mm, Before(swings, j), swings[j])
  }

  /** swings is the zigzag of cs: every swing is the earliest one after its predecessor,
      and nothing is confirmed after the last. */
  ghost predicate IsZigzag(cs: seq<Candle>, mm: real, swings: seq<Swing>) {
    && (forall j :: 0 <= j < |swings| ==> NextAt(cs, mm, swings, j))
    && NoNext(cs, mm, Before(swings, |swings|))
  }

  // ----- the search, leg by leg -----

  /** The swings confirmed from candle k on, when prev is the last one before k. */
  function SwingsFrom(cs: seq<Candle>, mm: real, prev: Option<Swing>, k: nat): seq<Swing>
    requires LegStart(prev) <= k
    decreases |cs| - k, if prev.Some? && prev.value.kind == High then 0 else 1
  {
    if k >= |cs| then []
    else if Confirms(cs, mm, prev, k) then
      var s := Confirmed(cs, mm, prev, k);
      [s] + SwingsFrom(cs, mm, Some(s), FirstCandidate(Some(s)))
    else SwingsFrom(cs, mm, prev, k + 1)
  }

  function Swings(cs: seq<Candle>, mm: real): seq<Swing> {
    SwingsFrom(cs, mm, None, 0)
  }

  lemma {:induction false} SwingsFromIsZigzag(cs: seq<Candle>, mm: real, done: seq<Swing>, k: nat)
    requires forall j :: 0 <= j < |done| ==> NextAt(cs, mm, done, j)
    requires FirstCandidate(Before(done, |done|)) <= k
    requires forall i :: FirstCandidate(Before(done, |done|)) <= i < k && i < |cs| ==>
      !Confirms(cs, mm, Before(done, |done|), i)
    ensures IsZigzag(cs, mm, done + SwingsFrom(cs, mm, Before(done, |done|), k))
    decreases |cs| - k, if done != [] && done[|done| - 1].kind == High then 0 else 1
  {
    var prev := Before(done, |done|);
    if k >= |cs| {
      assert done + [] == done;
    } else if Confirms(cs, mm, prev, k) {
      var s := Confirmed(cs, mm, prev, k);
      var more := done + [s];
      forall j | 0 <= j < |more| ensures NextAt(cs, mm, more, j) {
        assert Before(more, j) == Before(done, j);
        assert j < |done| ==> NextAt(cs, mm, done, j);
      }
      assert Before(more, |more|) == Some(s);
      SwingsFromIsZigzag(cs, mm, more, FirstCandidate(Some(s)));
      var rest := SwingsFrom(cs, mm, Some(s), FirstCandidate(Some(s)));
      assert done + ([s] + rest) == more + rest;
    } else {
      SwingsFromIsZigzag(cs, mm, done, k + 1);
    }
  }

  /** Every candle list has a zigzag. */
  lemma {:induction false} SwingsIsZigzag(cs: seq<Candle>, mm: real)
    ensures IsZigzag(cs, mm, Swings(cs, mm))
  {
    SwingsFromIsZigzag(cs, mm, [], 0);
    assert [] + Swings(cs, mm) == Swings(cs, mm);
  }

  lemma {:induction false} ZigzagPrefixAgrees(cs: seq<Candle>, mm: real, s: seq<Swing>, t: seq<Swing>, n: nat)
    requires IsZigzag(cs, mm, s) && IsZigzag(cs, mm, t)
    requires n <= |s| <= |t|
    ensures s[..n] == t[..n]
  {
    if n > 0 {
      ZigzagPrefixAgrees(cs, mm, s, t, n - 1);
      assert Before(s, n - 1) == Before(t, n - 1) by {
        if n > 1 {
          assert s[..n - 1][n - 2] == t[..n - 1][n - 2];
        }
      }
      var prev := Before(s, n - 1);
      assert NextAt(cs, mm, s, n - 1) && NextAt(cs, mm, t, n - 1);
      assert s[n - 1].index == t[n - 1].index;
      assert s[..n] == s[..n - 1] + [s[n - 1]] && t[..n] == t[..n - 1] + [t[n - 1]];
    }
  }

  /** The definition pins the swing list down: there is exactly one zigzag. */
  lemma {:induction false} IsZigzagUnique(cs: seq<Candle>, mm: real, s: seq<Swing>, t: seq<Swing>)
    requires IsZigzag(cs, mm, s) && IsZigzag(cs, mm, t)
    ensures s == t
    decreases |s| > |t|
  {
    if |s| > |t| {
      IsZigzagUnique(cs, mm, t, s);
    } else {
      ZigzagPrefixAgrees(cs, mm, s, t, |s|);
      assert t[..|s|] == s;
      assert Before(t, |s|) == Before(s, |s|);
      assert |s| < |t| ==> NextAt(cs, mm, t, |s|);
    }
  }

  // ----- what every zigzag looks like -----

  /** Neighbouring swings alternate, lie at least mm apart on the right side, and move
      forward in time; only a Low may share the candle of the High before it. */
  lemma {:induction false} SwingsAlternate(cs: seq<Candle>, mm: real, swings: seq<Swing>, j: nat)
    requires IsZigzag(cs, mm, swings)
    requires 0 < j < |swings|
    ensures swings[j].kind != swings[j - 1].kind
    ensures swings[j].kind == High ==> swings[j].price - swings[j - 1].price >= mm
    ensures swings[j].kind == Low ==> swings[j - 1].price - swings[j].price >= mm
    ensures swings[j - 1].index < swings[j].index
      || (swings[j - 1].index == swings[j].index && swings[j].kind == Low)
  {
    assert NextAt(cs, mm, swings, j) && NextAt(cs, mm, swings, j - 1);
    var p, s := swings[j - 1], swings[j];
    var a := LegStart(Before(swings, j - 1));
    ExtremaAreExact(cs, a, p.index);
    ExtremaAreExact(cs, p.index, s.index);
    if s.kind == Low {
      assert MaxHigh(cs, a, p.index) - cs[p.index].low >= mm;
    } else {
      assert cs[p.index].high - MinLow(cs, a, p.index) >= mm;
    }
  }

  /** A swing's price is the exact extremum from the previous swing's confirming candle
      to its own. */
  lemma {:induction false} SwingPriceIsExact(cs: seq<Candle>, mm: real, swings: seq<Swing>, j: nat)
    requires IsZigzag(cs, mm, swings)
    requires j < |swings|
    ensures LegStart(Before(swings, j)) == if j == 0 then 0 else swings[j - 1].index
    ensures LegStart(Before(swings, j)) <= swings[j].index < |cs|
    ensures swings[j].kind == High ==>
      && (forall k :: LegStart(Before(swings, j)) <= k <= swings[j].index ==> cs[k].high <= swings[j].price)
      && (exists k :: LegStart(Before(swings, j)) <= k <= swings[j].index && cs[k].high == swings[j].price)
    ensures swings[j].kind == Low ==>
      && (forall k :: LegStart(Before(swings, j)) <= k <= swings[j].index ==> swings[j].price <= cs[k].low)
      && (exists k :: LegStart(Before(swings, j)) <= k <= swings[j].index && cs[k].low == swings[j].price)
  {
    assert NextAt(cs, mm, swings, j);
    ExtremaAreExact(cs, LegStart(Before(swings, j)), swings[j].index);
  }

  /** The first swing is a High iff its candle completes a drop, also when it completes a rise. */
  lemma {:induction false} FirstSwing(cs: seq<Candle>, mm: real, swings: seq<Swing>)
    requires IsZigzag(cs, mm, swings) && swings != []
    ensures var k := swings[0].index;
      k < |cs| && (swings[0].kind == High <==> exists a: nat :: a <= k && cs[a].high - cs[k].low >= mm)
  {
    assert NextAt(cs, mm, swings, 0);
    ExtremaAreExact(cs, 0, swings[0].index);
  }

  /** A market without any movement has no swings, whatever the ATR: the reversal is never 0. */
  lemma {:induction false} FlatMarketHasNoSwings(cs: seq<Candle>, x: real, atr: real, mult: real)
    requires forall i :: 0 <= i < |cs| ==> cs[i].high == x && cs[i].low == x
    ensures Swings(cs, MinMove(atr, mult)) == []
  {
    var mm := MinMove(atr, mult);
    forall k | 0 <= k < |cs| ensures !Confirms(cs, mm, None, k) {
      ExtremaAreExact(cs, 0, k);
    }
    SwingsIsZigzag(cs, mm);
    IsZigzagUnique(cs, mm, [], Swings(cs, mm));
  }

  /** Between two confirmations, and after the last one, no pair of candles shows a
      reversal of mm in an open direction: every swing is confirmed as early as possible. */
  lemma {:induction false} NoEarlierReversal(cs: seq<Candle>, mm: real, swings: seq<Swing>, j: nat, a: nat, k: nat)
    requires IsZigzag(cs, mm, swings)
    requires j <= |swings|
    requires LegStart(Before(swings, j)) <= a <= k < |cs|
    requires FirstCandidate(Before(swings, j)) <= k
    requires j < |swings| ==> k < swings[j].index
    ensures !(j > 0 && swings[j - 1].kind == High) ==> cs[a].high - cs[k].low < mm
    ensures !(j > 0 && swings[j - 1].kind == Low) ==> cs[k].high - cs[a].low < mm
  {
    if j < |swings| {
      assert NextAt(cs, mm, swings, j);
    }
    assert !Confirms(cs, mm, Before(swings, j), k);
    ExtremaAreExact(cs, LegStart(Before(swings, j)), k);
  }

  lemma {:induction false} ExtremaOfPrefix(cs: seq<Candle>, n: nat, a: nat, b: nat)
    requires a <= b < n <= |cs|
    ensures MaxHigh(cs[..n], a, b) == MaxHigh(cs, a, b)
    ensures MinLow(cs[..n], a, b) == MinLow(cs, a, b)
    decreases b
  {
    if a < b {
      ExtremaOfPrefix(cs, n, a, b - 1);
    }
  }

  ghost predicate IndicesWithin(swings: seq<Swing>, lo: int, hi: int) {
    forall i :: 0 <= i < |swings| ==> lo <= swings[i].index < hi
  }

  lemma {:induction false} SwingsFromWithin(cs: seq<Candle>, mm: real, prev: Option<Swing>, k: nat)
    requires LegStart(prev) <= k
    ensures IndicesWithin(SwingsFrom(cs, mm, prev, k), k, |cs|)
    decreases |cs| - k, if prev.Some? && prev.value.kind == High then 0 else 1
  {
    if k < |cs| {
      if Confirms(cs, mm, prev, k) {
        var s := Confirmed(cs, mm, prev, k);
        SwingsFromWithin(cs, mm, Some(s), FirstCandidate(Some(s)));
      } else {
        SwingsFromWithin(cs, mm, prev, k + 1);
      }
    }
  }

  /** later starts with early, and continues only with swings from candle n on. */
  ghost predicate ContinuesFrom(early: seq<Swing>, later: seq<Swing>, n: int, hi: int) {
    early <= later && IndicesWithin(later[|early|..], n, hi)
  }

  lemma {:induction false} PrependSwing(s: Swing, early: seq<Swing>, later: seq<Swing>, n: int, hi: int)
    requires ContinuesFrom(early, later, n, hi)
    ensures ContinuesFrom([s] + early, [s] + later, n, hi)
  {
    assert ([s] + later)[|[s] + early|..] == later[|early|..];
  }

  lemma {:induction false} SwingsFromPrefix(cs: seq<Candle>, mm: real, n: nat, prev: Option<Swing>, k: nat)
    requires LegStart(prev) <= k && n <= |cs|
    ensures ContinuesFrom(SwingsFrom(cs[..n], mm, prev, k), SwingsFrom(cs, mm, prev, k), n, |cs|)
    decreases |cs| - k, if prev.Some? && prev.value.kind == High then 0 else 1
  {
    if k >= n {
      SwingsFromWithin(cs, mm, prev, k);
      assert SwingsFrom(cs, mm, prev, k)[0..] == SwingsFrom(cs, mm, prev, k);
    } else {
      ExtremaOfPrefix(cs, n, LegStart(prev), k);
      assert cs[..n][k] == cs[k];
      if Confirms(cs, mm, prev, k) {
        var s := Confirmed(cs, mm, prev, k);
        var next := FirstCandidate(Some(s));
        SwingsFromPrefix(cs, mm, n, Some(s), next);
        PrependSwing(s, SwingsFrom(cs[..n], mm, Some(s), next), SwingsFrom(cs, mm, Some(s), next), n, |cs|);
      } else {
        SwingsFromPrefix(cs, mm, n, prev, k + 1);
      }
    }
  }

  /** Swings never repaint: for a fixed reversal size the swings of the first n candles
      are exactly the swings of the whole history that those candles confirm. */
  lemma {:induction false} SwingsNeverRepaint(cs: seq<Candle>, mm: real, n: nat)
    requires n <= |cs|
    ensures Swings(cs[..n], mm) <= Swings(cs, mm)
    ensures forall i :: 0 <= i < |Swings(cs, mm)| ==>
      (Swings(cs, mm)[i].index < n <==> i < |Swings(cs[..n], mm)|)
  {
    SwingsFromPrefix(cs, mm, n, None, 0);
    SwingsFromWithin(cs[..n], mm, None, 0);
    var early, later := Swings(cs[..n], mm), Swings(cs, mm);
    forall i | 0 <= i < |later| ensures later[i].index < n <==> i < |early| {
      if i < |early| {
        assert later[i] == early[i];
      } else {
        assert later[i] == later[|early|..][i - |early|];
      }
    }
  }

  // ----- the single pass -----

  /** The code's loop: one pass over the candles, a direction and two running extrema. */
  method ZigzagSwings(candles: seq<Candle>, minMove: real) returns (swings: seq<Swing>)
    ensures swings == Swings(candles, minMove)
    ensures IsZigzag(candles, minMove, swings)
  {
    swings := Scan(candles, minMove);
    SwingsIsZigzag(candles, minMove);
  }

  lemma {:induction false} ConfirmStep(cs: seq<Candle>, mm: real, done: seq<Swing>, prev: Option<Swing>, k: nat, s: Swing)
    requires LegStart(prev) <= k < |cs| && Confirms(cs, mm, prev, k) && s == Confirmed(cs, mm, prev, k)
    ensures done + SwingsFrom(cs, mm, prev, k) == done + [s] + SwingsFrom(cs, mm, Some(s), FirstCandidate(Some(s)))
  {
    assert SwingsFrom(cs, mm, prev, k) == [s] + SwingsFrom(cs, mm, Some(s), FirstCandidate(Some(s)));
  }

  lemma {:induction false} SkipStep(cs: seq<Candle>, mm: real, prev: Option<Swing>, k: nat)
    requires LegStart(prev) <= k < |cs| && !Confirms(cs, mm, prev, k)
    ensures SwingsFrom(cs, mm, prev, k) == SwingsFrom(cs, mm, prev, k + 1)
  {}

  /** The code's direction, as a function of the last swing. */
  function Direction(prev: Option<Swing>): int {
    if prev.None? then 0 else if prev.value.kind == Low then 1 else -1
  }

  /** Either half of a candle: the swings found and those from candle i on are all of them. */
  ghost predicate Split(cs: seq<Candle>, mm: real, i: nat, swings: seq<Swing>, prev: Option<Swing>) {
    && prev == Before(swings, |swings|) && LegStart(prev) <= i
    && swings + SwingsFrom(cs, mm, prev, i) == Swings(cs, mm)
  }

  /** The loop's variables before candle i. */
  ghost predicate Tracking(cs: seq<Candle>, mm: real, i: nat, swings: seq<Swing>, prev: Option<Swing>,
                           pivotHigh: Option<real>, pivotLow: Option<real>) {
    && i <= |cs| && Split(cs, mm, i, swings, prev) && (prev.Some? ==> prev.value.index < i)
    && pivotHigh == (if Direction(prev) < 0 || i == 0 then None else Some(MaxHigh(cs, LegStart(prev), i - 1)))
    && pivotLow == (if Direction(prev) > 0 || i == 0 then None else Some(MinLow(cs, LegStart(prev), i - 1)))
  }

  /** The loop's variables between the two halves of candle i: no High can be confirmed here. */
  ghost predicate Midway(cs: seq<Candle>, mm: real, i: nat, swings: seq<Swing>, prev: Option<Swing>,
                         pivotHigh: Option<real>, pivotLow: Option<real>) {
    && i < |cs| && Split(cs, mm, i, swings, prev)
    && (prev.Some? && prev.value.index == i ==> prev.value.kind == High)
    && (Direction(prev) >= 0 ==> !Drops(cs, mm, LegStart(prev), i))
    && pivotHigh == (if Direction(prev) < 0 then None else Some(MaxHigh(cs, LegStart(prev), i)))
    && pivotLow == (if Direction(prev) > 0 || (i == 0 && prev.None?) then None
                    else Some(MinLow(cs, LegStart(prev), if LegStart(prev) == i then i else i - 1)))
  }

  function Higher(pivot: Option<real>, x: real): real {
    if pivot.None? || x > pivot.value then x else pivot.value
  }

  function Lower(pivot: Option<real>, x: real): real {
    if pivot.None? || x < pivot.value then x else pivot.value
  }

  /** The first half of candle i: a High is confirmed, or the running high goes on. */
  lemma {:induction false} HighHalf(cs: seq<Candle>, mm: real, i: nat, swings: seq<Swing>, prev: Option<Swing>,
                                    pivotHigh: Option<real>, pivotLow: Option<real>)
    requires i < |cs| && Tracking(cs, mm, i, swings, prev, pivotHigh, pivotLow)
    ensures Direction(prev) < 0 ==> Midway(cs, mm, i, swings, prev, pivotHigh, pivotLow)
    ensures Direction(prev) >= 0 ==>
      var top := Higher(pivotHigh, cs[i].high); var high := Swing(High, top, i);
      if top - cs[i].low >= mm then Midway(cs, mm, i, swings + [high], Some(high), None, Some(cs[i].low))
      else Midway(cs, mm, i, swings, prev, Some(top), pivotLow)
  {
    if Direction(prev) >= 0 {
      var top := Higher(pivotHigh, cs[i].high);
      assert top == MaxHigh(cs, LegStart(prev), i);
      if top - cs[i].low >= mm {
        ConfirmStep(cs, mm, swings, prev, i, Swing(High, top, i));
      }
    }
  }

  lemma {:induction false} RunningLow(cs: seq<Candle>, mm: real, i: nat, swings: seq<Swing>, prev: Option<Swing>,
                                      pivotHigh: Option<real>, pivotLow: Option<real>)
    requires Midway(cs, mm, i, swings, prev, pivotHigh, pivotLow) && Direction(prev) <= 0
    ensures Lower(pivotLow, cs[i].low) == MinLow(cs, LegStart(prev), i)
  {}

  lemma {:induction false} LowConfirmed(cs: seq<Candle>, mm: real, i: nat, swings: seq<Swing>, prev: Option<Swing>,
                                        pivotHigh: Option<real>, pivotLow: Option<real>, bottom: real)
    requires Midway(cs, mm, i, swings, prev, pivotHigh, pivotLow) && Direction(prev) <= 0
    requires bottom == MinLow(cs, LegStart(prev), i) && cs[i].high - bottom >= mm
    ensures var low := Swing(Low, bottom, i); Tracking(cs, mm, i + 1, swings + [low], Some(low), Some(cs[i].high), None)
  {
    ConfirmStep(cs, mm, swings, prev, i, Swing(Low, bottom, i));
  }

  /** The second half: a Low is confirmed, or the running low goes on. */
  lemma {:induction false} LowHalf(cs: seq<Candle>, mm: real, i: nat, swings: seq<Swing>, prev: Option<Swing>,
                                   pivotHigh: Option<real>, pivotLow: Option<real>)
    requires Midway(cs, mm, i, swings, prev, pivotHigh, pivotLow)
    ensures Direction(prev) > 0 ==> Tracking(cs, mm, i + 1, swings, prev, pivotHigh, pivotLow)
    ensures Direction(prev) <= 0 ==>
      var bottom := Lower(pivotLow, cs[i].low); var low := Swing(Low, bottom, i);
      if cs[i].high - bottom >= mm then Tracking(cs, mm, i + 1, swings + [low], Some(low), Some(cs[i].high), None)
      else Tracking(cs, mm, i + 1, swings, prev, pivotHigh, Some(bottom))
  {
    if Direction(prev) > 0 {
      SkipStep(cs, mm, prev, i);
    } else {
      var bottom := Lower(pivotLow, cs[i].low);
      RunningLow(cs, mm, i, swings, prev, pivotHigh, pivotLow);
      if cs[i].high - bottom >= mm {
        LowConfirmed(cs, mm, i, swings, prev, pivotHigh, pivotLow, bottom);
      } else {
        SkipStep(cs, mm, prev, i);
      }
    }
  }

  /** The half of the loop body that looks for a High. */
  method SeekHigh(candles: seq<Candle>, minMove: real, i: nat, swings0: seq<Swing>, direction0: int,
                  pivotHigh0: Option<real>, pivotLow0: Option<real>, ghost prev0: Option<Swing>)
    returns (swings: seq<Swing>, direction: int, pivotHigh: Option<real>, pivotLow: Option<real>, ghost prev: Option<Swing>)
    requires i < |candles| && direction0 == Direction(prev0)
    requires Tracking(candles, minMove, i, swings0, prev0, pivotHigh0, pivotLow0)
    ensures direction == Direction(prev) && Midway(candles, minMove, i, swings, prev, pivotHigh, pivotLow)
  {
    swings, direction, pivotHigh, pivotLow, prev := swings0, direction0, pivotHigh0, pivotLow0, prev0;
    HighHalf(candles, minMove, i, swings, prev, pivotHigh, pivotLow);
    var c := candles[i];
    if direction >= 0 {
      if pivotHigh.None? || c.high > pivotHigh.value {
        pivotHigh := Some(c.high);
      }
      if pivotHigh.value - c.low >= minMove {
        prev := Some(Swing(High, pivotHigh.value, i));
        swings := swings + [Swing(High, pivotHigh.value, i)];
        direction := -1;
        pivotLow := Some(c.low);
        pivotHigh := None;
      }
    }
  }

  /** The half that looks for a Low, with the direction that the first half left. */
  method SeekLow(candles: seq<Candle>, minMove: real, i: nat, swings0: seq<Swing>, direction0: int,
                 pivotHigh0: Option<real>, pivotLow0: Option<real>, ghost prev0: Option<Swing>)
    returns (swings: seq<Swing>, direction: int, pivotHigh: Option<real>, pivotLow: Option<real>, ghost prev: Option<Swing>)
    requires i < |candles| && direction0 == Direction(prev0)
    requires Midway(candles, minMove, i, swings0, prev0, pivotHigh0, pivotLow0)
    ensures direction == Direction(prev) && Tracking(candles, minMove, i + 1, swings, prev, pivotHigh, pivotLow)
  {
    swings, direction, pivotHigh, pivotLow, prev := swings0, direction0, pivotHigh0, pivotLow0, prev0;
    LowHalf(candles, minMove, i, swings, prev, pivotHigh, pivotLow);
    var c := candles[i];
    if direction <= 0 {
      if pivotLow.None? || c.low < pivotLow.value {
        pivotLow := Some(c.low);
      }
      if c.high - pivotLow.value >= minMove {
        prev := Some(Swing(Low, pivotLow.value, i));
        swings := swings + [Swing(Low, pivotLow.value, i)];
        direction := 1;
        pivotHigh := Some(c.high);
        pivotLow := None;
      }
    }
  }

  method Scan(candles: seq<Candle>, minMove: real) returns (swings: seq<Swing>)
    ensures swings == Swings(candles, minMove)
  {
    swings := [];
    if |candles| == 0 {
      return;
    }
    var direction := 0;
    var pivotHigh: Option<real>, pivotLow: Option<real> := None, None;
    ghost var prev: Option<Swing> := None;
    for i := 0 to |candles|
      invariant direction == Direction(prev)
      invariant Tracking(candles, minMove, i, swings, prev, pivotHigh, pivotLow)
    {
      swings, direction, pivotHigh, pivotLow, prev :=
        SeekHigh(candles, minMove, i, swings, direction, pivotHigh, pivotLow, prev);
      swings, direction, pivotHigh, pivotLow, prev :=
        SeekLow(candles, minMove, i, swings, direction, pivotHigh, pivotLow, prev);
    }
    assert swings + [] == swings;
  }
}
