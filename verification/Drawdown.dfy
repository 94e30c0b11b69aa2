/** The shadow simulation's one-pass drawdown, against the all-pairs definition and against the
    risk gate's emergency. */
module ShadowDrawdown {
  import opened Common
  import RiskGate

  /** The fall from p to e, as a fraction of p. */
  function Fall(p: real, e: real): real
    requires 0.0 < p
  {
    (p - e) / p
  }

  lemma {:induction false} FallGrows(a: real, b: real, e: real)
    requires 0.0 < a <= b && 0.0 < e
    ensures Fall(a, e) <= Fall(b, e) && (a <= e ==> Fall(a, e) <= 0.0) && Fall(a, a) == 0.0 && (e <= a ==> 0.0 <= Fall(a, e))
  {
    var x, y := Fall(a, e), Fall(b, e);
    assert x * a == a - e && y * b == b - e;
    FallOrder(a, b, e, x, y);
    FallSign(a, e, x);
  }

  lemma {:induction false} FallOrder(a: real, b: real, e: real, x: real, y: real)
    requires 0.0 < a <= b && 0.0 < e && x * a == a - e && y * b == b - e
    ensures x <= y
  {
    var u, v := 1.0 - x, 1.0 - y;
    assert u * a == e && v * b == e;
    SignOf(u, a);
    assert u * (b - a) >= 0.0;
    assert (u - v) * b >= 0.0;
    SignOf(u - v, b);
  }

  lemma {:induction false} SignOf(z: real, b: real)
    requires 0.0 < b
    ensures 0.0 < z * b ==> 0.0 < z
    ensures 0.0 <= z * b ==> 0.0 <= z
  {
    if z < 0.0 { assert z * b < 0.0; }
  }

  lemma {:induction false} FallSign(a: real, e: real, x: real)
    requires 0.0 < a && x * a == a - e
    ensures a <= e ==> x <= 0.0
    ensures e <= a ==> 0.0 <= x
  {
    if x > 0.0 { assert x * a > 0.0; }
    if x < 0.0 { assert x * a < 0.0; }
  }

  /** A fall by x times the peak is a fall of x. */
  lemma {:induction false} FallIsShare(p: real, x: real)
    requires 0.0 < p
    ensures Fall(p, p - x * p) == x
  {
    ProductOver(x, p);
  }

  // ----- the declarative drawdown of a path -----

  ghost predicate FallsWithin(path: seq<real>, i: nat, j: nat, w: real)
    requires i <= j < |path|
  {
    0.0 < path[i] ==> Fall(path[i], path[j]) <= w
  }

  ghost predicate FallsBy(path: seq<real>, i: nat, j: nat, w: real)
    requires i <= j < |path|
  {
    0.0 < path[i] && Fall(path[i], path[j]) == w
  }

  /** w is the largest of 0 and every fall from an earlier (or the same) point to a later one. */
  ghost predicate IsWorst(path: seq<real>, w: real) {
    && 0.0 <= w
    && (forall i, j :: 0 <= i <= j < |path| ==> FallsWithin(path, i, j, w))
    && (w == 0.0 || exists i, j :: 0 <= i <= j < |path| && FallsBy(path, i, j, w))
  }

  lemma {:induction false} WorstIsUnique(path: seq<real>, v: real, w: real)
    requires IsWorst(path, v) && IsWorst(path, w)
    ensures v == w
  {
    if v != 0.0 {
      var i, j :| 0 <= i <= j < |path| && FallsBy(path, i, j, v);
      assert FallsWithin(path, i, j, w);
    }
    if w != 0.0 {
      var i, j :| 0 <= i <= j < |path| && FallsBy(path, i, j, w);
      assert FallsWithin(path, i, j, v);
    }
  }

  /** The highest point so far. */
  function Peak(path: seq<real>): (p: real)
    requires path != []
  {
    var last := path[|path| - 1];
    if |path| == 1 then last else Max(Peak(path[..|path| - 1]), last)
  }

  lemma {:induction false} PeakIsHighest(path: seq<real>)
    requires path != []
    ensures forall i :: 0 <= i < |path| ==> path[i] <= Peak(path)
    ensures exists i :: 0 <= i < |path| && path[i] == Peak(path)
  {
    if |path| == 1 {
      assert path[0] == Peak(path);
    } else {
      var front := path[..|path| - 1];
      PeakIsHighest(front);
      var i :| 0 <= i < |front| && front[i] == Peak(front);
      assert path[i] == Peak(front) && path[|path| - 1] <= Peak(path);
      forall j | 0 <= j < |path| ensures path[j] <= Peak(path) {
        assert j < |front| ==> path[j] == front[j];
      }
      assert path[if Peak(path) == Peak(front) then i else |path| - 1] == Peak(path);
    }
  }

  /** One tick of the running peak and drawdown keeps the all-pairs meaning. */
  lemma {:induction false} WorstStep(path: seq<real>, e: real, w: real)
    requires path != [] && 0.0 < e && IsWorst(path, w)
    ensures var p := Max(Peak(path), e); IsWorst(path + [e], Max(w, Fall(p, e)))
  {
    var p := Max(Peak(path), e);
    var longer := path + [e];
    var v := Max(w, Fall(p, e));
    var k := |path|;
    assert longer[..k] == path;
    PeakIsHighest(longer);
    assert Peak(longer) == p;
    forall i, j | 0 <= i <= j < |longer| ensures FallsWithin(longer, i, j, v) {
      if j < k {
        assert FallsWithin(path, i, j, w);
      } else if 0.0 < longer[i] {
        assert longer[i] <= p;
        FallGrows(longer[i], p, e);
      }
    }
    if v == w {
      if w != 0.0 {
        var i, j :| 0 <= i <= j < |path| && FallsBy(path, i, j, w);
        assert FallsBy(longer, i, j, v);
      }
    } else {
      var i :| 0 <= i < |longer| && longer[i] == p;
      assert FallsBy(longer, i, k, v);
    }
  }

  lemma {:induction false} WorstOfStart(e: real)
    ensures IsWorst([e], 0.0)
  {
    if 0.0 < e { FallGrows(e, e, e); }
  }

  // ----- the simulated path -----

  function Baseline(curve: seq<real>): (b: real)
    requires curve != []
    ensures 0.0 < b
  {
    if curve[0] <= 0.0 then 1.0 else curve[0]
  }

  /** One tick of a curve, relative to the curve's baseline. */
  function Moved(equity: real, tick: real, baseline: real): real
    requires 0.0 < baseline
  {
    equity * (tick / baseline)
  }

  /** Equity after y whole years and i ticks of the next one, from the start equity on. */
  function PathOf(start: real, curves: seq<seq<real>>, y: nat, i: nat): (path: seq<real>)
    requires y <= |curves| && (i > 0 ==> y < |curves| && i <= |curves[y]|)
    ensures path != []
    decreases y, i
  {
    if i > 0 then
      var before := PathOf(start, curves, y, i - 1);
      before + [Moved(before[|before| - 1], curves[y][i - 1], Baseline(curves[y]))]
    else if y > 0 then PathOf(start, curves, y - 1, |curves[y - 1]|)
    else [start]
  }

  lemma {:induction false} NextOnPath(start: real, curves: seq<seq<real>>, y: nat, i: nat, path: seq<real>, e: real)
    requires y < |curves| && i < |curves[y]| && path == PathOf(start, curves, y, i)
    requires e == Moved(path[|path| - 1], curves[y][i], Baseline(curves[y]))
    ensures PathOf(start, curves, y, i + 1) == path + [e]
  {
  }

  lemma {:induction false} MovedInProportion(equity: real, tick: real, first: real)
    ensures InProportion(Moved(equity, tick, if first <= 0.0 then 1.0 else first), first, equity, tick)
  {
    var baseline := if first <= 0.0 then 1.0 else first;
    QuotientTimes(tick, baseline);
    Reorder(equity, tick / baseline, baseline);
  }

  lemma {:induction false} Reorder(x: real, q: real, y: real)
    ensures (x * q) * y == x * (q * y)
  {}

  /** The path, step by step: it begins with the start equity, every tick moves it in proportion
      to that tick over the first of its year (over 1 when that is not positive), and a new year
      begins where the last one ended. */
  lemma {:induction false} PathIsProportional(start: real, curves: seq<seq<real>>, y: nat, i: nat)
    requires y < |curves| && i <= |curves[y]|
    ensures PathOf(start, curves, 0, 0) == [start]
    ensures PathOf(start, curves, y + 1, 0) == PathOf(start, curves, y, |curves[y]|)
    ensures i > 0 ==>
      var before, path := PathOf(start, curves, y, i - 1), PathOf(start, curves, y, i); var n := |before|;
      && |path| == n + 1 && path[..n] == before
      && InProportion(path[n], curves[y][0], before[n - 1], curves[y][i - 1])
  {
    if i > 0 {
      var before := PathOf(start, curves, y, i - 1);
      MovedInProportion(before[|before| - 1], curves[y][i - 1], curves[y][0]);
    }
  }

  /** The point after relates to the tick as the one before to the first tick, or to 1. */
  predicate InProportion(after: real, first: real, before: real, tick: real) {
    after * (if first > 0.0 then first else 1.0) == before * tick
  }

  /** Every point after the start is positive. */
  ghost predicate Alive(path: seq<real>) {
    forall k :: 1 <= k < |path| ==> 0.0 < path[k]
  }

  /** The loop's three variables, as functions of the path so far. */
  ghost predicate Tracks(path: seq<real>, equity: real, peak: real, worst: real) {
    path != [] && equity == path[|path| - 1] && peak == Peak(path) && IsWorst(path, worst) && Alive(path)
  }

  lemma {:induction false} TrackTick(path: seq<real>, equity: real, peak: real, worst: real, e: real)
    requires Tracks(path, equity, peak, worst) && 0.0 < e
    ensures var p := Max(peak, e); 0.0 < p && Tracks(path + [e], e, p, Max(worst, Fall(p, e)))
  {
    assert (path + [e])[..|path|] == path;
    WorstStep(path, e, worst);
  }

  /** How a run of the simulation ends. */
  datatype Ending = Survived | Ruined(year: nat, tick: nat) | PolicyRaised

  /** The policy raised at its last call, or at none. */
  ghost predicate RaisedAtEnd(raises: nat -> bool, calls: nat, ending: Ending) {
    if ending.PolicyRaised? then 0 < calls && raises(calls - 1) && forall k: nat :: k + 1 < calls ==> !raises(k)
    else forall k: nat :: k < calls ==> !raises(k)
  }

  /** The path that an ending leaves behind. */
  ghost predicate EndsAs(start: real, curves: seq<seq<real>>, path: seq<real>, equity: real, ending: Ending) {
    match ending
    case Survived => path == PathOf(start, curves, |curves|, 0) && equity == path[|path| - 1]
    case Ruined(y, i) =>
      && equity == 0.0 && y < |curves| && i < |curves[y]|
      && path == PathOf(start, curves, y, i)
      && var next := PathOf(start, curves, y, i + 1); next[|next| - 1] <= 0.0
    case PolicyRaised => exists y, i :: 0 <= y < |curves| && 0 < i <= |curves[y]| && path == PathOf(start, curves, y, i)
  }

  /** The simulation is at tick i of year y: the loop's variables and what the policy was shown. */
  ghost predicate Going(start: real, curves: seq<seq<real>>, raises: nat -> bool, y: nat, i: nat,
                        equity: real, peak: real, worst: real, shown: seq<real>, path: seq<real>) {
    && y <= |curves| && (i > 0 ==> y < |curves| && i <= |curves[y]|)
    && path == PathOf(start, curves, y, i) && path == [start] + shown
    && Tracks(path, equity, peak, worst) && RaisedAtEnd(raises, |shown|, Survived)
  }

  /** The simulation has ended: its path, its exact drawdown and why it ended. */
  ghost predicate Ended(start: real, curves: seq<seq<real>>, raises: nat -> bool,
                        equity: real, worst: real, shown: seq<real>, path: seq<real>, ending: Ending) {
    && path == [start] + shown && Alive(path) && IsWorst(path, worst)
    && EndsAs(start, curves, path, equity, ending) && RaisedAtEnd(raises, |shown|, ending)
  }

  lemma {:induction false} Extend(start: real, shown: seq<real>, path: seq<real>, e: real)
    requires path == [start] + shown
    ensures path + [e] == [start] + (shown + [e])
  {}

  lemma {:induction false} RuinEnds(start: real, curves: seq<seq<real>>, raises: nat -> bool, y: nat, i: nat,
                                    equity: real, peak: real, worst: real, shown: seq<real>, path: seq<real>)
    requires Going(start, curves, raises, y, i, equity, peak, worst, shown, path) && y < |curves| && i < |curves[y]|
    requires Moved(equity, curves[y][i], Baseline(curves[y])) <= 0.0
    ensures Ended(start, curves, raises, 0.0, worst, shown, path, Ruined(y, i))
  {
    NextOnPath(start, curves, y, i, path, Moved(equity, curves[y][i], Baseline(curves[y])));
  }

  lemma {:induction false} TickGoesOn(start: real, curves: seq<seq<real>>, raises: nat -> bool, y: nat, i: nat,
                                      equity: real, peak: real, worst: real, shown: seq<real>, path: seq<real>, e: real)
    requires Going(start, curves, raises, y, i, equity, peak, worst, shown, path) && y < |curves| && i < |curves[y]|
    requires e == Moved(equity, curves[y][i], Baseline(curves[y])) && 0.0 < e
    ensures path + [e] == PathOf(start, curves, y, i + 1) && path + [e] == [start] + (shown + [e])
    ensures 0.0 < Max(peak, e) && Tracks(path + [e], e, Max(peak, e), Max(worst, Fall(Max(peak, e), e)))
  {
    NextOnPath(start, curves, y, i, path, e);
    TrackTick(path, equity, peak, worst, e);
    Extend(start, shown, path, e);
  }

  lemma {:induction false} RaiseEnds(start: real, curves: seq<seq<real>>, raises: nat -> bool, y: nat, i: nat,
                                     equity: real, peak: real, worst: real, shown: seq<real>, path: seq<real>)
    requires y < |curves| && i < |curves[y]| && path == PathOf(start, curves, y, i + 1) && path == [start] + shown
    requires Tracks(path, equity, peak, worst) && RaisedAtEnd(raises, |shown|, PolicyRaised)
    ensures Ended(start, curves, raises, equity, worst, shown, path, PolicyRaised)
  {}

  /** The ticks of one year. */
  method RunYear(start: real, curves: seq<seq<real>>, year: nat, raises: nat -> bool,
                 equity0: real, peak0: real, worst0: real, shown0: seq<real>, ghost path0: seq<real>)
    returns (equity: real, peak: real, worst: real, shown: seq<real>, ending: Ending, ghost path: seq<real>)
    requires year < |curves| && curves[year] != []
    requires Going(start, curves, raises, year, 0, equity0, peak0, worst0, shown0, path0)
    ensures if ending.Survived? then Going(start, curves, raises, year + 1, 0, equity, peak, worst, shown, path)
            else Ended(start, curves, raises, equity, worst, shown, path, ending)
  {
    equity, peak, worst, shown, ending, path := equity0, peak0, worst0, shown0, Survived, path0;
    var curve := curves[year];
    var baseline := Baseline(curve);
    for i := 0 to |curve|
      invariant Going(start, curves, raises, year, i, equity, peak, worst, shown, path)
    {
      var next := Moved(equity, curve[i], baseline);
      if next <= 0.0 {
        RuinEnds(start, curves, raises, year, i, equity, peak, worst, shown, path);
        return 0.0, peak, worst, shown, Ruined(year, i), path;
      }
      TickGoesOn(start, curves, raises, year, i, equity, peak, worst, shown, path, next);
      equity := next;
      peak := Max(peak, equity);
      var drawdown := Fall(peak, equity);
      worst := Max(worst, drawdown);
      shown, path := shown + [equity], path + [equity];
      if raises(|shown| - 1) {
        RaiseEnds(start, curves, raises, year, i, equity, peak, worst, shown, path);
        return equity, peak, worst, shown, PolicyRaised, path;
      }
    }
  }

  /** Every earlier path is the beginning of the whole one. */
  lemma {:induction false} PathIsPrefix(start: real, curves: seq<seq<real>>, y: nat, i: nat)
    requires y <= |curves| && (i > 0 ==> y < |curves| && i <= |curves[y]|)
    ensures PathOf(start, curves, y, i) <= PathOf(start, curves, |curves|, 0)
    decreases |curves| - y, if y < |curves| then |curves[y]| - i else 0
  {
    if y < |curves| {
      if i < |curves[y]| {
        PathIsPrefix(start, curves, y, i + 1);
      } else {
        PathIsPrefix(start, curves, y + 1, 0);
      }
    }
  }

  lemma {:induction false} SurvivalIsAlive(start: real, curves: seq<seq<real>>, path: seq<real>, equity: real, ending: Ending)
    requires EndsAs(start, curves, path, equity, ending) && Alive(path)
    ensures !ending.PolicyRaised? ==> (ending.Survived? <==> Alive(PathOf(start, curves, |curves|, 0)))
  {
    if ending.Ruined? {
      var next := PathOf(start, curves, ending.year, ending.tick + 1);
      PathIsPrefix(start, curves, ending.year, ending.tick + 1);
      assert PathOf(start, curves, |curves|, 0)[|next| - 1] <= 0.0;
    }
  }

  /** The simulation; call k of the policy is shown the k-th surviving equity and may raise. On
      survival: the whole path and its last equity. On ruin: equity 0 and where it happened, the
      ruinous tick not part of the path. In every case: the exact all-pairs drawdown. A policy
      that never raises survives exactly the paths that stay positive. */
  method Simulate(start: real, curves: seq<seq<real>>, raises: nat -> bool)
    returns (equity: real, worst: real, shown: seq<real>, ending: Ending, ghost path: seq<real>)
    ensures path == [start] + shown && Alive(path) && IsWorst(path, worst)
    ensures EndsAs(start, curves, path, equity, ending)
    ensures RaisedAtEnd(raises, |shown|, ending)
    ensures !ending.PolicyRaised? ==> (ending.Survived? <==> Alive(PathOf(start, curves, |curves|, 0)))
  {
    equity, worst, shown, ending, path := start, 0.0, [], Survived, [start];
    var peak := equity;
    WorstOfStart(start);
    for year := 0 to |curves|
      invariant ending == Survived && Going(start, curves, raises, year, 0, equity, peak, worst, shown, path)
    {
      if curves[year] != [] {
        equity, peak, worst, shown, ending, path :=
          RunYear(start, curves, year, raises, equity, peak, worst, shown, path);
        if !ending.Survived? {
          SurvivalIsAlive(start, curves, path, equity, ending);
          return;
        }
      }
    }
    SurvivalIsAlive(start, curves, path, equity, ending);
  }

  // ----- who survives -----

  /** Every tick up to tick i of year y is positive. */
  ghost predicate TicksPositive(curves: seq<seq<real>>, y: nat, i: nat)
    requires y <= |curves| && (i > 0 ==> y < |curves| && i <= |curves[y]|)
  {
    && (forall v, k :: 0 <= v < y && 0 <= k < |curves[v]| ==> 0.0 < curves[v][k])
    && (forall k :: 0 <= k < i ==> 0.0 < curves[y][k])
  }

  lemma {:induction false} ProductSign(x: real, y: real)
    ensures 0.0 < x ==> (0.0 < x * y <==> 0.0 < y)
  {}

  lemma {:induction false} QuotientSign(x: real, y: real)
    requires 0.0 < y
    ensures 0.0 < x / y <==> 0.0 < x
  {
    var q := x / y;
    assert q * y == x;
    ProductSign(y, q);
  }

  lemma {:induction false} MovedSign(equity: real, tick: real, baseline: real)
    requires 0.0 < baseline && 0.0 < equity
    ensures 0.0 < Moved(equity, tick, baseline) <==> 0.0 < tick
  {
    QuotientSign(tick, baseline);
    ProductSign(equity, tick / baseline);
  }

  lemma {:induction false} OneMoreTick(curves: seq<seq<real>>, y: nat, i: nat)
    requires y < |curves| && 0 < i <= |curves[y]|
    ensures TicksPositive(curves, y, i) <==> TicksPositive(curves, y, i - 1) && 0.0 < curves[y][i - 1]
  {}

  lemma {:induction false} OneMoreYear(curves: seq<seq<real>>, y: nat)
    requires 0 < y <= |curves|
    ensures TicksPositive(curves, y, 0) <==> TicksPositive(curves, y - 1, |curves[y - 1]|)
  {}

  lemma {:induction false} AliveIffTicks(start: real, curves: seq<seq<real>>, y: nat, i: nat)
    requires 0.0 < start && y <= |curves| && (i > 0 ==> y < |curves| && i <= |curves[y]|)
    ensures Alive(PathOf(start, curves, y, i)) <==> TicksPositive(curves, y, i)
    decreases y, i
  {
    if i > 0 {
      AliveIffTicks(start, curves, y, i - 1);
      OneMoreTick(curves, y, i);
      StartsAt(start, curves, y, i - 1);
      AliveMove(PathOf(start, curves, y, i - 1), curves[y][i - 1], Baseline(curves[y]));
    } else if y > 0 {
      AliveIffTicks(start, curves, y - 1, |curves[y - 1]|);
      OneMoreYear(curves, y);
    }
  }

  lemma {:induction false} AliveMove(path: seq<real>, tick: real, baseline: real)
    requires path != [] && 0.0 < path[0] && 0.0 < baseline
    ensures Alive(path + [Moved(path[|path| - 1], tick, baseline)]) <==> Alive(path) && 0.0 < tick
  {
    var equity := path[|path| - 1];
    AliveOneMore(path, Moved(equity, tick, baseline));
    if Alive(path) {
      MovedSign(equity, tick, baseline);
    }
  }

  lemma {:induction false} AliveOneMore(path: seq<real>, e: real)
    requires path != []
    ensures Alive(path + [e]) <==> Alive(path) && 0.0 < e
  {
    var longer := path + [e];
    assert longer[|path|] == e;
    assert forall k :: 1 <= k < |path| ==> longer[k] == path[k];
  }

  lemma {:induction false} StartsAt(start: real, curves: seq<seq<real>>, y: nat, i: nat)
    requires y <= |curves| && (i > 0 ==> y < |curves| && i <= |curves[y]|)
    ensures PathOf(start, curves, y, i)[0] == start
    decreases y, i
  {
    if i > 0 {
      StartsAt(start, curves, y, i - 1);
    } else if y > 0 {
      StartsAt(start, curves, y - 1, |curves[y - 1]|);
    }
  }

  /** A year without ticks is skipped. */
  ghost predicate NoTicks(curves: seq<seq<real>>, y: nat)
    requires y <= |curves|
  {
    forall v :: 0 <= v < y ==> curves[v] == []
  }

  lemma {:induction false} PathWithoutTicks(start: real, curves: seq<seq<real>>, y: nat)
    requires y <= |curves| && NoTicks(curves, y)
    ensures PathOf(start, curves, y, 0) == [start]
  {
    if y > 0 {
      PathWithoutTicks(start, curves, y - 1);
    }
  }

  /** The first tick of the first year with ticks sets its own baseline: it repeats the start. */
  lemma {:induction false} StartIsRepeated(start: real, curves: seq<seq<real>>, y: nat)
    requires y < |curves| && NoTicks(curves, y) && curves[y] != [] && 0.0 < curves[y][0]
    ensures |PathOf(start, curves, |curves|, 0)| >= 2 && PathOf(start, curves, |curves|, 0)[1] == start
  {
    PathWithoutTicks(start, curves, y);
    assert PathOf(start, curves, y, 1) == [start, Moved(start, curves[y][0], curves[y][0])];
    PathIsPrefix(start, curves, y, 1);
  }

  lemma {:induction false} FirstYearWithTicks(curves: seq<seq<real>>, n: nat) returns (y: nat)
    requires n <= |curves| && !NoTicks(curves, n)
    ensures y < n && NoTicks(curves, y) && curves[y] != []
  {
    if NoTicks(curves, n - 1) {
      y := n - 1;
    } else {
      y := FirstYearWithTicks(curves, n - 1);
    }
  }

  /** Who survives, from what is known before the run: a positive start survives exactly positive
      ticks, and positive ticks let exactly the positive starts survive (or any, without ticks). */
  lemma {:induction false} SurvivalIff(start: real, curves: seq<seq<real>>)
    ensures var alive := Alive(PathOf(start, curves, |curves|, 0));
      var positive := TicksPositive(curves, |curves|, 0);
      && (0.0 < start ==> (alive <==> positive))
      && (positive ==> (alive <==> 0.0 < start || NoTicks(curves, |curves|)))
  {
    if 0.0 < start {
      AliveIffTicks(start, curves, |curves|, 0);
    } else if NoTicks(curves, |curves|) {
      PathWithoutTicks(start, curves, |curves|);
    } else if TicksPositive(curves, |curves|, 0) {
      var y := FirstYearWithTicks(curves, |curves|);
      StartIsRepeated(start, curves, y);
    }
  }

  // ----- the generator's curves -----

  /** One random drift, floored at a ten-thousandth. */
  function Shocked(price: real, drift: real): real {
    Max(price * (1.0 + drift), 0.0001)
  }

  function Drifted(price: real, drifts: seq<real>): real {
    if drifts == [] then price else Shocked(Drifted(price, drifts[..|drifts| - 1]), drifts[|drifts| - 1])
  }

  ghost predicate IsCurve(price: real, drifts: seq<real>, curve: seq<real>) {
    |curve| == |drifts| && forall k :: 0 <= k < |curve| ==> curve[k] == Round6(Drifted(price, drifts[..k + 1]))
  }

  /** The generator, with the shocked draws as a parameter. */
  method GeneratePricePath(startPrice: real, drifts: seq<real>) returns (prices: seq<real>, equityCurve: seq<real>)
    ensures prices == equityCurve && IsCurve(startPrice, drifts, equityCurve)
  {
    prices, equityCurve := [], [];
    var price := startPrice;
    for i := 0 to |drifts|
      invariant price == Drifted(startPrice, drifts[..i]) && |equityCurve| == i && prices == equityCurve
      invariant forall k :: 0 <= k < i ==> equityCurve[k] == Round6(Drifted(startPrice, drifts[..k + 1]))
    {
      assert drifts[..i + 1][..i] == drifts[..i];
      price := Shocked(price, drifts[i]);
      prices := prices + [Round6(price)];
      equityCurve := equityCurve + [Round6(Max(price, 0.0))];
    }
  }

  /** Each price drifts from the one before, but never below the floor. */
  lemma {:induction false} PricesDrift(price: real, drifts: seq<real>, drift: real)
    ensures var before, now := Drifted(price, drifts), Drifted(price, drifts + [drift]);
      && Drifted(price, []) == price && 0.0001 <= now
      && (if before * (1.0 + drift) >= 0.0001 then now == before * (1.0 + drift) else now == 0.0001)
  {
    assert (drifts + [drift])[..|drifts|] == drifts;
  }

  /** A curve is its prices to six decimals. */
  lemma {:induction false} CurvesAreRounded(price: real, drifts: seq<real>, curve: seq<real>, k: nat)
    requires IsCurve(price, drifts, curve) && k < |curve|
    ensures IsRounded(curve[k], Drifted(price, drifts[..k + 1]), 1000000.0)
  {
    Rounds(Drifted(price, drifts[..k + 1]), 1000000.0);
  }

  /** The floor survives the rounding. */
  lemma {:induction false} RoundsAbove(x: real)
    requires 0.0001 <= x
    ensures 0.0001 <= Round6(x)
  {
    assert 100 <= Nearest(x * 1000000.0);
  }

  /** On the generator's curves, whatever is drawn, a positive start is never ruined and any other
      start is ruined by the first tick. */
  lemma {:induction false} GeneratedSurvival(start: real, curves: seq<seq<real>>, drifts: seq<seq<real>>)
    requires |curves| == |drifts| && forall y :: 0 <= y < |curves| ==> IsCurve(100.0, drifts[y], curves[y])
    ensures Alive(PathOf(start, curves, |curves|, 0)) <==> 0.0 < start || NoTicks(curves, |curves|)
  {
    forall y, k | 0 <= y < |curves| && 0 <= k < |curves[y]| ensures 0.0 < curves[y][k] {
      assert IsCurve(100.0, drifts[y], curves[y]);
      RoundsAbove(Drifted(100.0, drifts[y][..k + 1]));
    }
    SurvivalIff(start, curves);
  }

  /** The configuration accepts a start equity of zero: the first tick ruins it. */
  lemma {:induction false} ZeroStartIsRuined()
    ensures IsCurve(100.0, [0.0], [100.0]) && !Alive(PathOf(0.0, [[100.0]], 1, 0))
  {
    assert [0.0][..0] == [] && [0.0][..1] == [0.0];
    assert Drifted(100.0, [0.0]) == 100.0 == Round6(100.0);
    assert PathOf(0.0, [[100.0]], 0, 1) == [0.0, Moved(0.0, 100.0, 100.0)];
    assert PathOf(0.0, [[100.0]], 1, 0)[1] == 0.0;
  }

  datatype SimulationResult = SimulationResult(
    passed: bool, finalEquity: real, worstDrawdown: real, years: nat, failed: bool)

  /** Running a candidate: one that raises never passes and reports the start equity; otherwise
      the result is the simulation's, and it passes iff it ends positive within the ceiling. */
  method Execute(start: real, curves: seq<seq<real>>, raises: nat -> bool, ceiling: real)
    returns (result: SimulationResult, ghost path: seq<real>, ghost ending: Ending)
    ensures path != [] && RaisedAtEnd(raises, |path| - 1, ending)
    ensures result.failed <==> ending.PolicyRaised?
    ensures result.failed ==> result == SimulationResult(false, start, 0.0, 0, true)
    ensures !result.failed ==>
      && EndsAs(start, curves, path, result.finalEquity, ending)
      && Alive(path) && IsWorst(path, result.worstDrawdown)
      && result.passed == Passed(result.finalEquity, result.worstDrawdown, ceiling)
      && result.years == (if ending.Ruined? then ending.year else |curves|)
  {
    var equity, worst, shown, end;
    equity, worst, shown, end, path := Simulate(start, curves, raises);
    ending := end;
    match end {
      case PolicyRaised => result := SimulationResult(false, start, 0.0, 0, true);
      case Survived => result := SimulationResult(Passed(equity, worst, ceiling), equity, worst, |curves|, false);
      case Ruined(year, _) => result := SimulationResult(Passed(equity, worst, ceiling), equity, worst, year, false);
    }
  }

  /** Pass or fail of a finished simulation. */
  predicate Passed(finalEquity: real, worst: real, ceiling: real) {
    finalEquity > 0.0 && worst <= ceiling
  }

  lemma {:induction false} PassedIff(path: seq<real>, worst: real, ceiling: real)
    requires path != [] && Alive(path) && IsWorst(path, worst)
    ensures Passed(path[|path| - 1], worst, ceiling) <==>
      0.0 < path[|path| - 1] && forall i, j :: 0 <= i <= j < |path| ==> FallsWithin(path, i, j, ceiling)
  {
    var end := |path| - 1;
    if worst > ceiling && worst == 0.0 {
      if 0.0 < path[end] {
        FallGrows(path[end], path[end], path[end]);
        assert !FallsWithin(path, end, end, ceiling);
      }
    } else if worst > ceiling {
      var i, j :| 0 <= i <= j < |path| && FallsBy(path, i, j, worst);
      assert !FallsWithin(path, i, j, ceiling);
    } else {
      forall i, j | 0 <= i <= j < |path| ensures FallsWithin(path, i, j, ceiling) {
        assert FallsWithin(path, i, j, worst);
      }
    }
  }

  // ----- the gate's emergency along the same path -----

  /** The gate's answer at point k, with the running peak as high-water mark. */
  function GateAt(path: seq<real>, k: nat, positions: seq<RiskGate.Position>, p: RiskGate.Proposal,
                  rp: RiskGate.RiskParameters): RiskGate.Verdict
    requires k < |path|
  {
    RiskGate.Evaluate(RiskGate.Portfolio(path[k], Peak(path[..k + 1]), positions), p, rp)
  }

  lemma {:induction false} EmergencyAtIff(path: seq<real>, k: nat, positions: seq<RiskGate.Position>,
                                          p: RiskGate.Proposal,
                       rp: RiskGate.RiskParameters)
    requires k < |path| && 0.0 < p.notional && (forall i :: 0 <= i < |path| ==> 0.0 < path[i])
    ensures 0.0 < Peak(path[..k + 1])
    ensures GateAt(path, k, positions, p, rp).EmergencyLiquidationAll? <==> Fall(Peak(path[..k + 1]), path[k]) >= rp.maxDrawdown
  {
    var upto := path[..k + 1];
    PeakIsHighest(upto);
    assert upto[k] == path[k];
  }

  /** On a positive path the gate, given any positions and any valid proposal at each point,
      calls an emergency somewhere exactly when the simulation's drawdown reaches its threshold. */
  lemma {:induction false} EmergencyIffWorst(path: seq<real>, worst: real, positions: seq<seq<RiskGate.Position>>,
                                             ps: seq<RiskGate.Proposal>,
                          rp: RiskGate.RiskParameters)
    requires path != [] && IsWorst(path, worst) && |positions| == |ps| == |path|
    requires forall i :: 0 <= i < |ps| ==> 0.0 < ps[i].notional
    requires forall i :: 0 <= i < |path| ==> 0.0 < path[i]
    ensures (exists k :: 0 <= k < |path| && GateAt(path, k, positions[k], ps[k], rp).EmergencyLiquidationAll?)
      <==> worst >= rp.maxDrawdown
  {
    if k :| 0 <= k < |path| && GateAt(path, k, positions[k], ps[k], rp).EmergencyLiquidationAll? {
      EmergencyAtIff(path, k, positions[k], ps[k], rp);
      var upto := path[..k + 1];
      PeakIsHighest(upto);
      var i :| 0 <= i < |upto| && upto[i] == Peak(upto);
      assert FallsWithin(path, i, k, worst);
    }
    if worst >= rp.maxDrawdown {
      var j := 0;
      if worst == 0.0 {
        FallGrows(path[0], path[0], path[0]);
        assert Peak(path[..1]) == path[0];
      } else {
        var i, l :| 0 <= i <= l < |path| && FallsBy(path, i, l, worst);
        j := l;
        PeakIsHighest(path[..l + 1]);
        assert path[..l + 1][i] == path[i];
        FallGrows(path[i], Peak(path[..l + 1]), path[l]);
      }
      EmergencyAtIff(path, j, positions[j], ps[j], rp);
    }
  }
}
