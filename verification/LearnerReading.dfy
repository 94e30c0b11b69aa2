/** What the learner reads off candles, in prices, and exactly when it fits, calls and scores. */
module LearnerReading {
  import opened Common
  import opened Candles
  import opened NextCandle
  import TrueRange

  // ----- features -----

  /** Green closes above its open, red below. */
  lemma {:induction false} ColourIsBody(c: Candle)
    ensures Colour(c) == 1 <==> c.close > c.open
    ensures Colour(c) == -1 <==> c.close < c.open
    ensures Colour(c) == 0 <==> c.close == c.open
  {}

  lemma {:induction false} RatioTimes(x: real, y: real, q: real)
    requires q == if y > 0.0 then x / y else 0.0
    ensures if y > 0.0 then q * y == x else q == 0.0
  {
    if y > 0.0 {
      QuotientTimes(x, y);
    }
  }

  /** ratio is x in units of unit, 0 when the unit is not positive. */
  predicate InUnits(ratio: real, x: real, unit: real) {
    if unit > 0.0 then ratio * unit == x else ratio == 0.0
  }

  lemma {:induction false} VectorInUnits(b: Bar)
    ensures var v := Vector(b);
      && |v| == 7 && v[0] == b.colour as real
      && InUnits(v[1], b.body, b.atr) && InUnits(v[2], b.range, b.atr) && InUnits(v[5], b.move, b.atr)
      && InUnits(v[6], b.body, b.range)
      && v[3] == (if b.colour > 0 then if b.streak <= 6 then b.streak as real else 6.0 else 0.0)
      && v[4] == (if b.colour < 0 then if b.streak <= 6 then b.streak as real else 6.0 else 0.0)
  {
    var v := Vector(b);
    RatioTimes(b.body, b.atr, v[1]);
    RatioTimes(b.range, b.atr, v[2]);
    RatioTimes(b.move, b.atr, v[5]);
    RatioTimes(b.body, b.range, v[6]);
  }

  /** The n candles up to i rise, or fall, and the one before them does not. */
  ghost predicate RunsUp(cs: seq<Candle>, i: nat, n: nat) {
    && n <= i + 1 <= |cs|
    && (forall j :: i - n < j <= i ==> cs[j].close > cs[j].open)
    && !(n <= i && cs[i - n].close > cs[i - n].open)
  }

  ghost predicate RunsDown(cs: seq<Candle>, i: nat, n: nat) {
    && n <= i + 1 <= |cs|
    && (forall j :: i - n < j <= i ==> cs[j].close < cs[j].open)
    && !(n <= i && cs[i - n].close < cs[i - n].open)
  }

  lemma {:induction false} StreakRuns(cs: seq<Candle>, i: nat)
    requires i < |cs|
    ensures cs[i].close > cs[i].open ==> RunsUp(cs, i, StreakAt(cs, i))
    ensures cs[i].close < cs[i].open ==> RunsDown(cs, i, StreakAt(cs, i))
  {
    var n, col := StreakAt(cs, i), Colour(cs[i]);
    if col != 0 {
      StreakIsMaximal(cs, i);
      forall j | i - n < j <= i ensures Colour(cs[j]) == col {
        assert ColourIs(cs, j, col);
      }
      assert n <= i ==> !ColourIs(cs, i - n, col);
    }
  }

  /** The seven features of bar i, in candles: its colour, body and range in ATRs, the lengths of
      the green and the red streak it ends, both capped at 6, the move of nine bars in ATRs, and
      the body in the range. The ATR is that of the last 14 true ranges. */
  lemma {:induction false} FeaturesInCandles(cs: seq<Candle>, i: nat) returns (streak: nat)
    requires i < |cs|
    ensures cs[i].close > cs[i].open ==> RunsUp(cs, i, streak)
    ensures cs[i].close < cs[i].open ==> RunsDown(cs, i, streak)
    ensures var v, c, atr := Vector(BarAt(cs, i)), cs[i], TrueRange.Atr(cs[..i + 1], 14);
      var capped := if streak <= 6 then streak as real else 6.0;
      && |v| == 7
      && v[0] == (if c.close > c.open then 1.0 else if c.close < c.open then -1.0 else 0.0)
      && InUnits(v[1], c.close - c.open, atr) && InUnits(v[2], c.high - c.low, atr)
      && v[3] == (if c.close > c.open then capped else 0.0)
      && v[4] == (if c.close < c.open then capped else 0.0)
      && InUnits(v[5], c.close - cs[if i < 9 then 0 else i - 9].close, atr)
      && InUnits(v[6], c.close - c.open, c.high - c.low)
  {
    streak := StreakAt(cs, i);
    StreakRuns(cs, i);
    VectorInUnits(BarAt(cs, i));
  }

  // ----- examples and fits -----

  /** Which bars are examples: from the warmup or the start of the window, whichever is later, up
      to the last bar whose successor has closed. */
  lemma {:induction false} ExamplesAre(cfg: Config, h: seq<Candle>, k: nat)
    ensures var n := |h|;
      var start := if cfg.rollingWindow.Some? && cfg.rollingWindow.value < n then n - cfg.rollingWindow.value else 0;
      var first := if cfg.warmup > start then cfg.warmup else start;
      && |TrainingBars(cfg, h)| == |Labels(cfg, h)| == (if first < n - 1 then n - 1 - first else 0)
      && (k < |TrainingBars(cfg, h)| ==> TrainingBars(cfg, h)[k] == BarAt(h, first + k))
      && (k < |TrainingBars(cfg, h)| ==>
        Labels(cfg, h)[k] == (var c := h[first + k + 1]; if c.close > c.open then 1 else if c.close < c.open then -1 else 0))
  {
    if k < |TrainingBars(cfg, h)| {
      BarsAreBars(h, FirstBar(cfg, |h|), LastBar(cfg, h), k);
    }
  }

  /** A fit needs minTrain examples; with them it is what training returns on all of them. */
  lemma {:induction false} FitsIff<M>(cfg: Config, l: Learner<M>, h: seq<Candle>)
    ensures |TrainingBars(cfg, h)| < cfg.minTrain ==> Fitted(cfg, l, h) == None
    ensures |TrainingBars(cfg, h)| >= cfg.minTrain ==>
      Fitted(cfg, l, h) == l.train(Vectors(TrainingBars(cfg, h)), Labels(cfg, h))
    ensures |Vectors(TrainingBars(cfg, h))| == |TrainingBars(cfg, h)|
    ensures forall k :: 0 <= k < |TrainingBars(cfg, h)| ==> Vectors(TrainingBars(cfg, h))[k] == Vector(TrainingBars(cfg, h)[k])
  {}

  /** Green is called from a probability of a half on, red below; without a probability no call. */
  lemma {:induction false} CallsGreenFromHalf(p: Option<real>)
    ensures CallFrom(p) == Some(1) <==> p.Some? && p.value >= 0.5
    ensures CallFrom(p) == Some(-1) <==> p.Some? && p.value < 0.5
    ensures CallFrom(p) == None <==> p == None
  {}

  // ----- one step -----

  /** One step: nothing but scoring before warmup + 2 candles; then a loaded model younger than
      retrainEvery steps is asked as it is, and any other is replaced first, or, when the fit
      fails, kept without a call while its clock runs on. */
  lemma {:induction false} StepIs<M>(cfg: Config, mc: Machine<M>, s: State<M>, c: Candle)
    ensures var (t, call) := Stepped(cfg, mc, s, c); var h := s.history + [c];
      && t.history == h && t.pending == call
      && t.decisions == s.decisions + (
        if s.pending.Some? && c.close > c.open then [Decision(s.pending.value, 1, s.pending.value == 1)]
        else if s.pending.Some? && c.close < c.open then [Decision(s.pending.value, -1, s.pending.value == -1)]
        else [])
      && (if |h| < cfg.warmup + 2 then call == None && t.clf == s.clf && t.sinceTrain == s.sinceTrain
          else if s.clf.Some? && s.sinceTrain + 1 < cfg.retrainEvery then
            t.clf == s.clf && t.sinceTrain == s.sinceTrain + 1 && call == mc.call(s.clf.value, h)
          else if mc.fit(h).Some? then
            t.clf == mc.fit(h) && t.sinceTrain == 0 && call == mc.call(mc.fit(h).value, h)
          else call == None && t.clf == s.clf && t.sinceTrain == s.sinceTrain + 1)
  {}

  // ----- the clock over a run -----

  /** The first history long enough to fit on. */
  function Opening(cfg: Config): nat {
    if cfg.warmup + 2 <= 1 then 1 else cfg.warmup + 2
  }

  function Every(cfg: Config): nat {
    if cfg.retrainEvery <= 1 then 1 else cfg.retrainEvery
  }

  /** The model of a history in which every fit succeeded: fitted at the opening or a multiple of
      retrainEvery after it, the latest there is. */
  ghost predicate OnSchedule<M>(cfg: Config, mc: Machine<M>, s: State<M>, h: seq<Candle>) {
    if |h| < Opening(cfg) then s.clf == None && s.sinceTrain == 0
    else
      && s.sinceTrain == (|h| - Opening(cfg)) % Every(cfg) && s.sinceTrain < |h|
      && s.clf.Some? && s.clf == mc.fit(h[..|h| - s.sinceTrain])
  }

  lemma {:induction false} FirstFit<M>(cfg: Config, mc: Machine<M>, s: State<M>, c: Candle)
    requires s.history == [] || |s.history| < Opening(cfg)
    requires OnSchedule(cfg, mc, s, s.history) && mc.fit(s.history + [c]).Some?
    ensures var (t, call) := Stepped(cfg, mc, s, c); var h := s.history + [c];
      OnSchedule(cfg, mc, t, h) && call == if |h| < Opening(cfg) then None else mc.call(t.clf.value, h)
  {
    StepIs(cfg, mc, s, c);
    var h := s.history + [c];
    assert h[..|h|] == h;
  }

  lemma {:induction false} LaterFit<M>(cfg: Config, mc: Machine<M>, s: State<M>, c: Candle)
    requires Opening(cfg) <= |s.history| && OnSchedule(cfg, mc, s, s.history) && s.clf.Some? && mc.fit(s.history + [c]).Some?
    ensures var (t, call) := Stepped(cfg, mc, s, c); var h := s.history + [c];
      OnSchedule(cfg, mc, t, h) && call == mc.call(t.clf.value, h)
  {
    StepIs(cfg, mc, s, c);
    var h := s.history + [c];
    NextModulus(|s.history| - Opening(cfg), Every(cfg));
    assert h[..|h|] == h && h[..|h| - (s.sinceTrain + 1)] == s.history[..|s.history| - s.sinceTrain];
  }

  lemma {:induction false} RunOneMore<M>(cfg: Config, mc: Machine<M>, front: seq<Candle>, c: Candle)
    ensures var (t, call) := Stepped(cfg, mc, Run(cfg, mc, front).0, c);
      Run(cfg, mc, front + [c]).0 == t && Run(cfg, mc, front + [c]).1 == Run(cfg, mc, front).1 + [call]
  {
    assert (front + [c])[..|front|] == front;
  }

  lemma {:induction false} StepOnSchedule<M>(cfg: Config, mc: Machine<M>, s: State<M>, c: Candle)
    requires OnSchedule(cfg, mc, s, s.history) && mc.fit(s.history + [c]).Some?
    ensures var (t, call) := Stepped(cfg, mc, s, c); var h := s.history + [c];
      OnSchedule(cfg, mc, t, h) && call == if |h| < Opening(cfg) then None else mc.call(t.clf.value, h)
  {
    if |s.history| < Opening(cfg) {
      FirstFit(cfg, mc, s, c);
    } else {
      LaterFit(cfg, mc, s, c);
    }
  }

  /** When every fit succeeds, the model is replaced at the opening and every retrainEvery candles
      after it, no sooner and no later, and every candle from the opening on is called by it. */
  lemma {:induction false} RetrainsOnSchedule<M>(cfg: Config, mc: Machine<M>, cs: seq<Candle>)
    requires forall h: seq<Candle> :: mc.fit(h).Some?
    ensures OnSchedule(cfg, mc, Run(cfg, mc, cs).0, cs)
    ensures cs != [] ==> (
      Run(cfg, mc, cs).1[|cs| - 1] == if |cs| < Opening(cfg) then None else mc.call(Run(cfg, mc, cs).0.clf.value, cs))
  {
    if cs != [] {
      var front, c := cs[..|cs| - 1], cs[|cs| - 1];
      RetrainsOnSchedule(cfg, mc, front);
      EveryCallIsScoredOnce(cfg, mc, front);
      assert front + [c] == cs && mc.fit(cs).Some?;
      StepOnSchedule(cfg, mc, Run(cfg, mc, front).0, c);
      RunOneMore(cfg, mc, front, c);
    }
  }

  lemma {:induction false} NextModulus(x: nat, m: nat)
    requires 1 <= m
    ensures (x + 1) % m == if x % m + 1 < m then x % m + 1 else 0
  {
    var q, r := x / m, x % m;
    if r + 1 < m {
      RemainderIs(x + 1, m, q, r + 1);
    } else {
      RemainderIs(x + 1, m, q + 1, 0);
    }
  }

  lemma {:induction false} RemainderIs(x: nat, m: nat, q: nat, r: nat)
    requires x == q * m + r && r < m
    ensures x % m == r
  {
    var d := x / m - q;
    assert d * m == r - x % m;
    assert -(m as int) < d * m < m;
    NoMultiple(d, m);
  }

  /** A multiple of m strictly between -m and m is 0. */
  lemma {:induction false} NoMultiple(d: int, m: nat)
    requires -(m as int) < d * m < m
    ensures d * m == 0
  {}
}
