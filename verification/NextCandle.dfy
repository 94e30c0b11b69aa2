/** The walk-forward learner: point-in-time features, a retrained model, calls scored by the
    next candle. Training and prediction are opaque but deterministic. */
module NextCandle {
  import opened Common
  import opened Candles
  import TrueRange

  function Colour(c: Candle): (s: int)
    ensures s == -1 || s == 0 || s == 1
  {
    if c.close > c.open then 1 else if c.close < c.open then -1 else 0
  }

  // ----- features of one bar -----

  /** How many candles up to i share candle i's colour; a doji has no streak. */
  function StreakAt(hist: seq<Candle>, i: nat): nat
    requires i < |hist|
  {
    if Colour(hist[i]) == 0 then 0
    else if i > 0 && Colour(hist[i - 1]) == Colour(hist[i]) then StreakAt(hist, i - 1) + 1
    else 1
  }

  predicate ColourIs(hist: seq<Candle>, i: int, col: int) {
    0 <= i < |hist| && Colour(hist[i]) == col
  }

  lemma {:induction false} StreakIsMaximal(hist: seq<Candle>, i: nat)
    requires i < |hist| && Colour(hist[i]) != 0
    ensures var n := StreakAt(hist, i); var col := Colour(hist[i]);
      && 1 <= n <= i + 1
      && (forall j :: i - n < j <= i ==> ColourIs(hist, j, col))
      && !ColourIs(hist, i - n, col)
  {
    if i > 0 && Colour(hist[i - 1]) == Colour(hist[i]) {
      StreakIsMaximal(hist, i - 1);
    }
  }

  method Streak(hist: seq<Candle>, i: int) returns (n: nat)
    requires i < |hist|
    ensures n == if i < 0 then 0 else StreakAt(hist, i)
  {
    if i < 0 {
      return 0;
    }
    var col := Colour(hist[i]);
    if col == 0 {
      return 0;
    }
    n := 1;
    var j := i - 1;
    while j >= 0 && Colour(hist[j]) == col
      invariant -1 <= j < i && Colour(hist[j + 1]) == col
      invariant StreakAt(hist, i) == n - 1 + StreakAt(hist, j + 1)
    {
      n := n + 1;
      j := j - 1;
    }
  }

  const ATR_PERIOD: nat := 14
  const ATR_TAIL: nat := 17
  const STREAK_CAP := 6.0

  /** What the features of one bar are computed from. */
  datatype Bar = Bar(colour: int, body: real, range: real, move: real, atr: real, streak: nat)

  /** The seven features; a ratio over a non-positive quantity is 0. */
  function Vector(b: Bar): seq<real> {
    [ b.colour as real,
      if b.atr > 0.0 then b.body / b.atr else 0.0,
      if b.atr > 0.0 then b.range / b.atr else 0.0,
      Min(if b.colour > 0 then b.streak as real else 0.0, STREAK_CAP),
      Min(if b.colour < 0 then b.streak as real else 0.0, STREAK_CAP),
      if b.atr > 0.0 then b.move / b.atr else 0.0,
      if b.range > 0.0 then b.body / b.range else 0.0 ]
  }

  function Vectors(bars: seq<Bar>): seq<seq<real>> {
    seq(|bars|, k requires 0 <= k < |bars| => Vector(bars[k]))
  }

  /** Bar i, with the ATR of the whole prefix. */
  function BarAt(cs: seq<Candle>, i: nat): Bar
    requires i < |cs|
  {
    var c := cs[i];
    Bar(Colour(c), c.close - c.open, c.high - c.low, c.close - cs[if i < 9 then 0 else i - 9].close,
        TrueRange.Atr(cs[..i + 1], ATR_PERIOD), StreakAt(cs, i))
  }

  lemma {:induction false} TailIsLast(cs: seq<Candle>, i: nat)
    requires i < |cs|
    ensures cs[if i < 16 then 0 else i - 16..i + 1] == LastN(cs[..i + 1], ATR_TAIL)
  {
    assert cs[..i + 1][if i < 16 then 0 else i - 16..] == cs[if i < 16 then 0 else i - 16..i + 1];
  }

  /** The code looks at a tail of 17 candles only, and that is enough for the ATR of the prefix. */
  method TailAtr(candles: seq<Candle>, i: nat) returns (atr: real)
    requires i < |candles|
    ensures atr == TrueRange.Atr(candles[..i + 1], ATR_PERIOD)
  {
    TailIsLast(candles, i);
    var atrTail := candles[if i < 16 then 0 else i - 16..i + 1];
    TrueRange.AtrIsLocal(candles[..i + 1], ATR_TAIL, ATR_PERIOD);
    atr := TrueRange.AtrOfAll(atrTail, ATR_PERIOD);
  }

  method ReadBar(candles: seq<Candle>, i: nat) returns (bar: Bar)
    requires i < |candles|
    ensures bar == BarAt(candles, i)
  {
    var c := candles[i];
    var atr := TailAtr(candles, i);
    var tail := candles[(if i < 9 then 0 else i - 9)..i + 1];
    var streak := Streak(candles, i);
    bar := Bar(Colour(c), c.close - c.open, c.high - c.low, c.close - tail[0].close, atr, streak);
  }

  lemma {:induction false} StreakOfPrefix(cs: seq<Candle>, i: nat, n: nat)
    requires i < n <= |cs|
    ensures StreakAt(cs[..n], i) == StreakAt(cs, i)
  {
    if i > 0 {
      StreakOfPrefix(cs, i - 1, n);
    }
  }

  /** Point in time: nothing after bar i enters its features. */
  lemma {:induction false} BarsArePointInTime(cs: seq<Candle>, i: nat, n: nat)
    requires i < n <= |cs|
    ensures BarAt(cs[..n], i) == BarAt(cs, i)
  {
    StreakOfPrefix(cs, i, n);
    assert cs[..n][..i + 1] == cs[..i + 1];
  }

  /** Inside a tail a streak is cut off at the tail's start. */
  lemma {:induction false} StreakOfTail(cs: seq<Candle>, d: nat, k: nat)
    requires d + k < |cs|
    ensures StreakAt(cs[d..], k) == if StreakAt(cs, d + k) <= k + 1 then StreakAt(cs, d + k) else k + 1
  {
    if k > 0 {
      StreakOfTail(cs, d, k - 1);
    }
  }

  lemma {:induction false} CappedStreak(b: Bar, c: Bar)
    requires b == c.(streak := b.streak) && Min(b.streak as real, STREAK_CAP) == Min(c.streak as real, STREAK_CAP)
    ensures Vector(b) == Vector(c)
  {}

  /** The furthest candle that a bar's features read: the ATR's 14 ranges need 15 candles, the
      momentum 10, and the streak is capped at 6. */
  const REACH: nat := 15

  lemma {:induction false} VectorOfTail(cs: seq<Candle>, i: nat)
    requires i < |cs|
    ensures var tail := LastN(cs[..i + 1], REACH); Vector(BarAt(tail, |tail| - 1)) == Vector(BarAt(cs, i))
  {
    var upto := cs[..i + 1];
    var tail := LastN(upto, REACH);
    var d, k := |upto| - |tail|, |tail| - 1;
    assert tail == upto[d..];
    BarsArePointInTime(cs, i, i + 1);
    StreakOfTail(upto, d, k);
    TrueRange.AtrIsLocal(upto, REACH, ATR_PERIOD);
    assert tail[..k + 1] == tail && upto[..i + 1] == upto;
    CappedStreak(BarAt(tail, k), BarAt(upto, i));
  }

  /** Locality: two bars with the same last 15 candles have the same features. */
  lemma {:induction false} FeaturesAreLocal(cs: seq<Candle>, i: nat, ds: seq<Candle>, j: nat)
    requires i < |cs| && j < |ds| && LastN(cs[..i + 1], REACH) == LastN(ds[..j + 1], REACH)
    ensures Vector(BarAt(cs, i)) == Vector(BarAt(ds, j))
  {
    VectorOfTail(cs, i);
    VectorOfTail(ds, j);
  }

  // ----- the harness -----

  /** Fitting may fail or be unavailable; so may a prediction. */
  datatype Learner<!M> = Learner(
    train: (seq<seq<real>>, seq<int>) -> Option<M>,
    probaGreen: (M, seq<real>) -> Option<real>)

  /** What the harness needs of a learner: fitting on a history, calling its next candle. */
  datatype Machine<!M> = Machine(
    fit: seq<Candle> -> Option<M>,
    call: (M, seq<Candle>) -> Option<int>)

  datatype Config = Config(minTrain: int, warmup: int, retrainEvery: int, rollingWindow: Option<int>)

  datatype Decision = Decision(call: int, actual: int, hit: bool)

  datatype State<M> = State(
    history: seq<Candle>, pending: Option<int>, clf: Option<M>, sinceTrain: nat, decisions: seq<Decision>)

  /** The first bar of the training set for a history of n candles. */
  function FirstBar(cfg: Config, n: nat): nat {
    var start := if cfg.rollingWindow.None? || n <= cfg.rollingWindow.value then 0 else n - cfg.rollingWindow.value;
    if cfg.warmup <= start then start else cfg.warmup
  }

  /** One past the last bar whose next candle is already closed. */
  function LastBar(cfg: Config, h: seq<Candle>): nat {
    if h == [] || |h| - 1 <= FirstBar(cfg, |h|) then FirstBar(cfg, |h|) else |h| - 1
  }

  function BarsUpTo(h: seq<Candle>, lo: nat, hi: nat): (bars: seq<Bar>)
    requires lo <= hi && (lo < hi ==> hi < |h|)
    ensures |bars| == hi - lo
  {
    if hi == lo then [] else BarsUpTo(h, lo, hi - 1) + [BarAt(h, hi - 1)]
  }

  /** The colour of the candle after each bar. */
  function LabelsUpTo(h: seq<Candle>, lo: nat, hi: nat): (labels: seq<int>)
    requires lo <= hi && (lo < hi ==> hi < |h|)
    ensures |labels| == hi - lo
  {
    if hi == lo then [] else LabelsUpTo(h, lo, hi - 1) + [Colour(h[hi])]
  }

  function TrainingBars(cfg: Config, h: seq<Candle>): seq<Bar> {
    BarsUpTo(h, FirstBar(cfg, |h|), LastBar(cfg, h))
  }

  function Labels(cfg: Config, h: seq<Candle>): seq<int> {
    LabelsUpTo(h, FirstBar(cfg, |h|), LastBar(cfg, h))
  }

  /** The model fitted on a history, if there are enough examples and fitting succeeds. */
  function Fitted<M>(cfg: Config, l: Learner<M>, h: seq<Candle>): Option<M> {
    if |TrainingBars(cfg, h)| < cfg.minTrain then None else l.train(Vectors(TrainingBars(cfg, h)), Labels(cfg, h))
  }

  /** The model's call at the last bar of a history. */
  function CallAt<M>(l: Learner<M>, clf: M, h: seq<Candle>): Option<int> {
    if h == [] then None else CallFrom(l.probaGreen(clf, Vector(BarAt(h, |h| - 1))))
  }

  function CallFrom(p: Option<real>): Option<int> {
    match p
    case None => None
    case Some(p) => Some(if p >= 0.5 then 1 else -1)
  }

  function MachineOf<M>(cfg: Config, l: Learner<M>): Machine<M> {
    Machine((h: seq<Candle>) => Fitted(cfg, l, h), (clf: M, h: seq<Candle>) => CallAt(l, clf, h))
  }

  /** The candle arrives and settles the pending call; a doji drops it unscored. */
  function Settle<M>(s: State<M>, c: Candle): State<M> {
    State(s.history + [c], None, s.clf, s.sinceTrain,
          s.decisions + (if s.pending.Some? && Colour(c) != 0
                         then [Decision(s.pending.value, Colour(c), s.pending.value == Colour(c))] else []))
  }

  /** The retrain clock, given what fitting would return; false is the source's early return,
      which keeps the clock running. */
  function Refitted<M>(cfg: Config, s: State<M>, fitted: Option<M>): (State<M>, bool) {
    var t := s.(sinceTrain := s.sinceTrain + 1);
    if t.sinceTrain >= cfg.retrainEvery || t.clf.None? then
      if fitted.None? then (t, false) else (t.(clf := fitted, sinceTrain := 0), true)
    else (t, true)
  }

  function Refit<M>(cfg: Config, mc: Machine<M>, s: State<M>): (State<M>, bool) {
    Refitted(cfg, s, mc.fit(s.history))
  }

  /** A ready machine makes the next call. */
  function Ask<M>(mc: Machine<M>, s: State<M>): State<M> {
    s.(pending := if s.clf.None? then None else mc.call(s.clf.value, s.history))
  }

  function Stepped<M>(cfg: Config, mc: Machine<M>, s: State<M>, c: Candle): (State<M>, Option<int>) {
    var t := Settle(s, c);
    if |t.history| < cfg.warmup + 2 then (t, None)
    else
      var (u, ready) := Refit(cfg, mc, t);
      if ready then (Ask(mc, u), Ask(mc, u).pending) else (u, None)
  }

  function Fresh<M>(): State<M> {
    State([], None, None, 0, [])
  }

  /** The state and the calls after a whole history, one call per candle. */
  function Run<M>(cfg: Config, mc: Machine<M>, cs: seq<Candle>): (r: (State<M>, seq<Option<int>>))
    ensures |r.1| == |cs|
  {
    if cs == [] then (Fresh(), [])
    else
      var (s, calls) := Run(cfg, mc, cs[..|cs| - 1]);
      var (t, call) := Stepped(cfg, mc, s, cs[|cs| - 1]);
      (t, calls + [call])
  }

  lemma {:induction false} NextExample(h: seq<Candle>, lo: nat, i: nat, bar: Bar)
    requires lo <= i && i + 1 < |h| && bar == BarAt(h, i)
    ensures BarsUpTo(h, lo, i + 1) == BarsUpTo(h, lo, i) + [bar]
    ensures LabelsUpTo(h, lo, i + 1) == LabelsUpTo(h, lo, i) + [Colour(h[i + 1])]
  {}

  /** The source's loop over the history; features of every bar with a closed successor. */
  method TrainingSet(cfg: Config, h: seq<Candle>) returns (bars: seq<Bar>, ys: seq<int>)
    ensures bars == TrainingBars(cfg, h) && ys == Labels(cfg, h)
  {
    bars, ys := [], [];
    var start := 0;
    if cfg.rollingWindow.Some? && |h| > cfg.rollingWindow.value {
      start := |h| - cfg.rollingWindow.value;
    }
    var lo := if cfg.warmup <= start then start else cfg.warmup;
    assert lo == FirstBar(cfg, |h|);
    var i := lo;
    while i < |h| - 1
      invariant lo <= i && (i == lo || i <= |h| - 1)
      invariant bars == BarsUpTo(h, lo, i) && ys == LabelsUpTo(h, lo, i)
    {
      var bar := ReadBar(h, i);
      NextExample(h, lo, i, bar);
      bars := bars + [bar];
      ys := ys + [Colour(h[i + 1])];
      i := i + 1;
    }
    assert i == LastBar(cfg, h);
  }

  // ----- what any deterministic step gives -----

  /** No lookahead: histories that agree on k candles get the same first k calls. */
  lemma {:induction false} CallsOfPrefix<M>(cfg: Config, mc: Machine<M>, cs: seq<Candle>, k: nat)
    requires k <= |cs|
    ensures Run(cfg, mc, cs).1[..k] == Run(cfg, mc, cs[..k]).1
    decreases |cs|
  {
    if k == |cs| {
      assert cs[..k] == cs;
    } else {
      var n := |cs| - 1;
      CallsOfPrefix(cfg, mc, cs[..n], k);
      assert cs[..n][..k] == cs[..k];
      var (s, calls) := Run(cfg, mc, cs[..n]);
      assert Run(cfg, mc, cs).1 == calls + [Stepped(cfg, mc, s, cs[n]).1];
      assert (calls + [Stepped(cfg, mc, s, cs[n]).1])[..k] == calls[..k];
    }
  }

  /** Equal histories give equal calls, whatever comes after. Kept for the reader: it holds of any
      deterministic step. What this learner adds is below. */
  lemma {:induction false} NoLookahead<M>(cfg: Config, mc: Machine<M>, cs: seq<Candle>, ds: seq<Candle>, k: nat)
    requires k <= |cs| && k <= |ds| && cs[..k] == ds[..k]
    ensures Run(cfg, mc, cs).1[..k] == Run(cfg, mc, ds).1[..k]
  {
    CallsOfPrefix(cfg, mc, cs, k);
    CallsOfPrefix(cfg, mc, ds, k);
  }

  // ----- main results -----

  /** What honest scoring must report: every call that meets a next candle with a colour. */
  function Scored(cs: seq<Candle>, calls: seq<Option<int>>): seq<Decision>
    requires |calls| == |cs|
  {
    if |cs| < 2 then []
    else
      var k := |cs| - 1;
      var col, call := Colour(cs[k]), calls[k - 1];
      Scored(cs[..k], calls[..k]) + (if call.Some? && col != 0 then [Decision(call.value, col, call.value == col)] else [])
  }

  lemma {:induction false} StepScores<M>(cfg: Config, mc: Machine<M>, s: State<M>, c: Candle)
    ensures var (t, call) := Stepped(cfg, mc, s, c);
      t.history == s.history + [c] && t.pending == call && t.decisions == Settle(s, c).decisions
  {}

  lemma {:induction false} ScoredOneMore(cs: seq<Candle>, calls: seq<Option<int>>, c: Candle, call: Option<int>)
    requires |calls| == |cs|
    ensures cs == [] ==> Scored(cs + [c], calls + [call]) == []
    ensures cs != [] ==>
      var last := calls[|cs| - 1];
      Scored(cs + [c], calls + [call]) == Scored(cs, calls)
        + (if last.Some? && Colour(c) != 0 then [Decision(last.value, Colour(c), last.value == Colour(c))] else [])
  {
    assert (cs + [c])[..|cs|] == cs && (calls + [call])[..|cs|] == calls;
  }

  /** Each call is scored exactly once, by the next candle, iff it exists and is not a doji. */
  lemma {:induction false} EveryCallIsScoredOnce<M>(cfg: Config, mc: Machine<M>, cs: seq<Candle>)
    ensures var (s, calls) := Run(cfg, mc, cs);
      && s.history == cs
      && s.decisions == Scored(cs, calls)
      && s.pending == (if cs == [] then None else calls[|cs| - 1])
  {
    if cs != [] {
      var k := |cs| - 1;
      EveryCallIsScoredOnce(cfg, mc, cs[..k]);
      var (s, calls) := Run(cfg, mc, cs[..k]);
      StepScores(cfg, mc, s, cs[k]);
      ScoredOneMore(cs[..k], calls, cs[k], Stepped(cfg, mc, s, cs[k]).1);
      assert cs == cs[..k] + [cs[k]];
    }
  }

  lemma {:induction false} BarsAreBars(h: seq<Candle>, lo: nat, hi: nat, k: nat)
    requires lo <= hi && (lo < hi ==> hi < |h|) && k < hi - lo
    ensures BarsUpTo(h, lo, hi)[k] == BarAt(h, lo + k)
    ensures LabelsUpTo(h, lo, hi)[k] == Colour(h[lo + k + 1])
    decreases hi
  {
    if k < hi - lo - 1 {
      BarsAreBars(h, lo, hi - 1, k);
    }
  }

  /** Training on h uses only closed bars, each as it looked when it was the last one, with the
      colour of the bar after it. */
  lemma {:induction false} TrainingIsPointInTime(cfg: Config, h: seq<Candle>, k: nat)
    requires k < |TrainingBars(cfg, h)|
    ensures var i := FirstBar(cfg, |h|) + k;
      && i + 1 < |h| && k < |Labels(cfg, h)|
      && TrainingBars(cfg, h)[k] == BarAt(h[..i + 1], i)
      && Labels(cfg, h)[k] == Colour(h[i + 1])
  {
    var lo := FirstBar(cfg, |h|);
    BarsAreBars(h, lo, LastBar(cfg, h), k);
    BarsArePointInTime(h, lo + k, lo + k + 1);
  }

  /** The training window is full: it starts w bars before the end. */
  predicate FullWindow(cfg: Config, n: nat, w: nat) {
    cfg.rollingWindow == Some(w) && w <= n && cfg.warmup <= n - w
  }

  lemma {:induction false} WindowBars(cfg: Config, h: seq<Candle>, w: nat, k: nat)
    requires FullWindow(cfg, |h|, w) && k + 1 < w
    ensures |TrainingBars(cfg, h)| == |Labels(cfg, h)| == w - 1
    ensures TrainingBars(cfg, h)[k] == BarAt(h, |h| - w + k) && Labels(cfg, h)[k] == Colour(h[|h| - w + k + 1])
  {
    BarsAreBars(h, |h| - w, |h| - 1, k);
  }

  lemma {:induction false} SameWindow(cs: seq<Candle>, ds: seq<Candle>, w: nat, k: nat)
    requires w <= |cs| && w <= |ds| && k + 1 < w && LastN(cs, w + REACH - 1) == LastN(ds, w + REACH - 1)
    ensures LastN(cs[..|cs| - w + k + 1], REACH) == LastN(ds[..|ds| - w + k + 1], REACH)
    ensures cs[|cs| - w + k + 1] == ds[|ds| - w + k + 1]
  {
    var tail := LastN(cs, w + REACH - 1);
    if |cs| >= w + REACH - 1 {
      assert cs[|cs| - w + k + 1] == tail[REACH + k] == ds[|ds| - w + k + 1];
      assert LastN(cs[..|cs| - w + k + 1], REACH) == tail[k..k + REACH];
      assert LastN(ds[..|ds| - w + k + 1], REACH) == tail[k..k + REACH];
    } else {
      assert cs == tail == ds;
    }
  }

  lemma {:induction false} SameFeatures(cs: seq<Candle>, ds: seq<Candle>, w: nat, k: nat)
    requires w <= |cs| && w <= |ds| && k + 1 < w && LastN(cs, w + REACH - 1) == LastN(ds, w + REACH - 1)
    ensures Vector(BarAt(cs, |cs| - w + k)) == Vector(BarAt(ds, |ds| - w + k))
  {
    SameWindow(cs, ds, w, k);
    FeaturesAreLocal(cs, |cs| - w + k, ds, |ds| - w + k);
  }

  lemma {:induction false} ExampleIsLocal(cfg: Config, cs: seq<Candle>, ds: seq<Candle>, w: nat, k: nat)
    requires FullWindow(cfg, |cs|, w) && FullWindow(cfg, |ds|, w) && LastN(cs, w + REACH - 1) == LastN(ds, w + REACH - 1)
    requires k + 1 < w
    ensures k < |TrainingBars(cfg, cs)| && k < |TrainingBars(cfg, ds)| && k < |Labels(cfg, cs)| && k < |Labels(cfg, ds)|
    ensures Vector(TrainingBars(cfg, cs)[k]) == Vector(TrainingBars(cfg, ds)[k])
    ensures Labels(cfg, cs)[k] == Labels(cfg, ds)[k]
  {
    WindowBars(cfg, cs, w, k);
    WindowBars(cfg, ds, w, k);
    SameFeatures(cs, ds, w, k);
    SameWindow(cs, ds, w, k);
  }

  /** With a rolling window of w bars, a model depends on nothing but the last w + 14 candles:
      older history cannot leak into a fit, however long the learner has run. */
  lemma {:induction false} FitIsLocal<M>(cfg: Config, l: Learner<M>, cs: seq<Candle>, ds: seq<Candle>, w: nat)
    requires FullWindow(cfg, |cs|, w) && FullWindow(cfg, |ds|, w) && LastN(cs, w + REACH - 1) == LastN(ds, w + REACH - 1)
    ensures Fitted(cfg, l, cs) == Fitted(cfg, l, ds)
  {
    var n := if w == 0 then 0 else w - 1;
    var a, b := Vectors(TrainingBars(cfg, cs)), Vectors(TrainingBars(cfg, ds));
    assert |TrainingBars(cfg, cs)| == |TrainingBars(cfg, ds)| == |Labels(cfg, cs)| == |Labels(cfg, ds)| == n;
    forall k | 0 <= k < n ensures a[k] == b[k] && Labels(cfg, cs)[k] == Labels(cfg, ds)[k] {
      ExampleIsLocal(cfg, cs, ds, w, k);
    }
    assert a == b;
    assert Labels(cfg, cs) == Labels(cfg, ds);
  }

  /** The loaded model was fitted sinceTrain candles ago, on the history as it was then. */
  ghost predicate ModelInv<M>(cfg: Config, mc: Machine<M>, s: State<M>) {
    s.clf.Some? ==>
      && s.sinceTrain < |s.history|
      && |s.history| - s.sinceTrain >= cfg.warmup + 2
      && s.clf == mc.fit(s.history[..|s.history| - s.sinceTrain])
  }

  lemma {:induction false} RefitModelInv<M>(cfg: Config, mc: Machine<M>, s: State<M>, t: State<M>)
    requires ModelInv(cfg, mc, s) && |t.history| >= cfg.warmup + 2
    requires |t.history| == |s.history| + 1 && t.history[..|s.history|] == s.history
    requires t.clf == s.clf && t.sinceTrain == s.sinceTrain
    ensures var (u, ready) := Refit(cfg, mc, t);
      ModelInv(cfg, mc, u) && (ready ==> u.clf.Some? && (u.sinceTrain == 0 || u.sinceTrain < cfg.retrainEvery))
  {
    assert t.history[..|t.history|] == t.history;
    if s.clf.Some? {
      assert t.history[..|t.history| - (s.sinceTrain + 1)] == s.history[..|s.history| - s.sinceTrain];
    }
  }

  lemma {:induction false} StepModelInv<M>(cfg: Config, mc: Machine<M>, s: State<M>, c: Candle)
    requires ModelInv(cfg, mc, s)
    ensures var (t, call) := Stepped(cfg, mc, s, c);
      && ModelInv(cfg, mc, t)
      && (call.Some? ==>
        && t.clf.Some? && (t.sinceTrain == 0 || t.sinceTrain < cfg.retrainEvery)
        && call == mc.call(t.clf.value, t.history))
  {
    var t := Settle(s, c);
    assert t.history[..|s.history|] == s.history;
    if |t.history| >= cfg.warmup + 2 {
      RefitModelInv(cfg, mc, s, t);
    }
  }

  lemma {:induction false} RunModelInv<M>(cfg: Config, mc: Machine<M>, cs: seq<Candle>)
    ensures ModelInv(cfg, mc, Run(cfg, mc, cs).0)
  {
    if cs != [] {
      RunModelInv(cfg, mc, cs[..|cs| - 1]);
      StepModelInv(cfg, mc, Run(cfg, mc, cs[..|cs| - 1]).0, cs[|cs| - 1]);
    }
  }

  lemma {:induction false} LastCallIsFresh<M>(cfg: Config, mc: Machine<M>, cs: seq<Candle>)
    requires cs != [] && Run(cfg, mc, cs).1[|cs| - 1].Some?
    ensures var s := Run(cfg, mc, cs).0;
      && ModelInv(cfg, mc, s) && s.clf.Some? && (s.sinceTrain == 0 || s.sinceTrain < cfg.retrainEvery)
      && Run(cfg, mc, cs).1[|cs| - 1] == mc.call(s.clf.value, s.history)
  {
    var k := |cs| - 1;
    RunModelInv(cfg, mc, cs[..k]);
    StepModelInv(cfg, mc, Run(cfg, mc, cs[..k]).0, cs[k]);
  }

  lemma {:induction false} FreshCall<M>(cfg: Config, mc: Machine<M>, cs: seq<Candle>) returns (m: nat, clf: M)
    requires cs != [] && Run(cfg, mc, cs).1[|cs| - 1].Some?
    ensures m <= |cs| && (m == |cs| || |cs| - m < cfg.retrainEvery) && cfg.warmup + 2 <= m
    ensures mc.fit(cs[..m]) == Some(clf)
    ensures Run(cfg, mc, cs).1[|cs| - 1] == mc.call(clf, cs)
  {
    EveryCallIsScoredOnce(cfg, mc, cs);
    LastCallIsFresh(cfg, mc, cs);
    var s := Run(cfg, mc, cs).0;
    m := |cs| - s.sinceTrain;
    clf := s.clf.value;
  }

  /** Walk-forward: the call made at the last candle comes from a model fitted on enough examples
      of a prefix at most retrainEvery - 1 candles old, asked about the last bar's features. */
  lemma {:induction false} CallIsWalkForward<M>(cfg: Config, l: Learner<M>, cs: seq<Candle>) returns (m: nat, clf: M)
    requires cs != [] && Run(cfg, MachineOf(cfg, l), cs).1[|cs| - 1].Some?
    ensures m <= |cs| && (m == |cs| || |cs| - m < cfg.retrainEvery)
    ensures cfg.warmup + 2 <= m && cfg.minTrain <= |TrainingBars(cfg, cs[..m])|
    ensures l.train(Vectors(TrainingBars(cfg, cs[..m])), Labels(cfg, cs[..m])) == Some(clf)
    ensures Run(cfg, MachineOf(cfg, l), cs).1[|cs| - 1] == CallFrom(l.probaGreen(clf, Vector(BarAt(cs, |cs| - 1))))
  {
    m, clf := FreshCall(cfg, MachineOf(cfg, l), cs);
  }

  // ----- the learner object -----

  class NextCandleML<M> {
    const config: Config
    const learner: Learner<M>
    var history: seq<Candle>
    var pending: Option<int>
    var clf: Option<M>
    var sinceTrain: nat
    var decisions: seq<Decision>

    ghost function Value(): State<M>
      reads this
    {
      State(history, pending, clf, sinceTrain, decisions)
    }

    constructor (config: Config, learner: Learner<M>)
      ensures this.config == config && this.learner == learner && Value() == Fresh()
    {
      this.config, this.learner := config, learner;
      history, pending, clf, sinceTrain, decisions := [], None, None, 0, [];
    }

    method Step(candle: Candle) returns (call: Option<int>)
      modifies this
      ensures (Value(), call) == Stepped(config, MachineOf(config, learner), old(Value()), candle)
    {
      Receive(candle);
      if |history| < config.warmup + 2 {
        return None;
      }
      var ready := Retrain();
      if !ready {
        return None;
      }
      call := Call();
    }

    method Receive(candle: Candle)
      modifies this`history, this`decisions, this`pending
      ensures Value() == Settle(old(Value()), candle)
    {
      history := history + [candle];
      if pending.Some? {
        var col := Colour(candle);
        if col != 0 {
          decisions := decisions + [Decision(pending.value, col, pending.value == col)];
        }
        pending := None;
      }
    }

    method Retrain() returns (ready: bool)
      modifies this`sinceTrain, this`clf
      ensures (Value(), ready) == Refitted(config, old(Value()), Fitted(config, learner, history))
    {
      sinceTrain := sinceTrain + 1;
      if sinceTrain >= config.retrainEvery || clf.None? {
        var fitted := Fit();
        if fitted.None? {
          return false;
        }
        clf := fitted;
        sinceTrain := 0;
      }
      return true;
    }

    method Fit() returns (fitted: Option<M>)
      ensures fitted == Fitted(config, learner, history)
    {
      var bars, ys := TrainingSet(config, history);
      if |bars| < config.minTrain {
        return None;
      }
      fitted := learner.train(Vectors(bars), ys);
    }

    method Call() returns (call: Option<int>)
      requires history != [] && clf.Some?
      modifies this`pending
      ensures Value() == Ask(MachineOf(config, learner), old(Value())) && call == pending
    {
      var bar := ReadBar(history, |history| - 1);
      pending := CallFrom(learner.probaGreen(clf.value, Vector(bar)));
      call := pending;
    }
  }
}
