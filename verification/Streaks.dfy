/** Streak-extreme base rates: one pass over the closes, against a count of positions. */
module Streaks {
  import opened Common

  function Sign(v: real): (s: int)
    ensures s == -1 || s == 0 || s == 1
  {
    if v > 0.0 then 1 else if v < 0.0 then -1 else 0
  }

  /** The direction of the i-th move. */
  function Move(hist: seq<real>, i: nat): int
    requires 1 <= i < |hist|
  {
    Sign(hist[i] - hist[i - 1])
  }

  function Dir(bull: bool): int {
    if bull then 1 else -1
  }

  /** An up move is a rise of the close, a down move a fall. */
  lemma {:induction false} MovesAreCloses(hist: seq<real>, i: int)
    ensures MoveIs(hist, i, Dir(true)) <==> 1 <= i < |hist| && hist[i] > hist[i - 1]
    ensures MoveIs(hist, i, Dir(false)) <==> 1 <= i < |hist| && hist[i] < hist[i - 1]
    ensures Dir(true) == 1 && Dir(false) == -1
  {}

  // ----- the declarative side: positions, not passes -----

  ghost predicate MoveIs(hist: seq<real>, i: int, d: int) {
    1 <= i < |hist| && Move(hist, i) == d
  }

  /** The r moves up to i go in direction d, and the one before them does not. */
  ghost predicate IsRun(hist: seq<real>, i: nat, d: int, r: int) {
    && 1 <= r <= i < |hist|
    && (forall j :: i - r < j <= i ==> MoveIs(hist, j, d))
    && !MoveIs(hist, i - r, d)
  }

  /** Positions whose run in direction d is exactly r, and whose next move goes nd. */
  ghost predicate EndsIn(hist: seq<real>, i: nat, d: int, r: int, nd: int) {
    IsRun(hist, i, d, r) && MoveIs(hist, i + 1, nd)
  }

  /** How many such positions there are before k. */
  ghost function Tally(hist: seq<real>, k: nat, d: int, r: int, nd: int): nat {
    if k == 0 then 0 else Tally(hist, k - 1, d, r, nd) + (if EndsIn(hist, k - 1, d, r, nd) then 1 else 0)
  }

  ghost function Positions(hist: seq<real>, d: int, r: int): set<nat> {
    set i: nat | i < |hist| && IsRun(hist, i, d, r)
  }

  ghost function Ends(hist: seq<real>, k: nat, d: int, r: int, nd: int): set<nat> {
    set i: nat | i < k && EndsIn(hist, i, d, r, nd)
  }

  /** Positions whose run is exactly r with no next move, or a flat one. */
  ghost function Stalled(hist: seq<real>, d: int, r: int): set<nat> {
    set i: nat | i < |hist| && IsRun(hist, i, d, r) && !MoveIs(hist, i + 1, 1) && !MoveIs(hist, i + 1, -1)
  }

  lemma {:induction false} EndsGrow(hist: seq<real>, k: nat, d: int, r: int, nd: int)
    ensures var before := Ends(hist, k, d, r, nd);
      k !in before && Ends(hist, k + 1, d, r, nd) == if EndsIn(hist, k, d, r, nd) then before + {k} else before
  {}

  lemma {:induction false} TallyIsSize(hist: seq<real>, k: nat, d: int, r: int, nd: int)
    ensures Tally(hist, k, d, r, nd) == |Ends(hist, k, d, r, nd)|
  {
    if k > 0 {
      TallyIsSize(hist, k - 1, d, r, nd);
      EndsGrow(hist, k - 1, d, r, nd);
    }
  }

  lemma {:induction false} RunIsUnique(hist: seq<real>, i: nat, d: int, r: int, e: int, q: int)
    requires IsRun(hist, i, d, r) && IsRun(hist, i, e, q)
    ensures d == e && r == q
  {
    assert MoveIs(hist, i, d) && MoveIs(hist, i, e);
    assert r < q ==> MoveIs(hist, i - r, d);
    assert q < r ==> MoveIs(hist, i - q, d);
  }

  lemma {:induction false} RunGrows(hist: seq<real>, i: nat, d: int, r: nat)
    requires 1 <= r && MoveIs(hist, i + 1, d)
    ensures IsRun(hist, i, d, r) <==> IsRun(hist, i + 1, d, r + 1)
  {
    if IsRun(hist, i + 1, d, r + 1) {
      forall j | i - r < j <= i ensures MoveIs(hist, j, d) {
        assert i + 1 - (r + 1) < j <= i + 1;
      }
    }
  }

  lemma {:induction false} RunStarts(hist: seq<real>, i: nat, d: int)
    requires MoveIs(hist, i, d) && !MoveIs(hist, i - 1, d)
    ensures IsRun(hist, i, d, 1)
  {
  }

  // ----- laws of the counts -----

  lemma {:induction false} ShiftedSize(s: set<nat>) returns (t: set<nat>)
    ensures forall y :: y in t <==> y > 0 && y - 1 in s
    ensures |t| == |s|
    decreases s
  {
    if s == {} {
      t := {};
    } else {
      var x :| x in s;
      t := ShiftedSize(s - {x});
      t := t + {x + 1};
    }
  }

  /** Every position with a run of r either continues, reverses or stalls. */
  lemma {:induction false} PositionsSplit(hist: seq<real>, d: int, r: int)
    ensures |Positions(hist, d, r)| == |Ends(hist, |hist|, d, r, 1)| + |Ends(hist, |hist|, d, r, -1)| + |Stalled(hist, d, r)|
  {
    var up, down, flat := Ends(hist, |hist|, d, r, 1), Ends(hist, |hist|, d, r, -1), Stalled(hist, d, r);
    assert Positions(hist, d, r) == up + down + flat;
    assert up * down == {} && (up + down) * flat == {};
  }

  /** What continues at r is exactly what stands at r + 1. */
  lemma {:induction false} ContinuationsMoveOn(hist: seq<real>, d: int, r: nat)
    requires 1 <= r
    ensures |Ends(hist, |hist|, d, r, d)| == |Positions(hist, d, r + 1)|
  {
    var on := Ends(hist, |hist|, d, r, d);
    var t := ShiftedSize(on);
    forall i: nat ensures i in t <==> i in Positions(hist, d, r + 1) {
      if i in t {
        RunGrows(hist, i - 1, d, r);
      }
      if i in Positions(hist, d, r + 1) {
        assert MoveIs(hist, i, d);
        RunGrows(hist, i - 1, d, r);
        assert i - 1 in on;
      }
    }
    assert t == Positions(hist, d, r + 1);
  }

  // ----- the pass -----

  datatype CondStats = CondStats(up: nat, down: nat)

  function Lookup(table: map<(bool, int), CondStats>, key: (bool, int)): CondStats {
    if key in table then table[key] else CondStats(0, 0)
  }

  function CountAt(table: map<(bool, int), CondStats>, bull: bool, r: int): nat {
    var s := Lookup(table, (bull, r));
    s.up + s.down
  }

  /** Next moves in the run's own direction. */
  function ContinuedAt(table: map<(bool, int), CondStats>, bull: bool, r: int): nat {
    var s := Lookup(table, (bull, r));
    if bull then s.up else s.down
  }

  /** An entry counts the positions before k; runs shorter than n are not counted. */
  ghost predicate EntryCounts(hist: seq<real>, n: int, k: nat, table: map<(bool, int), CondStats>, bull: bool, r: int) {
    var s := Lookup(table, (bull, r));
    && s.up == (if r >= n then Tally(hist, k, Dir(bull), r, 1) else 0)
    && s.down == (if r >= n then Tally(hist, k, Dir(bull), r, -1) else 0)
  }

  ghost predicate TableCounts(hist: seq<real>, n: int, k: nat, table: map<(bool, int), CondStats>) {
    forall bull, r :: EntryCounts(hist, n, k, table, bull, r)
  }

  /** Keys are created only to be counted in. */
  ghost predicate NoEmptyEntry(table: map<(bool, int), CondStats>) {
    forall key :: key in table ==> table[key].up + table[key].down > 0
  }

  /** Position k adds to no entry. */
  ghost predicate Skipped(hist: seq<real>, n: int, k: nat) {
    forall bull, r :: r >= n ==> !EndsIn(hist, k, Dir(bull), r, 1) && !EndsIn(hist, k, Dir(bull), r, -1)
  }

  lemma {:induction false} Uncounted(hist: seq<real>, n: int, k: nat, table: map<(bool, int), CondStats>)
    requires TableCounts(hist, n, k, table) && Skipped(hist, n, k)
    ensures TableCounts(hist, n, k + 1, table)
  {
    var next := k + 1;
    forall bull, r ensures EntryCounts(hist, n, next, table, bull, r) {
      assert EntryCounts(hist, n, k, table, bull, r);
    }
  }

  function Tallied(table: map<(bool, int), CondStats>, bull: bool, r: int, nd: int): map<(bool, int), CondStats> {
    var s := Lookup(table, (bull, r));
    table[(bull, r) := if nd > 0 then s.(up := s.up + 1) else s.(down := s.down + 1)]
  }

  /** A position that ends a counted run adds one to its own entry and to no other. */
  lemma {:induction false} Counted(hist: seq<real>, n: int, k: nat, table: map<(bool, int), CondStats>, bull: bool,
                                   r: int, nd: int)
    requires TableCounts(hist, n, k, table) && (nd == 1 || nd == -1)
    requires r >= n && EndsIn(hist, k, Dir(bull), r, nd)
    ensures TableCounts(hist, n, k + 1, Tallied(table, bull, r, nd))
  {
    var after, next := Tallied(table, bull, r, nd), k + 1;
    forall b, q ensures EntryCounts(hist, n, next, after, b, q) {
      assert EntryCounts(hist, n, k, table, b, q);
      if IsRun(hist, k, Dir(b), q) {
        RunIsUnique(hist, k, Dir(bull), r, Dir(b), q);
      }
      assert (b, q) != (bull, r) ==> Lookup(after, (b, q)) == Lookup(table, (b, q));
    }
  }

  /** The pass's two variables after position i. */
  ghost predicate AtPosition(hist: seq<real>, i: nat, run: nat, last: Option<int>) {
    match last
    case None => run == 0 && !MoveIs(hist, i, 1) && !MoveIs(hist, i, -1)
    case Some(d) => (d == 1 || d == -1) && IsRun(hist, i, d, run)
  }

  lemma {:induction false} RunStep(hist: seq<real>, i: nat, run: nat, last: Option<int>, d: int)
    requires AtPosition(hist, i, run, last) && MoveIs(hist, i + 1, d) && (d == 1 || d == -1)
    ensures AtPosition(hist, i + 1, if last == Some(d) then run + 1 else 1, Some(d))
  {
    if last == Some(d) {
      RunGrows(hist, i, d, run);
    } else {
      if last.Some? { assert MoveIs(hist, i, last.value); }
      RunStarts(hist, i + 1, d);
    }
  }

  /** No run of the counted length ends here with a move next. */
  lemma {:induction false} Skips(hist: seq<real>, n: int, i: nat, run: nat, last: Option<int>)
    requires AtPosition(hist, i, run, last)
    requires last.None? || run < n || (!MoveIs(hist, i + 1, 1) && !MoveIs(hist, i + 1, -1))
    ensures Skipped(hist, n, i)
  {
    forall bull, r | r >= n ensures !EndsIn(hist, i, Dir(bull), r, 1) && !EndsIn(hist, i, Dir(bull), r, -1) {
      if IsRun(hist, i, Dir(bull), r) {
        assert MoveIs(hist, i, Dir(bull));
        if last.Some? { RunIsUnique(hist, i, Dir(bull), r, last.value, run); }
      }
    }
  }

  lemma {:induction false} StartOfTable(hist: seq<real>, n: int)
    ensures TableCounts(hist, n, 0, map[]) && TableCounts(hist, n, 1, map[])
  {
    forall bull, r ensures EntryCounts(hist, n, 0, map[], bull, r) && EntryCounts(hist, n, 1, map[], bull, r) {
      assert !EndsIn(hist, 0, Dir(bull), r, 1) && !EndsIn(hist, 0, Dir(bull), r, -1);
      assert Tally(hist, 1, Dir(bull), r, 1) == 0 && Tally(hist, 1, Dir(bull), r, -1) == 0;
    }
  }

  /** The pass over the closes. */
  method Tabulate(hist: seq<real>, streakN: int) returns (table: map<(bool, int), CondStats>)
    ensures TableCounts(hist, streakN, |hist|, table) && NoEmptyEntry(table)
  {
    table := map[];
    StartOfTable(hist, streakN);
    var run := 0;
    var last := None;
    var i := 1;
    while i < |hist|
      invariant 1 <= i && (i <= |hist| || hist == [])
      invariant AtPosition(hist, i - 1, run, last)
      invariant hist == [] ==> table == map[]
      invariant TableCounts(hist, streakN, i, table) && NoEmptyEntry(table)
    {
      var d := Sign(hist[i] - hist[i - 1]);
      assert MoveIs(hist, i, d);
      if d == 0 {
        run := 0;
        last := None;
        Skips(hist, streakN, i, run, last);
        Uncounted(hist, streakN, i, table);
      } else {
        RunStep(hist, i - 1, run, last, d);
        run := if last.Some? && d == last.value then run + 1 else 1;
        last := Some(d);
        var nd := if i + 1 < |hist| then Sign(hist[i + 1] - hist[i]) else 0;
        if run >= streakN && i + 1 < |hist| && nd != 0 {
          assert MoveIs(hist, i + 1, nd);
          Counted(hist, streakN, i, table, d > 0, run, nd);
          table := Tallied(table, d > 0, run, nd);
        } else {
          Skips(hist, streakN, i, run, last);
          Uncounted(hist, streakN, i, table);
        }
      }
      i := i + 1;
    }
  }

  // ----- the report -----

  /** The reported rate of a reversal after a run, and how many runs it rests on. */
  datatype Rate = Rate(reverse: real, count: real)

  function RateOf(s: CondStats, bull: bool): Rate {
    Rate(((if bull then s.down else s.up) as real + 1.0) / ((s.up + s.down) as real + 2.0), (s.up + s.down) as real)
  }

  /** The report has one entry per counted run length, and no rate is ever 0 or 1. */
  method Report(table: map<(bool, int), CondStats>) returns (report: map<(bool, int), Rate>)
    ensures report.Keys == table.Keys
    ensures forall key :: key in report ==> report[key] == RateOf(table[key], key.0) && 0.0 < report[key].reverse < 1.0
  {
    report := map[];
    var todo := table.Keys;
    while todo != {}
      invariant todo <= table.Keys && report.Keys == table.Keys - todo
      invariant forall key :: key in report ==> report[key] == RateOf(table[key], key.0) && 0.0 < report[key].reverse < 1.0
      decreases |todo|
    {
      var key :| key in todo;
      RateIsProper(table[key], key.0);
      report := report[key := RateOf(table[key], key.0)];
      todo := todo - {key};
    }
  }

  lemma {:induction false} RateIsProper(s: CondStats, bull: bool)
    ensures 0.0 < RateOf(s, bull).reverse < 1.0
    ensures RateOf(s, true).reverse + RateOf(s, false).reverse == 1.0
  {
    var up, down := s.up as real + 1.0, s.down as real + 1.0;
    assert (s.up + s.down) as real + 2.0 == up + down;
    Shares(up, down);
  }

  lemma {:induction false} Shares(x: real, y: real)
    requires 0.0 < x && 0.0 < y
    ensures 0.0 < x / (x + y) < 1.0 && 0.0 < y / (x + y) < 1.0
    ensures x / (x + y) + y / (x + y) == 1.0
  {
    var a, b, t := x / (x + y), y / (x + y), x + y;
    assert a * t == x && b * t == y;
    SumOfShares(a, b, t, x, y);
    PositiveShare(a, t, x);
    PositiveShare(b, t, y);
  }

  lemma {:induction false} SumOfShares(a: real, b: real, t: real, x: real, y: real)
    requires 0.0 < t && a * t == x && b * t == y && x + y == t
    ensures a + b == 1.0
  {
    assert (a + b - 1.0) * t == a * t + b * t - t;
  }

  lemma {:induction false} PositiveShare(a: real, t: real, x: real)
    requires 0.0 < t && a * t == x && 0.0 < x
    ensures 0.0 < a
  {}

  /** The pass and its report. */
  method ObserveStreakExtreme(hist: seq<real>, streakN: int)
    returns (table: map<(bool, int), CondStats>, report: map<(bool, int), Rate>)
    ensures TableCounts(hist, streakN, |hist|, table) && NoEmptyEntry(table)
    ensures report.Keys == table.Keys
    ensures forall key :: key in report ==> report[key] == RateOf(table[key], key.0) && 0.0 < report[key].reverse < 1.0
  {
    table := Tabulate(hist, streakN);
    report := Report(table);
  }

  /** The reported rate is that of a reversal, with one run of each outcome added: the runs
      counted that did not continue, plus one, over all of them plus two. */
  lemma {:induction false} RateIsSmoothed(table: map<(bool, int), CondStats>, bull: bool, r: int)
    requires (bull, r) in table
    ensures var rate := RateOf(table[(bull, r)], bull);
      && rate.count == CountAt(table, bull, r) as real
      && rate.reverse * (rate.count + 2.0) == rate.count - ContinuedAt(table, bull, r) as real + 1.0
  {
    var s := table[(bull, r)];
    QuotientTimes((if bull then s.down else s.up) as real + 1.0, (s.up + s.down) as real + 2.0);
  }

  // ----- laws of the table -----

  /** The table counts positions: those whose run is exactly r and whose next move is up or down. */
  lemma {:induction false} TableIsPositions(hist: seq<real>, n: int, table: map<(bool, int), CondStats>, bull: bool,
                                            r: int)
    requires TableCounts(hist, n, |hist|, table) && NoEmptyEntry(table)
    ensures r >= n ==> Lookup(table, (bull, r)).up == |Ends(hist, |hist|, Dir(bull), r, 1)|
    ensures r >= n ==> Lookup(table, (bull, r)).down == |Ends(hist, |hist|, Dir(bull), r, -1)|
    ensures (bull, r) in table <==> CountAt(table, bull, r) > 0
    ensures r < n ==> (bull, r) !in table
  {
    assert EntryCounts(hist, n, |hist|, table, bull, r);
    TallyIsSize(hist, |hist|, Dir(bull), r, 1);
    TallyIsSize(hist, |hist|, Dir(bull), r, -1);
  }

  /** What continued at r, from the table alone: the count at r + 1 plus the runs of r + 1
      that stalled. So one step longer is never more frequent. */
  lemma {:induction false} CountsNeverGrow(hist: seq<real>, n: int, table: map<(bool, int), CondStats>, bull: bool,
                                           r: nat)
    requires TableCounts(hist, n, |hist|, table) && 1 <= r && n <= r
    ensures ContinuedAt(table, bull, r) == CountAt(table, bull, r + 1) + |Stalled(hist, Dir(bull), r + 1)|
    ensures CountAt(table, bull, r + 1) <= CountAt(table, bull, r)
  {
    var d := Dir(bull);
    assert EntryCounts(hist, n, |hist|, table, bull, r) && EntryCounts(hist, n, |hist|, table, bull, r + 1);
    TallyIsSize(hist, |hist|, d, r, d);
    TallyIsSize(hist, |hist|, d, r + 1, 1);
    TallyIsSize(hist, |hist|, d, r + 1, -1);
    ContinuationsMoveOn(hist, Dir(bull), r);
    PositionsSplit(hist, Dir(bull), r + 1);
  }

  /** Longer runs are never counted more often than shorter ones. */
  lemma {:induction false} CountsNeverGrowAtAll(hist: seq<real>, n: int, table: map<(bool, int), CondStats>,
                                                bull: bool, r: nat, q: nat)
    requires TableCounts(hist, n, |hist|, table) && 1 <= r <= q && n <= r
    ensures CountAt(table, bull, q) <= CountAt(table, bull, r)
    decreases q - r
  {
    if r < q {
      CountsNeverGrow(hist, n, table, bull, r);
      CountsNeverGrowAtAll(hist, n, table, bull, r + 1, q);
    }
  }
}
