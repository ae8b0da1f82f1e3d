/**
 Grouping requests into visits: infra/analytics/collect.py:632-810. This file cuts an ordered request
 list into runs; Sessions.dfy keeps the session table over them.
 */
module Visits {
  import opened Filters

  /** `activity` is the empty string when the column is NULL. */
  datatype Row = Row(ts: real, ip: string, ua: string, isBot: bool, isAsset: bool, activity: string, path: string, status: int)

  const GAP: real := 1800.0

  /** What identifies a visitor: the address and the hash of the user agent. */
  datatype Key = Key(ip: string, agent: string)

  /** UNIQUE (ip, ua_hash, started): what identifies a stored session. */
  datatype Slot = Slot(key: Key, start: real)

  type Hash = string -> string

  function KeyOf(row: Row, h: Hash): Key {
    Key(row.ip, h(row.ua))
  }

  // ---------------------------------------------------------------- which rows

  function IsVisit(): Row -> bool { (row: Row) => row.activity != "keepalive" }
  function OfKey(k: Key, h: Hash): Row -> bool { (row: Row) => KeyOf(row, h) == k }
  function From(cutoff: real): Row -> bool { (row: Row) => row.ts >= cutoff }
  function Until(cutoff: real): Row -> bool { (row: Row) => row.ts < cutoff }

  // ---------------------------------------------------------------- runs

  type Run = seq<Row>

  predicate Joins(p: Row, q: Row, h: Hash) {
    KeyOf(p, h) == KeyOf(q, h) && q.ts - p.ts <= GAP
  }

  predicate Filled(runs: seq<Run>) {
    forall k :: 0 <= k < |runs| ==> runs[k] != []
  }

  function Last<T>(s: seq<T>): T
    requires s != []
  {
    s[|s| - 1]
  }

  /** One more row either continues the open visit or starts the next. */
  function Extend(runs: seq<Run>, row: Row, h: Hash): (r: seq<Run>)
    requires Filled(runs)
    ensures Filled(r) && r != [] && Last(Last(r)) == row
  {
    if runs != [] && Joins(Last(Last(runs)), row, h) then runs[..|runs| - 1] + [Last(runs) + [row]]
    else runs + [[row]]
  }

  function Runs(rows: seq<Row>, h: Hash): (r: seq<Run>)
    ensures Filled(r)
    ensures r == [] <==> rows == []
    ensures rows != [] ==> Last(Last(r)) == Last(rows)
  {
    if rows == [] then [] else Extend(Runs(rows[..|rows| - 1], h), Last(rows), h)
  }

  lemma RunsSnoc(rows: seq<Row>, row: Row, h: Hash)
    ensures Runs(rows + [row], h) == Extend(Runs(rows, h), row, h)
  {
    assert (rows + [row])[..|rows|] == rows;
  }

  // ---------------------------------------------------------------- runs are the maximal chains

  function Flatten(runs: seq<Run>): seq<Row> {
    if runs == [] then [] else Flatten(runs[..|runs| - 1]) + Last(runs)
  }

  predicate Chained(run: Run, h: Hash) {
    run != [] && forall i :: 0 < i < |run| ==> Joins(run[i - 1], run[i], h)
  }

  /** Cuts fall exactly where two neighbours do not join. */
  predicate MaximalChains(runs: seq<Run>, rows: seq<Row>, h: Hash) {
    && Flatten(runs) == rows
    && (forall k :: 0 <= k < |runs| ==> Chained(runs[k], h))
    && (forall k :: 0 < k < |runs| ==> !Joins(Last(runs[k - 1]), runs[k][0], h))
  }

  lemma FlattenSnoc(runs: seq<Run>, run: Run)
    ensures Flatten(runs + [run]) == Flatten(runs) + run
  {
    assert (runs + [run])[..|runs|] == runs;
  }

  lemma {:induction false} RunsAreMaximal(rows: seq<Row>, h: Hash)
    ensures MaximalChains(Runs(rows, h), rows, h)
  {
    if rows != [] {
      var front, row := rows[..|rows| - 1], Last(rows);
      var runs := Runs(front, h);
      RunsAreMaximal(front, h);
      assert rows == front + [row];
      MaximalExtend(runs, front, row, h);
    }
  }

  lemma ChainedSnoc(run: Run, row: Row, h: Hash)
    requires Chained(run, h) && Joins(Last(run), row, h)
    ensures Chained(run + [row], h)
  {
  }

  lemma MaximalExtend(runs: seq<Run>, rows: seq<Row>, row: Row, h: Hash)
    requires MaximalChains(runs, rows, h) && Filled(runs)
    ensures MaximalChains(Extend(runs, row, h), rows + [row], h)
  {
    if runs != [] && Joins(Last(Last(runs)), row, h) {
      MaximalContinue(runs[..|runs| - 1], Last(runs), rows, row, h);
      assert runs == runs[..|runs| - 1] + [Last(runs)];
    } else {
      MaximalOpen(runs, rows, row, h);
    }
  }

  lemma MaximalContinue(front: seq<Run>, last: Run, rows: seq<Row>, row: Row, h: Hash)
    requires MaximalChains(front + [last], rows, h) && last != [] && Joins(Last(last), row, h)
    ensures MaximalChains(front + [last + [row]], rows + [row], h)
  {
    hide Joins, Flatten;
    var runs, longer := front + [last], front + [last + [row]];
    FlattenSnoc(front, last + [row]);
    FlattenSnoc(front, last);
    assert runs[|front|] == last;
    ChainedSnoc(last, row, h);
    forall k | 0 <= k < |longer| ensures Chained(longer[k], h) {
      assert k < |front| ==> longer[k] == runs[k];
    }
    forall k | 0 < k < |longer| ensures !Joins(Last(longer[k - 1]), longer[k][0], h) {
      assert longer[k - 1] == runs[k - 1] && longer[k][0] == runs[k][0];
    }
  }

  lemma MaximalOpen(runs: seq<Run>, rows: seq<Row>, row: Row, h: Hash)
    requires MaximalChains(runs, rows, h) && (runs == [] || (Last(runs) != [] && !Joins(Last(Last(runs)), row, h)))
    ensures MaximalChains(runs + [[row]], rows + [row], h)
  {
    hide Joins, Flatten;
    FlattenSnoc(runs, [row]);
  }

  /** No other cut of the rows has that property. */
  lemma {:induction false} MaximalChainsAreRuns(runs: seq<Run>, rows: seq<Row>, h: Hash)
    requires MaximalChains(runs, rows, h)
    ensures runs == Runs(rows, h)
    decreases |rows|
  {
    if runs != [] {
      var front, last := runs[..|runs| - 1], Last(runs);
      assert runs == front + [last];
      FlattenSnoc(front, last);
      assert Chained(last, h);
      if |last| == 1 {
        assert MaximalChains(front, Flatten(front), h);
        MaximalChainsAreRuns(front, Flatten(front), h);
        CutByOwnRow(front, last, h);
      } else {
        ShorterIsMaximal(front, last, h);
        MaximalChainsAreRuns(front + [last[..|last| - 1]], Flatten(front) + last[..|last| - 1], h);
        CutInsideRun(front, last, h);
      }
    }
  }

  lemma CutByOwnRow(front: seq<Run>, last: Run, h: Hash)
    requires |last| == 1 && front == Runs(Flatten(front), h) && (front == [] || !Joins(Last(Last(front)), last[0], h))
    ensures front + [last] == Runs(Flatten(front) + last, h)
  {
    hide Joins, Flatten;
    assert last == [last[0]];
    RunsSnoc(Flatten(front), last[0], h);
  }

  lemma CutInsideRun(front: seq<Run>, last: Run, h: Hash)
    requires |last| > 1 && Chained(last, h)
    requires front + [last[..|last| - 1]] == Runs(Flatten(front) + last[..|last| - 1], h)
    ensures front + [last] == Runs(Flatten(front) + last, h)
  {
    hide Joins, Flatten, Runs;
    var start := last[..|last| - 1];
    var shorter := front + [start];
    RowsWithoutLast(Flatten(front), last, Flatten(front) + last);
    RunsSnoc(Flatten(front) + start, Last(last), h);
    assert shorter[..|shorter| - 1] == front && Last(shorter) == start && start + [Last(last)] == last;
    assert Joins(last[|last| - 2], last[|last| - 1], h) && Last(start) == last[|last| - 2];
  }

  lemma RowsWithoutLast(a: seq<Row>, last: Run, rows: seq<Row>)
    requires last != [] && rows == a + last
    ensures rows == (a + last[..|last| - 1]) + [Last(last)]
    ensures |last| == 1 ==> rows == a + [Last(last)]
  {
  }

  lemma ShorterIsMaximal(front: seq<Run>, last: Run, h: Hash)
    requires |last| > 1 && MaximalChains(front + [last], Flatten(front + [last]), h)
    ensures MaximalChains(front + [last[..|last| - 1]], Flatten(front) + last[..|last| - 1], h)
  {
    hide Joins, Flatten;
    var runs, shorter := front + [last], front + [last[..|last| - 1]];
    FlattenSnoc(front, last[..|last| - 1]);
    assert runs[|front|] == last;
    ShorterIsChained(last, h);
    hide Chained;
    forall k | 0 <= k < |shorter| ensures shorter[k] != [] && Chained(shorter[k], h) {
      assert k < |front| ==> shorter[k] == runs[k];
    }
    forall k | 0 < k < |shorter| ensures !Joins(Last(shorter[k - 1]), shorter[k][0], h) {
      assert shorter[k - 1] == runs[k - 1] && shorter[k][0] == runs[k][0];
    }
  }

  lemma ShorterIsChained(run: Run, h: Hash)
    requires |run| > 1 && Chained(run, h)
    ensures Chained(run[..|run| - 1], h)
  {
    hide Joins;
  }

  // ---------------------------------------------------------------- request order

  /** ORDER BY ip, ua, ts: each visitor's rows are contiguous and in time order. */
  predicate Ordered(rows: seq<Row>, h: Hash) {
    && (forall i, j :: 0 <= i < j < |rows| && KeyOf(rows[i], h) == KeyOf(rows[j], h) ==> rows[i].ts <= rows[j].ts)
    && (forall i, j, k :: 0 <= i < j < k < |rows| && KeyOf(rows[i], h) == KeyOf(rows[k], h) ==> KeyOf(rows[j], h) == KeyOf(rows[i], h))
  }

  /** The rank of an (ip, ua) pair in the database's order. */
  type Rank = (string, string) -> int

  /** ORDER BY ip, ua, ts for a ranking that tells the rows' visitors apart. */
  predicate SqlOrdered(rows: seq<Row>, rank: Rank) {
    && (forall i, j :: 0 <= i < j < |rows| ==> rank(rows[i].ip, rows[i].ua) <= rank(rows[j].ip, rows[j].ua))
    && (forall i, j :: 0 <= i < j < |rows| && rank(rows[i].ip, rows[i].ua) == rank(rows[j].ip, rows[j].ua) ==>
          rows[i].ip == rows[j].ip && rows[i].ua == rows[j].ua && rows[i].ts <= rows[j].ts)
  }

  /** No two agents of one address share a hash, and equal visitors rank equal. */
  predicate HashTellsApart(rows: seq<Row>, h: Hash) {
    forall i, j :: 0 <= i < j < |rows| && KeyOf(rows[i], h) == KeyOf(rows[j], h) ==> rows[i].ua == rows[j].ua
  }

  /** The query's order is what the grouping relies on. */
  lemma SqlOrderIsOrdered(rows: seq<Row>, rank: Rank, h: Hash)
    requires SqlOrdered(rows, rank) && HashTellsApart(rows, h)
    ensures Ordered(rows, h)
  {
    forall i, j, k | 0 <= i < j < k < |rows| && KeyOf(rows[i], h) == KeyOf(rows[k], h) ensures KeyOf(rows[j], h) == KeyOf(rows[i], h) {
      assert rows[i].ip == rows[k].ip && rows[i].ua == rows[k].ua;
      assert rank(rows[i].ip, rows[i].ua) == rank(rows[j].ip, rows[j].ua);
    }
  }

  lemma {:induction false} FilterOrdered(rows: seq<Row>, p: Row -> bool, h: Hash)
    requires Ordered(rows, h)
    ensures Ordered(Filter(rows, p), h)
  {
    if rows != [] {
      var front, row := rows[..|rows| - 1], Last(rows);
      FilterOrdered(front, p, h);
      var f := Filter(front, p);
      if p(row) {
        var g := f + [row];
        forall i, j | 0 <= i < j < |g| && KeyOf(g[i], h) == KeyOf(g[j], h) ensures g[i].ts <= g[j].ts {
          if j == |f| {
            FilterHas(front, p, g[i]);
          }
        }
        forall i, j, k | 0 <= i < j < k < |g| && KeyOf(g[i], h) == KeyOf(g[k], h) ensures KeyOf(g[j], h) == KeyOf(g[i], h) {
          if k == |f| {
            FilterKeepsOrder(front, p, i, j);
          }
        }
      }
    }
  }

  predicate OneKey(rows: seq<Row>, k: Key, h: Hash) {
    forall i :: 0 <= i < |rows| ==> KeyOf(rows[i], h) == k
  }

  predicate InTime(rows: seq<Row>) {
    forall i, j :: 0 <= i < j < |rows| ==> rows[i].ts <= rows[j].ts
  }

  lemma KeyRowsInTime(rows: seq<Row>, k: Key, h: Hash)
    requires Ordered(rows, h)
    ensures var f := Filter(rows, OfKey(k, h)); OneKey(f, k, h) && InTime(f)
  {
    var f := Filter(rows, OfKey(k, h));
    FilterOrdered(rows, OfKey(k, h), h);
    forall i | 0 <= i < |f| ensures KeyOf(f[i], h) == k {
      FilterHas(rows, OfKey(k, h), f[i]);
    }
  }

  // ---------------------------------------------------------------- one visitor at a time

  function RunOfKey(k: Key, h: Hash): Run -> bool {
    (run: Run) => run != [] && KeyOf(Last(run), h) == k
  }

  /** Once another visitor's row has come, a visitor's rows are over. */
  lemma LastOfKey(front: seq<Row>, row: Row, k: Key, h: Hash)
    requires front != [] && Ordered(front + [row], h) && KeyOf(row, h) == k && KeyOf(Last(front), h) != k
    ensures Filter(front, OfKey(k, h)) == []
  {
    var all := front + [row];
    forall i | 0 <= i < |front| ensures KeyOf(front[i], h) != k {
      assert all[i] == front[i] && all[|front| - 1] == Last(front) && all[|front|] == row;
    }
    NoneFiltered(front, OfKey(k, h));
  }

  lemma FilterReplaceLast(runs: seq<Run>, run: Run, p: Run -> bool)
    requires runs != [] && p(Last(runs)) == p(run)
    ensures Filter(runs[..|runs| - 1] + [run], p)
         == if p(run) then Filter(runs[..|runs| - 1], p) + [run] else Filter(runs, p)
  {
    FilterSnoc(runs[..|runs| - 1], run, p);
  }

  /** The runs of one visitor are the runs of that visitor's rows taken alone. */
  lemma {:induction false} RunsByKey(rows: seq<Row>, k: Key, h: Hash)
    requires Ordered(rows, h)
    ensures Filter(Runs(rows, h), RunOfKey(k, h)) == Runs(Filter(rows, OfKey(k, h)), h)
  {
    if rows != [] {
      var front, row := rows[..|rows| - 1], Last(rows);
      assert rows == front + [row];
      RunsByKey(front, k, h);
      RunsByKeyStep(front, row, k, h);
    }
  }

  lemma RunsByKeyStep(front: seq<Row>, row: Row, k: Key, h: Hash)
    requires Ordered(front + [row], h)
    requires Filter(Runs(front, h), RunOfKey(k, h)) == Runs(Filter(front, OfKey(k, h)), h)
    ensures Filter(Runs(front + [row], h), RunOfKey(k, h)) == Runs(Filter(front + [row], OfKey(k, h)), h)
  {
    hide Filter, Runs, Extend, Joins, Ordered;
    var runs, mine := Runs(front, h), Filter(front, OfKey(k, h));
    FilterSnoc(front, row, OfKey(k, h));
    RunsSnoc(front, row, h);
    if KeyOf(row, h) != k {
      assert mine + [] == mine;
      ForeignRow(runs, row, k, h);
    } else {
      RunsSnoc(mine, row, h);
      if front == [] || KeyOf(Last(front), h) == k {
        OwnRow(runs, row, k, h);
      } else {
        LastOfKey(front, row, k, h);
        FirstOwnRow(runs, row, k, h);
      }
    }
  }

  lemma FirstOwnRow(runs: seq<Run>, row: Row, k: Key, h: Hash)
    requires Filled(runs) && runs != [] && KeyOf(row, h) == k && KeyOf(Last(Last(runs)), h) != k
    requires Filter(runs, RunOfKey(k, h)) == []
    ensures Filter(Extend(runs, row, h), RunOfKey(k, h)) == Extend([], row, h)
  {
    FilterSnoc(runs, [row], RunOfKey(k, h));
  }

  lemma ForeignRow(runs: seq<Run>, row: Row, k: Key, h: Hash)
    requires Filled(runs) && KeyOf(row, h) != k
    ensures Filter(Extend(runs, row, h), RunOfKey(k, h)) == Filter(runs, RunOfKey(k, h))
  {
    if runs != [] && Joins(Last(Last(runs)), row, h) {
      FilterReplaceLast(runs, Last(runs) + [row], RunOfKey(k, h));
    } else {
      FilterSnoc(runs, [row], RunOfKey(k, h));
    }
  }

  lemma OwnRow(runs: seq<Run>, row: Row, k: Key, h: Hash)
    requires Filled(runs) && KeyOf(row, h) == k && (runs != [] ==> KeyOf(Last(Last(runs)), h) == k)
    ensures Filled(Filter(runs, RunOfKey(k, h)))
    ensures Filter(Extend(runs, row, h), RunOfKey(k, h)) == Extend(Filter(runs, RunOfKey(k, h)), row, h)
  {
    var p := RunOfKey(k, h);
    var mine := Filter(runs, p);
    forall i | 0 <= i < |mine| ensures mine[i] != [] {
      FilterHas(runs, p, mine[i]);
    }
    if runs != [] {
      FilterSnoc(runs[..|runs| - 1], Last(runs), p);
      assert runs == runs[..|runs| - 1] + [Last(runs)];
      assert Last(mine) == Last(runs);
    }
    if runs != [] && Joins(Last(Last(runs)), row, h) {
      FilterReplaceLast(runs, Last(runs) + [row], p);
    } else {
      FilterSnoc(runs, [row], p);
    }
  }

  // ---------------------------------------------------------------- one visitor's runs in time

  predicate StartsIncrease(runs: seq<Run>) {
    && Filled(runs)
    && forall i, j :: 0 <= i < j < |runs| ==> runs[i][0].ts < runs[j][0].ts
  }

  lemma {:induction false} RunsStartLater(rows: seq<Row>, k: Key, h: Hash)
    requires OneKey(rows, k, h) && InTime(rows)
    ensures StartsIncrease(Runs(rows, h))
    ensures forall i :: 0 <= i < |Runs(rows, h)| ==> Runs(rows, h)[i][0].ts <= Last(Runs(rows, h)[i]).ts <= Last(rows).ts
  {
    if rows != [] {
      var front := rows[..|rows| - 1];
      RunsStartLater(front, k, h);
      if front != [] {
        assert Last(Last(Runs(front, h))) == Last(front);
        assert rows[|rows| - 2].ts <= rows[|rows| - 1].ts;
      }
    }
  }

  /** Where no run reaches over the seam, the runs on both sides stand on their own. */
  lemma {:induction false} RunsSplit(a: seq<Row>, b: seq<Row>, h: Hash)
    requires a == [] || b == [] || !Joins(Last(a), b[0], h)
    ensures Runs(a + b, h) == Runs(a, h) + Runs(b, h)
  {
    hide Joins;
    if b == [] {
      assert a + b == a;
    } else {
      var front, row := b[..|b| - 1], Last(b);
      assert b == front + [row];
      RunsSplit(a, front, h);
      RunsSplitStep(a, front, row, h);
    }
  }

  lemma RunsSplitStep(a: seq<Row>, front: seq<Row>, row: Row, h: Hash)
    requires a == [] || !Joins(Last(a), (front + [row])[0], h)
    requires Runs(a + front, h) == Runs(a, h) + Runs(front, h)
    ensures Runs(a + (front + [row]), h) == Runs(a, h) + Runs(front + [row], h)
  {
    hide Joins, Runs;
    assert a + (front + [row]) == (a + front) + [row];
    RunsSnoc(a + front, row, h);
    RunsSnoc(front, row, h);
    if front == [] {
      assert a + front == a;
    } else {
      ExtendAfter(Runs(a, h), Runs(front, h), row, h);
    }
  }

  lemma ExtendAfter(before: seq<Run>, runs: seq<Run>, row: Row, h: Hash)
    requires Filled(before) && Filled(runs) && runs != []
    ensures Extend(before + runs, row, h) == before + Extend(runs, row, h)
  {
    hide Joins;
    var all := before + runs;
    assert Last(all) == Last(runs);
    assert all[..|all| - 1] == before + runs[..|runs| - 1];
  }

  predicate Covers(run: Run, early: real, late: real) {
    run != [] && run[0].ts <= early && late <= Last(run).ts
  }

  /** Two neighbours that join lie in one run. */
  lemma {:induction false} JoinedInOneRun(rows: seq<Row>, k: Key, h: Hash, i: nat)
    requires OneKey(rows, k, h) && InTime(rows) && i + 1 < |rows| && Joins(rows[i], rows[i + 1], h)
    ensures exists run :: run in Runs(rows, h) && Covers(run, rows[i].ts, rows[i + 1].ts)
  {
    var front, row := rows[..|rows| - 1], Last(rows);
    assert rows == front + [row];
    RunsSnoc(front, row, h);
    if i + 2 == |rows| {
      RunsStartLater(front, k, h);
      JoinedAtTheEnd(Runs(front, h), row, h);
    } else {
      JoinedInOneRun(front, k, h, i);
      var run :| run in Runs(front, h) && Covers(run, front[i].ts, front[i + 1].ts);
      CoverGrows(Runs(front, h), row, h, run, front[i].ts, front[i + 1].ts);
    }
  }

  lemma JoinedAtTheEnd(runs: seq<Run>, row: Row, h: Hash)
    requires Filled(runs) && runs != [] && Joins(Last(Last(runs)), row, h) && Last(runs)[0].ts <= Last(Last(runs)).ts
    ensures exists run :: run in Extend(runs, row, h) && Covers(run, Last(Last(runs)).ts, row.ts)
  {
    var run := Last(runs) + [row];
    assert run in Extend(runs, row, h) && Covers(run, Last(Last(runs)).ts, row.ts);
  }

  lemma CoverGrows(runs: seq<Run>, row: Row, h: Hash, run: Run, early: real, late: real)
    requires Filled(runs) && run in runs && Covers(run, early, late) && late <= row.ts
    ensures exists r :: r in Extend(runs, row, h) && Covers(r, early, late)
  {
    var at :| 0 <= at < |runs| && runs[at] == run;
    var longer := Extend(runs, row, h);
    if at == |runs| - 1 && Joins(Last(Last(runs)), row, h) {
      assert run + [row] in longer && Covers(run + [row], early, late);
    } else {
      assert longer[at] == run;
    }
  }
}
