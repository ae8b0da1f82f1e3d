/**
 What the incremental rebuild keeps: when it agrees with rebuilding everything, and when it does not.
 Sessionise of infra/analytics/collect.py:697-810 works from a cutoff; the rows before it are not read
 again.
 */
module SessionRebuild {
  import opened Filters
  import opened Prelude
  import opened Visits
  import opened Sessions

  // ---------------------------------------------------------------- nothing is lost or counted twice

  function TotalHits(runs: seq<Run>, ev: Evidence): nat
    requires Filled(runs)
  {
    if runs == [] then 0 else TotalHits(runs[..|runs| - 1], ev) + Summary(Last(runs), ev).hits
  }

  lemma {:induction false} HitsAreRows(runs: seq<Run>, ev: Evidence)
    requires Filled(runs)
    ensures TotalHits(runs, ev) == |Flatten(runs)|
  {
    if runs != [] {
      HitsAreRows(runs[..|runs| - 1], ev);
    }
  }

  /** Every request that is not a keepalive is counted in exactly one session. */
  lemma HitsAreConserved(rows: seq<Row>, ev: Evidence)
    ensures TotalHits(Runs(rows, ev.h), ev) == |rows|
  {
    RunsAreMaximal(rows, ev.h);
    HitsAreRows(Runs(rows, ev.h), ev);
  }

  // ---------------------------------------------------------------- the table a full rebuild gives

  lemma RunKeys(rows: seq<Row>, h: Hash, run: Run)
    requires run in Runs(rows, h)
    ensures run != [] && KeyOf(run[0], h) == KeyOf(Last(run), h)
  {
    RunsAreMaximal(rows, h);
    ChainKey(run, h);
  }

  lemma RunOfItsKey(rows: seq<Row>, k: Key, h: Hash, run: Run)
    requires Ordered(rows, h)
    ensures run in Runs(Filter(rows, OfKey(k, h)), h) <==> run in Runs(rows, h) && run != [] && KeyOf(Last(run), h) == k
  {
    RunsByKey(rows, k, h);
    FilterHas(Runs(rows, h), RunOfKey(k, h), run);
  }

  /** A slot belongs to one run. */
  lemma SlotsAreUnique(rows: seq<Row>, h: Hash, a: Run, b: Run)
    requires Ordered(rows, h) && a in Runs(rows, h) && b in Runs(rows, h) && a != [] && b != [] && SlotOf(a, h) == SlotOf(b, h)
    ensures a == b
  {
    RunKeys(rows, h, a);
    RunKeys(rows, h, b);
    var k := KeyOf(a[0], h);
    RunOfItsKey(rows, k, h, a);
    RunOfItsKey(rows, k, h, b);
    KeyRowsInTime(rows, k, h);
    var mine := Filter(rows, OfKey(k, h));
    RunsStartLater(mine, k, h);
    var i :| 0 <= i < |Runs(mine, h)| && Runs(mine, h)[i] == a;
    var j :| 0 <= j < |Runs(mine, h)| && Runs(mine, h)[j] == b;
  }

  ghost predicate HasRun(runs: seq<Run>, slot: Slot, h: Hash) {
    exists run :: run in runs && run != [] && SlotOf(run, h) == slot
  }

  ghost predicate OneRunPerSlot(runs: seq<Run>, h: Hash) {
    forall a, b :: a in runs && b in runs && a != [] && b != [] && SlotOf(a, h) == SlotOf(b, h) ==> a == b
  }

  /** The extents and counts in the table, without the verdicts. */
  function Stats(table: map<Slot, Stored>): map<Slot, Session> {
    map slot | slot in table :: table[slot].session
  }

  /** The table of a full rebuild: one entry per run. */
  ghost predicate IsTableOf(stats: map<Slot, Session>, runs: seq<Run>, ev: Evidence) {
    && (forall slot :: slot in stats <==> HasRun(runs, slot, ev.h))
    && (forall run :: run in runs && run != [] ==> SlotOf(run, ev.h) in stats && stats[SlotOf(run, ev.h)] == Summary(run, ev))
  }

  lemma {:induction false} InsertedAt(table: map<Slot, Stored>, runs: seq<Run>, probes: ProbeTimes, ev: Evidence, slot: Slot)
    requires Filled(runs) && OneRunPerSlot(runs, ev.h)
    ensures var after := InsertAll(table, runs, probes, ev);
            && (!HasRun(runs, slot, ev.h) ==> (slot in after <==> slot in table) && (slot in table ==> after[slot] == table[slot]))
            && (forall run :: run in runs && run != [] && SlotOf(run, ev.h) == slot ==>
                  slot in after && after[slot] == Stored(Summary(run, ev), BotVerdict(Summary(run, ev), probes, ev)))
  {
    hide Summary, BotVerdict;
    if runs != [] {
      var front, last := runs[..|runs| - 1], Last(runs);
      assert runs == front + [last];
      InsertedAt(table, front, probes, ev, slot);
      if HasRun(front, slot, ev.h) {
        var run :| run in front && run != [] && SlotOf(run, ev.h) == slot;
        assert run in runs;
      }
      assert last in runs;
    }
  }

  // ---------------------------------------------------------------- visits that straddle the cutoff

  predicate Straddles(run: Run, cutoff: real) {
    run != [] && run[0].ts < cutoff <= Last(run).ts
  }

  ghost predicate NoneStraddles(rows: seq<Row>, h: Hash, cutoff: real) {
    forall run :: run in Runs(rows, h) ==> !Straddles(run, cutoff)
  }

  /** One visitor's rows fall into those before the cutoff and those from it on. */
  lemma CutByTime(f: seq<Row>, cutoff: real)
    requires InTime(f)
    ensures f == Filter(f, Until(cutoff)) + Filter(f, From(cutoff))
    ensures forall row :: row in Filter(f, Until(cutoff)) ==> row.ts < cutoff
    ensures forall row :: row in Filter(f, From(cutoff)) ==> row.ts >= cutoff
  {
    FilterCuts(f, From(cutoff), Until(cutoff));
    forall row | row in Filter(f, Until(cutoff)) ensures row.ts < cutoff {
      FilterHas(f, Until(cutoff), row);
    }
    forall row | row in Filter(f, From(cutoff)) ensures row.ts >= cutoff {
      FilterHas(f, From(cutoff), row);
    }
  }

  lemma {:induction false} RunRowsAreRows(rows: seq<Row>, h: Hash, run: Run, row: Row)
    requires run in Runs(rows, h) && row in run
    ensures row in rows
  {
    RunsAreMaximal(rows, h);
    InFlatten(Runs(rows, h), run, row);
  }

  lemma {:induction false} InFlatten(runs: seq<Run>, run: Run, row: Row)
    requires run in runs && row in run
    ensures row in Flatten(runs)
  {
    if run != Last(runs) {
      assert runs == runs[..|runs| - 1] + [Last(runs)];
      InFlatten(runs[..|runs| - 1], run, row);
    }
  }

  /** Where the seam is a gap, the runs that end before the cutoff are those of the earlier rows. */
  lemma RunsAroundCutoff(early: seq<Row>, late: seq<Row>, h: Hash, cutoff: real, run: Run)
    requires forall row :: row in early ==> row.ts < cutoff
    requires forall row :: row in late ==> row.ts >= cutoff
    requires early == [] || late == [] || !Joins(Last(early), late[0], h)
    ensures run in Runs(early + late, h) <==> run in Runs(early, h) || run in Runs(late, h)
    ensures run in Runs(early, h) ==> run != [] && Last(run).ts < cutoff
    ensures run in Runs(late, h) ==> run != [] && Last(run).ts >= cutoff
  {
    hide Joins;
    RunsSplit(early, late, h);
    if run in Runs(early, h) {
      RunRowsAreRows(early, h, run, Last(run));
    }
    if run in Runs(late, h) {
      RunRowsAreRows(late, h, run, Last(run));
    }
  }

  lemma JoinStraddles(early: seq<Row>, late: seq<Row>, k: Key, h: Hash, cutoff: real)
    requires OneKey(early + late, k, h) && InTime(early + late) && early != [] && late != []
    requires Last(early).ts < cutoff <= late[0].ts && Joins(Last(early), late[0], h)
    ensures exists run :: run in Runs(early + late, h) && Straddles(run, cutoff)
  {
    hide Joins;
    var rows, i := early + late, |early| - 1;
    assert rows[i] == Last(early) && rows[i + 1] == late[0];
    JoinedInOneRun(rows, k, h, i);
    var run :| run in Runs(rows, h) && Covers(run, rows[i].ts, rows[i + 1].ts);
    assert Straddles(run, cutoff);
  }

  lemma NoJoinAtCutoff(early: seq<Row>, late: seq<Row>, k: Key, h: Hash, cutoff: real)
    requires OneKey(early + late, k, h) && InTime(early + late)
    requires forall row :: row in early ==> row.ts < cutoff
    requires forall row :: row in late ==> row.ts >= cutoff
    requires NoneStraddles(early + late, h, cutoff)
    ensures early == [] || late == [] || !Joins(Last(early), late[0], h)
  {
    hide Joins;
    if early != [] && late != [] && Joins(Last(early), late[0], h) {
      JoinStraddles(early, late, k, h, cutoff);
    }
  }

  /** The visits of an earlier build: the same rows before the cutoff, and only rows that are still
      there from it on. */
  predicate IsEarlier(oldRows: seq<Row>, rows: seq<Row>, cutoff: real) {
    && Filter(oldRows, Until(cutoff)) == Filter(rows, Until(cutoff))
    && forall row :: row in oldRows ==> row in rows
  }

  lemma NoneStraddlesByKey(rows: seq<Row>, k: Key, h: Hash, cutoff: real)
    requires Ordered(rows, h) && NoneStraddles(rows, h, cutoff)
    ensures NoneStraddles(Filter(rows, OfKey(k, h)), h, cutoff)
  {
    forall run | run in Runs(Filter(rows, OfKey(k, h)), h) ensures !Straddles(run, cutoff) {
      RunOfItsKey(rows, k, h, run);
    }
  }

  lemma OldSeamIsAGap(early: seq<Row>, late: seq<Row>, oldLate: seq<Row>, h: Hash, k: Key)
    requires OneKey(early + late, k, h) && InTime(late) && OneKey(oldLate, k, h)
    requires early == [] || late == [] || !Joins(Last(early), late[0], h)
    requires forall row :: row in oldLate ==> row in late
    ensures early == [] || oldLate == [] || !Joins(Last(early), oldLate[0], h)
  {
    if early != [] && oldLate != [] {
      assert oldLate[0] in late;
      assert late[0] == (early + late)[|early|];
      var i :| 0 <= i < |late| && late[i] == oldLate[0];
      assert late[0].ts <= late[i].ts;
      assert KeyOf((early + late)[|early| - 1], h) == k;
    }
  }

  /** Which runs there are, visit by visit: those that ended before the cutoff as they were, and those
      of the rows from the cutoff on. */
  lemma RunsSurviveOrReturn(rows: seq<Row>, oldRows: seq<Row>, h: Hash, cutoff: real, run: Run)
    requires Ordered(rows, h) && Ordered(oldRows, h) && IsEarlier(oldRows, rows, cutoff) && NoneStraddles(rows, h, cutoff)
    requires run != []
    ensures run in Runs(rows, h) <==>
            (run in Runs(oldRows, h) && Last(run).ts < cutoff) || run in Runs(Filter(rows, From(cutoff)), h)
  {
    var k := KeyOf(Last(run), h);
    var f, f0 := Filter(rows, OfKey(k, h)), Filter(oldRows, OfKey(k, h));
    KeyRowsInTime(rows, k, h);
    KeyRowsInTime(oldRows, k, h);
    CutByTime(f, cutoff);
    CutByTime(f0, cutoff);
    var early, late, late0 := Filter(f, Until(cutoff)), Filter(f, From(cutoff)), Filter(f0, From(cutoff));
    SameEarlyRows(rows, oldRows, k, h, cutoff);
    NoneStraddlesByKey(rows, k, h, cutoff);
    NoJoinAtCutoff(early, late, k, h, cutoff);
    LateRowsRemain(rows, oldRows, k, h, cutoff);
    SuffixFacts(f, early, late, k, h);
    SuffixFacts(f0, early, late0, k, h);
    OldSeamIsAGap(early, late, late0, h, k);
    hide *;
    RunsAroundCutoff(early, late, h, cutoff, run);
    RunsAroundCutoff(early, late0, h, cutoff, run);
    RunOfItsKey(rows, k, h, run);
    RunOfItsKey(oldRows, k, h, run);
    FilterOrdered(rows, From(cutoff), h);
    RunOfItsKey(Filter(rows, From(cutoff)), k, h, run);
    FiltersCommute(rows, From(cutoff), OfKey(k, h));
  }

  lemma SuffixFacts(f: seq<Row>, early: seq<Row>, late: seq<Row>, k: Key, h: Hash)
    requires f == early + late && OneKey(f, k, h) && InTime(f)
    ensures OneKey(late, k, h) && InTime(late)
  {
    forall i | 0 <= i < |late| ensures KeyOf(late[i], h) == k {
      assert late[i] == f[|early| + i];
    }
    forall i, j | 0 <= i < j < |late| ensures late[i].ts <= late[j].ts {
      assert late[i] == f[|early| + i] && late[j] == f[|early| + j];
    }
  }

  lemma SameEarlyRows(rows: seq<Row>, oldRows: seq<Row>, k: Key, h: Hash, cutoff: real)
    requires IsEarlier(oldRows, rows, cutoff)
    ensures Filter(Filter(oldRows, OfKey(k, h)), Until(cutoff)) == Filter(Filter(rows, OfKey(k, h)), Until(cutoff))
  {
    FiltersCommute(rows, OfKey(k, h), Until(cutoff));
    FiltersCommute(oldRows, OfKey(k, h), Until(cutoff));
  }

  lemma LateRowsRemain(rows: seq<Row>, oldRows: seq<Row>, k: Key, h: Hash, cutoff: real)
    requires IsEarlier(oldRows, rows, cutoff)
    ensures forall row :: row in Filter(Filter(oldRows, OfKey(k, h)), From(cutoff)) ==>
              row in Filter(Filter(rows, OfKey(k, h)), From(cutoff))
  {
    var f, f0 := Filter(rows, OfKey(k, h)), Filter(oldRows, OfKey(k, h));
    forall row | row in Filter(f0, From(cutoff)) ensures row in Filter(f, From(cutoff)) {
      FilterHas(f0, From(cutoff), row);
      FilterHas(oldRows, OfKey(k, h), row);
      FilterHas(rows, OfKey(k, h), row);
      FilterHas(f, From(cutoff), row);
    }
  }

  // ---------------------------------------------------------------- the rebuild theorem

  /** The table of Sessionise before it flags; `rows` are the visits, keepalives dropped. */
  function Rebuilt(table: map<Slot, Stored>, rows: seq<Row>, cutoff: real, probes: ProbeTimes, ev: Evidence): map<Slot, Stored> {
    InsertAll(Kept(table, cutoff), Runs(Filter(rows, From(cutoff)), ev.h), probes, ev)
  }

  lemma LateRunsAreUnique(rows: seq<Row>, cutoff: real, h: Hash)
    requires Ordered(rows, h)
    ensures OneRunPerSlot(Runs(Filter(rows, From(cutoff)), h), h)
  {
    var late := Filter(rows, From(cutoff));
    FilterOrdered(rows, From(cutoff), h);
    forall a, b | a in Runs(late, h) && b in Runs(late, h) && a != [] && b != [] && SlotOf(a, h) == SlotOf(b, h) ensures a == b {
      SlotsAreUnique(late, h, a, b);
    }
  }

  /** Where an entry of the rebuilt table can come from. */
  predicate Sourced(run: Run, rows: seq<Row>, oldRows: seq<Row>, h: Hash, cutoff: real) {
    run != [] && ((run in Runs(oldRows, h) && Last(run).ts < cutoff) || run in Runs(Filter(rows, From(cutoff)), h))
  }

  ghost predicate FromRun(s: Session, slot: Slot, rows: seq<Row>, oldRows: seq<Row>, ev: Evidence, cutoff: real) {
    exists run :: Sourced(run, rows, oldRows, ev.h, cutoff) && SlotOf(run, ev.h) == slot && s == Summary(run, ev)
  }

  lemma KeptAt(table: map<Slot, Stored>, oldRuns: seq<Run>, ev: Evidence, cutoff: real, run: Run)
    requires IsTableOf(Stats(table), oldRuns, ev) && run in oldRuns && run != []
    ensures SlotOf(run, ev.h) in table && table[SlotOf(run, ev.h)].session == Summary(run, ev)
    ensures SlotOf(run, ev.h) in Kept(table, cutoff) <==> Last(run).ts < cutoff
  {
  }

  /** Every entry after the rebuild comes from a run that was kept or rebuilt. */
  lemma RebuiltHasSource(table: map<Slot, Stored>, rows: seq<Row>, oldRows: seq<Row>, cutoff: real, probes: ProbeTimes, ev: Evidence, slot: Slot)
    requires Ordered(rows, ev.h) && IsTableOf(Stats(table), Runs(oldRows, ev.h), ev)
    requires slot in Rebuilt(table, rows, cutoff, probes, ev)
    ensures FromRun(Rebuilt(table, rows, cutoff, probes, ev)[slot].session, slot, rows, oldRows, ev, cutoff)
  {
    hide BotVerdict, Filter, Runs, Ordered, Summary;
    var late := Runs(Filter(rows, From(cutoff)), ev.h);
    LateRunsAreUnique(rows, cutoff, ev.h);
    InsertedAt(Kept(table, cutoff), late, probes, ev, slot);
    if HasRun(late, slot, ev.h) {
      var run :| run in late && run != [] && SlotOf(run, ev.h) == slot;
      assert Sourced(run, rows, oldRows, ev.h, cutoff);
    } else {
      assert slot in Stats(table);
      var run :| run in Runs(oldRows, ev.h) && run != [] && SlotOf(run, ev.h) == slot;
      KeptAt(table, Runs(oldRows, ev.h), ev, cutoff, run);
      assert Sourced(run, rows, oldRows, ev.h, cutoff);
    }
  }

  /** Every such run has its entry. */
  lemma SourceIsRebuilt(table: map<Slot, Stored>, rows: seq<Row>, oldRows: seq<Row>, cutoff: real, probes: ProbeTimes, ev: Evidence, run: Run)
    requires Ordered(rows, ev.h) && IsTableOf(Stats(table), Runs(oldRows, ev.h), ev)
    requires Sourced(run, rows, oldRows, ev.h, cutoff)
    ensures SlotOf(run, ev.h) in Rebuilt(table, rows, cutoff, probes, ev)
  {
    hide BotVerdict, Filter, Runs, Ordered, Summary;
    var late := Runs(Filter(rows, From(cutoff)), ev.h);
    LateRunsAreUnique(rows, cutoff, ev.h);
    InsertedAt(Kept(table, cutoff), late, probes, ev, SlotOf(run, ev.h));
    if !HasRun(late, SlotOf(run, ev.h), ev.h) {
      KeptAt(table, Runs(oldRows, ev.h), ev, cutoff, run);
    }
  }

  /** If no visit straddles the cutoff, kept plus rebuilt sessions are exactly those of a full rebuild. */
  lemma RebuildIsExact(table: map<Slot, Stored>, rows: seq<Row>, oldRows: seq<Row>, cutoff: real, probes: ProbeTimes, ev: Evidence)
    requires Ordered(rows, ev.h) && Ordered(oldRows, ev.h) && IsEarlier(oldRows, rows, cutoff)
    requires IsTableOf(Stats(table), Runs(oldRows, ev.h), ev)
    requires NoneStraddles(rows, ev.h, cutoff)
    ensures IsTableOf(Stats(Rebuilt(table, rows, cutoff, probes, ev)), Runs(rows, ev.h), ev)
  {
    hide Summary, Filter, Runs, Ordered, IsEarlier, NoneStraddles, Rebuilt, SlotOf;
    var after := Rebuilt(table, rows, cutoff, probes, ev);
    forall slot | slot in after ensures HasRun(Runs(rows, ev.h), slot, ev.h) {
      RebuiltHasSource(table, rows, oldRows, cutoff, probes, ev, slot);
      var run :| Sourced(run, rows, oldRows, ev.h, cutoff) && SlotOf(run, ev.h) == slot && after[slot].session == Summary(run, ev);
      RunsSurviveOrReturn(rows, oldRows, ev.h, cutoff, run);
    }
    forall run | run in Runs(rows, ev.h) && run != []
      ensures SlotOf(run, ev.h) in after && after[SlotOf(run, ev.h)].session == Summary(run, ev)
    {
      var slot := SlotOf(run, ev.h);
      RunsSurviveOrReturn(rows, oldRows, ev.h, cutoff, run);
      SourceIsRebuilt(table, rows, oldRows, cutoff, probes, ev, run);
      RebuiltHasSource(table, rows, oldRows, cutoff, probes, ev, slot);
      var twin :| Sourced(twin, rows, oldRows, ev.h, cutoff) && SlotOf(twin, ev.h) == slot && after[slot].session == Summary(twin, ev);
      RunsSurviveOrReturn(rows, oldRows, ev.h, cutoff, twin);
      SlotsAreUnique(rows, ev.h, run, twin);
    }
  }

  lemma SourcesDoNotStraddle(run: Run, rows: seq<Row>, oldRows: seq<Row>, h: Hash, cutoff: real)
    requires Sourced(run, rows, oldRows, h, cutoff)
    ensures !Straddles(run, cutoff)
  {
    hide Runs, Filter;
    if run in Runs(Filter(rows, From(cutoff)), h) {
      RunRowsAreRows(Filter(rows, From(cutoff)), h, run, run[0]);
      FilterHas(rows, From(cutoff), run[0]);
    }
  }

  /** A visit that straddles the cutoff is not in the rebuilt table: what was before the cutoff is cut
      off, or left behind as a session of its own. */
  lemma StraddlingVisitIsLost(table: map<Slot, Stored>, rows: seq<Row>, oldRows: seq<Row>, cutoff: real, probes: ProbeTimes, ev: Evidence, run: Run)
    requires Ordered(rows, ev.h) && IsTableOf(Stats(table), Runs(oldRows, ev.h), ev)
    requires run in Runs(rows, ev.h) && Straddles(run, cutoff)
    ensures var after := Stats(Rebuilt(table, rows, cutoff, probes, ev));
            SlotOf(run, ev.h) in after ==> after[SlotOf(run, ev.h)] != Summary(run, ev)
  {
    hide Filter, Runs, Ordered, Rebuilt, IsTableOf, Tags;
    var after := Rebuilt(table, rows, cutoff, probes, ev);
    var slot := SlotOf(run, ev.h);
    if slot in after {
      RebuiltHasSource(table, rows, oldRows, cutoff, probes, ev, slot);
      var twin :| Sourced(twin, rows, oldRows, ev.h, cutoff) && SlotOf(twin, ev.h) == slot && after[slot].session == Summary(twin, ev);
      SourcesDoNotStraddle(twin, rows, oldRows, ev.h, cutoff);
    }
  }

  /** The incremental rebuild agrees with a full one exactly when no visit straddles the cutoff. */
  lemma RebuildIsExactIff(table: map<Slot, Stored>, rows: seq<Row>, oldRows: seq<Row>, cutoff: real, probes: ProbeTimes, ev: Evidence)
    requires Ordered(rows, ev.h) && Ordered(oldRows, ev.h) && IsEarlier(oldRows, rows, cutoff)
    requires IsTableOf(Stats(table), Runs(oldRows, ev.h), ev)
    ensures IsTableOf(Stats(Rebuilt(table, rows, cutoff, probes, ev)), Runs(rows, ev.h), ev) <==> NoneStraddles(rows, ev.h, cutoff)
  {
    hide Summary, Filter, Runs, Ordered, IsEarlier, Rebuilt, SlotOf, Straddles;
    if NoneStraddles(rows, ev.h, cutoff) {
      RebuildIsExact(table, rows, oldRows, cutoff, probes, ev);
    } else {
      var run :| run in Runs(rows, ev.h) && Straddles(run, cutoff);
      StraddlingIsFilled(run, cutoff);
      StraddlingVisitIsLost(table, rows, oldRows, cutoff, probes, ev, run);
    }
  }

  lemma StraddlingIsFilled(run: Run, cutoff: real)
    requires Straddles(run, cutoff)
    ensures run != []
  {
  }

  /** A full rebuild, or the first one, meets the condition: nothing is older than its cutoff. */
  lemma FullRebuildIsExact(rows: seq<Row>, probes: ProbeTimes, ev: Evidence)
    requires Ordered(rows, ev.h) && forall row :: row in rows ==> row.ts >= 0.0
    ensures IsTableOf(Stats(Rebuilt(map[], rows, 0.0, probes, ev)), Runs(rows, ev.h), ev)
  {
    hide Summary, Runs, InsertAll, BotVerdict;
    forall run | run in Runs(rows, ev.h) ensures !Straddles(run, 0.0) {
      if run != [] {
        RunRowsAreRows(rows, ev.h, run, run[0]);
      }
    }
    NothingBefore(rows);
    NoRuns(ev);
    RebuildIsExact(map[], rows, [], 0.0, probes, ev);
  }

  lemma NothingBefore(rows: seq<Row>)
    requires forall row :: row in rows ==> row.ts >= 0.0
    ensures IsEarlier([], rows, 0.0)
  {
    forall i | 0 <= i < |rows| ensures !Until(0.0)(rows[i]) {
      assert rows[i] in rows;
    }
    NoneFiltered(rows, Until(0.0));
  }

  lemma NoRuns(ev: Evidence)
    ensures IsTableOf(Stats(map[]), Runs([], ev.h), ev) && Ordered([], ev.h)
  {
    hide Summary;
  }

  /** Stepping back one gap from the last session does not save a longer visit: whenever the gap
      decides the cutoff, a latest visit longer than the gap straddles it. */
  lemma LongLastVisitIsCut(run: Run, recent: real)
    requires run != [] && 0.0 < Last(run).ts && run[0].ts < Last(run).ts - GAP < recent
    ensures Straddles(run, Cutoff(false, recent, Some(Last(run).ts)))
  {
  }

  /** The verdict of a kept session can be out of date: a probe from its address that arrives after the
      cutoff, within the halo, would condemn it in a full rebuild. */
  lemma KeptVerdictCanBeStale(s: Session, probe: Row, ev: Evidence)
    requires !ev.botUa(s.ua) && !s.probe && !s.robots && s.key.ip !in ev.hosting && s.scripts == 0
    requires s.n404 == 0 && s.hits > THIN_SESSION_HITS
    requires probe.isBot && probe.ip == s.key.ip && s.start <= s.end < probe.ts <= s.end + PROBE_HALO
    ensures BotVerdict(s, map[], ev) == None
    ensures BotVerdict(s, map[s.key.ip := [probe.ts]], ev) == Some("same address probed")
  {
    assert [probe.ts][0] == probe.ts;
    assert IsNear(s, [probe.ts]);
  }
}
