/**
 The verdicts after an incremental rebuild, against those of a full one: bot_verdict of kept and of rebuilt
 sessions, and what the closing flag_coordinated of infra/analytics/collect.py:697-860 stores over it.
 */
module RebuildVerdicts {
  import opened Filters
  import opened Visits
  import opened Sessions
  import opened SessionRebuild
  import opened Coordinated

  /** No earlier rule decides: the verdict is up to the probes near the visit. */
  predicate AsksProbes(s: Session, ev: Evidence) {
    && !ev.botUa(s.ua) && !s.probe && !s.robots && (s.key.ip in ev.hosting ==> Engaged(s))
    && s.scripts == 0 && !(s.hits >= NOTFOUND_MIN_HITS && s.n404 as real >= NOTFOUND_SHARE * s.hits as real)
  }

  ghost predicate Loaded(probes: ProbeTimes, requests: seq<Row>, since: real) {
    forall ip :: TimesOf(probes, ip) == TimesFrom(Filter(requests, IsProbe(since)), ip)
  }

  lemma VerdictsByNearness(s: Session, ev: Evidence, a: ProbeTimes, b: ProbeTimes)
    ensures BotVerdict(s, a, ev) == BotVerdict(s, b, ev) <==>
            (AsksProbes(s, ev) ==> (IsNear(s, TimesOf(a, s.key.ip)) <==> IsNear(s, TimesOf(b, s.key.ip))))
  {
    hide Engaged;
    assert !IsNear(s, []);
  }

  /** Two builds give a session the same bot_verdict exactly when an earlier rule decides, or a probe was near
      it in both or in neither. */
  lemma VerdictsAgreeIff(s: Session, ev: Evidence, oldRequests: seq<Row>, requests: seq<Row>,
                         prior: ProbeTimes, oldSince: real, probes: ProbeTimes, since: real)
    requires Loaded(prior, oldRequests, oldSince) && s.start - PROBE_HALO >= oldSince
    requires Loaded(probes, requests, since) && s.start - PROBE_HALO >= since
    ensures BotVerdict(s, prior, ev) == BotVerdict(s, probes, ev) <==>
            (AsksProbes(s, ev) ==> (ProbedNear(oldRequests, s) <==> ProbedNear(requests, s)))
  {
    hide Filter, TimesFrom, TimesOf, BotVerdict, IsNear, ProbedNear, AsksProbes;
    HaloSuffices(oldRequests, oldSince, s);
    HaloSuffices(requests, since, s);
    VerdictsByNearness(s, ev, prior, probes);
  }

  // ---------------------------------------------------------------- a table and the full one

  /** The visits of the request table. */
  function VisitsOf(requests: seq<Row>): seq<Row> {
    Filter(requests, IsVisit())
  }

  /** What sessionise fills in, in terms of the visits. */
  lemma SessioniseRebuilds(requests: seq<Row>, cutoff: real)
    ensures Filter(Filter(requests, From(cutoff)), IsVisit()) == Filter(VisitsOf(requests), From(cutoff))
  {
    FiltersCommute(requests, From(cutoff), IsVisit());
  }

  /** An earlier build left this table, and no visit straddles the cutoff of the next one. */
  ghost predicate CleanRebuild(table: map<Slot, Stored>, rows: seq<Row>, oldRows: seq<Row>, cutoff: real, ev: Evidence) {
    && Ordered(rows, ev.h) && Ordered(oldRows, ev.h) && IsEarlier(oldRows, rows, cutoff)
    && IsTableOf(Stats(table), Runs(oldRows, ev.h), ev) && NoneStraddles(rows, ev.h, cutoff)
    && cutoff >= 0.0 && forall row :: row in rows ==> row.ts >= 0.0
  }

  function Full(rows: seq<Row>, all: ProbeTimes, ev: Evidence): map<Slot, Stored> {
    Rebuilt(map[], rows, 0.0, all, ev)
  }

  function StoredOf(run: Run, probes: ProbeTimes, ev: Evidence): Stored
    requires run != []
  {
    Stored(Summary(run, ev), BotVerdict(Summary(run, ev), probes, ev))
  }

  lemma StoredSession(run: Run, probes: ProbeTimes, ev: Evidence)
    requires run != []
    ensures StoredOf(run, probes, ev).session == Summary(run, ev)
    ensures Summary(run, ev).start == run[0].ts == SlotOf(run, ev.h).start && Summary(run, ev).end == Last(run).ts
  {
  }

  /** The entry of a run in the full table. */
  lemma FullEntry(rows: seq<Row>, all: ProbeTimes, ev: Evidence, slot: Slot)
    requires Ordered(rows, ev.h) && forall row :: row in rows ==> row.ts >= 0.0
    ensures slot in Full(rows, all, ev) <==> HasRun(Runs(rows, ev.h), slot, ev.h)
    ensures forall run :: run in Runs(rows, ev.h) && run != [] && SlotOf(run, ev.h) == slot ==>
              slot in Full(rows, all, ev) && Full(rows, all, ev)[slot] == StoredOf(run, all, ev)
  {
    hide Runs, Ordered, Summary, BotVerdict, InsertAll;
    forall i | 0 <= i < |rows| ensures From(0.0)(rows[i]) {
      assert rows[i] in rows;
    }
    AllFiltered(rows, From(0.0));
    LateRunsAreUnique(rows, 0.0, ev.h);
    hide Filter;
    InsertedAt(Kept(map[], 0.0), Runs(rows, ev.h), all, ev, slot);
  }

  lemma LateRunStarts(rows: seq<Row>, cutoff: real, h: Hash, run: Run)
    requires run in Runs(Filter(rows, From(cutoff)), h) && run != []
    ensures run[0].ts >= cutoff
  {
    hide Runs, Filter;
    RunRowsAreRows(Filter(rows, From(cutoff)), h, run, run[0]);
    FilterHas(rows, From(cutoff), run[0]);
  }

  /** A kept entry: its run is one of the old visits and one of all visits, and it is stored as it was. */
  lemma KeptEntry(table: map<Slot, Stored>, rows: seq<Row>, oldRows: seq<Row>, cutoff: real, probes: ProbeTimes, all: ProbeTimes, ev: Evidence, slot: Slot)
    requires CleanRebuild(table, rows, oldRows, cutoff, ev) && slot in Kept(table, cutoff)
    ensures slot in Rebuilt(table, rows, cutoff, probes, ev) && Rebuilt(table, rows, cutoff, probes, ev)[slot] == table[slot]
    ensures slot in Full(rows, all, ev) && Full(rows, all, ev)[slot].session == table[slot].session
    ensures Full(rows, all, ev)[slot].reason == BotVerdict(table[slot].session, all, ev)
  {
    hide Runs, Filter, Ordered, Summary, BotVerdict, InsertAll, IsEarlier, NoneStraddles;
    var late := Runs(Filter(rows, From(cutoff)), ev.h);
    assert slot in Stats(table);
    var run :| run in Runs(oldRows, ev.h) && run != [] && SlotOf(run, ev.h) == slot;
    KeptAt(table, Runs(oldRows, ev.h), ev, cutoff, run);
    StoredSession(run, all, ev);
    RunsSurviveOrReturn(rows, oldRows, ev.h, cutoff, run);
    FullEntry(rows, all, ev, slot);
    SlotIsEarly(rows, oldRows, cutoff, ev.h, run);
    LateRunsAreUnique(rows, cutoff, ev.h);
    InsertedAt(Kept(table, cutoff), late, probes, ev, slot);
  }

  lemma SlotIsEarly(rows: seq<Row>, oldRows: seq<Row>, cutoff: real, h: Hash, run: Run)
    requires run in Runs(oldRows, h) && run != [] && Last(run).ts < cutoff && Ordered(oldRows, h)
    ensures !HasRun(Runs(Filter(rows, From(cutoff)), h), SlotOf(run, h), h)
  {
    RunStartsFirst(oldRows, h, run);
    hide Runs, Filter, Ordered;
    forall twin | twin in Runs(Filter(rows, From(cutoff)), h) && twin != [] ensures SlotOf(twin, h) != SlotOf(run, h) {
      LateRunStarts(rows, cutoff, h, twin);
    }
  }

  lemma RunStartsFirst(rows: seq<Row>, h: Hash, run: Run)
    requires run in Runs(rows, h) && run != [] && Ordered(rows, h)
    ensures run[0].ts <= Last(run).ts
  {
    var k := KeyOf(Last(run), h);
    RunOfItsKey(rows, k, h, run);
    KeyRowsInTime(rows, k, h);
    RunsStartLater(Filter(rows, OfKey(k, h)), k, h);
  }

  /** The verdict of a kept session is the one a full rebuild would give it exactly when an earlier rule decides,
      or a probe was near the visit in the requests of its own build exactly if one is near it now. */
  lemma KeptVerdictIsFullIff(table: map<Slot, Stored>, requests: seq<Row>, oldRequests: seq<Row>, cutoff: real,
                             probes: ProbeTimes, all: ProbeTimes, prior: ProbeTimes, oldSince: real, ev: Evidence, slot: Slot)
    requires CleanRebuild(table, VisitsOf(requests), VisitsOf(oldRequests), cutoff, ev) && slot in Kept(table, cutoff)
    requires Loaded(all, requests, 0.0 - PROBE_HALO) && Loaded(prior, oldRequests, oldSince)
    requires table[slot].session.start >= 0.0 && table[slot].session.start - PROBE_HALO >= oldSince
    requires table[slot].reason == BotVerdict(table[slot].session, prior, ev)
    ensures var rows, s := VisitsOf(requests), table[slot].session;
            var after, full := Rebuilt(table, rows, cutoff, probes, ev), Full(rows, all, ev);
            && slot in after && slot in full && after[slot].session == full[slot].session
            && (after[slot].reason == full[slot].reason <==>
                (AsksProbes(s, ev) ==> (ProbedNear(oldRequests, s) <==> ProbedNear(requests, s))))
  {
    KeptEntry(table, VisitsOf(requests), VisitsOf(oldRequests), cutoff, probes, all, ev, slot);
    VerdictsAgreeIff(table[slot].session, ev, oldRequests, requests, prior, oldSince, all, 0.0 - PROBE_HALO);
  }

  // ---------------------------------------------------------------- rebuilt sessions, flags included

  /** From the cutoff on the table holds what a full rebuild would hold, before anything is flagged. */
  lemma RebuiltEntry(table: map<Slot, Stored>, requests: seq<Row>, oldRows: seq<Row>, cutoff: real,
                     probes: ProbeTimes, all: ProbeTimes, ev: Evidence, slot: Slot)
    requires CleanRebuild(table, VisitsOf(requests), oldRows, cutoff, ev) && slot.start >= cutoff
    requires Loaded(probes, requests, cutoff - PROBE_HALO) && Loaded(all, requests, 0.0 - PROBE_HALO)
    ensures var after, full := Rebuilt(table, VisitsOf(requests), cutoff, probes, ev), Full(VisitsOf(requests), all, ev);
            && (slot in after <==> slot in full) && (slot in after ==> after[slot] == full[slot])
            && (slot in after ==> after[slot].session.start == slot.start)
  {
    hide Runs, Filter, Ordered, Summary, BotVerdict, InsertAll, IsEarlier, NoneStraddles, TimesFrom;
    var rows := VisitsOf(requests);
    var late := Runs(Filter(rows, From(cutoff)), ev.h);
    LateRunsAreUnique(rows, cutoff, ev.h);
    InsertedAt(Kept(table, cutoff), late, probes, ev, slot);
    FullEntry(rows, all, ev, slot);
    LateSlotIsNotKept(table, oldRows, cutoff, ev, slot);
    if HasRun(Runs(rows, ev.h), slot, ev.h) {
      var run :| run in Runs(rows, ev.h) && run != [] && SlotOf(run, ev.h) == slot;
      LateRunIsRebuilt(table, rows, oldRows, cutoff, ev, run);
      StoredSession(run, all, ev);
      RebuiltVerdictIsTheFullOne(requests, Summary(run, ev), ev, cutoff, probes, all);
    } else if HasRun(late, slot, ev.h) {
      var run :| run in late && run != [] && SlotOf(run, ev.h) == slot;
      RunsSurviveOrReturn(rows, oldRows, ev.h, cutoff, run);
    }
  }

  lemma LateSlotIsNotKept(table: map<Slot, Stored>, oldRows: seq<Row>, cutoff: real, ev: Evidence, slot: Slot)
    requires IsTableOf(Stats(table), Runs(oldRows, ev.h), ev) && Ordered(oldRows, ev.h) && slot.start >= cutoff
    ensures slot !in Kept(table, cutoff)
  {
    hide Runs, Ordered, Summary;
    if slot in Kept(table, cutoff) {
      assert slot in Stats(table);
      var run :| run in Runs(oldRows, ev.h) && run != [] && SlotOf(run, ev.h) == slot;
      KeptAt(table, Runs(oldRows, ev.h), ev, cutoff, run);
      RunStartsFirst(oldRows, ev.h, run);
    }
  }

  lemma LateRunIsRebuilt(table: map<Slot, Stored>, rows: seq<Row>, oldRows: seq<Row>, cutoff: real, ev: Evidence, run: Run)
    requires CleanRebuild(table, rows, oldRows, cutoff, ev) && run in Runs(rows, ev.h) && run != [] && run[0].ts >= cutoff
    ensures run in Runs(Filter(rows, From(cutoff)), ev.h)
  {
    hide Runs, Filter, IsEarlier, IsTableOf, NoneStraddles;
    RunsSurviveOrReturn(rows, oldRows, ev.h, cutoff, run);
    RunStartsFirst(rows, ev.h, run);
  }

  /** Two tables that agree from the cutoff on, by the start of their entries. */
  ghost predicate AgreeSince(after: map<Slot, Stored>, full: map<Slot, Stored>, cutoff: real) {
    && (forall slot :: slot in after ==> after[slot].session.start == slot.start)
    && (forall slot :: slot in full ==> full[slot].session.start == slot.start)
    && (forall slot: Slot :: slot.start >= cutoff ==> (slot in after <==> slot in full) && (slot in after ==> after[slot] == full[slot]))
  }

  lemma ShallowsSince(after: map<Slot, Stored>, full: map<Slot, Stored>, cutoff: real, asn: map<string, int>)
    requires AgreeSince(after, full, cutoff) && cutoff >= 0.0
    ensures Shallows(after, cutoff, asn) == Since(Shallows(full, 0.0, asn), cutoff)
  {
    var some, whole := Shallows(after, cutoff, asn), Shallows(full, 0.0, asn);
    forall v | v in some ensures v in Since(whole, cutoff) {
      var slot :| slot in after && IsShallow(after[slot], cutoff, asn) && v == ShallowOf(slot, after[slot].session, asn);
      assert slot in full && IsShallow(full[slot], 0.0, asn);
    }
    forall v | v in Since(whole, cutoff) ensures v in some {
      var slot :| slot in full && IsShallow(full[slot], 0.0, asn) && v == ShallowOf(slot, full[slot].session, asn);
      assert slot in after && IsShallow(after[slot], cutoff, asn);
    }
  }

  /** The visit has three agents around it only in spans that begin before the cutoff. */
  ghost predicate NeedsEarlierVisits(full: map<Slot, Stored>, cutoff: real, asn: map<string, int>, slot: Slot) {
    && slot in full && IsShallow(full[slot], cutoff, asn)
    && var v := ShallowOf(slot, full[slot].session, asn);
       MetAcross(Shallows(full, 0.0, asn), cutoff, v) && !MetSince(Shallows(full, 0.0, asn), cutoff, v)
  }

  lemma FlagsSince(after: map<Slot, Stored>, full: map<Slot, Stored>, cutoff: real, asn: map<string, int>, slot: Slot)
    requires AgreeSince(after, full, cutoff) && cutoff >= 0.0 && slot in after && slot.start >= cutoff
    ensures IsFlagged(after, cutoff, asn, slot) ==> IsFlagged(full, 0.0, asn, slot)
    ensures (IsFlagged(after, cutoff, asn, slot) <==> IsFlagged(full, 0.0, asn, slot)) <==> !NeedsEarlierVisits(full, cutoff, asn, slot)
  {
    ShallowsSince(after, full, cutoff, asn);
    if IsShallow(after[slot], cutoff, asn) {
      var v := ShallowOf(slot, after[slot].session, asn);
      assert v in Shallows(full, 0.0, asn);
      hide Shallows, IsCoordinated, MetAcross, MetSince;
      FlagsSinceIff(Shallows(full, 0.0, asn), cutoff, v);
    }
  }

  lemma FlagsShowInTheTable(after: map<Slot, Stored>, full: map<Slot, Stored>, cutoff: real, asn: map<string, int>, slot: Slot)
    requires AgreeSince(after, full, cutoff) && cutoff >= 0.0 && slot in after && slot.start >= cutoff
    ensures Flagged(after, cutoff, asn)[slot] == Flagged(full, 0.0, asn)[slot] <==>
            (IsFlagged(after, cutoff, asn, slot) <==> IsFlagged(full, 0.0, asn, slot))
  {
    assert IsFlagged(after, cutoff, asn, slot) ==> after[slot].reason.None?;
    assert IsFlagged(full, 0.0, asn, slot) ==> full[slot].reason.None?;
    hide IsFlagged;
  }

  lemma FullStarts(rows: seq<Row>, all: ProbeTimes, ev: Evidence, slot: Slot)
    requires Ordered(rows, ev.h) && (forall row :: row in rows ==> row.ts >= 0.0) && slot in Full(rows, all, ev)
    ensures Full(rows, all, ev)[slot].session.start == slot.start
  {
    hide Runs, Ordered, Summary, BotVerdict, InsertAll;
    FullEntry(rows, all, ev, slot);
    var run :| run in Runs(rows, ev.h) && run != [] && SlotOf(run, ev.h) == slot;
    StoredSession(run, all, ev);
  }

  lemma TablesAgreeSince(table: map<Slot, Stored>, requests: seq<Row>, oldRows: seq<Row>, cutoff: real,
                         probes: ProbeTimes, all: ProbeTimes, ev: Evidence)
    requires CleanRebuild(table, VisitsOf(requests), oldRows, cutoff, ev)
    requires Loaded(probes, requests, cutoff - PROBE_HALO) && Loaded(all, requests, 0.0 - PROBE_HALO)
    ensures AgreeSince(Rebuilt(table, VisitsOf(requests), cutoff, probes, ev), Full(VisitsOf(requests), all, ev), cutoff)
  {
    var rows := VisitsOf(requests);
    assert Ordered(rows, ev.h) && forall row :: row in rows ==> row.ts >= 0.0;
    hide *;
    var after, full := Rebuilt(table, rows, cutoff, probes, ev), Full(rows, all, ev);
    forall x: Slot | x.start >= cutoff
      ensures (x in after <==> x in full) && (x in after ==> after[x] == full[x])
    {
      RebuiltEntry(table, requests, oldRows, cutoff, probes, all, ev, x);
    }
    forall x | x in full ensures full[x].session.start == x.start {
      FullStarts(rows, all, ev, x);
    }
    forall x | x in after ensures after[x].session.start == x.start {
      AfterStarts(table, rows, oldRows, cutoff, probes, ev, x);
    }
    AgreeingTables(after, full, cutoff);
  }

  lemma AgreeingTables(after: map<Slot, Stored>, full: map<Slot, Stored>, cutoff: real)
    requires forall slot :: slot in after ==> after[slot].session.start == slot.start
    requires forall slot :: slot in full ==> full[slot].session.start == slot.start
    requires forall slot: Slot | slot.start >= cutoff :: (slot in after <==> slot in full) && (slot in after ==> after[slot] == full[slot])
    ensures AgreeSince(after, full, cutoff)
  {
  }

  /** What is stored of a session from the cutoff on, verdict and flag, is what a full rebuild would store
      exactly when the session does not need an earlier one to be found coordinated; and a flag is only ever
      missing. */
  lemma RebuiltIsFullIff(table: map<Slot, Stored>, requests: seq<Row>, oldRows: seq<Row>, cutoff: real,
                         probes: ProbeTimes, all: ProbeTimes, ev: Evidence, slot: Slot)
    requires CleanRebuild(table, VisitsOf(requests), oldRows, cutoff, ev)
    requires Loaded(probes, requests, cutoff - PROBE_HALO) && Loaded(all, requests, 0.0 - PROBE_HALO)
    requires slot in Rebuilt(table, VisitsOf(requests), cutoff, probes, ev) && slot.start >= cutoff
    ensures var after, full := Rebuilt(table, VisitsOf(requests), cutoff, probes, ev), Full(VisitsOf(requests), all, ev);
            && slot in full
            && (Flagged(after, cutoff, ev.asn)[slot] == Flagged(full, 0.0, ev.asn)[slot] <==> !NeedsEarlierVisits(full, cutoff, ev.asn, slot))
            && (IsFlagged(after, cutoff, ev.asn, slot) ==> IsFlagged(full, 0.0, ev.asn, slot))
  {
    TablesAgreeSince(table, requests, oldRows, cutoff, probes, all, ev);
    assert cutoff >= 0.0;
    hide CleanRebuild, Rebuilt, Full, NeedsEarlierVisits, IsFlagged, VisitsOf;
    var after, full := Rebuilt(table, VisitsOf(requests), cutoff, probes, ev), Full(VisitsOf(requests), all, ev);
    FlagsSince(after, full, cutoff, ev.asn, slot);
    FlagsShowInTheTable(after, full, cutoff, ev.asn, slot);
  }

  lemma AfterStarts(table: map<Slot, Stored>, rows: seq<Row>, oldRows: seq<Row>, cutoff: real, probes: ProbeTimes, ev: Evidence, slot: Slot)
    requires CleanRebuild(table, rows, oldRows, cutoff, ev) && slot in Rebuilt(table, rows, cutoff, probes, ev)
    ensures Rebuilt(table, rows, cutoff, probes, ev)[slot].session.start == slot.start
  {
    hide Runs, Filter, Ordered, Summary, BotVerdict, InsertAll, IsEarlier, NoneStraddles, Rebuilt;
    var after := Rebuilt(table, rows, cutoff, probes, ev);
    RebuiltHasSource(table, rows, oldRows, cutoff, probes, ev, slot);
    var run :| Sourced(run, rows, oldRows, ev.h, cutoff) && SlotOf(run, ev.h) == slot && after[slot].session == Summary(run, ev);
    StoredSession(run, probes, ev);
  }

  /** An entry that started before the cutoff keeps the reason it had, a coordinated flag included. */
  lemma EarlierFlagsStay(table: map<Slot, Stored>, since: real, asn: map<string, int>, slot: Slot)
    requires slot in table && table[slot].session.start < since
    ensures Flagged(table, since, asn)[slot] == table[slot]
  {
  }
}
