/**
 The session table: sessionise, bot_verdict, engaged and flag_coordinated of
 infra/analytics/collect.py:632-870. Regular expressions, the user-agent hash and the set of hosting
 addresses are parameters.
 */
module Sessions {
  import opened Filters
  import opened Prelude
  import opened Visits
  import Coordinated

  datatype Session = Session(
    key: Key, ua: string, start: real, end: real, hits: nat, pages: nat, api: nat,
    tags: seq<string>, probe: bool, n404: nat, scripts: nat, robots: bool)

  datatype Stored = Stored(session: Session, reason: Option<string>)

  /** `hosting` and `asn` stand for the ip_asn table. */
  datatype Evidence = Evidence(h: Hash, botUa: string -> bool, script: string -> bool, robots: string -> bool,
                               hosting: set<string>, asn: map<string, int>)

  const ENGAGED_MIN_PAGES: nat := 3
  const ENGAGED_MIN_SECONDS: real := 120.0
  const PROBE_HALO: real := 21600.0
  const THIN_SESSION_HITS: nat := 5
  const NOTFOUND_MIN_HITS: nat := 3
  const NOTFOUND_SHARE: real := 0.5
  const COORD_MAX_PAGES: nat := 2
  const COORDINATED := "coordinated user agents"

  // ---------------------------------------------------------------- one run as a session

  predicate InApi(path: string) { "/api/" <= path }

  function IsApi(): Row -> bool { (row: Row) => !row.isAsset && InApi(row.path) }
  function IsPage(): Row -> bool { (row: Row) => !row.isAsset && !InApi(row.path) }
  function IsTagged(): Row -> bool { (row: Row) => row.activity != "" }
  function IsBotRow(): Row -> bool { (row: Row) => row.isBot }
  function IsMissing(): Row -> bool { (row: Row) => row.status == 404 }
  function IsScript(ev: Evidence): Row -> bool { (row: Row) => row.status in {200, 304} && ev.script(row.path) }
  function IsRobots(ev: Evidence): Row -> bool { (row: Row) => ev.robots(row.path) }

  function Tags(rows: seq<Row>): seq<string> {
    if rows == [] then [] else Tags(rows[..|rows| - 1]) + [Last(rows).activity]
  }

  function SlotOf(run: Run, h: Hash): Slot
    requires run != []
  {
    Slot(KeyOf(run[0], h), run[0].ts)
  }

  /** What the stored row must say about a visit. */
  function Summary(run: Run, ev: Evidence): Session
    requires run != []
  {
    Session(KeyOf(run[0], ev.h), run[0].ua, run[0].ts, Last(run).ts, |run|,
            |Filter(run, IsPage())|, |Filter(run, IsApi())|, Tags(Filter(run, IsTagged())),
            Filter(run, IsBotRow()) != [], |Filter(run, IsMissing())|, |Filter(run, IsScript(ev))|, Filter(run, IsRobots(ev)) != [])
  }

  function Opened(row: Row, ev: Evidence): Session {
    Session(KeyOf(row, ev.h), row.ua, row.ts, row.ts, 0, 0, 0, [], false, 0, 0, false)
  }

  /** The record before a row is counted: fresh for the first row of a run, else what the run says so far. */
  function Before(run: Run, row: Row, ev: Evidence): Session {
    if run == [] then Opened(row, ev) else Summary(run, ev)
  }

  /** The updates of `current` for one row keep it the summary of its run. */
  method Count(current: Session, row: Row, ev: Evidence, ghost run: Run) returns (s: Session)
    requires current == Before(run, row, ev)
    ensures s == Summary(run + [row], ev)
  {
    CountedIsSummary(run, row, ev);
    hide Summary;
    var pages, api, tags, n404, scripts := current.pages, current.api, current.tags, current.n404, current.scripts;
    if !row.isAsset {
      if InApi(row.path) {
        api := api + 1;
      } else {
        pages := pages + 1;
      }
    }
    if row.activity != "" {
      tags := tags + [row.activity];
    }
    if row.status == 404 {
      n404 := n404 + 1;
    }
    if row.status in {200, 304} && ev.script(row.path) {
      scripts := scripts + 1;
    }
    s := Session(current.key, current.ua, current.start, row.ts, current.hits + 1, pages, api, tags,
                 current.probe || row.isBot, n404, scripts, current.robots || ev.robots(row.path));
  }

  function One(b: bool): nat {
    if b then 1 else 0
  }

  function Counted(s: Session, row: Row, ev: Evidence): Session {
    Session(s.key, s.ua, s.start, row.ts, s.hits + 1, s.pages + One(!row.isAsset && !InApi(row.path)), s.api + One(!row.isAsset && InApi(row.path)),
            if row.activity != "" then s.tags + [row.activity] else s.tags,
            s.probe || row.isBot, s.n404 + One(row.status == 404), s.scripts + One(row.status in {200, 304} && ev.script(row.path)), s.robots || ev.robots(row.path))
  }

  lemma CountSnoc(run: Run, row: Row, p: Row -> bool)
    ensures |Filter(run + [row], p)| == |Filter(run, p)| + One(p(row))
    ensures Filter(run + [row], p) != [] <==> Filter(run, p) != [] || p(row)
  {
    FilterSnoc(run, row, p);
  }

  lemma TagsSnoc(run: Run, row: Row)
    ensures Tags(Filter(run + [row], IsTagged())) == Tags(Filter(run, IsTagged())) + if row.activity != "" then [row.activity] else []
  {
    FilterSnoc(run, row, IsTagged());
    hide Filter;
    var tagged := Filter(run, IsTagged());
    if row.activity != "" {
      assert (tagged + [row])[..|tagged|] == tagged;
    } else {
      assert tagged + [] == tagged && Tags(tagged) + [] == Tags(tagged);
    }
  }

  lemma SummarySnoc(run: Run, row: Row, ev: Evidence)
    requires run != []
    ensures Summary(run + [row], ev) == Counted(Summary(run, ev), row, ev)
  {
    CountSnoc(run, row, IsPage());
    CountSnoc(run, row, IsApi());
    CountSnoc(run, row, IsBotRow());
    CountSnoc(run, row, IsMissing());
    CountSnoc(run, row, IsScript(ev));
    CountSnoc(run, row, IsRobots(ev));
    TagsSnoc(run, row);
  }

  lemma SummaryFirst(row: Row, ev: Evidence)
    ensures Summary([row], ev) == Counted(Opened(row, ev), row, ev)
  {
    var none: Run := [];
    assert none + [row] == [row];
    CountSnoc(none, row, IsPage());
    CountSnoc(none, row, IsApi());
    CountSnoc(none, row, IsBotRow());
    CountSnoc(none, row, IsMissing());
    CountSnoc(none, row, IsScript(ev));
    CountSnoc(none, row, IsRobots(ev));
    TagsSnoc(none, row);
  }

  lemma CountedIsSummary(run: Run, row: Row, ev: Evidence)
    ensures Summary(run + [row], ev) == Counted(Before(run, row, ev), row, ev)
  {
    hide Summary, Counted;
    if run == [] {
      assert run + [row] == [row];
      SummaryFirst(row, ev);
    } else {
      SummarySnoc(run, row, ev);
    }
  }

  // ---------------------------------------------------------------- verdicts

  predicate Engaged(s: Session) {
    s.pages >= ENGAGED_MIN_PAGES && s.end - s.start >= ENGAGED_MIN_SECONDS
  }

  type ProbeTimes = map<string, seq<real>>

  predicate IsNear(s: Session, times: seq<real>) {
    exists k :: 0 <= k < |times| && s.start - PROBE_HALO <= times[k] <= s.end + PROBE_HALO
  }

  function BotVerdict(s: Session, probes: ProbeTimes, ev: Evidence): Option<string> {
    if ev.botUa(s.ua) then Some("user agent")
    else if s.probe then Some("probe path")
    else if s.robots then Some("fetched robots.txt")
    else if s.key.ip in ev.hosting && !Engaged(s) then Some("hosting network")
    else if s.scripts > 0 then None
    else if s.hits >= NOTFOUND_MIN_HITS && s.n404 as real >= NOTFOUND_SHARE * s.hits as real then Some("mostly 404s")
    else if s.key.ip in probes && IsNear(s, probes[s.key.ip]) then Some("same address probed")
    else if s.hits <= THIN_SESSION_HITS then Some("no browser assets")
    else None
  }

  function IsProbe(since: real): Row -> bool { (row: Row) => row.isBot && row.ts >= since }

  function TimesOf(probes: ProbeTimes, ip: string): seq<real> {
    if ip in probes then probes[ip] else []
  }

  function TimesFrom(rows: seq<Row>, ip: string): seq<real> {
    if rows == [] then [] else TimesFrom(rows[..|rows| - 1], ip) + if Last(rows).ip == ip then [Last(rows).ts] else []
  }

  /** The probe_ts dictionary: each address's probe times from `since` on, in table order. */
  method LoadProbes(requests: seq<Row>, since: real) returns (probes: ProbeTimes)
    ensures forall ip :: TimesOf(probes, ip) == TimesFrom(Filter(requests, IsProbe(since)), ip)
  {
    probes := map[];
    for n := 0 to |requests|
      invariant forall ip :: TimesOf(probes, ip) == TimesFrom(Filter(requests[..n], IsProbe(since)), ip)
    {
      var row := requests[n];
      ghost var before := Filter(requests[..n], IsProbe(since));
      assert requests[..n + 1] == requests[..n] + [row];
      FilterSnoc(requests[..n], row, IsProbe(since));
      if row.isBot && row.ts >= since {
        assert (before + [row])[..|before|] == before;
        probes := probes[row.ip := TimesOf(probes, row.ip) + [row.ts]];
      } else {
        assert before + [] == before;
      }
    }
    assert requests[..|requests|] == requests;
  }

  lemma {:induction false} TimesFromHas(rows: seq<Row>, ip: string, t: real)
    ensures t in TimesFrom(rows, ip) <==> exists row :: row in rows && row.ip == ip && row.ts == t
  {
    if rows != [] {
      TimesFromHas(rows[..|rows| - 1], ip, t);
      assert rows == rows[..|rows| - 1] + [Last(rows)];
    }
  }

  predicate ProbedNear(requests: seq<Row>, s: Session) {
    exists row :: row in requests && row.isBot && row.ip == s.key.ip && s.start - PROBE_HALO <= row.ts <= s.end + PROBE_HALO
  }

  /** Loading probes from one halo before the cutoff is as good as loading them all, for a session
      that starts at or after the cutoff. */
  lemma HaloSuffices(requests: seq<Row>, since: real, s: Session)
    requires s.start - PROBE_HALO >= since
    ensures IsNear(s, TimesFrom(Filter(requests, IsProbe(since)), s.key.ip)) <==> ProbedNear(requests, s)
  {
    var loaded := Filter(requests, IsProbe(since));
    var times := TimesFrom(loaded, s.key.ip);
    if IsNear(s, times) {
      var k :| 0 <= k < |times| && s.start - PROBE_HALO <= times[k] <= s.end + PROBE_HALO;
      TimesFromHas(loaded, s.key.ip, times[k]);
      var row :| row in loaded && row.ip == s.key.ip && row.ts == times[k];
      FilterHas(requests, IsProbe(since), row);
    }
    if ProbedNear(requests, s) {
      var row :| row in requests && row.isBot && row.ip == s.key.ip && s.start - PROBE_HALO <= row.ts <= s.end + PROBE_HALO;
      FilterHas(requests, IsProbe(since), row);
      TimesFromHas(loaded, s.key.ip, row.ts);
      var k :| 0 <= k < |times| && times[k] == row.ts;
    }
  }

  /** A rebuilt session gets the bot_verdict a full rebuild would give it. */
  lemma RebuiltVerdictIsTheFullOne(requests: seq<Row>, s: Session, ev: Evidence, cutoff: real, probes: ProbeTimes, all: ProbeTimes)
    requires s.start >= cutoff >= 0.0
    requires forall ip :: TimesOf(probes, ip) == TimesFrom(Filter(requests, IsProbe(cutoff - PROBE_HALO)), ip)
    requires forall ip :: TimesOf(all, ip) == TimesFrom(Filter(requests, IsProbe(0.0 - PROBE_HALO)), ip)
    ensures BotVerdict(s, probes, ev) == BotVerdict(s, all, ev)
  {
    hide *;
    HaloSuffices(requests, cutoff - PROBE_HALO, s);
    HaloSuffices(requests, 0.0 - PROBE_HALO, s);
    VerdictByTimes(s, ev, probes, all);
  }

  lemma VerdictByTimes(s: Session, ev: Evidence, a: ProbeTimes, b: ProbeTimes)
    requires IsNear(s, TimesOf(a, s.key.ip)) == IsNear(s, TimesOf(b, s.key.ip))
    ensures BotVerdict(s, a, ev) == BotVerdict(s, b, ev)
  {
    hide Engaged;
    assert !IsNear(s, []);
  }

  // ---------------------------------------------------------------- the table

  function Inserted(table: map<Slot, Stored>, run: Run, probes: ProbeTimes, ev: Evidence): map<Slot, Stored>
    requires run != []
  {
    table[SlotOf(run, ev.h) := Stored(Summary(run, ev), BotVerdict(Summary(run, ev), probes, ev))]
  }

  function InsertAll(table: map<Slot, Stored>, runs: seq<Run>, probes: ProbeTimes, ev: Evidence): map<Slot, Stored>
    requires Filled(runs)
  {
    if runs == [] then table else Inserted(InsertAll(table, runs[..|runs| - 1], probes, ev), Last(runs), probes, ev)
  }

  function Kept(table: map<Slot, Stored>, cutoff: real): map<Slot, Stored> {
    map slot | slot in table && table[slot].session.end < cutoff :: table[slot]
  }

  lemma {:induction false} ChainKey(run: Run, h: Hash)
    requires Chained(run, h)
    ensures KeyOf(run[0], h) == KeyOf(Last(run), h)
  {
    if |run| > 1 {
      ChainKey(run[..|run| - 1], h);
      assert Joins(run[|run| - 2], run[|run| - 1], h);
    }
  }

  /** The cutoff sessionise works from; `lastEnd` is MAX(ended) over the table. */
  function Cutoff(full: bool, recent: real, lastEnd: Option<real>): real {
    if full || lastEnd.None? || lastEnd.value == 0.0 then 0.0
    else if recent <= lastEnd.value - GAP then recent else lastEnd.value - GAP
  }

  // ---------------------------------------------------------------- coordinated visits

  predicate IsShallow(stored: Stored, since: real, asn: map<string, int>) {
    && stored.reason.None? && stored.session.start >= since && stored.session.key.ip in asn
    && stored.session.pages <= COORD_MAX_PAGES
  }

  function ShallowOf(slot: Slot, s: Session, asn: map<string, int>): Coordinated.Shallow
    requires s.key.ip in asn
  {
    Coordinated.Shallow(slot, asn[s.key.ip], s.key.agent, s.start)
  }

  /** The visits flag_coordinated looks at. */
  function Shallows(table: map<Slot, Stored>, since: real, asn: map<string, int>): set<Coordinated.Shallow> {
    set slot | slot in table && IsShallow(table[slot], since, asn) :: ShallowOf(slot, table[slot].session, asn)
  }

  ghost predicate IsFlagged(table: map<Slot, Stored>, since: real, asn: map<string, int>, slot: Slot) {
    && slot in table && IsShallow(table[slot], since, asn)
    && Coordinated.IsCoordinated(Shallows(table, since, asn), ShallowOf(slot, table[slot].session, asn))
  }

  ghost function Flagged(table: map<Slot, Stored>, since: real, asn: map<string, int>): map<Slot, Stored> {
    map slot | slot in table :: if IsFlagged(table, since, asn, slot) then table[slot].(reason := Some(COORDINATED)) else table[slot]
  }

  /** ORDER BY asn, started. */
  predicate Precedes(a: Coordinated.Shallow, b: Coordinated.Shallow) {
    a.asn < b.asn || (a.asn == b.asn && a.started <= b.started)
  }

  predicate InQueryOrder(rows: seq<Coordinated.Shallow>) {
    forall i, j :: 0 <= i < j < |rows| ==> Precedes(rows[i], rows[j])
  }

  method QueryPosition(rows: seq<Coordinated.Shallow>, v: Coordinated.Shallow) returns (at: nat)
    requires InQueryOrder(rows)
    ensures at <= |rows| && InQueryOrder(rows[..at] + [v] + rows[at..])
  {
    at := |rows|;
    while at > 0 && !Precedes(rows[at - 1], v)
      invariant at <= |rows|
      invariant forall k :: at <= k < |rows| ==> Precedes(v, rows[k])
    {
      at := at - 1;
    }
  }

  lemma MembersInserted(rows: seq<Coordinated.Shallow>, v: Coordinated.Shallow, at: nat)
    requires at <= |rows|
    ensures Coordinated.Members(rows[..at] + [v] + rows[at..]) == Coordinated.Members(rows) + {v}
  {
    assert rows == rows[..at] + rows[at..];
  }

  lemma ShallowsGrow(table: map<Slot, Stored>, some: map<Slot, Stored>, slot: Slot, since: real, asn: map<string, int>)
    requires slot in table && slot !in some
    ensures Shallows(some[slot := table[slot]], since, asn) ==
            Shallows(some, since, asn) + if IsShallow(table[slot], since, asn) then {ShallowOf(slot, table[slot].session, asn)} else {}
  {
    var more := some[slot := table[slot]];
    forall v
      ensures v in Shallows(more, since, asn) <==>
              v in Shallows(some, since, asn) || (IsShallow(table[slot], since, asn) && v == ShallowOf(slot, table[slot].session, asn))
    {
      hide IsShallow, ShallowOf;
      if v in Shallows(some, since, asn) {
        var x :| x in some && IsShallow(some[x], since, asn) && v == ShallowOf(x, some[x].session, asn);
        assert x in more && more[x] == some[x];
      }
      if IsShallow(table[slot], since, asn) && v == ShallowOf(slot, table[slot].session, asn) {
        assert slot in more && more[slot] == table[slot];
      }
    }
  }

  function Marked(table: map<Slot, Stored>, guilty: set<Slot>): map<Slot, Stored> {
    map slot | slot in table :: if slot in guilty then table[slot].(reason := Some(COORDINATED)) else table[slot]
  }

  class SessionTable {
    var table: map<Slot, Stored>

    constructor ()
      ensures table == map[]
    {
      table := map[];
    }

    method Flush(s: Session, probes: ProbeTimes, ev: Evidence)
      modifies this
      ensures table == old(table)[Slot(s.key, s.start) := Stored(s, BotVerdict(s, probes, ev))]
    {
      table := table[Slot(s.key, s.start) := Stored(s, BotVerdict(s, probes, ev))];
    }

    /** One visit row: continue the current session, or flush it and open the next. */
    method TakeRow(row: Row, current: Option<Session>, written: nat, probes: ProbeTimes, ev: Evidence,
                   ghost kept: map<Slot, Stored>, ghost runs: seq<Run>)
      returns (next: Session, count: nat)
      requires Pending(table, kept, runs, current, written, probes, ev)
      modifies this
      ensures Pending(table, kept, Extend(runs, row, ev.h), Some(next), count, probes, ev)
    {
      hide BotVerdict, InsertAll, Summary;
      var same := current.Some? && current.value.key.ip == row.ip && current.value.key.agent == ev.h(row.ua)
                  && row.ts - current.value.end <= GAP;
      SameVisit(runs, row, ev, same, current);
      count := written;
      next := if same then current.value else Opened(row, ev);
      if !same {
        if current.Some? {
          Flush(current.value, probes, ev);
          FlushInserts(kept, runs, probes, ev);
          count := count + 1;
        }
        StartInserts(kept, runs, row, probes, ev);
      } else {
        ContinueInserts(runs, row);
      }
      ghost var run := if same then Last(runs) else [];
      assert run + [row] == if same then Last(runs) + [row] else [row];
      next := Count(next, row, ev, run);
    }

    method FlushLast(current: Option<Session>, written: nat, probes: ProbeTimes, ev: Evidence,
                     ghost kept: map<Slot, Stored>, ghost runs: seq<Run>)
      returns (count: nat)
      requires Pending(table, kept, runs, current, written, probes, ev)
      modifies this
      ensures table == InsertAll(kept, runs, probes, ev) && count == |runs|
    {
      hide BotVerdict, Summary;
      count := written;
      if current.Some? {
        Flush(current.value, probes, ev);
        FlushInserts(kept, runs, probes, ev);
        count := count + 1;
      }
    }

    /** The query of flag_coordinated. */
    method ShallowRows(since: real, asn: map<string, int>) returns (rows: seq<Coordinated.Shallow>)
      ensures InQueryOrder(rows) && Coordinated.Members(rows) == Shallows(table, since, asn)
    {
      rows := [];
      var left := table.Keys;
      ghost var seen: map<Slot, Stored> := map[];
      while left != {}
        invariant left <= table.Keys && seen.Keys == table.Keys - left && forall slot :: slot in seen ==> seen[slot] == table[slot]
        invariant InQueryOrder(rows) && Coordinated.Members(rows) == Shallows(seen, since, asn)
        decreases left
      {
        hide Shallows, InQueryOrder, IsShallow, Coordinated.Members;
        var slot :| slot in left;
        ShallowsGrow(table, seen, slot, since, asn);
        left := left - {slot};
        seen := seen[slot := table[slot]];
        if IsShallow(table[slot], since, asn) {
          ShallowHasNetwork(table[slot], since, asn);
          var v := ShallowOf(slot, table[slot].session, asn);
          var at := QueryPosition(rows, v);
          MembersInserted(rows, v, at);
          rows := rows[..at] + [v] + rows[at..];
        }
      }
      assert seen == table;
    }

    /** flag_coordinated: the visits since the cutoff that nothing else condemned. */
    method FlagCoordinated(since: real, asn: map<string, int>)
      modifies this
      ensures table == Flagged(old(table), since, asn)
    {
      var rows := ShallowRows(since, asn);
      QueryOrderIsInOrder(rows);
      var guilty := Coordinated.FlagCoordinated(rows);
      GuiltyIsFlagged(table, since, asn, rows, guilty);
      hide *;
      Mark(guilty);
    }

    method Mark(guilty: set<Slot>)
      requires guilty <= table.Keys
      modifies this
      ensures table == Marked(old(table), guilty)
    {
      var left := guilty;
      while left != {}
        invariant left <= guilty && table == Marked(old(table), guilty - left)
        decreases left
      {
        var slot :| slot in left;
        left := left - {slot};
        table := table[slot := table[slot].(reason := Some(COORDINATED))];
      }
    }

    /** `requests` is the request table in (ip, ua, ts) order. Sessions that end at or after the cutoff
        go, and the runs of the rows from the cutoff on come in; then the coordinated ones are flagged. */
    method Sessionise(requests: seq<Row>, cutoff: real, ev: Evidence) returns (written: nat, ghost probes: ProbeTimes)
      modifies this
      ensures forall ip :: TimesOf(probes, ip) == TimesFrom(Filter(requests, IsProbe(cutoff - PROBE_HALO)), ip)
      ensures var runs := Runs(Filter(Filter(requests, From(cutoff)), IsVisit()), ev.h);
              table == Flagged(InsertAll(Kept(old(table), cutoff), runs, probes, ev), cutoff, ev.asn) && written == |runs|
    {
      table := Kept(table, cutoff);
      var probeTs := LoadProbes(requests, cutoff - PROBE_HALO);
      probes := probeTs;
      var rows := Filter(requests, From(cutoff));
      var current: Option<Session> := None;
      written := 0;
      ghost var kept := table;
      ghost var runs: seq<Run> := [];
      for n := 0 to |rows|
        invariant runs == Runs(Filter(rows[..n], IsVisit()), ev.h)
        invariant Pending(table, kept, runs, current, written, probes, ev)
      {
        hide *;
        ghost var visits := Filter(rows[..n], IsVisit());
        var row := rows[n];
        assert rows[..n + 1] == rows[..n] + [row];
        FilterSnoc(rows[..n], row, IsVisit());
        if row.activity == "keepalive" {
          assert visits + [] == visits;
        } else {
          RunsSnoc(visits, row, ev.h);
          var next, count := TakeRow(row, current, written, probeTs, ev, kept, runs);
          current, written := Some(next), count;
          runs := Runs(visits + [row], ev.h);
        }
      }
      assert rows[..|rows|] == rows;
      written := FlushLast(current, written, probeTs, ev, kept, runs);
      FlagCoordinated(cutoff, ev.asn);
    }
  }

  lemma ShallowHasNetwork(stored: Stored, since: real, asn: map<string, int>)
    requires IsShallow(stored, since, asn)
    ensures stored.session.key.ip in asn
  {
  }

  lemma QueryOrderIsInOrder(rows: seq<Coordinated.Shallow>)
    requires InQueryOrder(rows)
    ensures Coordinated.InOrder(rows)
  {
  }

  lemma GuiltyIsFlagged(table: map<Slot, Stored>, since: real, asn: map<string, int>, rows: seq<Coordinated.Shallow>, guilty: set<Slot>)
    requires Coordinated.Members(rows) == Shallows(table, since, asn)
    requires forall id :: id in guilty <==>
               exists v :: v in rows && v.id == id && Coordinated.IsCoordinated(Coordinated.Members(rows), v)
    ensures guilty <= table.Keys && Marked(table, guilty) == Flagged(table, since, asn)
  {
    hide Coordinated.IsCoordinated;
    forall slot ensures slot in guilty <==> IsFlagged(table, since, asn, slot) {
      if slot in guilty {
        var v :| v in rows && v.id == slot && Coordinated.IsCoordinated(Coordinated.Members(rows), v);
        assert v in Shallows(table, since, asn);
      }
      if IsFlagged(table, since, asn, slot) {
        assert ShallowOf(slot, table[slot].session, asn) in Coordinated.Members(rows);
      }
    }
  }

  /** The state between two rows: every run but the last is stored, the last one is `current`. */
  ghost predicate Pending(table: map<Slot, Stored>, kept: map<Slot, Stored>, runs: seq<Run>, current: Option<Session>,
                          written: nat, probes: ProbeTimes, ev: Evidence) {
    && Filled(runs) && (forall k :: 0 <= k < |runs| ==> Chained(runs[k], ev.h))
    && current == (if runs == [] then None else Some(Summary(Last(runs), ev)))
    && (runs == [] ==> table == kept && written == 0)
    && (runs != [] ==> table == InsertAll(kept, runs[..|runs| - 1], probes, ev) && written == |runs| - 1)
  }

  lemma SameVisit(runs: seq<Run>, row: Row, ev: Evidence, same: bool, current: Option<Session>)
    requires Filled(runs) && (forall k :: 0 <= k < |runs| ==> Chained(runs[k], ev.h))
    requires current == if runs == [] then None else Some(Summary(Last(runs), ev))
    requires same == (current.Some? && current.value.key.ip == row.ip && current.value.key.agent == ev.h(row.ua)
                      && row.ts - current.value.end <= GAP)
    ensures same <==> runs != [] && Joins(Last(Last(runs)), row, ev.h)
  {
    if runs != [] {
      ChainKey(Last(runs), ev.h);
    }
  }

  lemma FlushInserts(table: map<Slot, Stored>, runs: seq<Run>, probes: ProbeTimes, ev: Evidence)
    requires Filled(runs) && runs != []
    ensures var s, rest := Summary(Last(runs), ev), InsertAll(table, runs[..|runs| - 1], probes, ev);
            InsertAll(table, runs, probes, ev) == rest[Slot(s.key, s.start) := Stored(s, BotVerdict(s, probes, ev))]
  {
    hide BotVerdict;
  }

  lemma StartInserts(table: map<Slot, Stored>, runs: seq<Run>, row: Row, probes: ProbeTimes, ev: Evidence)
    requires Filled(runs)
    ensures (runs + [[row]])[..|runs|] == runs
    ensures InsertAll(table, [], probes, ev) == table
  {
  }

  lemma ContinueInserts(runs: seq<Run>, row: Row)
    requires Filled(runs) && runs != []
    ensures (runs[..|runs| - 1] + [Last(runs) + [row]])[..|runs| - 1] == runs[..|runs| - 1]
  {
  }
}
