/**
 Who counts as a person, and why not: bot_verdict and engaged of infra/analytics/collect.py:632-694, and what the
 table built by sessionise (697-810) then says of a visit, in terms of its requests.
 */
module SessionVerdicts {
  import opened Filters
  import opened Prelude
  import opened Visits
  import opened Sessions
  import opened SessionRebuild
  import opened RebuildVerdicts
  import Coordinated

  // ---------------------------------------------------------------- the rules

  /** At least three pages over at least two minutes. */
  predicate ReadsOn(s: Session) {
    s.pages >= 3 && s.end - s.start >= 120.0
  }

  /** The rules that look at where a visit comes from and what it asked for, in order. */
  predicate OriginRule(s: Session, ev: Evidence, n: nat) {
    match n
    case 0 => ev.botUa(s.ua)
    case 1 => s.probe
    case 2 => s.robots
    case 3 => s.key.ip in ev.hosting && !ReadsOn(s)
    case _ => false
  }

  /** The rules for visits that loaded no script: half of at least three requests missing, a probe from the address
      within six hours, at most five requests. */
  predicate BehaviourRule(s: Session, probes: ProbeTimes, n: nat) {
    match n
    case 0 => s.hits >= 3 && 2 * s.n404 >= s.hits
    case 1 => exists t :: t in TimesOf(probes, s.key.ip) && s.start - 21600.0 <= t <= s.end + 21600.0
    case 2 => s.hits <= 5
    case _ => false
  }

  predicate NoOriginRule(s: Session, ev: Evidence) {
    forall n :: 0 <= n < 4 ==> !OriginRule(s, ev, n)
  }

  lemma NearMeans(s: Session, probes: ProbeTimes)
    ensures s.key.ip in probes && IsNear(s, probes[s.key.ip]) <==>
            exists t :: t in TimesOf(probes, s.key.ip) && s.start - 21600.0 <= t <= s.end + 21600.0
  {
    var times := TimesOf(probes, s.key.ip);
    if s.key.ip in probes && IsNear(s, probes[s.key.ip]) {
      var k :| 0 <= k < |times| && s.start - PROBE_HALO <= times[k] <= s.end + PROBE_HALO;
      assert times[k] in times;
    }
    if t :| t in times && s.start - 21600.0 <= t <= s.end + 21600.0 {
      var k :| 0 <= k < |times| && times[k] == t;
      assert s.start - PROBE_HALO <= times[k] <= s.end + PROBE_HALO;
    }
  }

  lemma ShareMeans(s: Session)
    ensures s.n404 as real >= NOTFOUND_SHARE * s.hits as real <==> 2 * s.n404 >= s.hits
  {
  }

  /** A visit counts as a person's exactly when no origin rule holds and either it loaded a script or no behaviour
      rule holds. */
  lemma PersonIff(s: Session, probes: ProbeTimes, ev: Evidence)
    ensures BotVerdict(s, probes, ev) == None <==>
            NoOriginRule(s, ev) && (s.scripts > 0 || forall n :: 0 <= n < 3 ==> !BehaviourRule(s, probes, n))
  {
    NearMeans(s, probes);
    ShareMeans(s);
    hide IsNear;
    assert NoOriginRule(s, ev) <==> !OriginRule(s, ev, 0) && !OriginRule(s, ev, 1) && !OriginRule(s, ev, 2) && !OriginRule(s, ev, 3);
    assert (forall n :: 0 <= n < 3 ==> !BehaviourRule(s, probes, n)) <==>
           !BehaviourRule(s, probes, 0) && !BehaviourRule(s, probes, 1) && !BehaviourRule(s, probes, 2);
  }

  /** The reason stored is that of the first rule that holds. */
  lemma ReasonIsTheFirstRule(s: Session, probes: ProbeTimes, ev: Evidence)
    ensures BotVerdict(s, probes, ev) == Some("user agent") <==> OriginRule(s, ev, 0)
    ensures BotVerdict(s, probes, ev) == Some("probe path") <==> OriginRule(s, ev, 1) && !OriginRule(s, ev, 0)
    ensures BotVerdict(s, probes, ev) == Some("fetched robots.txt") <==>
              OriginRule(s, ev, 2) && !OriginRule(s, ev, 0) && !OriginRule(s, ev, 1)
    ensures BotVerdict(s, probes, ev) == Some("hosting network") <==>
              OriginRule(s, ev, 3) && !OriginRule(s, ev, 0) && !OriginRule(s, ev, 1) && !OriginRule(s, ev, 2)
    ensures var quiet := NoOriginRule(s, ev) && s.scripts == 0;
            && (BotVerdict(s, probes, ev) == Some("mostly 404s") <==> quiet && BehaviourRule(s, probes, 0))
            && (BotVerdict(s, probes, ev) == Some("same address probed") <==>
                quiet && BehaviourRule(s, probes, 1) && !BehaviourRule(s, probes, 0))
            && (BotVerdict(s, probes, ev) == Some("no browser assets") <==>
                quiet && BehaviourRule(s, probes, 2) && !BehaviourRule(s, probes, 0) && !BehaviourRule(s, probes, 1))
  {
    NearMeans(s, probes);
    ShareMeans(s);
    hide IsNear;
    assert NoOriginRule(s, ev) <==> !OriginRule(s, ev, 0) && !OriginRule(s, ev, 1) && !OriginRule(s, ev, 2) && !OriginRule(s, ev, 3);
  }

  // ---------------------------------------------------------------- a visit, by its requests

  function CountOf(run: Run, p: Row -> bool): nat {
    |set i | 0 <= i < |run| && p(run[i])|
  }

  lemma CountSnocs(front: Run, row: Row, p: Row -> bool)
    ensures CountOf(front + [row], p) == CountOf(front, p) + if p(row) then 1 else 0
  {
    var run, n := front + [row], |front|;
    var before, after := set i | 0 <= i < n && p(front[i]), set i | 0 <= i < |run| && p(run[i]);
    assert after == if p(row) then before + {n} else before;
  }

  lemma {:induction false} FilterCounts(run: Run, p: Row -> bool)
    ensures |Filter(run, p)| == CountOf(run, p)
  {
    if run != [] {
      var front, row := run[..|run| - 1], run[|run| - 1];
      FilterCounts(front, p);
      CountSnocs(front, row, p);
      assert run == front + [row];
      hide CountOf;
    }
  }

  lemma FilterFinds(run: Run, p: Row -> bool)
    ensures Filter(run, p) != [] <==> exists row :: row in run && p(row)
  {
    if Filter(run, p) != [] {
      FilterHas(run, p, Filter(run, p)[0]);
    }
    if row :| row in run && p(row) {
      FilterHas(run, p, row);
    }
  }

  function PageView(): Row -> bool { (row: Row) => !row.isAsset && !("/api/" <= row.path) }
  function ApiCall(): Row -> bool { (row: Row) => !row.isAsset && "/api/" <= row.path }
  function NotFound(): Row -> bool { (row: Row) => row.status == 404 }
  function ScriptLoaded(ev: Evidence): Row -> bool { (row: Row) => (row.status == 200 || row.status == 304) && ev.script(row.path) }

  lemma {:induction false} SameFilter(run: Run, p: Row -> bool, q: Row -> bool)
    requires forall row :: p(row) <==> q(row)
    ensures Filter(run, p) == Filter(run, q)
  {
    if run != [] {
      SameFilter(run[..|run| - 1], p, q);
    }
  }

  ghost predicate RattledADoor(run: Run) {
    exists row :: row in run && row.isBot
  }

  ghost predicate ReadRobots(run: Run, ev: Evidence) {
    exists row :: row in run && ev.robots(row.path)
  }

  ghost predicate LoadedAScript(run: Run, ev: Evidence) {
    exists row :: row in run && (row.status == 200 || row.status == 304) && ev.script(row.path)
  }

  /** The columns of a session in terms of the requests of its visit. */
  lemma SummaryMeans(run: Run, ev: Evidence)
    requires run != []
    ensures var s, last := Summary(run, ev), run[|run| - 1];
            && s.key == Key(run[0].ip, ev.h(run[0].ua)) && s.ua == run[0].ua && s.start == run[0].ts && s.end == last.ts && s.hits == |run|
            && s.pages == CountOf(run, PageView()) && s.api == CountOf(run, ApiCall())
            && s.n404 == CountOf(run, NotFound()) && s.scripts == CountOf(run, ScriptLoaded(ev))
            && (s.probe <==> RattledADoor(run)) && (s.robots <==> ReadRobots(run, ev)) && (s.scripts > 0 <==> LoadedAScript(run, ev))
  {
    SameFilter(run, IsPage(), PageView());
    SameFilter(run, IsApi(), ApiCall());
    SameFilter(run, IsMissing(), NotFound());
    SameFilter(run, IsScript(ev), ScriptLoaded(ev));
    FilterCounts(run, PageView());
    FilterCounts(run, ApiCall());
    FilterCounts(run, NotFound());
    FilterCounts(run, ScriptLoaded(ev));
    FilterFinds(run, ScriptLoaded(ev));
    FilterFinds(run, IsBotRow());
    FilterFinds(run, IsRobots(ev));
    assert forall row :: IsBotRow()(row) <==> row.isBot;
    assert forall row :: IsRobots(ev)(row) <==> ev.robots(row.path);
    hide Filter, Tags, CountOf;
  }

  /** The activities of a visit, in order, without the empty ones. */
  lemma TagsMean(run: Run, row: Row, ev: Evidence)
    ensures Summary([row], ev).tags == if row.activity != "" then [row.activity] else []
    ensures run != [] ==> Summary(run + [row], ev).tags == Summary(run, ev).tags + if row.activity != "" then [row.activity] else []
  {
    TagsSnoc([], row);
    assert [] + [row] == [row];
    TagsSnoc(run, row);
  }

  // ---------------------------------------------------------------- the table

  /** No origin rule condemns the visit. */
  ghost predicate ComesAsAPerson(run: Run, ev: Evidence)
    requires run != []
  {
    && !ev.botUa(run[0].ua)
    && !RattledADoor(run) && !ReadRobots(run, ev)
    && (run[0].ip in ev.hosting ==> CountOf(run, PageView()) >= 3 && run[|run| - 1].ts - run[0].ts >= 120.0)
  }

  ghost predicate ProbeFrom(requests: seq<Row>, ip: string, from: real, to: real) {
    exists row :: row in requests && row.isBot && row.ip == ip && from <= row.ts <= to
  }

  /** It loaded a script, or none of the later rules condemns it: more than five requests, most of them found, and no
      probe from its address within six hours. */
  ghost predicate BehavesAsAPerson(run: Run, requests: seq<Row>, ev: Evidence)
    requires run != []
  {
    || LoadedAScript(run, ev)
    || (|run| > 5 && 2 * CountOf(run, NotFound()) < |run|
        && !ProbeFrom(requests, run[0].ip, run[0].ts - 21600.0, run[|run| - 1].ts + 21600.0))
  }

  lemma OriginByRequests(run: Run, ev: Evidence)
    requires run != []
    ensures NoOriginRule(Summary(run, ev), ev) <==> ComesAsAPerson(run, ev)
  {
    var s := Summary(run, ev);
    SummaryMeans(run, ev);
    assert NoOriginRule(s, ev) <==> !OriginRule(s, ev, 0) && !OriginRule(s, ev, 1) && !OriginRule(s, ev, 2) && !OriginRule(s, ev, 3);
    hide Summary, CountOf, NoOriginRule, RattledADoor, ReadRobots, LoadedAScript;
  }

  lemma BehaviourByRequests(run: Run, requests: seq<Row>, probes: ProbeTimes, since: real, ev: Evidence)
    requires run != [] && Loaded(probes, requests, since) && run[0].ts - PROBE_HALO >= since
    ensures var s := Summary(run, ev);
            (s.scripts > 0 || forall n :: 0 <= n < 3 ==> !BehaviourRule(s, probes, n)) <==> BehavesAsAPerson(run, requests, ev)
  {
    hide Summary, CountOf, Loaded, BehaviourRule, LoadedAScript, ProbeFrom;
    var s := Summary(run, ev);
    SummaryMeans(run, ev);
    NearByRequests(s, requests, probes, since);
    assert (forall n :: 0 <= n < 3 ==> !BehaviourRule(s, probes, n)) <==>
           !BehaviourRule(s, probes, 0) && !BehaviourRule(s, probes, 1) && !BehaviourRule(s, probes, 2);
    QuietRules(s, probes, run, ev);
  }

  lemma QuietRules(s: Session, probes: ProbeTimes, run: Run, ev: Evidence)
    requires run != [] && s.hits == |run| && s.n404 == CountOf(run, NotFound())
    ensures BehaviourRule(s, probes, 0) <==> |run| >= 3 && 2 * CountOf(run, NotFound()) >= |run|
    ensures BehaviourRule(s, probes, 2) <==> |run| <= 5
  {
    hide CountOf;
  }

  lemma PersonByRequests(run: Run, requests: seq<Row>, probes: ProbeTimes, since: real, ev: Evidence)
    requires run != [] && Loaded(probes, requests, since) && run[0].ts - PROBE_HALO >= since
    ensures BotVerdict(Summary(run, ev), probes, ev) == None <==> ComesAsAPerson(run, ev) && BehavesAsAPerson(run, requests, ev)
  {
    PersonIff(Summary(run, ev), probes, ev);
    OriginByRequests(run, ev);
    BehaviourByRequests(run, requests, probes, since, ev);
    hide *;
  }

  lemma NearByRequests(s: Session, requests: seq<Row>, probes: ProbeTimes, since: real)
    requires Loaded(probes, requests, since) && s.start - PROBE_HALO >= since
    ensures BehaviourRule(s, probes, 1) <==>
            ProbeFrom(requests, s.key.ip, s.start - 21600.0, s.end + 21600.0)
  {
    HaloSuffices(requests, since, s);
    NearMeans(s, probes);
    assert !IsNear(s, []);
    assert IsNear(s, TimesOf(probes, s.key.ip)) <==> s.key.ip in probes && IsNear(s, probes[s.key.ip]);
    hide IsNear, Filter, TimesFrom;
  }

  /** Every visit from the cutoff on has its entry, with the columns of its requests, and it is stored as a person's
      exactly when its requests say so and it is not found coordinated. */
  lemma StoredVisitMeans(table: map<Slot, Stored>, requests: seq<Row>, cutoff: real, probes: ProbeTimes, ev: Evidence, run: Run)
    requires Ordered(VisitsOf(requests), ev.h) && Loaded(probes, requests, cutoff - PROBE_HALO)
    requires run in Runs(Filter(VisitsOf(requests), From(cutoff)), ev.h) && run != []
    ensures var built, slot := Rebuilt(table, VisitsOf(requests), cutoff, probes, ev), Slot(Key(run[0].ip, ev.h(run[0].ua)), run[0].ts);
            && slot in built && built[slot].session == Summary(run, ev)
            && (built[slot].reason == None <==> ComesAsAPerson(run, ev) && BehavesAsAPerson(run, requests, ev))
            && (Flagged(built, cutoff, ev.asn)[slot].reason == None <==>
                ComesAsAPerson(run, ev) && BehavesAsAPerson(run, requests, ev) && !IsFlagged(built, cutoff, ev.asn, slot))
  {
    var rows := VisitsOf(requests);
    var late := Runs(Filter(rows, From(cutoff)), ev.h);
    hide BotVerdict, Filter, Runs, Ordered, Summary, InsertAll, ComesAsAPerson, BehavesAsAPerson, Loaded, IsFlagged;
    LateRunsAreUnique(rows, cutoff, ev.h);
    InsertedAt(Kept(table, cutoff), late, probes, ev, SlotOf(run, ev.h));
    LateRunStarts(rows, cutoff, ev.h, run);
    PersonByRequests(run, requests, probes, cutoff - PROBE_HALO, ev);
  }

  // ---------------------------------------------------------------- which requests and visits take part

  /** Requests other than keepalives are visits; the next one belongs to the same visit when it comes from the same
      address and agent at most half an hour later. */
  lemma VisitsMean(requests: seq<Row>, p: Row, q: Row, h: Hash)
    ensures p in VisitsOf(requests) <==> p in requests && !(p.activity == "keepalive")
    ensures Joins(p, q, h) <==> p.ip == q.ip && h(p.ua) == h(q.ua) && q.ts <= p.ts + 1800.0
  {
    FilterHas(requests, IsVisit(), p);
  }

  /** The rebuild goes back to the beginning when it is full or nothing is stored, and otherwise to the earlier of the
      recent window and half an hour before the last stored end. */
  lemma CutoffMeans(full: bool, recent: real, lastEnd: Option<real>)
    ensures var c := Cutoff(full, recent, lastEnd);
            && (full || lastEnd in {None, Some(0.0)} ==> c == 0.0)
            && (!full && lastEnd !in {None, Some(0.0)} ==> c in {recent, lastEnd.value - 1800.0} && c <= recent && c + 1800.0 <= lastEnd.value)
  {
  }

  /** A rebuild keeps exactly the entries that ended before its cutoff, as they were. */
  lemma KeptMeans(table: map<Slot, Stored>, cutoff: real, slot: Slot)
    ensures slot in Kept(table, cutoff) <==> slot in table && !(table[slot].session.end >= cutoff)
    ensures slot in Kept(table, cutoff) ==> Kept(table, cutoff)[slot] == table[slot]
  {
  }

  /** The visits that can be found coordinated: persons' so far, of at most two pages, from the cutoff on, on a known
      network. */
  lemma ShallowMeans(stored: Stored, since: real, asn: map<string, int>)
    ensures IsShallow(stored, since, asn) <==>
            stored.reason == None && stored.session.pages < 3 && !(stored.session.start < since) && stored.session.key.ip in asn
  {
  }

  lemma FlaggedMeans(table: map<Slot, Stored>, since: real, asn: map<string, int>, slot: Slot)
    requires slot in table
    ensures slot in Flagged(table, since, asn) && Flagged(table, since, asn)[slot].session == table[slot].session
    ensures Flagged(table, since, asn)[slot].reason ==
            if IsFlagged(table, since, asn, slot) then Some("coordinated user agents") else table[slot].reason
  {
    hide IsFlagged;
  }

  /** Three rows of one network with an agent each, all begun within ten minutes. */
  ghost predicate ThreeAgents(rows: set<Coordinated.Shallow>, a: Coordinated.Shallow, b: Coordinated.Shallow, c: Coordinated.Shallow, asn: int, t: real) {
    && a in rows && b in rows && c in rows && a.asn == b.asn == c.asn == asn
    && a.agent != b.agent && a.agent != c.agent && b.agent != c.agent
    && forall v :: v in {a, b, c} ==> t <= v.started <= t + 600.0
  }

  ghost predicate MeetsAgents(rows: set<Coordinated.Shallow>, v: Coordinated.Shallow, t: real) {
    && t <= v.started <= t + 600.0 && exists a, b, c :: ThreeAgents(rows, a, b, c, v.asn, t)
  }

  /** A visit is coordinated when some ten minutes around its start hold three agents of its network. */
  lemma CoordinatedMeans(rows: set<Coordinated.Shallow>, v: Coordinated.Shallow)
    ensures Coordinated.IsCoordinated(rows, v) <==> exists t: real :: MeetsAgents(rows, v, t)
  {
    forall t: real ensures Coordinated.Within(v, v.asn, t) && |Coordinated.AgentsWithin(rows, v.asn, t)| >= 3 <==> MeetsAgents(rows, v, t) {
      hide ThreeAgents;
      if |Coordinated.AgentsWithin(rows, v.asn, t)| >= 3 {
        var a, b, c := AgentsFound(rows, v.asn, t);
      }
      if a, b, c :| ThreeAgents(rows, a, b, c, v.asn, t) {
        AgentsCounted(rows, a, b, c, v.asn, t);
      }
    }
    hide MeetsAgents, Coordinated.AgentsWithin, Coordinated.Within;
  }

  lemma AgentsCounted(rows: set<Coordinated.Shallow>, a: Coordinated.Shallow, b: Coordinated.Shallow, c: Coordinated.Shallow, asn: int, t: real)
    requires ThreeAgents(rows, a, b, c, asn, t)
    ensures |Coordinated.AgentsWithin(rows, asn, t)| >= 3
  {
    assert a in {a, b, c} && b in {a, b, c} && c in {a, b, c};
    var agents := {a.agent, b.agent, c.agent};
    assert |agents| == 3;
    assert agents <= Coordinated.AgentsWithin(rows, asn, t);
    SubsetSize(agents, Coordinated.AgentsWithin(rows, asn, t));
  }

  lemma AgentsFound(rows: set<Coordinated.Shallow>, asn: int, t: real) returns (a: Coordinated.Shallow, b: Coordinated.Shallow, c: Coordinated.Shallow)
    requires |Coordinated.AgentsWithin(rows, asn, t)| >= 3
    ensures ThreeAgents(rows, a, b, c, asn, t)
  {
    var agents := Coordinated.AgentsWithin(rows, asn, t);
    var x :| x in agents;
    assert |agents - {x}| >= 2;
    var y :| y in agents - {x};
    assert |agents - {x} - {y}| >= 1;
    var z :| z in agents - {x} - {y};
    a :| a in rows && Coordinated.Within(a, asn, t) && a.agent == x;
    b :| b in rows && Coordinated.Within(b, asn, t) && b.agent == y;
    c :| c in rows && Coordinated.Within(c, asn, t) && c.agent == z;
  }
}
