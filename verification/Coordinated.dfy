/**
 One operator wearing several hats: flag_coordinated of infra/analytics/collect.py:813-870. The
 anchored windows it tries find every ten-minute span with three agents, wherever the span starts.
 */
module Coordinated {
  import opened Filters
  import opened Prelude
  import Visits

  /** A shallow human visit joined with its network; `id` is its session. */
  datatype Shallow = Shallow(id: Visits.Slot, asn: int, agent: string, started: real)

  const WINDOW: real := 600.0
  const MIN_AGENTS: nat := 3

  function OfAsn(asn: int): Shallow -> bool { (v: Shallow) => v.asn == asn }

  /** ORDER BY asn, started. */
  predicate InOrder(rows: seq<Shallow>) {
    forall i, j :: 0 <= i < j < |rows| && rows[i].asn == rows[j].asn ==> rows[i].started <= rows[j].started
  }

  predicate Within(v: Shallow, asn: int, t: real) {
    v.asn == asn && t <= v.started <= t + WINDOW
  }

  function AgentsWithin(rows: set<Shallow>, asn: int, t: real): set<string> {
    set v | v in rows && Within(v, asn, t) :: v.agent
  }

  /** Some ten-minute span on the visit's network, beginning at any time at all, holds the visit and
      at least three agents. */
  ghost predicate IsCoordinated(rows: set<Shallow>, v: Shallow) {
    exists t: real :: Within(v, v.asn, t) && |AgentsWithin(rows, v.asn, t)| >= MIN_AGENTS
  }

  function Members(vs: seq<Shallow>): set<Shallow> {
    set v | v in vs
  }

  function Ids(vs: seq<Shallow>): set<Visits.Slot> {
    set v | v in vs :: v.id
  }

  function Agents(vs: seq<Shallow>): set<string> {
    set v | v in vs :: v.agent
  }

  function InWindow(from: real): Shallow -> bool { (v: Shallow) => v.started - from <= WINDOW }

  /** The window anchored at the i-th visit of a network's group. */
  function Window(group: seq<Shallow>, i: nat): seq<Shallow>
    requires i < |group|
  {
    Filter(group[i..], InWindow(group[i].started))
  }

  predicate GuiltyAt(group: seq<Shallow>, i: nat, id: Visits.Slot)
    requires i < |group|
  {
    |Agents(Window(group, i))| >= MIN_AGENTS && id in Ids(Window(group, i))
  }

  predicate GuiltyIn(group: seq<Shallow>, n: nat, id: Visits.Slot)
    requires n <= |group|
  {
    exists i :: 0 <= i < n && GuiltyAt(group, i, id)
  }

  /** The inner loops: every anchor of one group adds its window when it holds three agents. */
  method FlagGroup(group: seq<Shallow>, guilty: set<Visits.Slot>) returns (all: set<Visits.Slot>)
    ensures forall id :: id in all <==> id in guilty || GuiltyIn(group, |group|, id)
  {
    hide Window;
    all := guilty;
    for i := 0 to |group|
      invariant forall id :: id in all <==> id in guilty || GuiltyIn(group, i, id)
    {
      ghost var before := all;
      var window := Window(group, i);
      if |Agents(window)| >= MIN_AGENTS {
        all := all + Ids(window);
      }
      forall id ensures id in all <==> id in guilty || GuiltyIn(group, i + 1, id) {
        assert GuiltyIn(group, i + 1, id) <==> GuiltyIn(group, i, id) || GuiltyAt(group, i, id);
      }
    }
  }

  function Group(groups: map<int, seq<Shallow>>, asn: int): seq<Shallow> {
    if asn in groups then groups[asn] else []
  }

  predicate Lists(order: seq<int>, groups: map<int, seq<Shallow>>) {
    (forall k :: 0 <= k < |order| ==> order[k] in groups) && (forall asn :: asn in groups ==> asn in order)
  }

  lemma ListsSnoc(order: seq<int>, groups: map<int, seq<Shallow>>, asn: int, group: seq<Shallow>)
    requires Lists(order, groups)
    ensures Lists(if asn in groups then order else order + [asn], groups[asn := group])
  {
    var longer := if asn in groups then order else order + [asn];
    forall a | a in groups[asn := group] ensures a in longer {
      if a in groups {
        var k :| 0 <= k < |order| && order[k] == a;
        assert longer[k] == a;
      } else {
        assert longer[|order|] == asn;
      }
    }
  }

  lemma GroupsSnoc(groups: map<int, seq<Shallow>>, rows: seq<Shallow>, v: Shallow)
    requires forall asn :: Group(groups, asn) == Filter(rows, OfAsn(asn))
    ensures forall asn :: Group(groups[v.asn := Group(groups, v.asn) + [v]], asn) == Filter(rows + [v], OfAsn(asn))
  {
    forall asn ensures Filter(rows + [v], OfAsn(asn)) == Filter(rows, OfAsn(asn)) + if v.asn == asn then [v] else [] {
      FilterSnoc(rows, v, OfAsn(asn));
    }
  }

  /** The by_asn dictionary; `order` is its insertion order. */
  method ByAsn(rows: seq<Shallow>) returns (groups: map<int, seq<Shallow>>, order: seq<int>)
    ensures forall asn :: Group(groups, asn) == Filter(rows, OfAsn(asn))
    ensures Lists(order, groups)
  {
    groups, order := map[], [];
    for n := 0 to |rows|
      invariant forall asn :: Group(groups, asn) == Filter(rows[..n], OfAsn(asn))
      invariant Lists(order, groups)
    {
      hide Lists, Filter, Group;
      var v := rows[n];
      assert rows[..n + 1] == rows[..n] + [v];
      GroupsSnoc(groups, rows[..n], v);
      ListsSnoc(order, groups, v.asn, Group(groups, v.asn) + [v]);
      if v.asn !in groups {
        order := order + [v.asn];
      }
      groups := groups[v.asn := Group(groups, v.asn) + [v]];
    }
    assert rows[..|rows|] == rows;
  }

  // ---------------------------------------------------------------- anchors suffice

  lemma {:induction false} FilterStaysInOrder(rows: seq<Shallow>, asn: int)
    requires InOrder(rows)
    ensures InOrder(Filter(rows, OfAsn(asn)))
    ensures forall v :: v in Filter(rows, OfAsn(asn)) <==> v in rows && v.asn == asn
  {
    var f := Filter(rows, OfAsn(asn));
    forall v ensures v in f <==> v in rows && v.asn == asn {
      FilterHas(rows, OfAsn(asn), v);
    }
    forall i, j | 0 <= i < j < |f| && f[i].asn == f[j].asn ensures f[i].started <= f[j].started {
      FilterKeepsOrder(rows, OfAsn(asn), i, j);
    }
  }

  lemma WindowHas(group: seq<Shallow>, i: nat, v: Shallow)
    requires i < |group|
    ensures v in Window(group, i) <==> v in group[i..] && v.started - group[i].started <= WINDOW
  {
    FilterHas(group[i..], InWindow(group[i].started), v);
  }

  predicate OneAsn(group: seq<Shallow>, asn: int) {
    forall v :: v in group ==> v.asn == asn
  }

  lemma AnchoredIsWithin(group: seq<Shallow>, asn: int, i: nat)
    requires i < |group| && InOrder(group) && OneAsn(group, asn)
    ensures forall v :: v in Window(group, i) ==> v in group && Within(v, asn, group[i].started)
    ensures Agents(Window(group, i)) <= AgentsWithin(Members(group), asn, group[i].started)
  {
    forall v | v in Window(group, i) ensures v in group && Within(v, asn, group[i].started) {
      WindowHas(group, i, v);
      var j :| 0 <= j < |group[i..]| && group[i..][j] == v;
      assert group[i + j] == v && group[i].asn == asn && v.asn == asn;
    }
  }

  lemma {:induction false} FirstFrom(group: seq<Shallow>, t: real, n: nat) returns (i: nat)
    requires n < |group| && group[n].started >= t
    ensures i <= n && group[i].started >= t && forall j :: 0 <= j < i ==> group[j].started < t
  {
    i := 0;
    while group[i].started < t
      invariant i <= n && forall j :: 0 <= j < i ==> group[j].started < t
      decreases n - i
    {
      i := i + 1;
    }
  }

  /** A span with three agents is covered by the window anchored at its first visit. */
  lemma SpanIsAnchored(group: seq<Shallow>, asn: int, v: Shallow, t: real)
    requires InOrder(group) && OneAsn(group, asn) && v in group && Within(v, asn, t)
    requires |AgentsWithin(Members(group), asn, t)| >= MIN_AGENTS
    ensures GuiltyIn(group, |group|, v.id)
  {
    var n :| 0 <= n < |group| && group[n] == v;
    var i := FirstFrom(group, t, n);
    forall w | w in group && Within(w, asn, t) ensures w in Window(group, i) {
      var j :| 0 <= j < |group| && group[j] == w;
      assert group[i..][j - i] == w;
      WindowHas(group, i, w);
    }
    hide Window;
    forall a | a in AgentsWithin(Members(group), asn, t) ensures a in Agents(Window(group, i)) {
      var w :| w in group && Within(w, asn, t) && w.agent == a;
      assert w in Window(group, i);
    }
    SubsetSize(AgentsWithin(Members(group), asn, t), Agents(Window(group, i)));
    assert GuiltyAt(group, i, v.id);
  }

  lemma GuiltyIsCoordinated(group: seq<Shallow>, asn: int, i: nat, id: Visits.Slot)
    requires i < |group| && InOrder(group) && OneAsn(group, asn) && GuiltyAt(group, i, id)
    ensures exists v :: v in group && v.id == id && IsCoordinated(Members(group), v)
  {
    AnchoredIsWithin(group, asn, i);
    hide Window;
    SubsetSize(Agents(Window(group, i)), AgentsWithin(Members(group), asn, group[i].started));
    var v :| v in Window(group, i) && v.id == id;
    assert v in group && Within(v, v.asn, group[i].started);
  }

  lemma SameSpan(rows: seq<Shallow>, group: seq<Shallow>, asn: int, t: real)
    requires forall v :: v in group <==> v in rows && v.asn == asn
    ensures AgentsWithin(Members(group), asn, t) == AgentsWithin(Members(rows), asn, t)
  {
  }

  /** What the anchors of one network find, stated over all rows. */
  lemma GroupVerdict(rows: seq<Shallow>, asn: int, id: Visits.Slot)
    requires InOrder(rows)
    ensures GuiltyIn(Filter(rows, OfAsn(asn)), |Filter(rows, OfAsn(asn))|, id)
       <==> exists v :: v in rows && v.asn == asn && v.id == id && IsCoordinated(Members(rows), v)
  {
    var group := Filter(rows, OfAsn(asn));
    FilterStaysInOrder(rows, asn);
    hide Filter, GuiltyAt, AgentsWithin;
    if GuiltyIn(group, |group|, id) {
      var i :| 0 <= i < |group| && GuiltyAt(group, i, id);
      GuiltyIsCoordinated(group, asn, i, id);
      var v :| v in group && v.id == id && IsCoordinated(Members(group), v);
      var t: real :| Within(v, v.asn, t) && |AgentsWithin(Members(group), v.asn, t)| >= MIN_AGENTS;
      SameSpan(rows, group, asn, t);
    }
    if exists v :: v in rows && v.asn == asn && v.id == id && IsCoordinated(Members(rows), v) {
      var v :| v in rows && v.asn == asn && v.id == id && IsCoordinated(Members(rows), v);
      var t: real :| Within(v, v.asn, t) && |AgentsWithin(Members(rows), v.asn, t)| >= MIN_AGENTS;
      SameSpan(rows, group, asn, t);
      SpanIsAnchored(group, asn, v, t);
    }
  }

  /** `rows` is the query result in (asn, started) order. A session is flagged exactly when it is part
      of a coordinated span. */
  method FlagCoordinated(rows: seq<Shallow>) returns (guilty: set<Visits.Slot>)
    requires InOrder(rows)
    ensures forall id :: id in guilty <==> exists v :: v in rows && v.id == id && IsCoordinated(Members(rows), v)
  {
    var groups, order := ByAsn(rows);
    guilty := {};
    hide Filter, GuiltyIn, IsCoordinated;
    for n := 0 to |order|
      invariant forall id :: id in guilty <==> exists v :: v in rows && v.asn in order[..n] && v.id == id && IsCoordinated(Members(rows), v)
    {
      var asn := order[n];
      assert asn in groups;
      assert Group(groups, asn) == groups[asn] == Filter(rows, OfAsn(asn));
      var more := FlagGroup(groups[asn], guilty);
      assert order[..n + 1] == order[..n] + [asn];
      forall id ensures id in more <==> exists v :: v in rows && v.asn in order[..n + 1] && v.id == id && IsCoordinated(Members(rows), v) {
        GroupVerdict(rows, asn, id);
      }
      guilty := more;
    }
    assert order[..|order|] == order;
    forall v | v in rows ensures v.asn in order {
      FilterHas(rows, OfAsn(v.asn), v);
      assert Group(groups, v.asn) == Filter(rows, OfAsn(v.asn));
    }
  }

  // ---------------------------------------------------------------- looking only at the later visits

  function Since(all: set<Shallow>, cutoff: real): set<Shallow> {
    set v | v in all && v.started >= cutoff
  }

  /** Three agents meet the visit in some span that begins before the cutoff ... */
  ghost predicate MetAcross(all: set<Shallow>, cutoff: real, v: Shallow) {
    exists t: real :: t < cutoff && Within(v, v.asn, t) && |AgentsWithin(all, v.asn, t)| >= MIN_AGENTS
  }

  /** ... and in some span that begins at the cutoff or later. */
  ghost predicate MetSince(all: set<Shallow>, cutoff: real, v: Shallow) {
    exists t: real :: t >= cutoff && Within(v, v.asn, t) && |AgentsWithin(all, v.asn, t)| >= MIN_AGENTS
  }

  lemma SpanSince(all: set<Shallow>, cutoff: real, asn: int, t: real)
    ensures t >= cutoff ==> AgentsWithin(Since(all, cutoff), asn, t) == AgentsWithin(all, asn, t)
    ensures t < cutoff ==> AgentsWithin(Since(all, cutoff), asn, t) <= AgentsWithin(all, asn, cutoff)
  {
  }

  /** Of the later visits alone, those are coordinated that three agents meet in a span from the cutoff on. */
  lemma CoordinatedSince(all: set<Shallow>, cutoff: real, v: Shallow)
    requires v in all && v.started >= cutoff
    ensures IsCoordinated(Since(all, cutoff), v) <==> MetSince(all, cutoff, v)
    ensures IsCoordinated(all, v) <==> MetSince(all, cutoff, v) || MetAcross(all, cutoff, v)
  {
    hide AgentsWithin;
    if IsCoordinated(Since(all, cutoff), v) {
      var t: real :| Within(v, v.asn, t) && |AgentsWithin(Since(all, cutoff), v.asn, t)| >= MIN_AGENTS;
      SpanSince(all, cutoff, v.asn, t);
      if t < cutoff {
        SubsetSize(AgentsWithin(Since(all, cutoff), v.asn, t), AgentsWithin(all, v.asn, cutoff));
        assert Within(v, v.asn, cutoff);
      }
    }
    if MetSince(all, cutoff, v) {
      var t: real :| t >= cutoff && Within(v, v.asn, t) && |AgentsWithin(all, v.asn, t)| >= MIN_AGENTS;
      SpanSince(all, cutoff, v.asn, t);
    }
  }

  /** Looking only at the visits from the cutoff on never flags more, and flags a visit differently exactly when
      it has three agents around it only in spans that begin before the cutoff. */
  lemma FlagsSinceIff(all: set<Shallow>, cutoff: real, v: Shallow)
    requires v in all && v.started >= cutoff
    ensures IsCoordinated(Since(all, cutoff), v) ==> IsCoordinated(all, v)
    ensures (IsCoordinated(Since(all, cutoff), v) <==> IsCoordinated(all, v)) <==>
            (MetAcross(all, cutoff, v) ==> MetSince(all, cutoff, v))
  {
    CoordinatedSince(all, cutoff, v);
  }

  /** Three agents on one network within two minutes, the cutoff after the first: all three are coordinated,
      of the later two neither is. */
  lemma CutoffSplitsASpan(a: Shallow, b: Shallow, c: Shallow, cutoff: real)
    requires a.asn == b.asn == c.asn && a.agent != b.agent && b.agent != c.agent && a.agent != c.agent
    requires a.started < cutoff <= b.started <= c.started <= a.started + 120.0
    ensures var all := {a, b, c};
            && Since(all, cutoff) == {b, c}
            && (forall v :: v in all ==> IsCoordinated(all, v)) && (forall v :: v in {b, c} ==> !IsCoordinated({b, c}, v))
  {
    var all := {a, b, c};
    assert AgentsWithin(all, a.asn, a.started) == {a.agent, b.agent, c.agent};
    assert forall v :: v in all ==> Within(v, v.asn, a.started);
    forall v, t: real | v in {b, c} && Within(v, v.asn, t) ensures |AgentsWithin({b, c}, v.asn, t)| < MIN_AGENTS {
      assert AgentsWithin({b, c}, v.asn, t) <= {b.agent, c.agent};
      SubsetSize(AgentsWithin({b, c}, v.asn, t), {b.agent, c.agent});
    }
  }
}
