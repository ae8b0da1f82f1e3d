/**
 Pruning hidden answers: pruneHidden of packages/form-schema/src/index.ts:2334-2379. It walks plain
 groups transparently, ignoring their own visibility, and keeps a repeat group's instances whole.
 */
module FormPrune {
  import opened Prelude
  import opened FormExpr
  import opened FormState

  // ---------------------------------------------------------------- what pruning looks at

  /** The answers and repeat groups that own a top-level key, in document order. */
  function Entries(qs: seq<Question>): seq<Question>
    decreases qs, 0
  {
    if qs == [] then [] else EntriesOf(qs[0]) + Entries(qs[1..])
  }

  function EntriesOf(q: Question): seq<Question>
    decreases q, 1
  {
    if IsDisplay(q) then []
    else if q.kind.Group? && !q.repeat then Entries(q.children)
    else [q]
  }

  /** The ids of the visible entries. */
  function Kept(es: seq<Question>, r: Response, rules: Rules): set<string> {
    set q | q in es && IsVisible(q, r, rules) :: q.id
  }

  function Restrict(r: Response, ids: set<string>): Response {
    map id | id in r && id in ids :: r[id]
  }

  function Prune(qs: seq<Question>, r: Response, rules: Rules): Response {
    Restrict(r, Kept(Entries(qs), r, rules))
  }

  // ---------------------------------------------------------------- the method

  lemma KeptConcat(a: seq<Question>, b: seq<Question>, r: Response, rules: Rules)
    ensures Kept(a + b, r, rules) == Kept(a, r, rules) + Kept(b, r, rules)
  {
    hide IsVisible;
    forall id | id in Kept(a, r, rules) + Kept(b, r, rules) ensures id in Kept(a + b, r, rules) {
      if id in Kept(a, r, rules) {
        var q :| q in a && IsVisible(q, r, rules) && q.id == id;
        assert q in a + b;
      } else {
        var q :| q in b && IsVisible(q, r, rules) && q.id == id;
        assert q in a + b;
      }
    }
  }

  /** The inner `walk`: fills `out` while it recurses. */
  method PruneWalk(qs: seq<Question>, r: Response, rules: Rules, out: Response, ghost sofar: set<string>) returns (all: Response)
    requires out == Restrict(r, sofar)
    ensures all == Restrict(r, sofar + Kept(Entries(qs), r, rules))
    decreases qs, 0
  {
    hide IsVisible;
    all := out;
    ghost var ids := sofar;
    for n := 0 to |qs|
      invariant all == Restrict(r, ids)
      invariant ids + Kept(Entries(qs[n..]), r, rules) == sofar + Kept(Entries(qs), r, rules)
    {
      assert qs[n..][1..] == qs[n + 1..];
      KeptConcat(EntriesOf(qs[n]), Entries(qs[n + 1..]), r, rules);
      all := PruneOne(qs[n], r, rules, all, ids);
      ids := ids + Kept(EntriesOf(qs[n]), r, rules);
    }
    assert qs[|qs|..] == [];
    assert Kept([], r, rules) == {};
  }

  method PruneOne(q: Question, r: Response, rules: Rules, out: Response, ghost sofar: set<string>) returns (all: Response)
    requires out == Restrict(r, sofar)
    ensures all == Restrict(r, sofar + Kept(EntriesOf(q), r, rules))
    decreases q, 1
  {
    hide IsVisible;
    all := out;
    if IsDisplay(q) {
      assert Kept([], r, rules) == {};
      return;
    }
    if q.kind.Group? && !q.repeat {
      all := PruneWalk(q.children, r, rules, all, sofar);
      return;
    }
    assert Kept([q], r, rules) == if IsVisible(q, r, rules) then {q.id} else {};
    if IsVisible(q, r, rules) && q.id in r {
      all := all[q.id := r[q.id]];
    }
  }

  method PruneHidden(qs: seq<Question>, r: Response, rules: Rules) returns (out: Response)
    ensures out == Prune(qs, r, rules)
  {
    out := PruneWalk(qs, r, rules, map[], {});
    assert {} + Kept(Entries(qs), r, rules) == Kept(Entries(qs), r, rules);
  }

  // ---------------------------------------------------------------- nothing hidden survives

  /** A key survives exactly when it was answered and some visible answer or repeat group owns it;
      surviving values are untouched. */
  lemma PrunedIsExactlyTheVisible(qs: seq<Question>, r: Response, rules: Rules, id: string)
    ensures id in Prune(qs, r, rules) <==> id in r && exists q :: q in Entries(qs) && q.id == id && IsVisible(q, r, rules)
    ensures id in Prune(qs, r, rules) ==> Prune(qs, r, rules)[id] == r[id]
  {
    hide IsVisible;
  }

  // ---------------------------------------------------------------- pruning changes nothing else

  function OptionRefs(e: Option<Expr>): set<string> {
    if e.None? then {} else Refs(e.value)
  }

  function FlagRefs(f: Flag): set<string> {
    if f.When? then Refs(f.e) else {}
  }

  /** The ids its visibility rule reads from the top-level response. */
  function SightRefs(q: Question): set<string> {
    OptionRefs(q.visibleIf)
  }

  /** The ids the validator reads besides, and only for a visible answer. A repeat group's children read
      from their instance instead. */
  function CheckRefs(q: Question): set<string> {
    if q.kind.Group? then {} else FlagRefs(q.required) + OptionRefs(q.constraint)
  }

  predicate KeptOrUnanswered(ids: set<string>, qs: seq<Question>, r: Response, rules: Rules) {
    forall id :: id in ids && id in r ==> id in Kept(Entries(qs), r, rules)
  }

  /** Every id that is read is kept by pruning or was never answered: by the visibility rule of any
      entry, by the other rules of a visible one. */
  predicate ReadsOnlyKept(qs: seq<Question>, r: Response, rules: Rules) {
    forall q :: q in Entries(qs) ==>
      && KeptOrUnanswered(SightRefs(q), qs, r, rules)
      && (IsVisible(q, r, rules) ==> KeptOrUnanswered(CheckRefs(q), qs, r, rules))
  }

  predicate EntryAgrees(q: Question, r1: Response, r2: Response, rules: Rules) {
    && AgreeOn(SightRefs(q), r1, r2)
    && (IsVisible(q, r1, rules) ==> AgreeOn(CheckRefs(q), r1, r2) && Get(r1, q.id) == Get(r2, q.id))
  }

  lemma SameWhereRefsAgree(e: Expr, r1: Response, r2: Response, rules: Rules)
    requires AgreeOn(Refs(e), r1, r2)
    ensures Holds(e, r1, rules) == Holds(e, r2, rules)
  {
    EvaluateDependsOnRefs(e, r1, r2, rules.host, rules.clock, rules.clock);
  }

  lemma AgreeOnFewer(small: set<string>, big: set<string>, r1: Response, r2: Response)
    requires small <= big && AgreeOn(big, r1, r2)
    ensures AgreeOn(small, r1, r2)
  {
  }

  lemma VisibilityAgrees(q: Question, r1: Response, r2: Response, rules: Rules)
    requires AgreeOn(SightRefs(q), r1, r2)
    ensures IsVisible(q, r1, rules) == IsVisible(q, r2, rules)
  {
    hide Refs, Lookup, Holds, AgreeOn;
    if q.visibleIf.Some? {
      SameWhereRefsAgree(q.visibleIf.value, r1, r2, rules);
    }
  }

  lemma LeafErrorAgrees(q: Question, r1: Response, r2: Response, path: string, rules: Rules)
    requires !q.kind.Group? && AgreeOn(CheckRefs(q), r1, r2) && Get(r1, q.id) == Get(r2, q.id)
    ensures LeafError(q, r1, path, rules) == LeafError(q, r2, path, rules)
  {
    hide Refs, Lookup, Holds, AgreeOn, IsEmpty;
    if q.required.When? {
      AgreeOnFewer(Refs(q.required.e), CheckRefs(q), r1, r2);
      SameWhereRefsAgree(q.required.e, r1, r2, rules);
    }
    if q.constraint.Some? {
      AgreeOnFewer(Refs(q.constraint.value), CheckRefs(q), r1, r2);
      SameWhereRefsAgree(q.constraint.value, r1, r2, rules);
    }
  }

  lemma {:induction false} ValidationAgrees(qs: seq<Question>, r1: Response, r2: Response, prefix: string, rules: Rules)
    requires forall q :: q in Entries(qs) ==> EntryAgrees(q, r1, r2, rules)
    ensures ValidateList(qs, r1, prefix, rules) == ValidateList(qs, r2, prefix, rules)
    decreases qs, 0
  {
    hide EntryAgrees, ValidateOne, EntriesOf;
    if qs != [] {
      OneValidationAgrees(qs[0], r1, r2, prefix, rules);
      ValidationAgrees(qs[1..], r1, r2, prefix, rules);
    }
  }

  lemma {:induction false} OneValidationAgrees(q: Question, r1: Response, r2: Response, prefix: string, rules: Rules)
    requires forall e :: e in EntriesOf(q) ==> EntryAgrees(e, r1, r2, rules)
    ensures ValidateOne(q, r1, prefix, rules) == ValidateOne(q, r2, prefix, rules)
    decreases q, 1
  {
    if IsDisplay(q) {
    } else if q.kind.Group? && !q.repeat {
      ValidationAgrees(q.children, r1, r2, prefix, rules);
    } else {
      assert q in EntriesOf(q);
      VisibilityAgrees(q, r1, r2, rules);
      if IsVisible(q, r1, rules) && !q.kind.Group? {
        LeafErrorAgrees(q, r1, r2, prefix + q.id, rules);
      }
    }
  }

  lemma PrunedAgreesOnKept(ids: set<string>, qs: seq<Question>, r: Response, rules: Rules)
    requires KeptOrUnanswered(ids, qs, r, rules)
    ensures AgreeOn(ids, r, Prune(qs, r, rules))
  {
    hide Kept;
  }

  lemma PrunedEntryAgrees(qs: seq<Question>, r: Response, rules: Rules, q: Question)
    requires ReadsOnlyKept(qs, r, rules) && q in Entries(qs)
    ensures EntryAgrees(q, r, Prune(qs, r, rules), rules)
    ensures IsVisible(q, r, rules) == IsVisible(q, Prune(qs, r, rules), rules)
  {
    PrunedAgreesOnKept(SightRefs(q), qs, r, rules);
    VisibilityAgrees(q, r, Prune(qs, r, rules), rules);
    if IsVisible(q, r, rules) {
      PrunedAgreesOnKept(CheckRefs(q), qs, r, rules);
    }
  }

  /** When the rules that are looked at read only kept or unanswered ids: no entry changes visibility,
      validation reports the same errors before and after, and pruning again does nothing. */
  lemma PruningIsHarmless(qs: seq<Question>, r: Response, rules: Rules)
    requires ReadsOnlyKept(qs, r, rules)
    ensures forall q :: q in Entries(qs) ==> IsVisible(q, r, rules) == IsVisible(q, Prune(qs, r, rules), rules)
    ensures ValidateList(qs, Prune(qs, r, rules), "", rules) == ValidateList(qs, r, "", rules)
    ensures Prune(qs, Prune(qs, r, rules), rules) == Prune(qs, r, rules)
  {
    var pruned := Prune(qs, r, rules);
    forall q | q in Entries(qs) ensures EntryAgrees(q, r, pruned, rules) && IsVisible(q, r, rules) == IsVisible(q, pruned, rules) {
      PrunedEntryAgrees(qs, r, rules, q);
    }
    hide EntryAgrees, IsVisible, ValidateList, ReadsOnlyKept;
    ValidationAgrees(qs, r, pruned, "", rules);
    assert Kept(Entries(qs), pruned, rules) == Kept(Entries(qs), r, rules);
  }

  /** A hidden answer whose constraint reads the answer itself is no obstacle, although pruning drops it. */
  lemma HiddenConstraintIsHarmless(a: Question, rules: Rules)
    requires a.kind == OtherKind("number") && !a.visible && a.visibleIf.None?
    requires a.constraint == Some(Binary(Gt, Ref(a.id), Const(Num(0.0))))
    ensures var r: Response := map[a.id := Num(5.0)];
            ReadsOnlyKept([a], r, rules) && Prune([a], r, rules) == map[]
  {
    var r: Response := map[a.id := Num(5.0)];
    assert [a][1..] == [];
    assert Entries([a]) == [a];
    assert Kept([a], r, rules) == {};
  }

  // ---------------------------------------------------------------- what the state walk shows

  /** Every question evaluated against the top-level response, display questions and plain groups
      included. */
  function TopLevel(qs: seq<Question>): seq<Question>
    decreases qs, 0
  {
    if qs == [] then [] else TopLevelOf(qs[0]) + TopLevel(qs[1..])
  }

  function TopLevelOf(q: Question): seq<Question>
    decreases q, 1
  {
    [q] + if q.kind.Group? && !q.repeat then TopLevel(q.children) else []
  }

  function VisiblePaths(states: seq<QuestionState>): seq<string> {
    if states == [] then []
    else (if states[0].visible then [states[0].path] else []) + VisiblePaths(states[1..])
  }

  lemma {:induction false} VisibleConcat(a: seq<QuestionState>, b: seq<QuestionState>)
    ensures VisiblePaths(a + b) == VisiblePaths(a) + VisiblePaths(b)
  {
    if a == [] {
      assert a + b == b;
    } else {
      assert (a + b)[1..] == a[1..] + b;
      VisibleConcat(a[1..], b);
    }
  }

  /** Nothing under a hidden parent is visible. */
  lemma {:induction false} HiddenShowsNothing(qs: seq<Question>, r: Response, prefix: string, rules: Rules)
    ensures VisiblePaths(WalkList(qs, r, prefix, false, rules)) == []
    decreases qs, 0, 0
  {
    hide IsVisible, IsRequired, IsReadOnly;
    if qs != [] {
      HiddenOneShowsNothing(qs[0], r, prefix, rules);
      HiddenShowsNothing(qs[1..], r, prefix, rules);
      VisibleConcat(WalkOne(qs[0], r, prefix, false, rules), WalkList(qs[1..], r, prefix, false, rules));
    }
  }

  lemma {:induction false} HiddenOneShowsNothing(q: Question, r: Response, prefix: string, rules: Rules)
    ensures VisiblePaths(WalkOne(q, r, prefix, false, rules)) == []
    decreases q, 2, 0
  {
    hide IsVisible, IsRequired, IsReadOnly, WalkList, WalkInstances;
    var state := StateOf(q, r, prefix, false, rules);
    var below := Below(q, r, prefix, false, rules);
    WalkOneSplits(q, r, prefix, false, rules);
    if q.kind.Group? && !q.repeat {
      HiddenShowsNothing(q.children, r, prefix, rules);
    } else if q.kind.Group? && Get(r, q.id).List? {
      HiddenInstancesShowNothing(q, Get(r, q.id).items, 0, prefix, rules);
    }
    VisibleConcat([state], below);
    assert VisiblePaths([state]) == [];
  }

  lemma {:induction false} HiddenInstancesShowNothing(q: Question, items: seq<Value>, i: nat, prefix: string, rules: Rules)
    requires i <= |items|
    ensures VisiblePaths(WalkInstances(q, items, i, prefix, false, rules)) == []
    decreases q, 1, |items| - i
  {
    hide WalkList, InstancePrefix;
    if i < |items| {
      HiddenShowsNothing(q.children, AsResponse(items[i]), InstancePrefix(prefix, q, i), rules);
      HiddenInstancesShowNothing(q, items, i + 1, prefix, rules);
      VisibleConcat(WalkList(q.children, AsResponse(items[i]), InstancePrefix(prefix, q, i), false, rules),
                    WalkInstances(q, items, i + 1, prefix, false, rules));
    }
  }

  /** What the walk lists below a question. */
  function Below(q: Question, r: Response, prefix: string, visible: bool, rules: Rules): seq<QuestionState> {
    if !q.kind.Group? then []
    else if !q.repeat then WalkList(q.children, r, prefix, visible, rules)
    else if !Get(r, q.id).List? then []
    else WalkInstances(q, Get(r, q.id).items, 0, prefix, visible, rules)
  }

  lemma WalkOneSplits(q: Question, r: Response, prefix: string, parentVisible: bool, rules: Rules)
    ensures WalkOne(q, r, prefix, parentVisible, rules) ==
            [StateOf(q, r, prefix, parentVisible, rules)] + Below(q, r, prefix, parentVisible && IsVisible(q, r, rules), rules)
  {
    hide IsVisible, WalkList, WalkInstances, StateOf;
  }

  /** The two responses agree on what any visibility rule reads, and on the visible repeat groups. */
  predicate SightAgrees(q: Question, r1: Response, r2: Response, rules: Rules) {
    && AgreeOn(SightRefs(q), r1, r2)
    && (q.kind.Group? && q.repeat && IsVisible(q, r1, rules) ==> Get(r1, q.id) == Get(r2, q.id))
  }

  lemma {:induction false} WalkShowsTheSame(qs: seq<Question>, r1: Response, r2: Response, prefix: string, shown: bool, rules: Rules)
    requires forall q :: q in TopLevel(qs) ==> SightAgrees(q, r1, r2, rules)
    ensures VisiblePaths(WalkList(qs, r1, prefix, shown, rules)) == VisiblePaths(WalkList(qs, r2, prefix, shown, rules))
    decreases qs, 0
  {
    hide SightAgrees, WalkOne, TopLevelOf;
    if qs != [] {
      OneShowsTheSame(qs[0], r1, r2, prefix, shown, rules);
      WalkShowsTheSame(qs[1..], r1, r2, prefix, shown, rules);
      VisibleConcat(WalkOne(qs[0], r1, prefix, shown, rules), WalkList(qs[1..], r1, prefix, shown, rules));
      VisibleConcat(WalkOne(qs[0], r2, prefix, shown, rules), WalkList(qs[1..], r2, prefix, shown, rules));
    }
  }

  lemma {:induction false} OneShowsTheSame(q: Question, r1: Response, r2: Response, prefix: string, shown: bool, rules: Rules)
    requires forall e :: e in TopLevelOf(q) ==> SightAgrees(e, r1, r2, rules)
    ensures VisiblePaths(WalkOne(q, r1, prefix, shown, rules)) == VisiblePaths(WalkOne(q, r2, prefix, shown, rules))
    decreases q, 1
  {
    hide IsVisible, IsRequired, IsReadOnly, WalkList, WalkInstances;
    assert q in TopLevelOf(q) && SightAgrees(q, r1, r2, rules);
    VisibilityAgrees(q, r1, r2, rules);
    var visible := shown && IsVisible(q, r1, rules);
    WalkOneSplits(q, r1, prefix, shown, rules);
    WalkOneSplits(q, r2, prefix, shown, rules);
    BelowShowsTheSame(q, r1, r2, prefix, visible, rules);
    var s1, s2 := StateOf(q, r1, prefix, shown, rules), StateOf(q, r2, prefix, shown, rules);
    VisibleConcat([s1], Below(q, r1, prefix, visible, rules));
    VisibleConcat([s2], Below(q, r2, prefix, visible, rules));
    assert VisiblePaths([s1]) == VisiblePaths([s2]) by {
      assert [s1][1..] == [] && [s2][1..] == [];
    }
  }

  lemma {:induction false} BelowShowsTheSame(q: Question, r1: Response, r2: Response, prefix: string, visible: bool, rules: Rules)
    requires forall e :: e in TopLevelOf(q) ==> SightAgrees(e, r1, r2, rules)
    requires visible ==> IsVisible(q, r1, rules)
    ensures VisiblePaths(Below(q, r1, prefix, visible, rules)) == VisiblePaths(Below(q, r2, prefix, visible, rules))
    decreases q, 0
  {
    hide IsVisible, WalkList, WalkInstances;
    assert q in TopLevelOf(q) && SightAgrees(q, r1, r2, rules);
    if q.kind.Group? && !q.repeat {
      WalkShowsTheSame(q.children, r1, r2, prefix, visible, rules);
    } else if q.kind.Group? && !visible {
      if Get(r1, q.id).List? {
        HiddenInstancesShowNothing(q, Get(r1, q.id).items, 0, prefix, rules);
      }
      if Get(r2, q.id).List? {
        HiddenInstancesShowNothing(q, Get(r2, q.id).items, 0, prefix, rules);
      }
    }
  }

  lemma {:induction false} RepeatIsAnEntry(qs: seq<Question>, q: Question)
    requires q in TopLevel(qs) && q.kind.Group? && q.repeat
    ensures q in Entries(qs)
    decreases qs, 0
  {
    hide EntriesOf, TopLevelOf;
    if q in TopLevelOf(qs[0]) {
      RepeatIsAnEntryOf(qs[0], q);
    } else {
      RepeatIsAnEntry(qs[1..], q);
    }
  }

  lemma {:induction false} RepeatIsAnEntryOf(p: Question, q: Question)
    requires q in TopLevelOf(p) && q.kind.Group? && q.repeat
    ensures q in EntriesOf(p)
    decreases p, 1
  {
    if p.kind.Group? && !p.repeat && q != p {
      RepeatIsAnEntry(p.children, q);
    }
  }

  /** When every visibility rule on the top-level response reads only kept or unanswered ids, the whole
      state walk marks the same occurrences visible before and after pruning, at any depth. */
  lemma PruningShowsTheSame(qs: seq<Question>, r: Response, rules: Rules)
    requires forall q :: q in TopLevel(qs) ==> KeptOrUnanswered(SightRefs(q), qs, r, rules)
    ensures VisiblePaths(WalkList(qs, Prune(qs, r, rules), "", true, rules)) == VisiblePaths(WalkList(qs, r, "", true, rules))
  {
    var pruned := Prune(qs, r, rules);
    forall q | q in TopLevel(qs) ensures SightAgrees(q, r, pruned, rules) {
      PrunedAgreesOnKept(SightRefs(q), qs, r, rules);
      if q.kind.Group? && q.repeat && IsVisible(q, r, rules) {
        RepeatIsAnEntry(qs, q);
        assert q.id in Kept(Entries(qs), r, rules);
      }
    }
    hide SightAgrees, WalkList, Kept;
    WalkShowsTheSame(qs, r, pruned, "", true, rules);
  }

  /** Pruning twice is pruning once exactly when every visible entry with an answer leaves some owner of that
      answer, itself or another entry of its id, visible in what pruning keeps. */
  lemma PrunesOnceIff(qs: seq<Question>, r: Response, rules: Rules)
    ensures Prune(qs, Prune(qs, r, rules), rules) == Prune(qs, r, rules) <==>
            forall q :: q in Entries(qs) && IsVisible(q, r, rules) && q.id in r ==>
              exists owner :: owner in Entries(qs) && owner.id == q.id && IsVisible(owner, Prune(qs, r, rules), rules)
  {
    hide IsVisible, Entries, Prune;
    var once := Prune(qs, r, rules);
    var twice := Prune(qs, once, rules);
    forall id
      ensures id in once <==> id in r && exists q :: q in Entries(qs) && q.id == id && IsVisible(q, r, rules)
      ensures id in twice <==> id in once && exists q :: q in Entries(qs) && q.id == id && IsVisible(q, once, rules)
      ensures id in twice ==> twice[id] == once[id]
    {
      PrunedIsExactlyTheVisible(qs, r, rules, id);
      PrunedIsExactlyTheVisible(qs, once, rules, id);
    }
    if twice == once {
      forall q | q in Entries(qs) && IsVisible(q, r, rules) && q.id in r
        ensures exists owner :: owner in Entries(qs) && owner.id == q.id && IsVisible(owner, once, rules)
      {
        assert q.id in once && q.id in twice;
      }
    }
    if forall q :: q in Entries(qs) && IsVisible(q, r, rules) && q.id in r ==>
         exists owner :: owner in Entries(qs) && owner.id == q.id && IsVisible(owner, once, rules) {
      assert twice.Keys == once.Keys;
    }
  }

  /** The hypothesis is needed: `b` is shown while `a` has an answer, but `a` itself is hidden, so
      pruning drops `a` and a second pruning then drops `b` as well. */
  lemma HiddenReferencePrunesTwice(a: Question, b: Question, rules: Rules)
    requires a.kind == OtherKind("text") && b.kind == OtherKind("text") && a.id != b.id
    requires !a.visible
    requires b.visible && b.visibleIf == Some(Binary(Eq, Ref(a.id), Const(Str("yes"))))
    ensures var r: Response := map[a.id := Str("yes"), b.id := Str("kept")];
            Prune([a, b], r, rules) == map[b.id := Str("kept")] && Prune([a, b], Prune([a, b], r, rules), rules) == map[]
  {
    var r: Response := map[a.id := Str("yes"), b.id := Str("kept")];
    var once: Response := map[b.id := Str("kept")];
    assert [a, b][1..] == [b];
    assert Entries([b]) == [b];
    assert Entries([a, b]) == [a, b];
    assert IsVisible(b, r, rules) && !IsVisible(b, once, rules);
    assert Kept([a, b], r, rules) == {b.id};
    assert Kept([a, b], once, rules) == {};
  }

  // ---------------------------------------------------------------- without the hypothesis

  function PruneTimes(qs: seq<Question>, r: Response, rules: Rules, n: nat): Response {
    if n == 0 then r else PruneTimes(qs, Prune(qs, r, rules), rules, n - 1)
  }

  lemma PruneShrinks(qs: seq<Question>, r: Response, rules: Rules)
    ensures Prune(qs, r, rules).Keys <= r.Keys
    ensures Prune(qs, r, rules) == r || |Prune(qs, r, rules)| < |r|
  {
    hide Kept;
    var p := Prune(qs, r, rules);
    if p != r {
      var id :| id in r.Keys && id !in p.Keys;
      assert p.Keys <= r.Keys - {id};
      SubsetSize(p.Keys, r.Keys - {id});
      assert |p| == |p.Keys| && |r| == |r.Keys|;
    }
  }

  /** On any form at all, pruning as often as there are answers settles: one more pruning then
      changes nothing. */
  lemma {:induction false} PruningSettles(qs: seq<Question>, r: Response, rules: Rules, n: nat)
    requires |r| <= n
    ensures Prune(qs, PruneTimes(qs, r, rules, n), rules) == PruneTimes(qs, r, rules, n)
    decreases n
  {
    PruneShrinks(qs, r, rules);
    if n > 0 {
      if Prune(qs, r, rules) == r {
        FixedStaysFixed(qs, r, rules, n);
      } else {
        PruningSettles(qs, Prune(qs, r, rules), rules, n - 1);
      }
    }
  }

  lemma {:induction false} FixedStaysFixed(qs: seq<Question>, r: Response, rules: Rules, n: nat)
    requires Prune(qs, r, rules) == r
    ensures PruneTimes(qs, r, rules, n) == r
  {
    if n > 0 {
      FixedStaysFixed(qs, r, rules, n - 1);
    }
  }
}
