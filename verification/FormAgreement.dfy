/**
 The validator and the state walk visit the same occurrences (packages/form-schema/src/runtime-state.ts:15-18):
 a reference walk lists every occurrence once, and both are read off it.
 */
module FormAgreement {
  import opened Slices
  import opened FormExpr
  import opened FormState

  /** One question in one context. `shown` is what the state walk reports; `reached` says the
      validator gets there, because every enclosing repeat group is visible. */
  datatype Occurrence = Occurrence(q: Question, r: Response, path: string, shown: bool, reached: bool)

  function OccurList(qs: seq<Question>, r: Response, prefix: string, shown: bool, reached: bool, rules: Rules): seq<Occurrence>
    decreases qs, 0, 0
  {
    if qs == [] then []
    else OccurOne(qs[0], r, prefix, shown, reached, rules) + OccurList(qs[1..], r, prefix, shown, reached, rules)
  }

  function OccurOne(q: Question, r: Response, prefix: string, shown: bool, reached: bool, rules: Rules): seq<Occurrence>
    decreases q, 2, 0
  {
    var visible := IsVisible(q, r, rules);
    [Occurrence(q, r, prefix + q.id, shown && visible, reached)]
    + if !q.kind.Group? then []
      else if !q.repeat then OccurList(q.children, r, prefix, shown && visible, reached, rules)
      else if !Get(r, q.id).List? then []
      else OccurInstances(q, Get(r, q.id).items, 0, prefix, shown && visible, reached && visible, rules)
  }

  function OccurInstances(q: Question, items: seq<Value>, i: nat, prefix: string, shown: bool, reached: bool, rules: Rules): seq<Occurrence>
    requires i <= |items|
    decreases q, 1, |items| - i
  {
    if i == |items| then []
    else
      OccurList(q.children, AsResponse(items[i]), InstancePrefix(prefix, q, i), shown, reached, rules)
      + OccurInstances(q, items, i + 1, prefix, shown, reached, rules)
  }

  // ---------------------------------------------------------------- reading both walks off it

  function StateAt(o: Occurrence, rules: Rules): QuestionState {
    QuestionState(o.path, o.q.id, o.shown, IsRequired(o.q, o.r, rules), IsReadOnly(o.q, o.r, rules))
  }

  function StatesAt(os: seq<Occurrence>, rules: Rules): seq<QuestionState> {
    if os == [] then [] else [StateAt(os[0], rules)] + StatesAt(os[1..], rules)
  }

  predicate IsAnswer(q: Question) {
    !q.kind.Group? && !IsDisplay(q)
  }

  function ErrorsAt(o: Occurrence, rules: Rules): seq<ValidationError> {
    if o.reached && IsAnswer(o.q) && IsVisible(o.q, o.r, rules) then LeafError(o.q, o.r, o.path, rules) else []
  }

  function ErrorsOver(os: seq<Occurrence>, rules: Rules): seq<ValidationError> {
    if os == [] then [] else ErrorsAt(os[0], rules) + ErrorsOver(os[1..], rules)
  }

  lemma {:induction false} StatesConcat(a: seq<Occurrence>, b: seq<Occurrence>, rules: Rules)
    ensures StatesAt(a + b, rules) == StatesAt(a, rules) + StatesAt(b, rules)
  {
    hide StateAt;
    if a == [] {
      assert a + b == b;
    } else {
      StatesConcat(a[1..], b, rules);
      assert (a + b)[1..] == a[1..] + b;
      Concat3([StateAt(a[0], rules)], StatesAt(a[1..], rules), StatesAt(b, rules));
    }
  }

  lemma {:induction false} ErrorsConcat(a: seq<Occurrence>, b: seq<Occurrence>, rules: Rules)
    ensures ErrorsOver(a + b, rules) == ErrorsOver(a, rules) + ErrorsOver(b, rules)
  {
    hide ErrorsAt;
    if a == [] {
      assert a + b == b;
    } else {
      ErrorsConcat(a[1..], b, rules);
      assert (a + b)[1..] == a[1..] + b;
      Concat3(ErrorsAt(a[0], rules), ErrorsOver(a[1..], rules), ErrorsOver(b, rules));
    }
  }

  /** The state walk lists exactly the occurrences, in order. */
  lemma {:induction false} WalkListsOccurrences(qs: seq<Question>, r: Response, prefix: string, shown: bool, reached: bool, rules: Rules)
    ensures WalkList(qs, r, prefix, shown, rules) == StatesAt(OccurList(qs, r, prefix, shown, reached, rules), rules)
    decreases qs, 0, 0
  {
    hide WalkOne, OccurOne;
    if qs != [] {
      WalkOneOccurs(qs[0], r, prefix, shown, reached, rules);
      WalkListsOccurrences(qs[1..], r, prefix, shown, reached, rules);
      StatesConcat(OccurOne(qs[0], r, prefix, shown, reached, rules), OccurList(qs[1..], r, prefix, shown, reached, rules), rules);
    }
  }

  lemma OneStateFirst(o: Occurrence, rest: seq<Occurrence>, rules: Rules)
    ensures StatesAt([o] + rest, rules) == [StateAt(o, rules)] + StatesAt(rest, rules)
  {
    assert ([o] + rest)[1..] == rest;
  }

  lemma {:induction false} WalkOneOccurs(q: Question, r: Response, prefix: string, shown: bool, reached: bool, rules: Rules)
    ensures WalkOne(q, r, prefix, shown, rules) == StatesAt(OccurOne(q, r, prefix, shown, reached, rules), rules)
    decreases q, 2, 0
  {
    hide IsVisible, IsRequired, IsReadOnly, WalkList, OccurList, WalkInstances, OccurInstances;
    var visible := IsVisible(q, r, rules);
    var first := Occurrence(q, r, prefix + q.id, shown && visible, reached);
    if !q.kind.Group? || (q.repeat && !Get(r, q.id).List?) {
      OneStateFirst(first, [], rules);
    } else if !q.repeat {
      WalkListsOccurrences(q.children, r, prefix, shown && visible, reached, rules);
      OneStateFirst(first, OccurList(q.children, r, prefix, shown && visible, reached, rules), rules);
    } else {
      var items := Get(r, q.id).items;
      WalkInstancesOccur(q, items, 0, prefix, shown && visible, reached && visible, rules);
      OneStateFirst(first, OccurInstances(q, items, 0, prefix, shown && visible, reached && visible, rules), rules);
    }
  }

  lemma {:induction false} WalkInstancesOccur(q: Question, items: seq<Value>, i: nat, prefix: string, shown: bool, reached: bool, rules: Rules)
    requires i <= |items|
    ensures WalkInstances(q, items, i, prefix, shown, rules) == StatesAt(OccurInstances(q, items, i, prefix, shown, reached, rules), rules)
    decreases q, 1, |items| - i
  {
    hide WalkList, OccurList, InstancePrefix;
    if i < |items| {
      var child, inner := AsResponse(items[i]), InstancePrefix(prefix, q, i);
      WalkListsOccurrences(q.children, child, inner, shown, reached, rules);
      WalkInstancesOccur(q, items, i + 1, prefix, shown, reached, rules);
      StatesConcat(OccurList(q.children, child, inner, shown, reached, rules), OccurInstances(q, items, i + 1, prefix, shown, reached, rules), rules);
    }
  }

  /** The validator's errors are the occurrences' own errors, in walk order: each visible answer the
      validator reaches contributes its one error or none, nothing else contributes. */
  lemma {:induction false} ValidateFollowsOccurrences(qs: seq<Question>, r: Response, prefix: string, shown: bool, reached: bool, rules: Rules)
    ensures ErrorsOver(OccurList(qs, r, prefix, shown, reached, rules), rules) == if reached then ValidateList(qs, r, prefix, rules) else []
    decreases qs, 0, 0
  {
    hide ValidateOne, OccurOne;
    if qs != [] {
      ValidateOneFollows(qs[0], r, prefix, shown, reached, rules);
      ValidateFollowsOccurrences(qs[1..], r, prefix, shown, reached, rules);
      ErrorsConcat(OccurOne(qs[0], r, prefix, shown, reached, rules), OccurList(qs[1..], r, prefix, shown, reached, rules), rules);
    }
  }

  lemma OneErrorFirst(o: Occurrence, rest: seq<Occurrence>, rules: Rules)
    ensures ErrorsOver([o] + rest, rules) == ErrorsAt(o, rules) + ErrorsOver(rest, rules)
  {
    assert ([o] + rest)[1..] == rest;
  }

  lemma {:induction false} ValidateOneFollows(q: Question, r: Response, prefix: string, shown: bool, reached: bool, rules: Rules)
    ensures ErrorsOver(OccurOne(q, r, prefix, shown, reached, rules), rules) == if reached then ValidateOne(q, r, prefix, rules) else []
    decreases q, 2, 0
  {
    hide IsVisible, LeafError, ValidateList, OccurList, ValidateInstances, OccurInstances;
    var visible := IsVisible(q, r, rules);
    var first := Occurrence(q, r, prefix + q.id, shown && visible, reached);
    if !q.kind.Group? || (q.repeat && !Get(r, q.id).List?) {
      OneErrorFirst(first, [], rules);
      assert [first] + [] == [first];
    } else if !q.repeat {
      ValidateFollowsOccurrences(q.children, r, prefix, shown && visible, reached, rules);
      OneErrorFirst(first, OccurList(q.children, r, prefix, shown && visible, reached, rules), rules);
    } else {
      var items := Get(r, q.id).items;
      ValidateInstancesFollow(q, items, 0, prefix, shown && visible, reached && visible, rules);
      OneErrorFirst(first, OccurInstances(q, items, 0, prefix, shown && visible, reached && visible, rules), rules);
    }
  }

  lemma {:induction false} ValidateInstancesFollow(q: Question, items: seq<Value>, i: nat, prefix: string, shown: bool, reached: bool, rules: Rules)
    requires i <= |items|
    ensures ErrorsOver(OccurInstances(q, items, i, prefix, shown, reached, rules), rules) ==
            if reached then ValidateInstances(q, items, i, prefix, rules) else []
    decreases q, 1, |items| - i
  {
    hide ValidateList, OccurList, InstancePrefix;
    if i < |items| {
      var child, inner := AsResponse(items[i]), InstancePrefix(prefix, q, i);
      ValidateFollowsOccurrences(q.children, child, inner, shown, reached, rules);
      ValidateInstancesFollow(q, items, i + 1, prefix, shown, reached, rules);
      ErrorsConcat(OccurList(q.children, child, inner, shown, reached, rules), OccurInstances(q, items, i + 1, prefix, shown, reached, rules), rules);
    }
  }

  // ---------------------------------------------------------------- visibility

  predicate Agrees(o: Occurrence, rules: Rules) {
    o.shown == (o.reached && IsVisible(o.q, o.r, rules))
  }

  predicate AllAgree(os: seq<Occurrence>, rules: Rules) {
    forall k :: 0 <= k < |os| ==> Agrees(os[k], rules)
  }

  /** Nothing the validator reaches below a hidden plain group is visible by its own rule. A hidden
      repeat group is where the validator stops. */
  predicate NoneVisible(qs: seq<Question>, r: Response, rules: Rules)
    decreases qs, 0
  {
    qs == [] || (NotVisible(qs[0], r, rules) && NoneVisible(qs[1..], r, rules))
  }

  predicate NotVisible(q: Question, r: Response, rules: Rules)
    decreases q, 1
  {
    !IsVisible(q, r, rules) && (q.kind.Group? && !q.repeat ==> NoneVisible(q.children, r, rules))
  }

  /** No plain group that the validator reaches hides anything: at any depth, in any instance of a
      visible repeat group, a plain group is visible or has nothing visible below it. */
  predicate GroupsHideNothing(qs: seq<Question>, r: Response, rules: Rules)
    decreases qs, 0, 0
  {
    qs == [] || (GroupHidesNothing(qs[0], r, rules) && GroupsHideNothing(qs[1..], r, rules))
  }

  predicate GroupHidesNothing(q: Question, r: Response, rules: Rules)
    decreases q, 2, 0
  {
    if !q.kind.Group? then true
    else if !q.repeat then
      if IsVisible(q, r, rules) then GroupsHideNothing(q.children, r, rules) else NoneVisible(q.children, r, rules)
    else
      IsVisible(q, r, rules) && Get(r, q.id).List? ==> InstancesHideNothing(q, Get(r, q.id).items, 0, rules)
  }

  predicate InstancesHideNothing(q: Question, items: seq<Value>, i: nat, rules: Rules)
    requires i <= |items|
    decreases q, 1, |items| - i
  {
    i == |items| || (GroupsHideNothing(q.children, AsResponse(items[i]), rules) && InstancesHideNothing(q, items, i + 1, rules))
  }

  lemma AgreeConcat(a: seq<Occurrence>, b: seq<Occurrence>, rules: Rules)
    ensures AllAgree(a + b, rules) <==> AllAgree(a, rules) && AllAgree(b, rules)
  {
    hide Agrees;
    forall k | 0 <= k < |a| ensures (a + b)[k] == a[k] { }
    forall k | 0 <= k < |b| ensures (a + b)[|a| + k] == b[k] { }
  }

  /** Where the validator does not get, nothing is shown either. */
  lemma {:induction false} UnreachedAgrees(qs: seq<Question>, r: Response, prefix: string, rules: Rules)
    ensures AllAgree(OccurList(qs, r, prefix, false, false, rules), rules)
    decreases qs, 0, 0
  {
    hide OccurOne, Agrees;
    if qs != [] {
      OneUnreachedAgrees(qs[0], r, prefix, rules);
      UnreachedAgrees(qs[1..], r, prefix, rules);
    }
  }

  lemma {:induction false} OneUnreachedAgrees(q: Question, r: Response, prefix: string, rules: Rules)
    ensures AllAgree(OccurOne(q, r, prefix, false, false, rules), rules)
    decreases q, 2, 0
  {
    hide OccurList, OccurInstances;
    if q.kind.Group? && !q.repeat {
      UnreachedAgrees(q.children, r, prefix, rules);
    } else if q.kind.Group? && Get(r, q.id).List? {
      InstancesUnreachedAgree(q, Get(r, q.id).items, 0, prefix, rules);
    }
  }

  lemma {:induction false} InstancesUnreachedAgree(q: Question, items: seq<Value>, i: nat, prefix: string, rules: Rules)
    requires i <= |items|
    ensures AllAgree(OccurInstances(q, items, i, prefix, false, false, rules), rules)
    decreases q, 1, |items| - i
  {
    hide OccurList, Agrees, InstancePrefix;
    if i < |items| {
      UnreachedAgrees(q.children, AsResponse(items[i]), InstancePrefix(prefix, q, i), rules);
      InstancesUnreachedAgree(q, items, i + 1, prefix, rules);
    }
  }

  /** Below a hidden plain group the two walks agree exactly when nothing reached there is visible. */
  lemma {:induction false} HiddenAgreesIff(qs: seq<Question>, r: Response, prefix: string, rules: Rules)
    ensures AllAgree(OccurList(qs, r, prefix, false, true, rules), rules) <==> NoneVisible(qs, r, rules)
    decreases qs, 0
  {
    hide OccurOne, NotVisible, AllAgree;
    if qs != [] {
      OneHiddenAgreesIff(qs[0], r, prefix, rules);
      HiddenAgreesIff(qs[1..], r, prefix, rules);
      AgreeConcat(OccurOne(qs[0], r, prefix, false, true, rules), OccurList(qs[1..], r, prefix, false, true, rules), rules);
    } else {
      NothingAgrees(rules);
    }
  }

  lemma NothingAgrees(rules: Rules)
    ensures AllAgree([], rules)
  {
  }

  lemma OneAgrees(o: Occurrence, rest: seq<Occurrence>, rules: Rules)
    ensures AllAgree([o] + rest, rules) <==> Agrees(o, rules) && AllAgree(rest, rules)
  {
    hide Agrees;
    AgreeConcat([o], rest, rules);
    assert [o][0] == o;
  }

  lemma {:induction false} OneHiddenAgreesIff(q: Question, r: Response, prefix: string, rules: Rules)
    ensures AllAgree(OccurOne(q, r, prefix, false, true, rules), rules) <==> NotVisible(q, r, rules)
    decreases q, 1
  {
    hide OccurList, OccurInstances, NoneVisible, IsVisible, AllAgree;
    var visible := IsVisible(q, r, rules);
    var first := Occurrence(q, r, prefix + q.id, false, true);
    NothingAgrees(rules);
    OneAgrees(first, [], rules);
    if q.kind.Group? && !q.repeat {
      HiddenAgreesIff(q.children, r, prefix, rules);
      OneAgrees(first, OccurList(q.children, r, prefix, false, true, rules), rules);
    } else if q.kind.Group? && Get(r, q.id).List? {
      var items := Get(r, q.id).items;
      if !visible {
        InstancesUnreachedAgree(q, items, 0, prefix, rules);
      }
      OneAgrees(first, OccurInstances(q, items, 0, prefix, false, visible, rules), rules);
    }
  }

  /** The two walks agree on a list exactly when no plain group in it hides anything. */
  lemma {:induction false} AgreesIff(qs: seq<Question>, r: Response, prefix: string, rules: Rules)
    ensures AllAgree(OccurList(qs, r, prefix, true, true, rules), rules) <==> GroupsHideNothing(qs, r, rules)
    decreases qs, 0, 0
  {
    hide OccurOne, GroupHidesNothing, AllAgree;
    if qs != [] {
      OneAgreesIff(qs[0], r, prefix, rules);
      AgreesIff(qs[1..], r, prefix, rules);
      AgreeConcat(OccurOne(qs[0], r, prefix, true, true, rules), OccurList(qs[1..], r, prefix, true, true, rules), rules);
    } else {
      NothingAgrees(rules);
    }
  }

  lemma {:induction false} OneAgreesIff(q: Question, r: Response, prefix: string, rules: Rules)
    ensures AllAgree(OccurOne(q, r, prefix, true, true, rules), rules) <==> GroupHidesNothing(q, r, rules)
    decreases q, 2, 0
  {
    hide OccurList, OccurInstances, NoneVisible, GroupsHideNothing, InstancesHideNothing, IsVisible, AllAgree;
    var visible := IsVisible(q, r, rules);
    var first := Occurrence(q, r, prefix + q.id, visible, true);
    NothingAgrees(rules);
    OneAgrees(first, [], rules);
    if q.kind.Group? && !q.repeat {
      if visible {
        AgreesIff(q.children, r, prefix, rules);
      } else {
        HiddenAgreesIff(q.children, r, prefix, rules);
      }
      OneAgrees(first, OccurList(q.children, r, prefix, visible, true, rules), rules);
    } else if q.kind.Group? && Get(r, q.id).List? {
      var items := Get(r, q.id).items;
      if visible {
        InstancesAgreeIff(q, items, 0, prefix, rules);
      } else {
        InstancesUnreachedAgree(q, items, 0, prefix, rules);
      }
      OneAgrees(first, OccurInstances(q, items, 0, prefix, visible, visible, rules), rules);
    }
  }

  lemma {:induction false} InstancesAgreeIff(q: Question, items: seq<Value>, i: nat, prefix: string, rules: Rules)
    requires i <= |items|
    ensures AllAgree(OccurInstances(q, items, i, prefix, true, true, rules), rules) <==> InstancesHideNothing(q, items, i, rules)
    decreases q, 1, |items| - i
  {
    hide OccurList, GroupsHideNothing, InstancePrefix, AllAgree;
    if i < |items| {
      var child, inner := AsResponse(items[i]), InstancePrefix(prefix, q, i);
      AgreesIff(q.children, child, inner, rules);
      InstancesAgreeIff(q, items, i + 1, prefix, rules);
      AgreeConcat(OccurList(q.children, child, inner, true, true, rules), OccurInstances(q, items, i + 1, prefix, true, true, rules), rules);
    } else {
      NothingAgrees(rules);
    }
  }

  /** No plain group, at any depth, has a visibility rule of its own. */
  predicate NoGroupRules(qs: seq<Question>)
    decreases qs, 0
  {
    qs == [] || (NoGroupRule(qs[0]) && NoGroupRules(qs[1..]))
  }

  predicate NoGroupRule(q: Question)
    decreases q, 1
  {
    q.kind.Group? ==> (q.repeat || (q.visible && q.visibleIf.None?)) && NoGroupRules(q.children)
  }

  /** A form whose plain groups have no rules meets the condition on every response. */
  lemma {:induction false} PlainFormsHideNothing(qs: seq<Question>, r: Response, rules: Rules)
    requires NoGroupRules(qs)
    ensures GroupsHideNothing(qs, r, rules)
    decreases qs, 0, 0
  {
    if qs != [] {
      var q := qs[0];
      if q.kind.Group? && !q.repeat {
        PlainFormsHideNothing(q.children, r, rules);
      } else if q.kind.Group? && Get(r, q.id).List? {
        PlainInstancesHideNothing(q, Get(r, q.id).items, 0, rules);
      }
      PlainFormsHideNothing(qs[1..], r, rules);
    }
  }

  lemma {:induction false} PlainInstancesHideNothing(q: Question, items: seq<Value>, i: nat, rules: Rules)
    requires i <= |items| && NoGroupRules(q.children)
    ensures InstancesHideNothing(q, items, i, rules)
    decreases q, 1, |items| - i
  {
    if i < |items| {
      PlainFormsHideNothing(q.children, AsResponse(items[i]), rules);
      PlainInstancesHideNothing(q, items, i + 1, rules);
    }
  }

  // ---------------------------------------------------------------- the agreement theorem

  predicate Subsequence(a: seq<string>, b: seq<string>)
    decreases |b|
  {
    a == [] || (b != [] && ((a[0] == b[0] && Subsequence(a[1..], b[1..])) || Subsequence(a, b[1..])))
  }

  function ErrorPaths(es: seq<ValidationError>): seq<string> {
    if es == [] then [] else [es[0].questionId] + ErrorPaths(es[1..])
  }

  function StatePaths(ss: seq<QuestionState>): seq<string> {
    if ss == [] then [] else [ss[0].path] + StatePaths(ss[1..])
  }

  lemma OneErrorAtMost(o: Occurrence, rules: Rules)
    ensures ErrorsAt(o, rules) == [] || (|ErrorsAt(o, rules)| == 1 && ErrorsAt(o, rules)[0].questionId == o.path)
  {
    hide IsVisible, IsRequired, IsEmpty, Holds;
  }

  lemma {:induction false} ErrorsInOrder(os: seq<Occurrence>, rules: Rules)
    ensures Subsequence(ErrorPaths(ErrorsOver(os, rules)), StatePaths(StatesAt(os, rules)))
  {
    hide ErrorsAt, IsRequired, IsReadOnly;
    if os != [] {
      ErrorsInOrder(os[1..], rules);
      OneErrorAtMost(os[0], rules);
      var rest := ErrorsOver(os[1..], rules);
      if ErrorsAt(os[0], rules) == [] {
        assert [] + rest == rest;
      } else {
        assert (ErrorsAt(os[0], rules) + rest)[1..] == rest;
        assert ([os[0].path] + ErrorPaths(rest))[1..] == ErrorPaths(rest);
      }
      assert ([os[0].path] + StatePaths(StatesAt(os[1..], rules)))[1..] == StatePaths(StatesAt(os[1..], rules));
      assert ([StateAt(os[0], rules)] + StatesAt(os[1..], rules))[1..] == StatesAt(os[1..], rules);
    }
  }

  /** For every form and response: validation errors occur, in order, at occurrences the state walk
      lists; both are read off the same occurrences, and at every one of them what the walk marks visible is
      what the validator reaches and finds visible, exactly when no plain group hides anything reached. */
  lemma ErrorsAgreeWithState(qs: seq<Question>, r: Response, rules: Rules)
    ensures Subsequence(ErrorPaths(ValidateList(qs, r, "", rules)), StatePaths(WalkList(qs, r, "", true, rules)))
    ensures var os := OccurList(qs, r, "", true, true, rules);
            && WalkList(qs, r, "", true, rules) == StatesAt(os, rules)
            && ValidateList(qs, r, "", rules) == ErrorsOver(os, rules)
            && (AllAgree(os, rules) <==> GroupsHideNothing(qs, r, rules))
            && (NoGroupRules(qs) ==> GroupsHideNothing(qs, r, rules))
  {
    var os := OccurList(qs, r, "", true, true, rules);
    WalkListsOccurrences(qs, r, "", true, true, rules);
    ValidateFollowsOccurrences(qs, r, "", true, true, rules);
    AgreesIff(qs, r, "", rules);
    if NoGroupRules(qs) {
      PlainFormsHideNothing(qs, r, rules);
    }
    hide OccurList, ErrorsOver, StatesAt, ValidateList, WalkList;
    ErrorsInOrder(os, rules);
  }

  /** A required, empty, capturable answer at an occurrence the walk marks visible yields exactly one
      error, and a question that is not marked visible yields none. */
  lemma RequiredEmptyIsOneError(o: Occurrence, rules: Rules)
    requires Agrees(o, rules) && IsAnswer(o.q)
    ensures o.shown && IsRequired(o.q, o.r, rules) && IsEmpty(Get(o.r, o.q.id), rules.host) && !IsUncapturable(o.q) ==>
              ErrorsAt(o, rules) == [ValidationError(o.path, REQUIRED_MESSAGE)]
    ensures !o.shown ==> ErrorsAt(o, rules) == []
  {
    hide IsEmpty, Holds;
  }

  /** The hypothesis is needed: a hidden plain group hides its children from the walk but not from
      the validator. */
  lemma HiddenGroupStillValidates(group: Question, child: Question, rules: Rules)
    requires group.kind.Group? && !group.repeat && !group.visible && group.children == [child]
    requires IsAnswer(child) && !IsUncapturable(child) && child.visible && child.visibleIf.None? && child.required == Always(true)
    ensures ValidateList([group], map[], "", rules) == [ValidationError(child.id, REQUIRED_MESSAGE)]
    ensures |WalkList([group], map[], "", true, rules)| == 2
    ensures WalkList([group], map[], "", true, rules)[1].path == child.id && !WalkList([group], map[], "", true, rules)[1].visible
  {
    assert "" + child.id == child.id;
    assert ValidateList([child], map[], "", rules) == [ValidationError(child.id, REQUIRED_MESSAGE)];
    assert WalkList([child], map[], "", false, rules) == [StateOf(child, map[], "", false, rules)];
  }
}
