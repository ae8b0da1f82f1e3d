/**
 When the errors of a form are those of what it shows. The validator looks through a hidden plain group
 (packages/form-schema/src/index.ts:1640-1670), the state walk hides what is in it
 (packages/form-schema/src/runtime-state.ts:66-96); it matters for the errors only where an answer in there
 has one.
 */
module FormErrors {
  import opened FormExpr
  import opened FormState
  import opened FormAgreement

  /** The errors of the answers that the state walk marks visible. */
  function ShownErrorsAt(o: Occurrence, rules: Rules): seq<ValidationError> {
    if o.shown && IsAnswer(o.q) then LeafError(o.q, o.r, o.path, rules) else []
  }

  function ShownErrors(os: seq<Occurrence>, rules: Rules): seq<ValidationError> {
    if os == [] then [] else ShownErrorsAt(os[0], rules) + ShownErrors(os[1..], rules)
  }

  predicate HasError(q: Question, r: Response, rules: Rules) {
    IsAnswer(q) && IsVisible(q, r, rules) && LeafError(q, r, "", rules) != []
  }

  /** No answer that the validator reaches, and that is visible by its own rule, has an error. */
  predicate NoErrors(qs: seq<Question>, r: Response, rules: Rules)
    decreases qs, 0, 0
  {
    qs == [] || (NoError(qs[0], r, rules) && NoErrors(qs[1..], r, rules))
  }

  predicate NoError(q: Question, r: Response, rules: Rules)
    decreases q, 2, 0
  {
    if !q.kind.Group? then !HasError(q, r, rules)
    else if !q.repeat then NoErrors(q.children, r, rules)
    else IsVisible(q, r, rules) && Get(r, q.id).List? ==> NoErrorsInInstances(q, Get(r, q.id).items, 0, rules)
  }

  predicate NoErrorsInInstances(q: Question, items: seq<Value>, i: nat, rules: Rules)
    requires i <= |items|
    decreases q, 1, |items| - i
  {
    i == |items| || (NoErrors(q.children, AsResponse(items[i]), rules) && NoErrorsInInstances(q, items, i + 1, rules))
  }

  /** No hidden plain group that the validator reaches, at any depth, holds an answer with an error. */
  predicate GroupsHideNoErrors(qs: seq<Question>, r: Response, rules: Rules)
    decreases qs, 0, 0
  {
    qs == [] || (GroupHidesNoErrors(qs[0], r, rules) && GroupsHideNoErrors(qs[1..], r, rules))
  }

  predicate GroupHidesNoErrors(q: Question, r: Response, rules: Rules)
    decreases q, 2, 0
  {
    if !q.kind.Group? then true
    else if !q.repeat then
      if IsVisible(q, r, rules) then GroupsHideNoErrors(q.children, r, rules) else NoErrors(q.children, r, rules)
    else
      IsVisible(q, r, rules) && Get(r, q.id).List? ==> InstancesHideNoErrors(q, Get(r, q.id).items, 0, rules)
  }

  predicate InstancesHideNoErrors(q: Question, items: seq<Value>, i: nat, rules: Rules)
    requires i <= |items|
    decreases q, 1, |items| - i
  {
    i == |items| || (GroupsHideNoErrors(q.children, AsResponse(items[i]), rules) && InstancesHideNoErrors(q, items, i + 1, rules))
  }

  // ---------------------------------------------------------------- one occurrence after the other

  predicate IsShownError(o: Occurrence, rules: Rules) {
    ErrorsAt(o, rules) != [] ==> o.shown
  }

  /** Every error is at an occurrence the state walk marks visible. */
  predicate ErrorsAreShown(os: seq<Occurrence>, rules: Rules) {
    forall k :: 0 <= k < |os| ==> IsShownError(os[k], rules)
  }

  lemma ShownConcat(a: seq<Occurrence>, b: seq<Occurrence>, rules: Rules)
    ensures ErrorsAreShown(a + b, rules) <==> ErrorsAreShown(a, rules) && ErrorsAreShown(b, rules)
  {
    hide IsShownError;
    forall k | 0 <= k < |a| ensures (a + b)[k] == a[k] { }
    forall k | 0 <= k < |b| ensures (a + b)[|a| + k] == b[k] { }
  }

  lemma OneShown(o: Occurrence, rest: seq<Occurrence>, rules: Rules)
    ensures ErrorsAreShown([], rules)
    ensures ErrorsAreShown([o] + rest, rules) <==> IsShownError(o, rules) && ErrorsAreShown(rest, rules)
  {
    hide IsShownError;
    ShownConcat([o], rest, rules);
    assert [o][0] == o;
  }

  lemma ErrorAnyPath(q: Question, r: Response, path: string, rules: Rules)
    ensures LeafError(q, r, path, rules) == [] <==> LeafError(q, r, "", rules) == []
  {
    hide IsEmpty, IsRequired, Holds;
  }

  lemma HiddenShownError(q: Question, r: Response, path: string, reached: bool, rules: Rules)
    ensures IsShownError(Occurrence(q, r, path, false, reached), rules) <==> !reached || !HasError(q, r, rules)
  {
    ErrorAnyPath(q, r, path, rules);
    hide LeafError, IsVisible;
  }

  /** Where the validator does not get there are no errors. */
  lemma {:induction false} UnreachedHasNone(qs: seq<Question>, r: Response, prefix: string, rules: Rules)
    ensures ErrorsAreShown(OccurList(qs, r, prefix, false, false, rules), rules)
    decreases qs, 0, 0
  {
    hide OccurOne, IsShownError;
    if qs != [] {
      OneUnreachedHasNone(qs[0], r, prefix, rules);
      UnreachedHasNone(qs[1..], r, prefix, rules);
    }
  }

  lemma {:induction false} OneUnreachedHasNone(q: Question, r: Response, prefix: string, rules: Rules)
    ensures ErrorsAreShown(OccurOne(q, r, prefix, false, false, rules), rules)
    decreases q, 2, 0
  {
    hide OccurList, OccurInstances, LeafError;
    if q.kind.Group? && !q.repeat {
      UnreachedHasNone(q.children, r, prefix, rules);
    } else if q.kind.Group? && Get(r, q.id).List? {
      InstancesUnreachedHaveNone(q, Get(r, q.id).items, 0, prefix, rules);
    }
  }

  lemma {:induction false} InstancesUnreachedHaveNone(q: Question, items: seq<Value>, i: nat, prefix: string, rules: Rules)
    requires i <= |items|
    ensures ErrorsAreShown(OccurInstances(q, items, i, prefix, false, false, rules), rules)
    decreases q, 1, |items| - i
  {
    hide OccurList, IsShownError, InstancePrefix;
    if i < |items| {
      UnreachedHasNone(q.children, AsResponse(items[i]), InstancePrefix(prefix, q, i), rules);
      InstancesUnreachedHaveNone(q, items, i + 1, prefix, rules);
    }
  }

  // ---------------------------------------------------------------- below a hidden plain group

  lemma {:induction false} HiddenShownIff(qs: seq<Question>, r: Response, prefix: string, rules: Rules)
    ensures ErrorsAreShown(OccurList(qs, r, prefix, false, true, rules), rules) <==> NoErrors(qs, r, rules)
    decreases qs, 0, 0
  {
    hide OccurOne, NoError, ErrorsAreShown;
    if qs != [] {
      OneHiddenShownIff(qs[0], r, prefix, rules);
      HiddenShownIff(qs[1..], r, prefix, rules);
      ShownConcat(OccurOne(qs[0], r, prefix, false, true, rules), OccurList(qs[1..], r, prefix, false, true, rules), rules);
    } else {
      NothingShown(rules);
    }
  }

  lemma NothingShown(rules: Rules)
    ensures ErrorsAreShown([], rules)
  {
  }

  lemma {:induction false} OneHiddenShownIff(q: Question, r: Response, prefix: string, rules: Rules)
    ensures ErrorsAreShown(OccurOne(q, r, prefix, false, true, rules), rules) <==> NoError(q, r, rules)
    decreases q, 2, 0
  {
    hide OccurList, OccurInstances, NoErrors, NoErrorsInInstances, IsVisible, ErrorsAreShown, IsShownError, LeafError;
    var visible := IsVisible(q, r, rules);
    var first := Occurrence(q, r, prefix + q.id, false, true);
    HiddenShownError(q, r, prefix + q.id, true, rules);
    OneShown(first, [], rules);
    if q.kind.Group? && !q.repeat {
      HiddenShownIff(q.children, r, prefix, rules);
      OneShown(first, OccurList(q.children, r, prefix, false, true, rules), rules);
    } else if q.kind.Group? && Get(r, q.id).List? {
      var items := Get(r, q.id).items;
      if visible {
        InstancesHiddenShownIff(q, items, 0, prefix, rules);
      } else {
        InstancesUnreachedHaveNone(q, items, 0, prefix, rules);
      }
      OneShown(first, OccurInstances(q, items, 0, prefix, false, visible, rules), rules);
    }
  }

  lemma {:induction false} InstancesHiddenShownIff(q: Question, items: seq<Value>, i: nat, prefix: string, rules: Rules)
    requires i <= |items|
    ensures ErrorsAreShown(OccurInstances(q, items, i, prefix, false, true, rules), rules) <==> NoErrorsInInstances(q, items, i, rules)
    decreases q, 1, |items| - i
  {
    hide OccurList, NoErrors, InstancePrefix, ErrorsAreShown;
    if i < |items| {
      var child, inner := AsResponse(items[i]), InstancePrefix(prefix, q, i);
      HiddenShownIff(q.children, child, inner, rules);
      InstancesHiddenShownIff(q, items, i + 1, prefix, rules);
      ShownConcat(OccurList(q.children, child, inner, false, true, rules), OccurInstances(q, items, i + 1, prefix, false, true, rules), rules);
    } else {
      NothingShown(rules);
    }
  }

  // ---------------------------------------------------------------- the whole form

  /** At any depth: every error is at an occurrence the walk marks visible exactly when no hidden plain group
      holds an answer with one. */
  lemma {:induction false} ShownIff(qs: seq<Question>, r: Response, prefix: string, rules: Rules)
    ensures ErrorsAreShown(OccurList(qs, r, prefix, true, true, rules), rules) <==> GroupsHideNoErrors(qs, r, rules)
    decreases qs, 0, 0
  {
    hide OccurOne, GroupHidesNoErrors, ErrorsAreShown;
    if qs != [] {
      OneShownIff(qs[0], r, prefix, rules);
      ShownIff(qs[1..], r, prefix, rules);
      ShownConcat(OccurOne(qs[0], r, prefix, true, true, rules), OccurList(qs[1..], r, prefix, true, true, rules), rules);
    } else {
      NothingShown(rules);
    }
  }

  lemma {:induction false} OneShownIff(q: Question, r: Response, prefix: string, rules: Rules)
    ensures ErrorsAreShown(OccurOne(q, r, prefix, true, true, rules), rules) <==> GroupHidesNoErrors(q, r, rules)
    decreases q, 2, 0
  {
    hide OccurList, OccurInstances, NoErrors, GroupsHideNoErrors, InstancesHideNoErrors, IsVisible, ErrorsAreShown, LeafError;
    var visible := IsVisible(q, r, rules);
    var first := Occurrence(q, r, prefix + q.id, visible, true);
    assert IsShownError(first, rules);
    hide IsShownError;
    OneShown(first, [], rules);
    if q.kind.Group? && !q.repeat {
      if visible {
        ShownIff(q.children, r, prefix, rules);
      } else {
        HiddenShownIff(q.children, r, prefix, rules);
      }
      OneShown(first, OccurList(q.children, r, prefix, visible, true, rules), rules);
    } else if q.kind.Group? && Get(r, q.id).List? {
      var items := Get(r, q.id).items;
      if visible {
        InstancesShownIff(q, items, 0, prefix, rules);
      } else {
        InstancesUnreachedHaveNone(q, items, 0, prefix, rules);
      }
      OneShown(first, OccurInstances(q, items, 0, prefix, visible, visible, rules), rules);
    }
  }

  lemma {:induction false} InstancesShownIff(q: Question, items: seq<Value>, i: nat, prefix: string, rules: Rules)
    requires i <= |items|
    ensures ErrorsAreShown(OccurInstances(q, items, i, prefix, true, true, rules), rules) <==> InstancesHideNoErrors(q, items, i, rules)
    decreases q, 1, |items| - i
  {
    hide OccurList, GroupsHideNoErrors, InstancePrefix, ErrorsAreShown;
    if i < |items| {
      var child, inner := AsResponse(items[i]), InstancePrefix(prefix, q, i);
      ShownIff(q.children, child, inner, rules);
      InstancesShownIff(q, items, i + 1, prefix, rules);
      ShownConcat(OccurList(q.children, child, inner, true, true, rules), OccurInstances(q, items, i + 1, prefix, true, true, rules), rules);
    } else {
      NothingShown(rules);
    }
  }

  // ---------------------------------------------------------------- the two error lists

  /** What the walk marks visible, the validator reaches and finds visible. */
  predicate ShownIsReached(os: seq<Occurrence>, rules: Rules) {
    forall k :: 0 <= k < |os| && os[k].shown ==> os[k].reached && IsVisible(os[k].q, os[k].r, rules)
  }

  lemma {:induction false} WalkShowsReached(qs: seq<Question>, r: Response, prefix: string, shown: bool, reached: bool, rules: Rules)
    requires shown ==> reached
    ensures ShownIsReached(OccurList(qs, r, prefix, shown, reached, rules), rules)
    decreases qs, 0, 0
  {
    hide OccurOne, IsVisible;
    if qs != [] {
      OneShowsReached(qs[0], r, prefix, shown, reached, rules);
      WalkShowsReached(qs[1..], r, prefix, shown, reached, rules);
    }
  }

  lemma {:induction false} OneShowsReached(q: Question, r: Response, prefix: string, shown: bool, reached: bool, rules: Rules)
    requires shown ==> reached
    ensures ShownIsReached(OccurOne(q, r, prefix, shown, reached, rules), rules)
    decreases q, 2, 0
  {
    hide OccurList, OccurInstances, IsVisible;
    var visible := IsVisible(q, r, rules);
    if q.kind.Group? && !q.repeat {
      WalkShowsReached(q.children, r, prefix, shown && visible, reached, rules);
    } else if q.kind.Group? && Get(r, q.id).List? {
      InstancesShowReached(q, Get(r, q.id).items, 0, prefix, shown && visible, reached && visible, rules);
    }
  }

  lemma {:induction false} InstancesShowReached(q: Question, items: seq<Value>, i: nat, prefix: string, shown: bool, reached: bool, rules: Rules)
    requires i <= |items| && (shown ==> reached)
    ensures ShownIsReached(OccurInstances(q, items, i, prefix, shown, reached, rules), rules)
    decreases q, 1, |items| - i
  {
    hide OccurList, IsVisible, InstancePrefix;
    if i < |items| {
      WalkShowsReached(q.children, AsResponse(items[i]), InstancePrefix(prefix, q, i), shown, reached, rules);
      InstancesShowReached(q, items, i + 1, prefix, shown, reached, rules);
    }
  }

  lemma {:induction false} SameErrorsIff(os: seq<Occurrence>, rules: Rules)
    requires ShownIsReached(os, rules)
    ensures |ShownErrors(os, rules)| <= |ErrorsOver(os, rules)|
    ensures ErrorsOver(os, rules) == ShownErrors(os, rules) <==> ErrorsAreShown(os, rules)
  {
    if os != [] {
      SameErrorsIff(os[1..], rules);
      assert os == [os[0]] + os[1..];
      OneShown(os[0], os[1..], rules);
      SameErrorsAt(os[0], rules);
      hide ErrorsAt, ShownErrorsAt, ErrorsAreShown, IsShownError;
      var e, es, ss := ErrorsAt(os[0], rules), ErrorsOver(os[1..], rules), ShownErrors(os[1..], rules);
      if IsShownError(os[0], rules) {
        assert (e + es)[|e|..] == es && (e + ss)[|e|..] == ss;
      } else {
        assert [] + ss == ss && |ss| < |e + es|;
      }
    }
  }

  lemma SameErrorsAt(o: Occurrence, rules: Rules)
    requires o.shown ==> o.reached && IsVisible(o.q, o.r, rules)
    ensures if IsShownError(o, rules) then ErrorsAt(o, rules) == ShownErrorsAt(o, rules)
            else ShownErrorsAt(o, rules) == [] && ErrorsAt(o, rules) != []
  {
    hide LeafError, IsVisible;
  }

  /** For every form and response the validator's errors are those of the answers that the state walk marks
      visible, in the same order, exactly when no hidden plain group that the validator reaches holds an answer
      that is visible by its own rule and has an error. */
  lemma ErrorsAreThoseShownIff(qs: seq<Question>, r: Response, rules: Rules)
    ensures ValidateList(qs, r, "", rules) == ShownErrors(OccurList(qs, r, "", true, true, rules), rules) <==>
            GroupsHideNoErrors(qs, r, rules)
  {
    var os := OccurList(qs, r, "", true, true, rules);
    ValidateFollowsOccurrences(qs, r, "", true, true, rules);
    WalkShowsReached(qs, r, "", true, true, rules);
    ShownIff(qs, r, "", rules);
    hide OccurList, ValidateList, GroupsHideNoErrors, ErrorsOver, ShownErrors, ShownIsReached, ErrorsAreShown;
    SameErrorsIff(os, rules);
  }
}
