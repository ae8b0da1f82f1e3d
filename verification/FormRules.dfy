/**
 What a question's rules decide, and which error a question gets
 (packages/form-schema/src/index.ts:1624-1727 and 1764-1776), in terms of what its expressions evaluate to.
 */
module FormRules {
  import opened Prelude
  import opened FormExpr
  import opened FormMeaning
  import opened FormState
  import opened Slices

  /** What an expression is worth as a condition. */
  predicate Fulfilled(e: Expr, r: Response, rules: Rules) {
    !IsFalsy(Evaluate(e, r, rules.host, rules.clock))
  }

  predicate FlagIsSet(f: Flag, r: Response, rules: Rules) {
    match f
    case Absent => false
    case Always(b) => b
    case When(e) => Fulfilled(e, r, rules)
  }

  lemma HoldsMeans(e: Expr, r: Response, rules: Rules)
    ensures Holds(e, r, rules) <==> Fulfilled(e, r, rules)
  {
    TruthyReads(Evaluate(e, r, rules.host, rules.clock));
  }

  /** Shown unless switched off or its rule is not fulfilled; required and read-only by their flags, and read-only too
      when it is calculated. */
  lemma RulesMean(q: Question, r: Response, rules: Rules)
    ensures IsVisible(q, r, rules) <==> q.visible && (q.visibleIf.Some? ==> Fulfilled(q.visibleIf.value, r, rules))
    ensures IsRequired(q, r, rules) <==> FlagIsSet(q.required, r, rules)
    ensures IsReadOnly(q, r, rules) <==> q.kind == Calculated || q.calculate.Some? || FlagIsSet(q.readOnly, r, rules)
  {
    if q.visibleIf.Some? {
      HoldsMeans(q.visibleIf.value, r, rules);
    }
    if q.required.When? {
      HoldsMeans(q.required.e, r, rules);
    }
    if q.readOnly.When? {
      HoldsMeans(q.readOnly.e, r, rules);
    }
    hide IsFalsy, Truthy;
  }

  /** Nothing, blank text, an empty list and an object with nothing in it are empty; a number or a truth value never. */
  lemma EmptyMeans(v: Value, host: Host)
    ensures v in {Undefined, Null} ==> IsEmpty(v, host)
    ensures v.Bool? || v.Num? ==> !IsEmpty(v, host)
    ensures v.Str? ==> (IsEmpty(v, host) <==> host.trim(v.s) == "")
    ensures v.List? ==> (IsEmpty(v, host) <==> |v.items| == 0)
    ensures v.Obj? ==> (IsEmpty(v, host) <==> forall k :: k in v.fields ==> IsEmpty(v.fields[k], host))
  {
  }

  predicate ChecksRows(q: Question) {
    q.kind in {MatrixSingle, MatrixMulti, MatrixRating} && q.perRow
  }

  predicate HasNoControl(q: Question) {
    q.kind in {Geotrace, Geoshape, PickFeature, Route, AreaBuffer}
  }

  /** The error of a question that is neither a group nor a display: missing if it is required, empty and can be
      answered at all; nothing more for an empty answer, unless rows are checked; else what its type says, else its
      message if its constraint is not fulfilled. */
  function ErrorOf(q: Question, r: Response, rules: Rules): Option<string> {
    var value := if q.id in r then r[q.id] else Undefined;
    var empty := IsEmpty(value, rules.host);
    if !q.visible || (q.visibleIf.Some? && !Fulfilled(q.visibleIf.value, r, rules)) then None
    else if FlagIsSet(q.required, r, rules) && empty && !HasNoControl(q) then Some("This field is required.")
    else if empty && !ChecksRows(q) then None
    else if rules.typeError(q, value) !in {None, Some("")} then rules.typeError(q, value)
    else if q.constraint.Some? && !Fulfilled(q.constraint.value, r, rules) then Some(q.message)
    else None
  }

  /** A form of one question reports that error and no other. */
  lemma QuestionErrorMeans(q: Question, r: Response, rules: Rules)
    requires !q.kind.Group?
    ensures ValidateList([q], r, "", rules) ==
            if q.kind in {Page, Note, Divider, ImageDisplay} || ErrorOf(q, r, rules).None? then []
            else [ValidationError(q.id, ErrorOf(q, r, rules).value)]
  {
    RulesMean(q, r, rules);
    if q.constraint.Some? {
      HoldsMeans(q.constraint.value, r, rules);
    }
    assert "" + q.id == q.id && [q][1..] == [];
    assert ValidateList([q], r, "", rules) == ValidateOne(q, r, "", rules) + [];
    hide IsVisible, IsRequired, Holds, Fulfilled, FlagIsSet, IsEmpty, ValidateList;
  }

  /** Errors are reported question by question; a plain group adds nothing of its own. */
  lemma ListsOfErrors(a: seq<Question>, b: seq<Question>, group: Question, r: Response, prefix: string, rules: Rules)
    ensures ValidateList(a + b, r, prefix, rules) == ValidateList(a, r, prefix, rules) + ValidateList(b, r, prefix, rules)
    ensures group.kind.Group? && !group.repeat ==> ValidateList([group], r, prefix, rules) == ValidateList(group.children, r, prefix, rules)
  {
    ErrorsConcat(a, b, r, prefix, rules);
    assert [group][1..] == [];
  }

  lemma {:induction false} ErrorsConcat(a: seq<Question>, b: seq<Question>, r: Response, prefix: string, rules: Rules)
    ensures ValidateList(a + b, r, prefix, rules) == ValidateList(a, r, prefix, rules) + ValidateList(b, r, prefix, rules)
  {
    hide ValidateOne;
    if a == [] {
      assert a + b == b;
    } else {
      var first, front, back := ValidateOne(a[0], r, prefix, rules), ValidateList(a[1..], r, prefix, rules), ValidateList(b, r, prefix, rules);
      ErrorsConcat(a[1..], b, r, prefix, rules);
      assert (a + b)[0] == a[0] && (a + b)[1..] == a[1..] + b;
      assert ValidateList(a, r, prefix, rules) == first + front;
      assert ValidateList(a + b, r, prefix, rules) == first + ValidateList(a[1..] + b, r, prefix, rules);
      hide ValidateList;
      Concat3(first, front, back);
    }
  }

  /** A visible repeat group is validated instance by instance; without a list of them there is nothing to say. */
  lemma RepeatGroupErrors(group: Question, r: Response, prefix: string, rules: Rules)
    requires group.kind.Group? && group.repeat
    ensures var shown := group.visible && (group.visibleIf.Some? ==> Fulfilled(group.visibleIf.value, r, rules));
            ValidateList([group], r, prefix, rules) ==
            if shown && group.id in r && r[group.id].List? then ValidateInstances(group, r[group.id].items, 0, prefix, rules) else []
  {
    RulesMean(group, r, rules);
    hide IsVisible, Fulfilled, ValidateInstances, ValidateList;
    OneQuestion(group, r, prefix, rules);
  }

  lemma OneQuestion(q: Question, r: Response, prefix: string, rules: Rules)
    ensures ValidateList([q], r, prefix, rules) == ValidateOne(q, r, prefix, rules)
  {
    assert [q][1..] == [] && ValidateList([], r, prefix, rules) == [];
    assert ValidateList([q], r, prefix, rules) == ValidateOne(q, r, prefix, rules) + [];
  }

  /** Each instance is its own response, anything but an object an empty one, and has its own path. */
  lemma {:induction false} InstancesOfErrors(group: Question, items: seq<Value>, item: Value, i: nat, prefix: string, rules: Rules)
    requires i <= |items|
    ensures i == |items| ==> ValidateInstances(group, items, i, prefix, rules) == []
    ensures ValidateInstances(group, items + [item], i, prefix, rules) ==
            ValidateInstances(group, items, i, prefix, rules)
            + ValidateList(group.children, if item.Obj? then item.fields else map[], prefix + group.id + "[" + NatDigits(|items|) + "].", rules)
    decreases |items| - i
  {
    hide ValidateList, NatDigits;
    var longer, last := items + [item], ValidateList(group.children, AsResponse(item), InstancePrefix(prefix, group, |items|), rules);
    if i < |items| {
      var first, rest := ValidateList(group.children, AsResponse(items[i]), InstancePrefix(prefix, group, i), rules), ValidateInstances(group, items, i + 1, prefix, rules);
      InstancesOfErrors(group, items, item, i + 1, prefix, rules);
      assert longer[i] == items[i];
      assert ValidateInstances(group, longer, i, prefix, rules) == first + ValidateInstances(group, longer, i + 1, prefix, rules);
      assert ValidateInstances(group, items, i, prefix, rules) == first + rest;
      hide ValidateInstances;
      Concat3(first, rest, last);
    } else {
      assert longer[i] == item && ValidateInstances(group, longer, i + 1, prefix, rules) == [];
      assert last + [] == last && [] + last == last;
    }
  }
}
