/**
 Questions, the validator and the whole-form state walk: packages/form-schema/src/index.ts:1611-1727
 and 1764-1776, packages/form-schema/src/runtime-state.ts:28-96. A repeat instance is its own
 evaluation context; a plain group shares its parent's.
 */
module FormState {
  import opened Prelude
  import opened FormExpr
  import opened Slices

  datatype Kind =
    | Group | Page | Note | Divider | ImageDisplay | Calculated
    | MatrixSingle | MatrixMulti | MatrixRating
    | Geotrace | Geoshape | PickFeature | Route | AreaBuffer
    | OtherKind(name: string)

  datatype Flag = Absent | Always(b: bool) | When(e: Expr)

  /** `perRow` is perRowRequired / perRowMinSelected of the matrix types; `repeat` and `children`
      matter for groups only. */
  datatype Question = Question(
    id: string,
    kind: Kind,
    visible: bool,
    visibleIf: Option<Expr>,
    required: Flag,
    constraint: Option<Expr>,
    message: string,
    readOnly: Flag,
    calculate: Option<Expr>,
    perRow: bool,
    repeat: bool,
    children: seq<Question>)

  /** The evaluator's host and clock, and validateType as an uninterpreted check. */
  datatype Rules = Rules(host: Host, clock: Clock, typeError: (Question, Value) -> Option<string>)

  predicate IsDisplay(q: Question) {
    q.kind.Page? || q.kind.Note? || q.kind.Divider? || q.kind.ImageDisplay?
  }

  predicate IsUncapturable(q: Question) {
    q.kind.Geotrace? || q.kind.Geoshape? || q.kind.PickFeature? || q.kind.Route? || q.kind.AreaBuffer?
  }

  predicate Holds(e: Expr, r: Response, rules: Rules) {
    Truthy(Evaluate(e, r, rules.host, rules.clock))
  }

  predicate IsVisible(q: Question, r: Response, rules: Rules) {
    q.visible && (q.visibleIf.None? || Holds(q.visibleIf.value, r, rules))
  }

  predicate IsRequired(q: Question, r: Response, rules: Rules) {
    match q.required
    case Absent => false
    case Always(b) => b
    case When(e) => Holds(e, r, rules)
  }

  predicate IsReadOnly(q: Question, r: Response, rules: Rules) {
    q.kind.Calculated? || q.calculate.Some?
    || match q.readOnly
       case Absent => false
       case Always(b) => b
       case When(e) => Holds(e, r, rules)
  }

  predicate IsEmpty(v: Value, host: Host) {
    match v
    case Undefined => true
    case Null => true
    case Str(s) => host.trim(s) == ""
    case List(items) => items == []
    case Obj(fields) => forall k | k in fields :: IsEmpty(fields[k], host)
    case _ => false
  }

  /** A repeat instance as an evaluation context: anything but an object counts as empty. */
  function AsResponse(v: Value): Response {
    if v.Obj? then v.fields else map[]
  }

  function InstancePrefix(prefix: string, q: Question, i: nat): string {
    prefix + q.id + "[" + NatDigits(i) + "]."
  }

  // ---------------------------------------------------------------- validate

  datatype ValidationError = ValidationError(questionId: string, message: string)

  const REQUIRED_MESSAGE := "This field is required."

  predicate SkipIfEmpty(q: Question) {
    !((q.kind.MatrixSingle? || q.kind.MatrixMulti? || q.kind.MatrixRating?) && q.perRow)
  }

  /** The one error, if any, of a visible non-group, non-display question. */
  function LeafError(q: Question, r: Response, path: string, rules: Rules): seq<ValidationError> {
    var value := Get(r, q.id);
    var empty := IsEmpty(value, rules.host);
    if IsRequired(q, r, rules) && empty && !IsUncapturable(q) then [ValidationError(path, REQUIRED_MESSAGE)]
    else if empty && SkipIfEmpty(q) then []
    else
      var typeError := rules.typeError(q, value);
      if typeError.Some? && typeError.value != "" then [ValidationError(path, typeError.value)]
      else if q.constraint.Some? && !Holds(q.constraint.value, r, rules) then [ValidationError(path, q.message)]
      else []
  }

  function ValidateList(qs: seq<Question>, r: Response, prefix: string, rules: Rules): seq<ValidationError>
    decreases qs, 0, 0
  {
    if qs == [] then [] else ValidateOne(qs[0], r, prefix, rules) + ValidateList(qs[1..], r, prefix, rules)
  }

  function ValidateOne(q: Question, r: Response, prefix: string, rules: Rules): seq<ValidationError>
    decreases q, 2, 0
  {
    if IsDisplay(q) then []
    else if q.kind.Group? then
      if !q.repeat then ValidateList(q.children, r, prefix, rules)
      else if !IsVisible(q, r, rules) || !Get(r, q.id).List? then []
      else ValidateInstances(q, Get(r, q.id).items, 0, prefix, rules)
    else if !IsVisible(q, r, rules) then []
    else LeafError(q, r, prefix + q.id, rules)
  }

  function ValidateInstances(q: Question, items: seq<Value>, i: nat, prefix: string, rules: Rules): seq<ValidationError>
    requires i <= |items|
    decreases q, 1, |items| - i
  {
    if i == |items| then []
    else
      ValidateList(q.children, AsResponse(items[i]), InstancePrefix(prefix, q, i), rules)
      + ValidateInstances(q, items, i + 1, prefix, rules)
  }

  /** validateQuestionList: pushes onto a shared error list while it recurses. */
  method ValidateQuestionList(qs: seq<Question>, r: Response, prefix: string, rules: Rules, errors: seq<ValidationError>)
    returns (all: seq<ValidationError>)
    ensures all == errors + ValidateList(qs, r, prefix, rules)
    decreases qs, 0
  {
    hide LeafError, IsVisible, IsEmpty, InstancePrefix;
    all := errors;
    for n := 0 to |qs|
      invariant all + ValidateList(qs[n..], r, prefix, rules) == errors + ValidateList(qs, r, prefix, rules)
    {
      assert qs[n..][1..] == qs[n + 1..];
      all := ValidateQuestion(qs[n], r, prefix, rules, all);
    }
    assert qs[|qs|..] == [];
  }

  method ValidateInstanceLoop(q: Question, instances: seq<Value>, prefix: string, rules: Rules, errors: seq<ValidationError>)
    returns (all: seq<ValidationError>)
    ensures all == errors + ValidateInstances(q, instances, 0, prefix, rules)
    decreases q, 0
  {
    hide ValidateList, InstancePrefix;
    all := errors;
    for i := 0 to |instances|
      invariant all + ValidateInstances(q, instances, i, prefix, rules) == errors + ValidateInstances(q, instances, 0, prefix, rules)
    {
      all := ValidateQuestionList(q.children, AsResponse(instances[i]), InstancePrefix(prefix, q, i), rules, all);
    }
  }

  method ValidateQuestion(q: Question, r: Response, prefix: string, rules: Rules, errors: seq<ValidationError>)
    returns (all: seq<ValidationError>)
    ensures all == errors + ValidateOne(q, r, prefix, rules)
    decreases q, 1
  {
    hide LeafError, IsVisible, IsEmpty, InstancePrefix;
    all := errors;
    if IsDisplay(q) {
      return;
    }
    if q.kind.Group? {
      if !q.repeat {
        all := ValidateQuestionList(q.children, r, prefix, rules, errors);
        return;
      }
      if !IsVisible(q, r, rules) || !Get(r, q.id).List? {
        return;
      }
      all := ValidateInstanceLoop(q, Get(r, q.id).items, prefix, rules, errors);
      return;
    }
    if IsVisible(q, r, rules) {
      all := errors + LeafError(q, r, prefix + q.id, rules);
    }
  }

  // ---------------------------------------------------------------- the state walk

  datatype QuestionState = QuestionState(path: string, id: string, visible: bool, required: bool, readOnly: bool)

  function StateOf(q: Question, r: Response, prefix: string, parentVisible: bool, rules: Rules): QuestionState {
    QuestionState(prefix + q.id, q.id, parentVisible && IsVisible(q, r, rules), IsRequired(q, r, rules), IsReadOnly(q, r, rules))
  }

  function WalkList(qs: seq<Question>, r: Response, prefix: string, parentVisible: bool, rules: Rules): seq<QuestionState>
    decreases qs, 0, 0
  {
    if qs == [] then []
    else WalkOne(qs[0], r, prefix, parentVisible, rules) + WalkList(qs[1..], r, prefix, parentVisible, rules)
  }

  function WalkOne(q: Question, r: Response, prefix: string, parentVisible: bool, rules: Rules): seq<QuestionState>
    decreases q, 2, 0
  {
    [StateOf(q, r, prefix, parentVisible, rules)]
    + var visible := parentVisible && IsVisible(q, r, rules);
      if !q.kind.Group? then []
      else if !q.repeat then WalkList(q.children, r, prefix, visible, rules)
      else if !Get(r, q.id).List? then []
      else WalkInstances(q, Get(r, q.id).items, 0, prefix, visible, rules)
  }

  function WalkInstances(q: Question, items: seq<Value>, i: nat, prefix: string, visible: bool, rules: Rules): seq<QuestionState>
    requires i <= |items|
    decreases q, 1, |items| - i
  {
    if i == |items| then []
    else
      WalkList(q.children, AsResponse(items[i]), InstancePrefix(prefix, q, i), visible, rules)
      + WalkInstances(q, items, i + 1, prefix, visible, rules)
  }

  /** walk: pushes one entry per question occurrence onto a shared list. */
  method Walk(qs: seq<Question>, r: Response, prefix: string, parentVisible: bool, rules: Rules, out: seq<QuestionState>)
    returns (all: seq<QuestionState>)
    ensures all == out + WalkList(qs, r, prefix, parentVisible, rules)
    decreases qs, 0
  {
    hide StateOf, IsVisible, InstancePrefix;
    all := out;
    for n := 0 to |qs|
      invariant all + WalkList(qs[n..], r, prefix, parentVisible, rules) == out + WalkList(qs, r, prefix, parentVisible, rules)
    {
      assert qs[n..][1..] == qs[n + 1..];
      all := WalkQuestion(qs[n], r, prefix, parentVisible, rules, all);
    }
    assert qs[|qs|..] == [];
  }

  method WalkInstanceLoop(q: Question, instances: seq<Value>, prefix: string, visible: bool, rules: Rules, out: seq<QuestionState>)
    returns (all: seq<QuestionState>)
    ensures all == out + WalkInstances(q, instances, 0, prefix, visible, rules)
    decreases q, 0
  {
    hide WalkList, InstancePrefix;
    all := out;
    for i := 0 to |instances|
      invariant all + WalkInstances(q, instances, i, prefix, visible, rules) == out + WalkInstances(q, instances, 0, prefix, visible, rules)
    {
      all := Walk(q.children, AsResponse(instances[i]), InstancePrefix(prefix, q, i), visible, rules, all);
    }
  }

  method WalkQuestion(q: Question, r: Response, prefix: string, parentVisible: bool, rules: Rules, out: seq<QuestionState>)
    returns (all: seq<QuestionState>)
    ensures all == out + WalkOne(q, r, prefix, parentVisible, rules)
    decreases q, 1
  {
    hide IsVisible, InstancePrefix, StateOf;
    var visible := parentVisible && IsVisible(q, r, rules);
    var state := StateOf(q, r, prefix, parentVisible, rules);
    all := out + [state];
    ghost var rest: seq<QuestionState> := [];
    if q.kind.Group? {
      if !q.repeat {
        rest := WalkList(q.children, r, prefix, visible, rules);
        all := Walk(q.children, r, prefix, visible, rules, all);
      } else if Get(r, q.id).List? {
        rest := WalkInstances(q, Get(r, q.id).items, 0, prefix, visible, rules);
        all := WalkInstanceLoop(q, Get(r, q.id).items, prefix, visible, rules, all);
      }
    }
    Concat3(out, [state], rest);
  }
}
