/**
 The engine-version walk: packages/form-schema/src/engine-version.ts:47-303. It lists what this build
 does not know; an evaluator that knows everything listed never falls off a switch.
 */
module EngineVersion {
  import opened Prelude
  import opened FormExpr
  import opened FormState

  const ENGINE_VERSION: nat := 1
  const UNKNOWN_VERSION: nat := ENGINE_VERSION + 1

  /** The table QUESTION_TYPE_ENGINE_VERSION, without the types that have a constructor of their own. */
  const PLAIN_TYPES: set<string> := {
    "text", "multiline", "email", "url", "phone", "regex", "number", "integer", "boolean", "select-one", "select-many",
    "matrix-dropdown", "ranking", "date", "time", "datetime", "name", "address", "photo", "audio", "video", "barcode",
    "sketch", "file", "image-choice", "image-hotspot", "signature", "geopoint", "rating", "likert", "nps", "slider",
    "acknowledge", "hidden"
  }

  const SCHEMA_VERSIONS: set<int> := {1}

  predicate KindKnown(kind: Kind) {
    kind.OtherKind? ==> kind.name in PLAIN_TYPES
  }

  /** `form.schemaVersion`, absent in a malformed form. */
  predicate SchemaKnown(schema: Option<int>) {
    schema.Some? && schema.value in SCHEMA_VERSIONS
  }

  // ---------------------------------------------------------------- what the walk must report

  function OperandUnknowns(o: Operand): set<string>
    decreases o, 1
  {
    if o.Call? then (if o.name in BUILTINS then {} else {"builtin:" + o.name}) + AllOperandUnknowns(o.args) else {}
  }

  function AllOperandUnknowns(os: seq<Operand>): set<string>
    decreases os, 0
  {
    if os == [] then {} else OperandUnknowns(os[0]) + AllOperandUnknowns(os[1..])
  }

  function ExprUnknowns(e: Expr): set<string>
    decreases e, 1
  {
    match e
    case Binary(_, left, right) => OperandUnknowns(left) + OperandUnknowns(right)
    case And(es) => AllExprUnknowns(es)
    case Or(es) => AllExprUnknowns(es)
    case Not(operand) => ExprUnknowns(operand)
    case Between(value, min, max) => OperandUnknowns(value) + OperandUnknowns(min) + OperandUnknowns(max)
    case Concat(os) => AllOperandUnknowns(os)
    case If(condition, thn, els) => ExprUnknowns(condition) + OperandUnknowns(thn) + OperandUnknowns(els)
    case OtherOp(name) => {"op:" + name}
  }

  function AllExprUnknowns(es: seq<Expr>): set<string>
    decreases es, 0
  {
    if es == [] then {} else ExprUnknowns(es[0]) + AllExprUnknowns(es[1..])
  }

  /** A question's own expressions. */
  function ExprsOf(q: Question): seq<Expr> {
    (if q.visibleIf.Some? then [q.visibleIf.value] else [])
    + (if q.required.When? then [q.required.e] else [])
    + (if q.constraint.Some? then [q.constraint.value] else [])
    + (if q.readOnly.When? then [q.readOnly.e] else [])
    + (if q.calculate.Some? then [q.calculate.value] else [])
  }

  function KindUnknowns(kind: Kind): set<string> {
    if KindKnown(kind) then {} else {"question-type:" + kind.name}
  }

  function QuestionUnknowns(q: Question): set<string>
    decreases q, 1
  {
    KindUnknowns(q.kind) + AllExprUnknowns(ExprsOf(q)) + FormUnknowns(q.children)
  }

  function FormUnknowns(qs: seq<Question>): set<string>
    decreases qs, 0
  {
    if qs == [] then {} else QuestionUnknowns(qs[0]) + FormUnknowns(qs[1..])
  }

  function SchemaUnknowns(schema: Option<int>, shown: string): set<string> {
    if SchemaKnown(schema) then {} else {"schema-version:" + shown}
  }

  // ---------------------------------------------------------------- the walk

  /** engineRequirement's captured `version` and `unknown`, updated by its walkers. */
  class EngineWalk {
    var version: nat
    var unknown: set<string>

    ghost predicate Valid()
      reads this
    {
      version == if unknown == {} then 1 else UNKNOWN_VERSION
    }

    constructor ()
      ensures Valid() && unknown == {}
    {
      version, unknown := 1, {};
    }

    /** `known` is a table hit; every table entry is version 1. */
    method Need(known: bool, feature: string)
      requires Valid()
      modifies this
      ensures Valid() && unknown == old(unknown) + if known then {} else {feature}
    {
      if !known {
        unknown := unknown + {feature};
        version := Max(version, UNKNOWN_VERSION);
        assert feature in unknown;
      } else {
        version := Max(version, 1);
      }
    }

    method WalkOperand(o: Operand)
      requires Valid()
      modifies this
      ensures Valid() && unknown == old(unknown) + OperandUnknowns(o)
      decreases o, 1
    {
      if o.Call? {
        Need(o.name in BUILTINS, "builtin:" + o.name);
        WalkOperands(o.args);
      }
    }

    method WalkOperands(os: seq<Operand>)
      requires Valid()
      modifies this
      ensures Valid() && unknown == old(unknown) + AllOperandUnknowns(os)
      decreases os, 0
    {
      for n := 0 to |os|
        invariant Valid() && unknown + AllOperandUnknowns(os[n..]) == old(unknown) + AllOperandUnknowns(os)
      {
        assert os[n..][1..] == os[n + 1..];
        WalkOperand(os[n]);
      }
    }

    method WalkExpression(e: Expr)
      requires Valid()
      modifies this
      ensures Valid() && unknown == old(unknown) + ExprUnknowns(e)
      decreases e, 1
    {
      hide OperandUnknowns, AllOperandUnknowns;
      Need(!e.OtherOp?, if e.OtherOp? then "op:" + e.opName else "");
      match e {
        case And(es) => WalkExpressions(es);
        case Or(es) => WalkExpressions(es);
        case Not(operand) => WalkExpression(operand);
        case Between(value, min, max) =>
          WalkOperand(value);
          WalkOperand(min);
          WalkOperand(max);
        case Concat(os) => WalkOperands(os);
        case If(condition, thn, els) =>
          WalkExpression(condition);
          WalkOperand(thn);
          WalkOperand(els);
        case Binary(_, left, right) =>
          WalkOperand(left);
          WalkOperand(right);
        case OtherOp(_) =>
      }
    }

    method WalkExpressions(es: seq<Expr>)
      requires Valid()
      modifies this
      ensures Valid() && unknown == old(unknown) + AllExprUnknowns(es)
      decreases es, 0
    {
      hide ExprUnknowns;
      for n := 0 to |es|
        invariant Valid() && unknown + AllExprUnknowns(es[n..]) == old(unknown) + AllExprUnknowns(es)
      {
        assert es[n..][1..] == es[n + 1..];
        WalkExpression(es[n]);
      }
    }

    method WalkQuestion(q: Question)
      requires Valid()
      modifies this
      ensures Valid() && unknown == old(unknown) + QuestionUnknowns(q)
      decreases q, 1
    {
      hide AllExprUnknowns, ExprsOf, FormUnknowns;
      Need(KindKnown(q.kind), if q.kind.OtherKind? then "question-type:" + q.kind.name else "");
      WalkExpressions(ExprsOf(q));
      WalkQuestions(q.children);
    }

    method WalkQuestions(qs: seq<Question>)
      requires Valid()
      modifies this
      ensures Valid() && unknown == old(unknown) + FormUnknowns(qs)
      decreases qs, 0
    {
      hide QuestionUnknowns;
      for n := 0 to |qs|
        invariant Valid() && unknown + FormUnknowns(qs[n..]) == old(unknown) + FormUnknowns(qs)
      {
        assert qs[n..][1..] == qs[n + 1..];
        WalkQuestion(qs[n]);
      }
    }
  }

  /** engineRequirement; `shown` is String(schemaVersion). */
  method EngineRequirement(schema: Option<int>, shown: string, qs: seq<Question>) returns (version: nat, unknown: set<string>)
    ensures unknown == SchemaUnknowns(schema, shown) + FormUnknowns(qs)
    ensures version == if unknown == {} then 1 else 2
  {
    var walk := new EngineWalk();
    walk.Need(SchemaKnown(schema), "schema-version:" + shown);
    walk.WalkQuestions(qs);
    version, unknown := walk.version, walk.unknown;
  }

  // ---------------------------------------------------------------- every feature, by enumeration

  /** Every question at every depth, under any kind of container. */
  function AllQuestions(qs: seq<Question>): seq<Question>
    decreases qs, 0
  {
    if qs == [] then [] else [qs[0]] + AllQuestions(qs[0].children) + AllQuestions(qs[1..])
  }

  /** Every operator in the expression has a case in evaluate. */
  predicate OpsKnown(e: Expr) {
    match e
    case And(es) => forall k :: 0 <= k < |es| ==> OpsKnown(es[k])
    case Or(es) => forall k :: 0 <= k < |es| ==> OpsKnown(es[k])
    case Not(operand) => OpsKnown(operand)
    case If(condition, _, _) => OpsKnown(condition)
    case OtherOp(_) => false
    case _ => true
  }

  predicate ExprKnown(e: Expr) {
    OpsKnown(e) && Calls(e) <= BUILTINS
  }

  predicate QuestionKnown(q: Question) {
    KindKnown(q.kind) && forall k :: 0 <= k < |ExprsOf(q)| ==> ExprKnown(ExprsOf(q)[k])
  }

  lemma {:induction false} OperandReport(o: Operand)
    ensures OperandUnknowns(o) == {} <==> OperandCalls(o) <= BUILTINS
    decreases o, 1
  {
    hide AllOperandUnknowns, AllOperandCalls;
    if o.Call? {
      AllOperandReport(o.args);
      assert "builtin:" + o.name in {"builtin:" + o.name};
      assert o.name in OperandCalls(o);
      assert AllOperandCalls(o.args) <= OperandCalls(o);
    }
  }

  lemma {:induction false} AllOperandReport(os: seq<Operand>)
    ensures AllOperandUnknowns(os) == {} <==> AllOperandCalls(os) <= BUILTINS
    decreases os, 0
  {
    hide OperandUnknowns, OperandCalls;
    if os != [] {
      OperandReport(os[0]);
      AllOperandReport(os[1..]);
    }
  }

  lemma {:induction false} ExprReport(e: Expr)
    ensures ExprUnknowns(e) == {} <==> ExprKnown(e)
    decreases e, 1
  {
    hide OperandUnknowns, OperandCalls, AllOperandUnknowns, AllOperandCalls, AllExprUnknowns, AllCalls;
    match e {
      case Binary(_, left, right) =>
        OperandReport(left);
        OperandReport(right);
      case And(es) => AllExprReport(es);
      case Or(es) => AllExprReport(es);
      case Not(operand) => ExprReport(operand);
      case Between(value, min, max) =>
        OperandReport(value);
        OperandReport(min);
        OperandReport(max);
      case Concat(os) => AllOperandReport(os);
      case If(condition, thn, els) =>
        ExprReport(condition);
        OperandReport(thn);
        OperandReport(els);
      case OtherOp(name) => assert "op:" + name in ExprUnknowns(e);
    }
  }

  lemma {:induction false} AllExprReport(es: seq<Expr>)
    ensures AllExprUnknowns(es) == {} <==> forall k :: 0 <= k < |es| ==> ExprKnown(es[k])
    ensures AllExprUnknowns(es) == {} <==> (forall k :: 0 <= k < |es| ==> OpsKnown(es[k])) && AllCalls(es) <= BUILTINS
    decreases es, 0
  {
    hide ExprUnknowns, OpsKnown, Calls;
    if es != [] {
      ExprReport(es[0]);
      AllExprReport(es[1..]);
      assert AllExprUnknowns(es) == {} <==> ExprUnknowns(es[0]) == {} && AllExprUnknowns(es[1..]) == {};
      assert forall k :: 0 < k < |es| ==> es[k] == es[1..][k - 1];
      assert (forall k :: 0 <= k < |es| ==> ExprKnown(es[k])) <==> ExprKnown(es[0]) && forall k :: 0 <= k < |es[1..]| ==> ExprKnown(es[1..][k]);
      assert (forall k :: 0 <= k < |es| ==> OpsKnown(es[k])) <==> OpsKnown(es[0]) && forall k :: 0 <= k < |es[1..]| ==> OpsKnown(es[1..][k]);
    }
  }

  predicate AllKnown(qs: seq<Question>) {
    forall q :: q in AllQuestions(qs) ==> QuestionKnown(q)
  }

  lemma {:induction false} FormReport(qs: seq<Question>)
    ensures FormUnknowns(qs) == {} <==> AllKnown(qs)
    decreases qs, 0
  {
    hide AllExprUnknowns, ExprsOf, QuestionKnown;
    if qs != [] {
      var q := qs[0];
      FormReport(q.children);
      FormReport(qs[1..]);
      QuestionReport(q);
      assert q in AllQuestions(qs);
    }
  }

  lemma QuestionReport(q: Question)
    ensures QuestionUnknowns(q) == {} <==> QuestionKnown(q) && FormUnknowns(q.children) == {}
  {
    hide FormUnknowns, AllExprUnknowns, ExprsOf, ExprKnown;
    AllExprReport(ExprsOf(q));
    if !KindKnown(q.kind) {
      assert "question-type:" + q.kind.name in QuestionUnknowns(q);
    }
  }

  /** The required version exceeds this build exactly when some reachable question type, operator,
      builtin or schema version is unknown to it. */
  lemma RequiredVersionIsExact(schema: Option<int>, shown: string, qs: seq<Question>)
    ensures SchemaUnknowns(schema, shown) + FormUnknowns(qs) == {} <==> SchemaKnown(schema) && AllKnown(qs)
  {
    FormReport(qs);
    hide FormUnknowns, AllKnown;
    if !SchemaKnown(schema) {
      assert "schema-version:" + shown in SchemaUnknowns(schema, shown);
    }
  }

  /** engineSupports. */
  method EngineSupports(schema: Option<int>, shown: string, qs: seq<Question>) returns (ok: bool)
    ensures ok <==> SchemaKnown(schema) && AllKnown(qs)
  {
    var version, unknown := EngineRequirement(schema, shown, qs);
    RequiredVersionIsExact(schema, shown, qs);
    ok := version <= ENGINE_VERSION;
  }

  // ---------------------------------------------------------------- falling off a switch

  /** Evaluating the operand reaches a builtin without a case in callBuiltin. */
  predicate OperandFalls(o: Operand) {
    o.Call? && (o.name !in BUILTINS || exists k :: 0 <= k < |o.args| && OperandFalls(o.args[k]))
  }

  /** Evaluating `e` against `r` reaches an operator or builtin without a case: only the conjuncts and
      disjuncts before the short cut, and only the branch taken. */
  predicate Falls(e: Expr, r: Response, host: Host, clock: Clock)
    decreases e, 1
  {
    match e
    case Binary(_, left, right) => OperandFalls(left) || OperandFalls(right)
    case And(es) => ConjunctFalls(es, r, host, clock)
    case Or(es) => DisjunctFalls(es, r, host, clock)
    case Not(operand) => Falls(operand, r, host, clock)
    case Between(value, min, max) => OperandFalls(value) || OperandFalls(min) || OperandFalls(max)
    case Concat(os) => exists k :: 0 <= k < |os| && OperandFalls(os[k])
    case If(condition, thn, els) =>
      Falls(condition, r, host, clock)
      || OperandFalls(if Truthy(Evaluate(condition, r, host, clock)) then thn else els)
    case OtherOp(_) => true
  }

  predicate ConjunctFalls(es: seq<Expr>, r: Response, host: Host, clock: Clock)
    decreases es, 0
  {
    es != []
    && (Falls(es[0], r, host, clock) || (Truthy(Evaluate(es[0], r, host, clock)) && ConjunctFalls(es[1..], r, host, clock)))
  }

  predicate DisjunctFalls(es: seq<Expr>, r: Response, host: Host, clock: Clock)
    decreases es, 0
  {
    es != []
    && (Falls(es[0], r, host, clock) || (!Truthy(Evaluate(es[0], r, host, clock)) && DisjunctFalls(es[1..], r, host, clock)))
  }

  lemma {:induction false} ArgCallsAreCalls(os: seq<Operand>, k: nat)
    requires k < |os|
    ensures OperandCalls(os[k]) <= AllOperandCalls(os)
  {
    if k > 0 {
      ArgCallsAreCalls(os[1..], k - 1);
    }
  }

  lemma {:induction false} KnownOperandStands(o: Operand)
    requires OperandCalls(o) <= BUILTINS
    ensures !OperandFalls(o)
  {
    hide OperandCalls, AllOperandCalls;
    if o.Call? {
      CallParts(o);
      forall k | 0 <= k < |o.args| ensures !OperandFalls(o.args[k]) {
        ArgCallsAreCalls(o.args, k);
        KnownOperandStands(o.args[k]);
      }
    }
  }

  lemma CallParts(o: Operand)
    requires o.Call?
    ensures o.name in OperandCalls(o) && AllOperandCalls(o.args) <= OperandCalls(o)
  {
  }

  lemma {:induction false} KnownExprStands(e: Expr, r: Response, host: Host, clock: Clock)
    requires ExprKnown(e)
    ensures !Falls(e, r, host, clock)
    decreases e, 1
  {
    hide OperandCalls, OperandFalls, AllOperandCalls, Evaluate, ConjunctFalls, DisjunctFalls, AllCalls;
    match e {
      case Binary(_, left, right) =>
        KnownOperandStands(left);
        KnownOperandStands(right);
      case And(es) => KnownListStands(es, r, host, clock);
      case Or(es) => KnownListStands(es, r, host, clock);
      case Not(operand) => KnownExprStands(operand, r, host, clock);
      case Between(value, min, max) =>
        KnownOperandStands(value);
        KnownOperandStands(min);
        KnownOperandStands(max);
      case Concat(os) =>
        forall k | 0 <= k < |os| ensures !OperandFalls(os[k]) {
          ArgCallsAreCalls(os, k);
          KnownOperandStands(os[k]);
        }
      case If(condition, thn, els) =>
        KnownExprStands(condition, r, host, clock);
        KnownOperandStands(thn);
        KnownOperandStands(els);
    }
  }

  lemma {:induction false} KnownListStands(es: seq<Expr>, r: Response, host: Host, clock: Clock)
    requires (forall k :: 0 <= k < |es| ==> OpsKnown(es[k])) && AllCalls(es) <= BUILTINS
    ensures !ConjunctFalls(es, r, host, clock) && !DisjunctFalls(es, r, host, clock)
    decreases es, 0
  {
    hide OpsKnown, Calls, Evaluate, Falls;
    if es != [] {
      KnownExprStands(es[0], r, host, clock);
      KnownListStands(es[1..], r, host, clock);
    }
  }

  /** A supported form never falls off a switch: at any depth, any of a question's expressions,
      evaluated against any response at any time, stays within the known operators and builtins. */
  lemma SupportedFormStands(schema: Option<int>, shown: string, qs: seq<Question>, q: Question, k: nat, r: Response, host: Host, clock: Clock)
    requires SchemaUnknowns(schema, shown) + FormUnknowns(qs) == {}
    requires q in AllQuestions(qs) && k < |ExprsOf(q)|
    ensures !Falls(ExprsOf(q)[k], r, host, clock)
  {
    hide ExprsOf, FormUnknowns;
    RequiredVersionIsExact(schema, shown, qs);
    KnownExprStands(ExprsOf(q)[k], r, host, clock);
  }

  /** An operator this build does not know leaves `undefined` behind, which a negation turns into true:
      the silent mis-evaluation the version check is there to prevent. */
  lemma UnknownOperatorIsSilent(name: string, r: Response, host: Host, clock: Clock)
    ensures Evaluate(Not(OtherOp(name)), r, host, clock) == Bool(true)
    ensures Falls(Not(OtherOp(name)), r, host, clock)
    ensures ExprUnknowns(Not(OtherOp(name))) == {"op:" + name}
  {
    assert Evaluate(OtherOp(name), r, host, clock) == Undefined;
  }

  // ---------------------------------------------------------------- supported forms evaluate to values

  predicate OperandDefined(o: Operand) {
    match o
    case Const(v) => !v.Undefined?
    case Ref(_) => true
    case Call(_, args) => forall k :: 0 <= k < |args| ==> OperandDefined(args[k])
  }

  lemma {:induction false} ResolvedAt(os: seq<Operand>, r: Response, host: Host, clock: Clock, k: nat)
    requires k < |os|
    ensures ResolveAll(os, r, host, clock)[k] == Resolve(os[k], r, host, clock)
  {
    hide Resolve;
    if k > 0 {
      ResolvedAt(os[1..], r, host, clock, k - 1);
    }
  }

  lemma FirstPresentDefined(args: seq<Value>)
    ensures !FirstPresent(args).Undefined?
  {
  }

  lemma KnownBuiltinDefined(name: string, args: seq<Value>, host: Host, clock: Clock)
    requires name in BUILTINS && forall k :: 0 <= k < |args| ==> !args[k].Undefined?
    ensures !ApplyBuiltin(name, args, host, clock).Undefined?
  {
    hide Numbers, Numeric, SumOf, Substring, Includes;
    FirstPresentDefined(args);
    ExtremeDefined(Numbers(args, host), 1.0);
    ExtremeDefined(Numbers(args, host), -1.0);
  }

  lemma ExtremeDefined(ns: seq<real>, sign: real)
    ensures !Extreme(ns, sign).Undefined?
  {
  }

  /** With known builtins and JSON constants an operand always resolves to a value. */
  lemma {:induction false} KnownOperandHasValue(o: Operand, r: Response, host: Host, clock: Clock)
    requires OperandCalls(o) <= BUILTINS && OperandDefined(o)
    ensures !Resolve(o, r, host, clock).Undefined?
  {
    hide OperandCalls, AllOperandCalls, ApplyBuiltin, ResolveAll;
    if o.Call? {
      CallParts(o);
      var args := ResolveAll(o.args, r, host, clock);
      forall k | 0 <= k < |args| ensures !args[k].Undefined? {
        ArgCallsAreCalls(o.args, k);
        ResolvedAt(o.args, r, host, clock, k);
        KnownOperandHasValue(o.args[k], r, host, clock);
      }
      KnownBuiltinDefined(o.name, args, host, clock);
    }
  }

  /** So does a known expression whose results are JSON constants, answers or known builtins. */
  lemma KnownExprHasValue(e: Expr, r: Response, host: Host, clock: Clock)
    requires ExprKnown(e) && (e.If? ==> OperandDefined(e.thn) && OperandDefined(e.els))
    ensures !Evaluate(e, r, host, clock).Undefined?
  {
    hide Resolve, OperandCalls, OperandDefined, Numeric, CompareValues, Includes;
    if e.If? {
      KnownOperandHasValue(e.thn, r, host, clock);
      KnownOperandHasValue(e.els, r, host, clock);
    }
  }

  // ---------------------------------------------------------------- what the report names

  /** The names of operators without a case, at any depth. */
  function OtherOps(e: Expr): set<string>
    decreases e, 1
  {
    match e
    case And(es) => AllOtherOps(es)
    case Or(es) => AllOtherOps(es)
    case Not(operand) => OtherOps(operand)
    case If(condition, _, _) => OtherOps(condition)
    case OtherOp(name) => {name}
    case _ => {}
  }

  function AllOtherOps(es: seq<Expr>): set<string>
    decreases es, 0
  {
    if es == [] then {} else OtherOps(es[0]) + AllOtherOps(es[1..])
  }

  ghost predicate Named(x: string, calls: set<string>, ops: set<string>) {
    (exists name :: name in calls && name !in BUILTINS && x == "builtin:" + name) || (exists name :: name in ops && x == "op:" + name)
  }

  lemma NamedUnion(x: string, calls: set<string>, ops: set<string>, calls': set<string>, ops': set<string>)
    ensures Named(x, calls + calls', ops + ops') <==> Named(x, calls, ops) || Named(x, calls', ops')
  {
  }

  lemma NamedMore(x: string, calls: set<string>, ops: set<string>, calls': set<string>)
    ensures Named(x, calls + calls', ops) <==> Named(x, calls, ops) || Named(x, calls', {})
  {
  }

  lemma NamedNothing(x: string)
    ensures !Named(x, {}, {})
  {
  }

  lemma {:induction false} OperandNames(o: Operand, x: string)
    ensures x in OperandUnknowns(o) <==> Named(x, OperandCalls(o), {})
    decreases o, 1
  {
    hide AllOperandUnknowns, AllOperandCalls, Named;
    if o.Call? {
      AllOperandNames(o.args, x);
      NamedMore(x, {o.name}, {}, AllOperandCalls(o.args));
      OneCall(x, o.name);
    } else {
      NamedNothing(x);
    }
  }

  lemma OneCall(x: string, name: string)
    ensures Named(x, {name}, {}) <==> name !in BUILTINS && x == "builtin:" + name
  {
    assert name in {name};
  }

  lemma OneOp(x: string, name: string)
    ensures Named(x, {}, {name}) <==> x == "op:" + name
  {
    assert name in {name};
  }

  lemma {:induction false} AllOperandNames(os: seq<Operand>, x: string)
    ensures x in AllOperandUnknowns(os) <==> Named(x, AllOperandCalls(os), {})
    decreases os, 0
  {
    hide OperandUnknowns, OperandCalls, Named;
    NamedNothing(x);
    if os != [] {
      OperandNames(os[0], x);
      AllOperandNames(os[1..], x);
      NamedMore(x, OperandCalls(os[0]), {}, AllOperandCalls(os[1..]));
    }
  }

  lemma {:induction false} ExprNames(e: Expr, x: string)
    ensures x in ExprUnknowns(e) <==> Named(x, Calls(e), OtherOps(e))
    decreases e, 1
  {
    hide OperandUnknowns, OperandCalls, AllOperandUnknowns, AllOperandCalls, AllExprUnknowns, AllCalls, AllOtherOps, Named;
    match e {
      case Binary(_, left, right) =>
        OperandNames(left, x);
        OperandNames(right, x);
        NamedMore(x, OperandCalls(left), {}, OperandCalls(right));
      case And(es) => AllExprNames(es, x);
      case Or(es) => AllExprNames(es, x);
      case Not(operand) => ExprNames(operand, x);
      case Between(value, min, max) =>
        OperandNames(value, x);
        OperandNames(min, x);
        OperandNames(max, x);
        NamedMore(x, OperandCalls(value), {}, OperandCalls(min));
        NamedMore(x, OperandCalls(value) + OperandCalls(min), {}, OperandCalls(max));
      case Concat(os) => AllOperandNames(os, x);
      case If(condition, thn, els) =>
        ExprNames(condition, x);
        OperandNames(thn, x);
        OperandNames(els, x);
        NamedMore(x, Calls(condition), OtherOps(condition), OperandCalls(thn));
        NamedMore(x, Calls(condition) + OperandCalls(thn), OtherOps(condition), OperandCalls(els));
      case OtherOp(name) => OneOp(x, name);
    }
  }

  lemma {:induction false} AllExprNames(es: seq<Expr>, x: string)
    ensures x in AllExprUnknowns(es) <==> Named(x, AllCalls(es), AllOtherOps(es))
    decreases es, 0
  {
    hide ExprUnknowns, Calls, OtherOps, Named;
    NamedNothing(x);
    if es != [] {
      ExprNames(es[0], x);
      AllExprNames(es[1..], x);
      NamedUnion(x, Calls(es[0]), OtherOps(es[0]), AllCalls(es[1..]), AllOtherOps(es[1..]));
    }
  }

  /** What a question's own type and expressions put in the report. */
  ghost predicate QuestionNames(q: Question, x: string) {
    || (q.kind.OtherKind? && q.kind.name !in PLAIN_TYPES && x == "question-type:" + q.kind.name)
    || Named(x, AllCalls(ExprsOf(q)), AllOtherOps(ExprsOf(q)))
  }

  ghost predicate FormNames(qs: seq<Question>, x: string) {
    exists q :: q in AllQuestions(qs) && QuestionNames(q, x)
  }

  /** The report names exactly the unknown question types, operators and builtins that occur anywhere in
      the form. */
  lemma {:induction false} ReportNames(qs: seq<Question>, x: string)
    ensures x in FormUnknowns(qs) <==> FormNames(qs, x)
    decreases qs
  {
    hide QuestionNames, Named, AllExprUnknowns, ExprsOf, KindUnknowns;
    if qs != [] {
      var q := qs[0];
      ReportNames(q.children, x);
      ReportNames(qs[1..], x);
      OwnNames(q, x);
      assert q in AllQuestions(qs);
    }
  }

  lemma OwnNames(q: Question, x: string)
    ensures QuestionNames(q, x) <==> x in KindUnknowns(q.kind) + AllExprUnknowns(ExprsOf(q))
  {
    hide Named, AllExprUnknowns, ExprsOf;
    AllExprNames(ExprsOf(q), x);
  }

  /** A schema version is known exactly when it is 1. */
  lemma SchemaMeans(schema: Option<int>, shown: string)
    ensures SchemaUnknowns(schema, shown) == if schema == Some(1) then {} else {"schema-version:" + shown}
  {
  }
}
