/**
 The expression language of packages/form-schema/src/index.ts:1173-1487: values, operands,
 expressions and the evaluator. Whatever comes from the JavaScript host (number parsing, locale
 comparison, regular expressions, letter case, rounding to places, String of a value) is a record
 of functions, and the clock is a second one, so every theorem holds for all of them.
 */
module FormExpr {
  import opened Prelude

  /** Undefined is what a `switch` without a matching case leaves behind. */
  datatype Value =
    | Undefined
    | Null
    | Bool(b: bool)
    | Num(n: real)
    | Str(s: string)
    | List(items: seq<Value>)
    | Obj(fields: map<string, Value>)

  type Response = map<string, Value>

  datatype Operand =
    | Ref(id: string)
    | Const(value: Value)
    | Call(name: string, args: seq<Operand>)

  datatype BinOp = Eq | Neq | Gt | Gte | Lt | Lte | In | Matches(flags: string) | Add | Sub | Mul | Div

  /** `OtherOp` is an operator this build does not know. */
  datatype Expr =
    | Binary(op: BinOp, left: Operand, right: Operand)
    | And(conjuncts: seq<Expr>)
    | Or(disjuncts: seq<Expr>)
    | Not(operand: Expr)
    | Between(value: Operand, min: Operand, max: Operand)
    | Concat(operands: seq<Operand>)
    | If(condition: Expr, thn: Operand, els: Operand)
    | OtherOp(opName: string)

  datatype Host = Host(
    parseNumber: string -> Option<real>,
    compare: (string, string) -> int,
    matches: (string, string, string) -> bool,
    show: Value -> string,
    lower: string -> string,
    upper: string -> string,
    trim: string -> string,
    round: (real, real) -> real)

  datatype Clock = Clock(today: string, now: string)

  // ---------------------------------------------------------------- values

  predicate Truthy(v: Value) {
    match v
    case Undefined => false
    case Null => false
    case Bool(b) => b
    case Num(n) => n != 0.0
    case Str(s) => s != ""
    case _ => true
  }

  /** `response[id]`. */
  function Get(r: Response, id: string): Value {
    if id in r then r[id] else Undefined
  }

  /** `response[id] ?? null`. */
  function Lookup(r: Response, id: string): Value {
    if Get(r, id).Undefined? then Null else Get(r, id)
  }

  function Numeric(v: Value, host: Host): Option<real> {
    match v
    case Num(n) => Some(n)
    case Str(s) => if host.trim(s) == "" then None else host.parseNumber(s)
    case _ => None
  }

  /** `String(v ?? '')`. */
  function Text(v: Value, host: Host): string {
    match v
    case Undefined => ""
    case Null => ""
    case Str(s) => s
    case _ => host.show(v)
  }

  function CompareValues(a: Value, b: Value, host: Host): int {
    if a.Num? && b.Num? then (if a.n < b.n then -1 else if a.n > b.n then 1 else 0)
    else host.compare(Text(a, host), Text(b, host))
  }

  predicate OccursAt(hay: string, needle: string, k: nat) {
    k + |needle| <= |hay| && hay[k..k + |needle|] == needle
  }

  predicate Includes(hay: string, needle: string) {
    exists k: nat | k <= |hay| :: OccursAt(hay, needle, k)
  }

  function Arithmetic(op: BinOp, a: real, b: real): Value {
    match op
    case Add => Num(a + b)
    case Sub => Num(a - b)
    case Mul => Num(a * b)
    case Div => if b == 0.0 then Null else Num(a / b)
    case _ => Null
  }

  function ApplyBinary(op: BinOp, a: Value, b: Value, host: Host): Value {
    match op
    case Eq => Bool(a == b)
    case Neq => Bool(a != b)
    case Gt => Bool(CompareValues(a, b, host) > 0)
    case Gte => Bool(CompareValues(a, b, host) >= 0)
    case Lt => Bool(CompareValues(a, b, host) < 0)
    case Lte => Bool(CompareValues(a, b, host) <= 0)
    case In =>
      if b.List? then Bool(a in b.items)
      else Bool(a.Str? && b.Str? && Includes(b.s, a.s))
    case Matches(flags) => Bool(a.Str? && b.Str? && host.matches(b.s, flags, a.s))
    case _ =>
      var x, y := Numeric(a, host), Numeric(b, host);
      if x.None? || y.None? then Null else Arithmetic(op, x.value, y.value)
  }

  // ---------------------------------------------------------------- builtins

  /** The whitelist BUILTINS. */
  const BUILTINS: set<string> := {
    "today", "now", "len", "sum", "count", "coalesce", "lower", "upper", "trim", "contains", "starts_with", "ends_with",
    "substring", "abs", "round", "floor", "ceil", "min_of", "max_of", "selected"
  }

  const CLOCK_BUILTINS: set<string> := {"today", "now"}

  /** `args[k] ? resolve(args[k]) : null`. */
  function Arg(args: seq<Value>, k: nat): Value {
    if k < |args| then args[k] else Null
  }

  function Numbers(args: seq<Value>, host: Host): seq<real> {
    if args == [] then []
    else
      var n := Numeric(args[0], host);
      (if n.Some? then [n.value] else []) + Numbers(args[1..], host)
  }

  function SumOf(ns: seq<real>): real {
    if ns == [] then 0.0 else ns[0] + SumOf(ns[1..])
  }

  /** The smallest, or with `sign` -1 the largest, number; Null when there is none. */
  function Extreme(ns: seq<real>, sign: real): Value {
    if ns == [] then Null
    else
      var rest := Extreme(ns[1..], sign);
      if rest.Num? && sign * rest.n < sign * ns[0] then rest else Num(ns[0])
  }

  function FirstPresent(args: seq<Value>): Value {
    if args == [] then Null
    else if !args[0].Undefined? && !args[0].Null? && args[0] != Str("") then args[0]
    else FirstPresent(args[1..])
  }

  function Clamp(x: real, hi: nat): nat {
    if x <= 0.0 then 0 else if x.Floor >= hi then hi else x.Floor
  }

  function Substring(s: string, start: real, end: Option<real>): string {
    var a := Clamp(start, |s|);
    var b := if end.None? then |s| else Clamp(end.value, |s|);
    if a <= b then s[a..b] else s[b..a]
  }

  function MapText(v: Value, f: string -> string): Value {
    if v.Str? then Str(f(v.s)) else v
  }

  function MapNumber(v: Value, host: Host, f: real -> real): Value {
    var n := Numeric(v, host);
    if n.None? then Null else Num(f(n.value))
  }

  /** callBuiltin on resolved arguments; an unknown name falls off the switch. */
  function ApplyBuiltin(name: string, args: seq<Value>, host: Host, clock: Clock): Value {
    var a, b := Arg(args, 0), Arg(args, 1);
    if name == "today" then Str(clock.today)
    else if name == "now" then Str(clock.now)
    else if name == "len" then
      Num(if a.Str? then |a.s| as real else if a.List? then |a.items| as real else 0.0)
    else if name == "sum" then Num(SumOf(Numbers(args, host)))
    else if name == "count" then Num(if a.List? then |a.items| as real else 0.0)
    else if name == "coalesce" then FirstPresent(args)
    else if name == "lower" then MapText(a, host.lower)
    else if name == "upper" then MapText(a, host.upper)
    else if name == "trim" then MapText(a, host.trim)
    else if name == "contains" then Bool(a.Str? && b.Str? && Includes(a.s, b.s))
    else if name == "starts_with" then Bool(a.Str? && b.Str? && b.s <= a.s)
    else if name == "ends_with" then Bool(a.Str? && b.Str? && |b.s| <= |a.s| && a.s[|a.s| - |b.s|..] == b.s)
    else if name == "substring" then
      var start := if |args| > 1 then Numeric(b, host) else Some(0.0);
      var end := if |args| > 2 then Numeric(args[2], host) else None;
      Str(if a.Str? then Substring(a.s, if start.None? then 0.0 else start.value, end) else "")
    else if name == "abs" then MapNumber(a, host, (n: real) => if n < 0.0 then 0.0 - n else n)
    else if name == "round" then
      var places := if |args| > 1 then Numeric(b, host) else Some(0.0);
      MapNumber(a, host, (n: real) => host.round(n, if places.None? then 0.0 else places.value))
    else if name == "floor" then MapNumber(a, host, (n: real) => n.Floor as real)
    else if name == "ceil" then MapNumber(a, host, (n: real) => 0.0 - (0.0 - n).Floor as real)
    else if name == "min_of" then Extreme(Numbers(args, host), 1.0)
    else if name == "max_of" then Extreme(Numbers(args, host), -1.0)
    else if name == "selected" then Bool(if a.List? then b in a.items else a == b)
    else Undefined
  }

  // ---------------------------------------------------------------- evaluation

  function Resolve(o: Operand, r: Response, host: Host, clock: Clock): Value
    decreases o, 1
  {
    match o
    case Const(v) => v
    case Ref(id) => Lookup(r, id)
    case Call(name, args) => ApplyBuiltin(name, ResolveAll(args, r, host, clock), host, clock)
  }

  function ResolveAll(os: seq<Operand>, r: Response, host: Host, clock: Clock): (vs: seq<Value>)
    ensures |vs| == |os|
    decreases os, 0
  {
    if os == [] then [] else [Resolve(os[0], r, host, clock)] + ResolveAll(os[1..], r, host, clock)
  }

  function ConcatText(vs: seq<Value>, host: Host): string {
    if vs == [] then "" else Text(vs[0], host) + ConcatText(vs[1..], host)
  }

  function Evaluate(e: Expr, r: Response, host: Host, clock: Clock): Value
    decreases e, 1
  {
    match e
    case Binary(op, left, right) => ApplyBinary(op, Resolve(left, r, host, clock), Resolve(right, r, host, clock), host)
    case And(es) => Bool(EveryTrue(es, r, host, clock))
    case Or(es) => Bool(SomeTrue(es, r, host, clock))
    case Not(operand) => Bool(!Truthy(Evaluate(operand, r, host, clock)))
    case Between(value, min, max) =>
      var v := Numeric(Resolve(value, r, host, clock), host);
      var lo := Numeric(Resolve(min, r, host, clock), host);
      var hi := Numeric(Resolve(max, r, host, clock), host);
      Bool(v.Some? && lo.Some? && hi.Some? && lo.value <= v.value <= hi.value)
    case Concat(os) => Str(ConcatText(ResolveAll(os, r, host, clock), host))
    case If(condition, thn, els) =>
      if Truthy(Evaluate(condition, r, host, clock)) then Resolve(thn, r, host, clock) else Resolve(els, r, host, clock)
    case OtherOp(_) => Undefined
  }

  predicate EveryTrue(es: seq<Expr>, r: Response, host: Host, clock: Clock)
    decreases es, 0
  {
    es == [] || (Truthy(Evaluate(es[0], r, host, clock)) && EveryTrue(es[1..], r, host, clock))
  }

  predicate SomeTrue(es: seq<Expr>, r: Response, host: Host, clock: Clock)
    decreases es, 0
  {
    es != [] && (Truthy(Evaluate(es[0], r, host, clock)) || SomeTrue(es[1..], r, host, clock))
  }

  // ---------------------------------------------------------------- what an expression depends on

  function OperandRefs(o: Operand): set<string>
    decreases o, 1
  {
    match o
    case Const(_) => {}
    case Ref(id) => {id}
    case Call(_, args) => AllOperandRefs(args)
  }

  function AllOperandRefs(os: seq<Operand>): set<string>
    decreases os, 0
  {
    if os == [] then {} else OperandRefs(os[0]) + AllOperandRefs(os[1..])
  }

  function Refs(e: Expr): set<string>
    decreases e, 1
  {
    match e
    case Binary(_, left, right) => OperandRefs(left) + OperandRefs(right)
    case And(es) => AllRefs(es)
    case Or(es) => AllRefs(es)
    case Not(operand) => Refs(operand)
    case Between(value, min, max) => OperandRefs(value) + OperandRefs(min) + OperandRefs(max)
    case Concat(os) => AllOperandRefs(os)
    case If(condition, thn, els) => Refs(condition) + OperandRefs(thn) + OperandRefs(els)
    case OtherOp(_) => {}
  }

  function AllRefs(es: seq<Expr>): set<string>
    decreases es, 0
  {
    if es == [] then {} else Refs(es[0]) + AllRefs(es[1..])
  }

  function OperandCalls(o: Operand): set<string>
    decreases o, 1
  {
    match o
    case Call(name, args) => {name} + AllOperandCalls(args)
    case _ => {}
  }

  function AllOperandCalls(os: seq<Operand>): set<string>
    decreases os, 0
  {
    if os == [] then {} else OperandCalls(os[0]) + AllOperandCalls(os[1..])
  }

  /** Every builtin named anywhere in the expression. */
  function Calls(e: Expr): set<string>
    decreases e, 1
  {
    match e
    case Binary(_, left, right) => OperandCalls(left) + OperandCalls(right)
    case And(es) => AllCalls(es)
    case Or(es) => AllCalls(es)
    case Not(operand) => Calls(operand)
    case Between(value, min, max) => OperandCalls(value) + OperandCalls(min) + OperandCalls(max)
    case Concat(os) => AllOperandCalls(os)
    case If(condition, thn, els) => Calls(condition) + OperandCalls(thn) + OperandCalls(els)
    case OtherOp(_) => {}
  }

  function AllCalls(es: seq<Expr>): set<string>
    decreases es, 0
  {
    if es == [] then {} else Calls(es[0]) + AllCalls(es[1..])
  }

  predicate AgreeOn(ids: set<string>, r1: Response, r2: Response) {
    forall id :: id in ids ==> Lookup(r1, id) == Lookup(r2, id)
  }

  /** Two evaluations that may not be told apart by the clock. */
  predicate SameTime(calls: set<string>, c1: Clock, c2: Clock) {
    c1 == c2 || calls !! CLOCK_BUILTINS
  }

  lemma BuiltinIgnoresClock(name: string, args: seq<Value>, host: Host, c1: Clock, c2: Clock)
    requires c1 == c2 || name !in CLOCK_BUILTINS
    ensures ApplyBuiltin(name, args, host, c1) == ApplyBuiltin(name, args, host, c2)
  {
  }

  lemma {:induction false} ResolveDependsOnRefs(o: Operand, r1: Response, r2: Response, host: Host, c1: Clock, c2: Clock)
    requires AgreeOn(OperandRefs(o), r1, r2) && SameTime(OperandCalls(o), c1, c2)
    ensures Resolve(o, r1, host, c1) == Resolve(o, r2, host, c2)
    decreases o, 1
  {
    hide ApplyBuiltin;
    if o.Call? {
      ResolveAllDependsOnRefs(o.args, r1, r2, host, c1, c2);
      BuiltinIgnoresClock(o.name, ResolveAll(o.args, r2, host, c2), host, c1, c2);
    }
  }

  lemma {:induction false} ResolveAllDependsOnRefs(os: seq<Operand>, r1: Response, r2: Response, host: Host, c1: Clock, c2: Clock)
    requires AgreeOn(AllOperandRefs(os), r1, r2) && SameTime(AllOperandCalls(os), c1, c2)
    ensures ResolveAll(os, r1, host, c1) == ResolveAll(os, r2, host, c2)
    decreases os, 0
  {
    if os != [] {
      ResolveDependsOnRefs(os[0], r1, r2, host, c1, c2);
      ResolveAllDependsOnRefs(os[1..], r1, r2, host, c1, c2);
    }
  }

  /** Evaluation depends only on the ids an expression references, and on the clock only through
      its clock builtins. */
  lemma {:induction false} EvaluateDependsOnRefs(e: Expr, r1: Response, r2: Response, host: Host, c1: Clock, c2: Clock)
    requires AgreeOn(Refs(e), r1, r2) && SameTime(Calls(e), c1, c2)
    ensures Evaluate(e, r1, host, c1) == Evaluate(e, r2, host, c2)
    decreases e, 1
  {
    hide ApplyBinary, Numeric, Resolve, Lookup;
    match e {
      case Binary(_, left, right) =>
        ResolveDependsOnRefs(left, r1, r2, host, c1, c2);
        ResolveDependsOnRefs(right, r1, r2, host, c1, c2);
      case And(es) => JunctionDependsOnRefs(es, r1, r2, host, c1, c2);
      case Or(es) => JunctionDependsOnRefs(es, r1, r2, host, c1, c2);
      case Not(operand) => EvaluateDependsOnRefs(operand, r1, r2, host, c1, c2);
      case Between(value, min, max) =>
        ResolveDependsOnRefs(value, r1, r2, host, c1, c2);
        ResolveDependsOnRefs(min, r1, r2, host, c1, c2);
        ResolveDependsOnRefs(max, r1, r2, host, c1, c2);
      case Concat(os) => ResolveAllDependsOnRefs(os, r1, r2, host, c1, c2);
      case If(condition, thn, els) =>
        EvaluateDependsOnRefs(condition, r1, r2, host, c1, c2);
        ResolveDependsOnRefs(thn, r1, r2, host, c1, c2);
        ResolveDependsOnRefs(els, r1, r2, host, c1, c2);
      case OtherOp(_) =>
    }
  }

  lemma {:induction false} JunctionDependsOnRefs(es: seq<Expr>, r1: Response, r2: Response, host: Host, c1: Clock, c2: Clock)
    requires AgreeOn(AllRefs(es), r1, r2) && SameTime(AllCalls(es), c1, c2)
    ensures EveryTrue(es, r1, host, c1) == EveryTrue(es, r2, host, c2)
    ensures SomeTrue(es, r1, host, c1) == SomeTrue(es, r2, host, c2)
    decreases es, 0
  {
    hide Lookup;
    if es != [] {
      EvaluateDependsOnRefs(es[0], r1, r2, host, c1, c2);
      JunctionDependsOnRefs(es[1..], r1, r2, host, c1, c2);
    }
  }
}
