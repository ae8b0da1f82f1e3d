/**
 What every operator and every builtin of the expression language computes
 (packages/form-schema/src/index.ts:1173-1487), in terms of the operands' values and of the host alone.
 */
module FormMeaning {
  import opened Prelude
  import opened FormExpr

  // ---------------------------------------------------------------- how values are read

  /** A finite number, or a text that is not blank and parses as one. */
  predicate ReadsAsNumber(v: Value, n: real, host: Host) {
    v == Num(n) || (v.Str? && host.trim(v.s) != "" && host.parseNumber(v.s) == Some(n))
  }

  ghost predicate IsNumeric(v: Value, host: Host) {
    exists n :: ReadsAsNumber(v, n, host)
  }

  /** Nothing reads as the empty text, a text as itself, anything else as the host spells it. */
  predicate ReadsAsText(v: Value, t: string, host: Host) {
    if v in {Undefined, Null} then t == ""
    else if v.Str? then t == v.s
    else t == host.show(v)
  }

  predicate IsFalsy(v: Value) {
    v in {Undefined, Null, Bool(false), Num(0.0), Str("")}
  }

  predicate IsAbsent(v: Value) {
    v in {Undefined, Null, Str("")}
  }

  lemma NumericReads(v: Value, host: Host)
    ensures forall n :: Numeric(v, host) == Some(n) <==> ReadsAsNumber(v, n, host)
    ensures Numeric(v, host).None? <==> !IsNumeric(v, host)
  {
    if Numeric(v, host).Some? {
      assert ReadsAsNumber(v, Numeric(v, host).value, host);
    }
  }

  lemma TextReads(v: Value, host: Host)
    ensures forall t :: Text(v, host) == t <==> ReadsAsText(v, t, host)
  {
  }

  lemma TruthyReads(v: Value)
    ensures Truthy(v) <==> !IsFalsy(v)
  {
  }

  // ---------------------------------------------------------------- operands

  /** A constant is itself; a reference is the answer, or null where there is none. */
  lemma OperandMeans(v: Value, id: string, r: Response, host: Host, clock: Clock)
    ensures Resolve(Const(v), r, host, clock) == v
    ensures id in r && !r[id].Undefined? ==> Resolve(Ref(id), r, host, clock) == r[id]
    ensures id !in r || r[id].Undefined? ==> Resolve(Ref(id), r, host, clock) == Null
  {
  }

  lemma {:induction false} ArgumentMeans(os: seq<Operand>, r: Response, host: Host, clock: Clock, k: nat)
    requires k < |os|
    ensures ResolveAll(os, r, host, clock)[k] == Resolve(os[k], r, host, clock)
  {
    if k > 0 {
      ArgumentMeans(os[1..], r, host, clock, k - 1);
    }
  }

  lemma {:induction false} ArgumentsConcat(a: seq<Operand>, b: seq<Operand>, r: Response, host: Host, clock: Clock)
    ensures ResolveAll(a + b, r, host, clock) == ResolveAll(a, r, host, clock) + ResolveAll(b, r, host, clock)
  {
    if a == [] {
      assert a + b == b;
    } else {
      ArgumentsConcat(a[1..], b, r, host, clock);
      assert (a + b)[1..] == a[1..] + b;
    }
  }

  // ---------------------------------------------------------------- comparisons

  function Compared(op: BinOp, left: Operand, right: Operand, r: Response, host: Host, clock: Clock): Value {
    Evaluate(Binary(op, left, right), r, host, clock)
  }

  /** Two numbers compare as numbers. */
  lemma NumbersCompare(left: Operand, right: Operand, r: Response, host: Host, clock: Clock)
    requires Resolve(left, r, host, clock).Num? && Resolve(right, r, host, clock).Num?
    ensures var x, y := Resolve(left, r, host, clock).n, Resolve(right, r, host, clock).n;
            && Compared(Gt, left, right, r, host, clock) == Bool(x > y)
            && Compared(Gte, left, right, r, host, clock) == Bool(x >= y)
            && Compared(Lt, left, right, r, host, clock) == Bool(x < y)
            && Compared(Lte, left, right, r, host, clock) == Bool(x <= y)
  {
  }

  /** Anything else compares as the host orders the two texts. */
  lemma TextsCompare(left: Operand, right: Operand, r: Response, host: Host, clock: Clock, s: string, t: string)
    requires !(Resolve(left, r, host, clock).Num? && Resolve(right, r, host, clock).Num?)
    requires ReadsAsText(Resolve(left, r, host, clock), s, host) && ReadsAsText(Resolve(right, r, host, clock), t, host)
    ensures Compared(Gt, left, right, r, host, clock) == Bool(host.compare(s, t) > 0)
    ensures Compared(Gte, left, right, r, host, clock) == Bool(host.compare(s, t) >= 0)
    ensures Compared(Lt, left, right, r, host, clock) == Bool(host.compare(s, t) < 0)
    ensures Compared(Lte, left, right, r, host, clock) == Bool(host.compare(s, t) <= 0)
  {
    TextReads(Resolve(left, r, host, clock), host);
    TextReads(Resolve(right, r, host, clock), host);
  }

  lemma EqualityMeans(left: Operand, right: Operand, r: Response, host: Host, clock: Clock)
    ensures Compared(Eq, left, right, r, host, clock) == Bool(Resolve(left, r, host, clock) == Resolve(right, r, host, clock))
    ensures Compared(Neq, left, right, r, host, clock) == Bool(Resolve(left, r, host, clock) != Resolve(right, r, host, clock))
  {
  }

  // ---------------------------------------------------------------- texts within texts

  ghost predicate Contains(hay: string, needle: string) {
    exists before, after :: hay == before + needle + after
  }

  lemma IncludesIsContains(hay: string, needle: string)
    ensures Includes(hay, needle) <==> Contains(hay, needle)
  {
    if Includes(hay, needle) {
      var k: nat :| k <= |hay| && OccursAt(hay, needle, k);
      assert hay == hay[..k] + needle + hay[k + |needle|..];
    }
    if Contains(hay, needle) {
      var before, after :| hay == before + needle + after;
      assert OccursAt(hay, needle, |before|);
    }
  }

  /** Membership of a list, an occurrence in a text, and nothing else. */
  lemma InMeans(left: Operand, right: Operand, r: Response, host: Host, clock: Clock)
    ensures var a, b := Resolve(left, r, host, clock), Resolve(right, r, host, clock);
            var result := Compared(In, left, right, r, host, clock);
            && (b.List? ==> result == Bool(exists k :: 0 <= k < |b.items| && b.items[k] == a))
            && (a.Str? && b.Str? ==> result == Bool(Contains(b.s, a.s)))
            && (!b.List? && !(a.Str? && b.Str?) ==> result == Bool(false))
  {
    var a, b := Resolve(left, r, host, clock), Resolve(right, r, host, clock);
    if a.Str? && b.Str? {
      IncludesIsContains(b.s, a.s);
    }
  }

  lemma MatchesMeans(flags: string, left: Operand, right: Operand, r: Response, host: Host, clock: Clock)
    ensures var a, b := Resolve(left, r, host, clock), Resolve(right, r, host, clock);
            Compared(Matches(flags), left, right, r, host, clock) == Bool(a.Str? && b.Str? && host.matches(b.s, flags, a.s))
  {
  }

  // ---------------------------------------------------------------- arithmetic

  lemma NumbersCombine(op: BinOp, a: Value, b: Value, x: real, y: real, host: Host)
    requires op in {Add, Sub, Mul, Div} && ReadsAsNumber(a, x, host) && ReadsAsNumber(b, y, host)
    ensures ApplyBinary(op, a, b, host) == Arithmetic(op, x, y)
  {
    NumericReads(a, host);
    NumericReads(b, host);
    hide Arithmetic, ReadsAsNumber, Numeric;
  }

  lemma ResultsMean(x: real, y: real)
    ensures Arithmetic(Add, x, y) == Num(x + y) && Arithmetic(Sub, x, y) == Num(x - y) && Arithmetic(Mul, x, y) == Num(x * y)
    ensures if y == 0.0 then Arithmetic(Div, x, y) == Null else Arithmetic(Div, x, y).Num? && Arithmetic(Div, x, y).n * y == x
  {
  }

  /** Sum, difference, product and quotient of the numbers the operands read as. */
  lemma ArithmeticMeans(left: Operand, right: Operand, r: Response, host: Host, clock: Clock, x: real, y: real)
    requires ReadsAsNumber(Resolve(left, r, host, clock), x, host) && ReadsAsNumber(Resolve(right, r, host, clock), y, host)
    ensures Compared(Add, left, right, r, host, clock) == Num(x + y)
    ensures Compared(Sub, left, right, r, host, clock) == Num(x - y)
    ensures Compared(Mul, left, right, r, host, clock) == Num(x * y)
    ensures var q := Compared(Div, left, right, r, host, clock);
            if y == 0.0 then q == Null else q.Num? && q.n * y == x
  {
    hide Resolve, Arithmetic, ApplyBinary, ReadsAsNumber;
    forall op | op in {Add, Sub, Mul, Div} ensures Compared(op, left, right, r, host, clock) == Arithmetic(op, x, y) {
      NumbersCombine(op, Resolve(left, r, host, clock), Resolve(right, r, host, clock), x, y, host);
    }
    hide Compared;
    ResultsMean(x, y);
  }

  /** An operand that is no number makes it null. */
  lemma ArithmeticNeedsNumbers(op: BinOp, left: Operand, right: Operand, r: Response, host: Host, clock: Clock)
    requires op in {Add, Sub, Mul, Div}
    requires !IsNumeric(Resolve(left, r, host, clock), host) || !IsNumeric(Resolve(right, r, host, clock), host)
    ensures Compared(op, left, right, r, host, clock) == Null
  {
    NumericReads(Resolve(left, r, host, clock), host);
    NumericReads(Resolve(right, r, host, clock), host);
  }

  ghost predicate LiesBetween(v: Value, lo: Value, hi: Value, host: Host) {
    exists x, y, z :: ReadsAsNumber(v, x, host) && ReadsAsNumber(lo, y, host) && ReadsAsNumber(hi, z, host) && y <= x <= z
  }

  lemma BetweenReads(v: Value, lo: Value, hi: Value, host: Host)
    ensures var a, b, c := Numeric(v, host), Numeric(lo, host), Numeric(hi, host);
            LiesBetween(v, lo, hi, host) <==> a.Some? && b.Some? && c.Some? && b.value <= a.value <= c.value
  {
    NumericReads(v, host);
    NumericReads(lo, host);
    NumericReads(hi, host);
    var a, b, c := Numeric(v, host), Numeric(lo, host), Numeric(hi, host);
    if a.Some? && b.Some? && c.Some? && b.value <= a.value <= c.value {
      assert ReadsAsNumber(v, a.value, host) && ReadsAsNumber(lo, b.value, host) && ReadsAsNumber(hi, c.value, host);
    }
  }

  /** All three are numbers and the first lies between the others, bounds included. */
  lemma BetweenMeans(value: Operand, min: Operand, max: Operand, r: Response, host: Host, clock: Clock)
    ensures Evaluate(Between(value, min, max), r, host, clock) ==
            Bool(LiesBetween(Resolve(value, r, host, clock), Resolve(min, r, host, clock), Resolve(max, r, host, clock), host))
  {
    BetweenReads(Resolve(value, r, host, clock), Resolve(min, r, host, clock), Resolve(max, r, host, clock), host);
    hide Numeric, LiesBetween;
  }

  // ---------------------------------------------------------------- connectives

  lemma {:induction false} JunctionMeans(es: seq<Expr>, r: Response, host: Host, clock: Clock)
    ensures EveryTrue(es, r, host, clock) <==> forall k :: 0 <= k < |es| ==> !IsFalsy(Evaluate(es[k], r, host, clock))
    ensures SomeTrue(es, r, host, clock) <==> exists k :: 0 <= k < |es| && !IsFalsy(Evaluate(es[k], r, host, clock))
  {
    hide IsFalsy;
    if es != [] {
      JunctionMeans(es[1..], r, host, clock);
      TruthyReads(Evaluate(es[0], r, host, clock));
      assert es == [es[0]] + es[1..];
      hide Truthy;
    }
  }

  /** Conjunction, disjunction and negation of what the operands are as conditions. */
  lemma ConnectivesMean(es: seq<Expr>, e: Expr, r: Response, host: Host, clock: Clock)
    ensures Evaluate(And(es), r, host, clock) == Bool(forall k :: 0 <= k < |es| ==> !IsFalsy(Evaluate(es[k], r, host, clock)))
    ensures Evaluate(Or(es), r, host, clock) == Bool(exists k :: 0 <= k < |es| && !IsFalsy(Evaluate(es[k], r, host, clock)))
    ensures Evaluate(Not(e), r, host, clock) == Bool(IsFalsy(Evaluate(e, r, host, clock)))
  {
    JunctionMeans(es, r, host, clock);
    TruthyReads(Evaluate(e, r, host, clock));
    hide IsFalsy, Truthy;
  }

  /** The branch its condition picks. */
  lemma IfMeans(condition: Expr, thn: Operand, els: Operand, r: Response, host: Host, clock: Clock)
    ensures !IsFalsy(Evaluate(condition, r, host, clock)) ==>
              Evaluate(If(condition, thn, els), r, host, clock) == Resolve(thn, r, host, clock)
    ensures IsFalsy(Evaluate(condition, r, host, clock)) ==>
              Evaluate(If(condition, thn, els), r, host, clock) == Resolve(els, r, host, clock)
  {
    TruthyReads(Evaluate(condition, r, host, clock));
    hide IsFalsy, Truthy;
  }

  lemma {:induction false} TextsConcat(a: seq<Value>, b: seq<Value>, host: Host)
    ensures ConcatText(a + b, host) == ConcatText(a, host) + ConcatText(b, host)
  {
    hide ConcatText, Text;
    FirstText(a, host);
    FirstText(a + b, host);
    if a == [] {
      assert a + b == b;
    } else {
      TextsConcat(a[1..], b, host);
      assert (a + b)[0] == a[0] && (a + b)[1..] == a[1..] + b;
      Regrouped(Text(a[0], host), ConcatText(a[1..], host), ConcatText(b, host));
    }
  }

  lemma Regrouped(s: string, t: string, u: string)
    ensures s + (t + u) == (s + t) + u
  {
  }

  lemma FirstText(vs: seq<Value>, host: Host)
    ensures ConcatText(vs, host) == if vs == [] then "" else Text(vs[0], host) + ConcatText(vs[1..], host)
  {
  }

  /** The texts of the operands, one after the other. */
  lemma ConcatMeans(a: seq<Operand>, b: seq<Operand>, o: Operand, t: string, r: Response, host: Host, clock: Clock)
    requires ReadsAsText(Resolve(o, r, host, clock), t, host)
    ensures Evaluate(Concat([]), r, host, clock) == Str("") && Evaluate(Concat([o]), r, host, clock) == Str(t)
    ensures Evaluate(Concat(a), r, host, clock).Str? && Evaluate(Concat(b), r, host, clock).Str?
    ensures Evaluate(Concat(a + b), r, host, clock) == Str(Evaluate(Concat(a), r, host, clock).s + Evaluate(Concat(b), r, host, clock).s)
  {
    TextReads(Resolve(o, r, host, clock), host);
    ArgumentsConcat(a, b, r, host, clock);
    TextsConcat(ResolveAll(a, r, host, clock), ResolveAll(b, r, host, clock), host);
    assert ResolveAll([o], r, host, clock) == [Resolve(o, r, host, clock)];
    assert ConcatText([Resolve(o, r, host, clock)], host) == t;
  }

  // ---------------------------------------------------------------- builtins

  function Called(name: string, args: seq<Operand>, r: Response, host: Host, clock: Clock): Value {
    Resolve(Call(name, args), r, host, clock)
  }

  /** The value of an argument; null where there is none. */
  function ArgumentAt(args: seq<Operand>, k: nat, r: Response, host: Host, clock: Clock): Value {
    if k < |args| then Resolve(args[k], r, host, clock) else Null
  }

  lemma ArgIsArgument(args: seq<Operand>, k: nat, r: Response, host: Host, clock: Clock)
    ensures Arg(ResolveAll(args, r, host, clock), k) == ArgumentAt(args, k, r, host, clock)
  {
    if k < |args| {
      ArgumentMeans(args, r, host, clock, k);
    }
  }

  lemma ClockBuiltinsMean(args: seq<Operand>, r: Response, host: Host, clock: Clock)
    ensures Called("today", args, r, host, clock) == Str(clock.today) && Called("now", args, r, host, clock) == Str(clock.now)
  {
  }

  /** len is the length of a text or list, count of a list; of anything else both are 0. */
  lemma LengthsMean(args: seq<Operand>, r: Response, host: Host, clock: Clock)
    ensures var v, len, count := ArgumentAt(args, 0, r, host, clock), Called("len", args, r, host, clock), Called("count", args, r, host, clock);
            && (v.Str? ==> len == Num(|v.s| as real)) && (v.List? ==> len == count == Num(|v.items| as real))
            && (!v.List? ==> count == Num(0.0)) && (!v.List? && !v.Str? ==> len == Num(0.0))
  {
    ArgIsArgument(args, 0, r, host, clock);
  }

  /** A text is mapped by the host, anything else is handed on. */
  lemma TextMapsMean(args: seq<Operand>, r: Response, host: Host, clock: Clock)
    ensures var v := ArgumentAt(args, 0, r, host, clock);
            && Called("lower", args, r, host, clock) == (if v.Str? then Str(host.lower(v.s)) else v)
            && Called("upper", args, r, host, clock) == (if v.Str? then Str(host.upper(v.s)) else v)
            && Called("trim", args, r, host, clock) == (if v.Str? then Str(host.trim(v.s)) else v)
  {
    ArgIsArgument(args, 0, r, host, clock);
  }

  ghost predicate StartsWith(s: string, head: string) {
    exists rest :: s == head + rest
  }

  ghost predicate EndsWith(s: string, tail: string) {
    exists rest :: s == rest + tail
  }

  lemma EndsOfTexts(s: string, part: string)
    ensures part <= s <==> StartsWith(s, part)
    ensures |part| <= |s| && s[|s| - |part|..] == part <==> EndsWith(s, part)
  {
    if part <= s {
      assert s == part + s[|part|..];
    }
    if |part| <= |s| && s[|s| - |part|..] == part {
      assert s == s[..|s| - |part|] + part;
    }
  }

  /** Occurrence anywhere, at the start and at the end; false unless both are texts. */
  lemma TextTestsMean(args: seq<Operand>, r: Response, host: Host, clock: Clock)
    ensures var a, b := ArgumentAt(args, 0, r, host, clock), ArgumentAt(args, 1, r, host, clock);
            && Called("contains", args, r, host, clock) == Bool(a.Str? && b.Str? && Contains(a.s, b.s))
            && Called("starts_with", args, r, host, clock) == Bool(a.Str? && b.Str? && StartsWith(a.s, b.s))
            && Called("ends_with", args, r, host, clock) == Bool(a.Str? && b.Str? && EndsWith(a.s, b.s))
  {
    ArgIsArgument(args, 0, r, host, clock);
    ArgIsArgument(args, 1, r, host, clock);
    var a, b := ArgumentAt(args, 0, r, host, clock), ArgumentAt(args, 1, r, host, clock);
    hide Includes, Contains, StartsWith, EndsWith, Arg, ArgumentAt, ResolveAll;
    if a.Str? && b.Str? {
      IncludesIsContains(a.s, b.s);
      EndsOfTexts(a.s, b.s);
    }
  }

  /** Where a text of this length is cut for a position: cut down to a whole number and kept inside. */
  predicate CutsAt(x: real, length: nat, k: nat) {
    k <= length
    && (if x < 0.0 then k == 0 else if x >= length as real then k == length else k as real <= x < k as real + 1.0)
  }

  lemma ClampIsTheCut(x: real, length: nat, k: nat)
    ensures CutsAt(x, length, k) <==> k == Clamp(x, length)
  {
  }

  lemma SubstringCuts(s: string, x: real, end: Option<real>, i: nat, j: nat)
    requires CutsAt(x, |s|, i) && if end.Some? then CutsAt(end.value, |s|, j) else j == |s|
    ensures Substring(s, x, end) == if i <= j then s[i..j] else s[j..i]
  {
    ClampIsTheCut(x, |s|, i);
    if end.Some? {
      ClampIsTheCut(end.value, |s|, j);
    }
    hide CutsAt, Clamp;
  }

  /** The part of the text between the two cuts, whichever comes first; without an end, up to the end. */
  lemma SubstringMeans(args: seq<Operand>, r: Response, host: Host, clock: Clock, x: real, i: nat, j: nat)
    requires ArgumentAt(args, 0, r, host, clock).Str?
    requires var v := ArgumentAt(args, 1, r, host, clock); ReadsAsNumber(v, x, host) || (!IsNumeric(v, host) && x == 0.0)
    requires var s, v := ArgumentAt(args, 0, r, host, clock).s, ArgumentAt(args, 2, r, host, clock);
             CutsAt(x, |s|, i) && if IsNumeric(v, host) then exists y :: ReadsAsNumber(v, y, host) && CutsAt(y, |s|, j) else j == |s|
    ensures var s := ArgumentAt(args, 0, r, host, clock).s;
            Called("substring", args, r, host, clock) == Str(if i <= j then s[i..j] else s[j..i])
  {
    forall k: nat ensures Arg(ResolveAll(args, r, host, clock), k) == ArgumentAt(args, k, r, host, clock) {
      ArgIsArgument(args, k, r, host, clock);
    }
    NumericReads(ArgumentAt(args, 1, r, host, clock), host);
    NumericReads(ArgumentAt(args, 2, r, host, clock), host);
    hide Substring, CutsAt, Numeric, ReadsAsNumber, IsNumeric, ResolveAll;
    SubstringCuts(ArgumentAt(args, 0, r, host, clock).s, x, Numeric(ArgumentAt(args, 2, r, host, clock), host), i, j);
  }

  lemma SubstringNeedsText(args: seq<Operand>, r: Response, host: Host, clock: Clock)
    requires !ArgumentAt(args, 0, r, host, clock).Str?
    ensures Called("substring", args, r, host, clock) == Str("")
  {
    ArgIsArgument(args, 0, r, host, clock);
  }

  predicate IsWhole(x: real) {
    x.Floor as real == x
  }

  /** Distance from 0, the whole number below and the one above, and the host's rounding to places. */
  lemma RoundingsMean(args: seq<Operand>, r: Response, host: Host, clock: Clock, x: real)
    requires ReadsAsNumber(ArgumentAt(args, 0, r, host, clock), x, host)
    ensures var abs, floor, ceil := Called("abs", args, r, host, clock), Called("floor", args, r, host, clock), Called("ceil", args, r, host, clock);
            && abs.Num? && abs.n >= 0.0 && abs.n in {x, 0.0 - x}
            && floor.Num? && IsWhole(floor.n) && floor.n <= x < floor.n + 1.0
            && ceil.Num? && IsWhole(ceil.n) && ceil.n - 1.0 < x <= ceil.n
    ensures var v, round := ArgumentAt(args, 1, r, host, clock), Called("round", args, r, host, clock);
            && (forall p :: ReadsAsNumber(v, p, host) ==> round == Num(host.round(x, p)))
            && (!IsNumeric(v, host) ==> round == Num(host.round(x, 0.0)))
  {
    ArgIsArgument(args, 0, r, host, clock);
    ArgIsArgument(args, 1, r, host, clock);
    NumericReads(ArgumentAt(args, 0, r, host, clock), host);
    NumericReads(ArgumentAt(args, 1, r, host, clock), host);
    assert Called("ceil", args, r, host, clock).n == (0 - (0.0 - x).Floor) as real;
    hide Numeric, ReadsAsNumber;
  }

  lemma RoundingsNeedNumbers(name: string, args: seq<Operand>, r: Response, host: Host, clock: Clock)
    requires name in {"abs", "floor", "ceil", "round"} && !IsNumeric(ArgumentAt(args, 0, r, host, clock), host)
    ensures Called(name, args, r, host, clock) == Null
  {
    ArgIsArgument(args, 0, r, host, clock);
    NumericReads(ArgumentAt(args, 0, r, host, clock), host);
  }

  /** Membership of a list, equality with anything else. */
  lemma SelectedMeans(args: seq<Operand>, r: Response, host: Host, clock: Clock)
    ensures var a, b := ArgumentAt(args, 0, r, host, clock), ArgumentAt(args, 1, r, host, clock);
            Called("selected", args, r, host, clock) == Bool(if a.List? then exists k :: 0 <= k < |a.items| && a.items[k] == b else a == b)
  {
    ArgIsArgument(args, 0, r, host, clock);
    ArgIsArgument(args, 1, r, host, clock);
  }

  ghost predicate IsFirstPresent(vs: seq<Value>, k: int) {
    0 <= k < |vs| && !IsAbsent(vs[k]) && forall i :: 0 <= i < k ==> IsAbsent(vs[i])
  }

  lemma {:induction false} FirstPresentMeans(vs: seq<Value>)
    ensures (forall k :: 0 <= k < |vs| ==> IsAbsent(vs[k])) ==> FirstPresent(vs) == Null
    ensures forall k :: IsFirstPresent(vs, k) ==> FirstPresent(vs) == vs[k]
  {
    if vs != [] {
      var rest := vs[1..];
      FirstPresentMeans(rest);
      assert FirstPresent(vs) == if IsAbsent(vs[0]) then FirstPresent(rest) else vs[0];
      hide IsAbsent, FirstPresent;
      assert forall k :: 0 <= k < |rest| ==> rest[k] == vs[k + 1];
      forall k | IsFirstPresent(vs, k) ensures FirstPresent(vs) == vs[k] {
        assert k > 0 ==> IsFirstPresent(rest, k - 1);
      }
    }
  }

  /** The first argument that is neither nothing nor the empty text; null if all are. */
  lemma CoalesceMeans(args: seq<Operand>, r: Response, host: Host, clock: Clock)
    ensures (forall i :: 0 <= i < |args| ==> IsAbsent(Resolve(args[i], r, host, clock))) ==> Called("coalesce", args, r, host, clock) == Null
    ensures forall k :: 0 <= k < |args| && !IsAbsent(Resolve(args[k], r, host, clock))
                        && (forall i :: 0 <= i < k ==> IsAbsent(Resolve(args[i], r, host, clock))) ==>
              Called("coalesce", args, r, host, clock) == Resolve(args[k], r, host, clock)
  {
    var vs := ResolveAll(args, r, host, clock);
    forall k | 0 <= k < |args| ensures vs[k] == Resolve(args[k], r, host, clock) {
      ArgumentMeans(args, r, host, clock, k);
    }
    CalledIsBuiltin("coalesce", args, r, host, clock);
    hide Resolve, ResolveAll, IsAbsent, FirstPresent, Called;
    FirstPresentMeans(vs);
    forall k | 0 <= k < |args| && !IsAbsent(vs[k]) && (forall i :: 0 <= i < k ==> IsAbsent(vs[i]))
      ensures FirstPresent(vs) == vs[k]
    {
      assert IsFirstPresent(vs, k);
    }
    hide IsFirstPresent;
  }

  lemma CalledIsBuiltin(name: string, args: seq<Operand>, r: Response, host: Host, clock: Clock)
    ensures Called(name, args, r, host, clock) == ApplyBuiltin(name, ResolveAll(args, r, host, clock), host, clock)
  {
  }

  // ---------------------------------------------------------------- builtins over any number of arguments

  /** What min_of and max_of look for. */
  ghost predicate IsAmong(args: seq<Operand>, n: real, r: Response, host: Host, clock: Clock) {
    exists k :: 0 <= k < |args| && ReadsAsNumber(Resolve(args[k], r, host, clock), n, host)
  }

  lemma {:induction false} NumbersRead(vs: seq<Value>, host: Host)
    ensures forall n :: n in Numbers(vs, host) <==> exists k :: 0 <= k < |vs| && ReadsAsNumber(vs[k], n, host)
  {
    hide Numeric, ReadsAsNumber;
    if vs != [] {
      NumbersRead(vs[1..], host);
      NumericReads(vs[0], host);
      assert vs == [vs[0]] + vs[1..];
      forall n ensures n in Numbers(vs, host) <==> exists k :: 0 <= k < |vs| && ReadsAsNumber(vs[k], n, host) {
        assert n in Numbers(vs, host) <==> ReadsAsNumber(vs[0], n, host) || n in Numbers(vs[1..], host);
        if n in Numbers(vs[1..], host) {
          var k :| 0 <= k < |vs[1..]| && ReadsAsNumber(vs[1..][k], n, host);
          assert vs[k + 1] == vs[1..][k];
        }
        if k :| 0 <= k < |vs| && ReadsAsNumber(vs[k], n, host) {
          assert k > 0 ==> vs[1..][k - 1] == vs[k];
        }
      }
    }
  }

  lemma {:induction false} ExtremeMeans(ns: seq<real>, sign: real)
    requires sign == 1.0 || sign == -1.0
    ensures ns == [] ==> Extreme(ns, sign) == Null
    ensures ns != [] ==> Extreme(ns, sign).Num? && Extreme(ns, sign).n in ns && forall n :: n in ns ==> sign * Extreme(ns, sign).n <= sign * n
  {
    if ns != [] {
      ExtremeMeans(ns[1..], sign);
      assert ns == [ns[0]] + ns[1..];
    }
  }

  lemma AmongIsNumbers(args: seq<Operand>, r: Response, host: Host, clock: Clock)
    ensures forall n :: n in Numbers(ResolveAll(args, r, host, clock), host) <==> IsAmong(args, n, r, host, clock)
  {
    var vs := ResolveAll(args, r, host, clock);
    forall k | 0 <= k < |args| ensures vs[k] == Resolve(args[k], r, host, clock) {
      ArgumentMeans(args, r, host, clock, k);
    }
    hide Resolve, ResolveAll, ReadsAsNumber, Numbers;
    NumbersRead(vs, host);
  }

  /** The smallest and the largest number among the arguments, null without any. */
  lemma ExtremesMean(args: seq<Operand>, r: Response, host: Host, clock: Clock)
    ensures var least, most := Called("min_of", args, r, host, clock), Called("max_of", args, r, host, clock);
            && (least == Null <==> !exists n :: IsAmong(args, n, r, host, clock)) && (most == Null <==> !exists n :: IsAmong(args, n, r, host, clock))
            && (least != Null ==> least.Num? && IsAmong(args, least.n, r, host, clock) && forall n :: IsAmong(args, n, r, host, clock) ==> least.n <= n)
            && (most != Null ==> most.Num? && IsAmong(args, most.n, r, host, clock) && forall n :: IsAmong(args, n, r, host, clock) ==> n <= most.n)
  {
    var ns := Numbers(ResolveAll(args, r, host, clock), host);
    AmongIsNumbers(args, r, host, clock);
    ExtremeMeans(ns, 1.0);
    ExtremeMeans(ns, -1.0);
    CalledIsBuiltin("min_of", args, r, host, clock);
    CalledIsBuiltin("max_of", args, r, host, clock);
    hide IsAmong, Extreme, Numbers, Resolve, ResolveAll, Called;
    if ns != [] {
      assert IsAmong(args, ns[0], r, host, clock);
    }
  }

  lemma {:induction false} SumsConcat(a: seq<Value>, b: seq<Value>, host: Host)
    ensures SumOf(Numbers(a + b, host)) == SumOf(Numbers(a, host)) + SumOf(Numbers(b, host))
  {
    if a == [] {
      assert a + b == b;
    } else {
      SumsConcat(a[1..], b, host);
      assert (a + b)[1..] == a[1..] + b;
      var n := Numeric(a[0], host);
      if n.Some? {
        assert ([n.value] + Numbers(a[1..], host))[1..] == Numbers(a[1..], host);
        assert ([n.value] + Numbers(a[1..] + b, host))[1..] == Numbers(a[1..] + b, host);
      } else {
        assert [] + Numbers(a[1..], host) == Numbers(a[1..], host) && [] + Numbers(a[1..] + b, host) == Numbers(a[1..] + b, host);
      }
    }
  }

  /** Each argument counts for the number it reads as, and for 0 otherwise. */
  lemma SumMeans(a: seq<Operand>, b: seq<Operand>, o: Operand, r: Response, host: Host, clock: Clock)
    ensures Called("sum", [], r, host, clock) == Num(0.0)
    ensures forall n :: ReadsAsNumber(Resolve(o, r, host, clock), n, host) ==> Called("sum", [o], r, host, clock) == Num(n)
    ensures !IsNumeric(Resolve(o, r, host, clock), host) ==> Called("sum", [o], r, host, clock) == Num(0.0)
    ensures Called("sum", a, r, host, clock).Num? && Called("sum", b, r, host, clock).Num?
    ensures Called("sum", a + b, r, host, clock) == Num(Called("sum", a, r, host, clock).n + Called("sum", b, r, host, clock).n)
  {
    SumIsCalled([], r, host, clock);
    SumIsCalled([o], r, host, clock);
    SumIsCalled(a, r, host, clock);
    SumIsCalled(b, r, host, clock);
    SumIsCalled(a + b, r, host, clock);
    OneArgument(o, r, host, clock);
    NumericReads(Resolve(o, r, host, clock), host);
    hide *;
    OneNumber(Resolve(o, r, host, clock), host);
    ArgumentsConcat(a, b, r, host, clock);
    SumsConcat(ResolveAll(a, r, host, clock), ResolveAll(b, r, host, clock), host);
  }

  lemma SumIsCalled(os: seq<Operand>, r: Response, host: Host, clock: Clock)
    ensures Called("sum", os, r, host, clock) == Num(SumOf(Numbers(ResolveAll(os, r, host, clock), host)))
  {
    hide Numbers, SumOf, ResolveAll;
  }

  lemma OneArgument(o: Operand, r: Response, host: Host, clock: Clock)
    ensures ResolveAll([o], r, host, clock) == [Resolve(o, r, host, clock)] && ResolveAll([], r, host, clock) == []
  {
    hide Resolve;
  }

  lemma OneNumber(v: Value, host: Host)
    ensures SumOf(Numbers([v], host)) == if Numeric(v, host).Some? then Numeric(v, host).value else 0.0
    ensures SumOf(Numbers([], host)) == 0.0
  {
    assert Numbers([v], host) == if Numeric(v, host).Some? then [Numeric(v, host).value] else [];
  }

  /** A name that is no builtin falls off the switch. */
  lemma UnknownBuiltinMeans(name: string, args: seq<Operand>, r: Response, host: Host, clock: Clock)
    ensures name !in BUILTINS <==> forall vs :: ApplyBuiltin(name, vs, host, clock) == Undefined
    ensures name !in BUILTINS ==> Called(name, args, r, host, clock) == Undefined
  {
    if name in BUILTINS {
      assert ApplyBuiltin(name, [], host, clock) != Undefined;
    }
  }
}
