/**
 The literals of an Esri definition expression, as printed and parsed by
 packages/engine/src/web-map-json.ts:556-561 and 613-686. A number is what Number.prototype.toString
 works from: a sign, its significant digits and the position of the decimal point.
 */
module SqlLiterals {
  import opened Prelude
  import opened Slices

  // ---------------------------------------------------------------- characters

  /** What `\s` and trim treat as white space. */
  predicate IsSpace(c: char) {
    var u := c as int;
    0x09 <= u <= 0x0D || u == 0x20 || u == 0xA0 || u == 0x1680 || 0x2000 <= u <= 0x200A || u == 0x2028 || u == 0x2029
    || u == 0x202F || u == 0x205F || u == 0x3000 || u == 0xFEFF
  }

  /** What `.` refuses. */
  predicate IsLineTerminator(c: char) {
    c == '\n' || c == '\r' || c as int == 0x2028 || c as int == 0x2029
  }

  predicate OneLine(s: string) {
    forall c :: c in s ==> !IsLineTerminator(c)
  }

  /** Case folding of an `i` pattern made of ASCII letters. */
  function Fold(c: char): char {
    if 'A' <= c <= 'Z' then c - 'A' + 'a' else c
  }

  predicate SameWord(s: string, word: string) {
    |s| == |word| && forall k :: 0 <= k < |s| ==> Fold(s[k]) == Fold(word[k])
  }

  predicate CharAt(s: string, i: nat, c: char) {
    i < |s| && s[i] == c
  }

  predicate WordAt(s: string, i: nat, word: string) {
    i + |word| <= |s| && SameWord(s[i..i + |word|], word)
  }

  function SkipSpace(s: string, i: nat): (j: nat)
    requires i <= |s|
    ensures i <= j <= |s|
    ensures j < |s| ==> !IsSpace(s[j])
    decreases |s| - i
  {
    if i < |s| && IsSpace(s[i]) then SkipSpace(s, i + 1) else i
  }

  function DigitsEnd(s: string, i: nat): (j: nat)
    requires i <= |s|
    ensures i <= j <= |s| && AllDigits(s[i..j])
    ensures j < |s| ==> !IsDigit(s[j])
    decreases |s| - i
  {
    if i < |s| && IsDigit(s[i]) then
      var j := DigitsEnd(s, i + 1);
      assert s[i..j] == [s[i]] + s[i + 1..j];
      j
    else i
  }

  lemma {:induction false} DigitsEndIs(s: string, i: nat, j: nat)
    requires i <= j <= |s| && forall k :: i <= k < j ==> IsDigit(s[k])
    requires j < |s| ==> !IsDigit(s[j])
    ensures DigitsEnd(s, i) == j
    decreases j - i
  {
    if i < j {
      DigitsEndIs(s, i + 1, j);
    }
  }

  predicate Trimmed(s: string) {
    s == "" || (!IsSpace(s[0]) && !IsSpace(s[|s| - 1]))
  }

  function Trim(s: string): (t: string)
    ensures Trimmed(t)
    ensures Trimmed(s) ==> t == s
    decreases |s|
  {
    if s == "" then ""
    else if IsSpace(s[0]) then Trim(s[1..])
    else if IsSpace(s[|s| - 1]) then Trim(s[..|s| - 1])
    else s
  }

  // ---------------------------------------------------------------- numbers

  datatype Number = Zero | Decimal(negative: bool, digits: string, point: int)

  /** The significant digits start and end with a non-zero one. */
  predicate Canonical(n: Number) {
    n.Zero? || (n.digits != "" && AllDigits(n.digits) && n.digits[0] != '0' && n.digits[|n.digits| - 1] != '0')
  }

  /** Printed without an exponent. */
  predicate Positional(n: Number) {
    n.Zero? || -6 < n.point <= 21
  }

  function Zeros(n: nat): (s: string)
    ensures |s| == n && forall k :: 0 <= k < n ==> s[k] == '0'
  {
    seq(n, _ => '0')
  }

  /** Number::toString of a positive number with these digits and decimal point. */
  function PrintMagnitude(digits: string, point: int): string
    requires digits != ""
  {
    if |digits| <= point <= 21 then digits + Zeros(point - |digits|)
    else if 0 < point <= 21 then digits[..point] + "." + digits[point..]
    else if -6 < point <= 0 then "0." + (Zeros(-point) + digits)
    else
      var mantissa := if |digits| == 1 then digits else digits[..1] + "." + digits[1..];
      var exponent := point - 1;
      mantissa + ("e" + (if exponent < 0 then "-" + NatDigits(-exponent) else "+" + NatDigits(exponent)))
  }

  function PrintNumber(n: Number): string
    requires Canonical(n)
  {
    match n
    case Zero => "0"
    case Decimal(negative, digits, point) => (if negative then "-" else "") + PrintMagnitude(digits, point)
  }

  function StripLeading(digits: string, point: int): (string, int) {
    if digits != "" && digits[0] == '0' then StripLeading(digits[1..], point - 1) else (digits, point)
  }

  function StripTrailing(digits: string): string {
    if digits != "" && digits[|digits| - 1] == '0' then StripTrailing(digits[..|digits| - 1]) else digits
  }

  /** The exact value of `whole.fraction`. */
  function NumberOf(negative: bool, whole: string, fraction: string): Number {
    var (digits, point) := StripLeading(whole + fraction, |whole|);
    var significant := StripTrailing(digits);
    if significant == "" then Zero else Decimal(negative, significant, point)
  }

  /** Number(t) for a text matching `^\d+(\.\d+)?$`. */
  function ReadMagnitude(t: string, negative: bool): Option<Number> {
    var e := DigitsEnd(t, 0);
    if e == 0 then None
    else if e == |t| then Some(NumberOf(negative, t, ""))
    else if t[e] != '.' then None
    else
      var f := DigitsEnd(t, e + 1);
      if f == e + 1 || f != |t| then None else Some(NumberOf(negative, t[..e], t[e + 1..]))
  }

  /** The same with an optional minus sign. */
  function ReadNumber(t: string): Option<Number> {
    if CharAt(t, 0, '-') then ReadMagnitude(t[1..], true) else ReadMagnitude(t, false)
  }

  lemma {:induction false} StripLeadingZeros(n: nat, digits: string, point: int)
    requires digits != "" && digits[0] != '0'
    ensures StripLeading(Zeros(n) + digits, point) == (digits, point - n)
  {
    if n == 0 {
      assert Zeros(0) + digits == digits;
    } else {
      assert (Zeros(n) + digits)[1..] == Zeros(n - 1) + digits;
      StripLeadingZeros(n - 1, digits, point - 1);
    }
  }

  lemma {:induction false} StripTrailingZeros(digits: string, n: nat)
    requires digits != "" && digits[|digits| - 1] != '0'
    ensures StripTrailing(digits + Zeros(n)) == digits
  {
    if n == 0 {
      assert digits + Zeros(0) == digits;
    } else {
      assert (digits + Zeros(n))[..|digits| + n - 1] == digits + Zeros(n - 1);
      StripTrailingZeros(digits, n - 1);
    }
  }

  lemma ReadWhole(t: string, negative: bool)
    requires t != "" && AllDigits(t)
    ensures ReadMagnitude(t, negative) == Some(NumberOf(negative, t, ""))
  {
    DigitsEndIs(t, 0, |t|);
  }

  lemma ReadFraction(whole: string, fraction: string, negative: bool)
    requires whole != "" && AllDigits(whole) && fraction != "" && AllDigits(fraction)
    ensures ReadMagnitude(whole + "." + fraction, negative) == Some(NumberOf(negative, whole, fraction))
  {
    var t := whole + "." + fraction;
    DigitsEndIs(t, 0, |whole|);
    DigitsEndIs(t, |whole| + 1, |t|);
    assert t[..|whole|] == whole && t[|whole| + 1..] == fraction;
  }

  lemma WholeNumberOf(negative: bool, digits: string, zeros: nat)
    requires Canonical(Decimal(negative, digits, 0))
    ensures NumberOf(negative, digits + Zeros(zeros), "") == Decimal(negative, digits, |digits| + zeros)
  {
    var t := digits + Zeros(zeros);
    assert t + "" == t && t[0] == digits[0];
    StripTrailingZeros(digits, zeros);
  }

  lemma SplitNumberOf(negative: bool, digits: string, point: nat)
    requires Canonical(Decimal(negative, digits, 0)) && point < |digits|
    ensures NumberOf(negative, digits[..point], digits[point..]) == Decimal(negative, digits, point)
  {
    assert digits[..point] + digits[point..] == digits;
  }

  lemma SmallNumberOf(negative: bool, digits: string, zeros: nat)
    requires Canonical(Decimal(negative, digits, 0))
    ensures NumberOf(negative, "0", Zeros(zeros) + digits) == Decimal(negative, digits, 0 - zeros)
  {
    assert "0" + (Zeros(zeros) + digits) == Zeros(zeros + 1) + digits;
    StripLeadingZeros(zeros + 1, digits, 1);
  }

  lemma PositionalReadsBack(digits: string, point: int, negative: bool)
    requires Canonical(Decimal(negative, digits, point)) && -6 < point <= 21
    ensures ReadMagnitude(PrintMagnitude(digits, point), negative) == Some(Decimal(negative, digits, point))
  {
    hide ReadMagnitude, NumberOf;
    if |digits| <= point {
      ReadWhole(digits + Zeros(point - |digits|), negative);
      WholeNumberOf(negative, digits, point - |digits|);
    } else if 0 < point {
      ReadFraction(digits[..point], digits[point..], negative);
      SplitNumberOf(negative, digits, point);
    } else {
      Concat3("0", ".", Zeros(-point) + digits);
      assert "0" + "." == "0.";
      ReadFraction("0", Zeros(-point) + digits, negative);
      SmallNumberOf(negative, digits, -point);
    }
  }

  /** Exponent form is not a numeric literal of the pattern. */
  lemma ExponentDoesNotRead(digits: string, point: int, negative: bool)
    requires Canonical(Decimal(negative, digits, point)) && !(-6 < point <= 21)
    ensures ReadMagnitude(PrintMagnitude(digits, point), negative).None?
  {
    var t := PrintMagnitude(digits, point);
    DigitsEndIs(t, 0, 1);
    if |digits| > 1 {
      DigitsEndIs(t, 2, |digits| + 1);
    }
  }

  lemma MagnitudeStartsWithDigit(digits: string, point: int)
    requires digits != "" && AllDigits(digits)
    ensures PrintMagnitude(digits, point) != "" && IsDigit(PrintMagnitude(digits, point)[0])
    ensures var t := PrintMagnitude(digits, point); IsDigit(t[|t| - 1])
  {
  }

  /** A printed number reads back exactly when it was printed without an exponent. */
  lemma NumberReadsBack(n: Number)
    requires Canonical(n)
    ensures ReadNumber(PrintNumber(n)) == if Positional(n) then Some(n) else None
  {
    if n.Zero? {
      ZeroReadsBack();
    } else {
      DecimalReadsBack(n.negative, n.digits, n.point);
    }
  }

  lemma ZeroReadsBack()
    ensures ReadNumber("0") == Some(Zero)
  {
    DigitsEndIs("0", 0, 1);
    assert "0"[1..] == "";
    assert StripLeading("0" + "", 1) == ("", 0);
  }

  lemma DecimalReadsBack(negative: bool, digits: string, point: int)
    requires Canonical(Decimal(negative, digits, point))
    ensures ReadNumber((if negative then "-" else "") + PrintMagnitude(digits, point)) ==
            if -6 < point <= 21 then Some(Decimal(negative, digits, point)) else None
  {
    var t := PrintMagnitude(digits, point);
    MagnitudeStartsWithDigit(digits, point);
    if -6 < point <= 21 {
      PositionalReadsBack(digits, point, negative);
    } else {
      ExponentDoesNotRead(digits, point, negative);
    }
    hide PrintMagnitude, ReadMagnitude;
    assert ("-" + t)[1..] == t && "" + t == t;
  }

  // ---------------------------------------------------------------- quoting

  /** `s.replace(/q/g, 'qq')`. */
  function DoubleUp(q: char, s: string): string {
    if s == "" then "" else (if s[0] == q then [q, q] else [s[0]]) + DoubleUp(q, s[1..])
  }

  /** Quoted text, with every quote inside doubled. */
  function Quoted(q: char, s: string): string {
    [q] + (DoubleUp(q, s) + [q])
  }

  datatype Read<T> = Read(item: T, end: nat)

  /** From just after an opening quote: the text up to the first quote that is not doubled. */
  function ScanQuoted(s: string, i: nat, q: char): (r: Option<Read<string>>)
    requires i <= |s|
    ensures r.Some? ==> i < r.value.end <= |s|
    decreases |s| - i
  {
    if i == |s| then None
    else if s[i] == q && !CharAt(s, i + 1, q) then Some(Read("", i + 1))
    else
      var next := if s[i] == q then i + 2 else i + 1;
      var rest := ScanQuoted(s, next, q);
      if rest.None? then None else Some(Read([s[i]] + rest.value.item, rest.value.end))
  }

  /** Reading undoes quoting, wherever the quoted text stands. */
  lemma {:induction false} ScanDoubled(s: string, i: nat, q: char, text: string)
    requires HoldsAt(s, i, DoubleUp(q, text) + [q]) && !CharAt(s, i + |DoubleUp(q, text)| + 1, q)
    ensures ScanQuoted(s, i, q) == Some(Read(text, i + |DoubleUp(q, text)| + 1))
    decreases |text|
  {
    if text == "" {
      UnitOf(s, i, [q], 0);
    } else {
      var first := if text[0] == q then [q, q] else [text[0]];
      var rest := DoubleUp(q, text[1..]) + [q];
      Concat3(first, DoubleUp(q, text[1..]), [q]);
      PartOf(s, i, first, rest);
      UnitOf(s, i, first, 0);
      UnitOf(s, i, first, |first| - 1);
      ScanDoubled(s, i + |first|, q, text[1..]);
      assert [text[0]] + text[1..] == text;
    }
  }

  lemma QuotedReadsBack(s: string, i: nat, q: char, text: string)
    requires HoldsAt(s, i, Quoted(q, text)) && !CharAt(s, i + |Quoted(q, text)|, q)
    ensures CharAt(s, i, q) && ScanQuoted(s, i + 1, q) == Some(Read(text, i + |Quoted(q, text)|))
  {
    PartOf(s, i, [q], DoubleUp(q, text) + [q]);
    UnitOf(s, i, [q], 0);
    ScanDoubled(s, i + 1, q, text);
  }

  lemma {:induction false} DoublingKeepsLines(q: char, text: string)
    requires !IsLineTerminator(q)
    ensures OneLine(DoubleUp(q, text)) <==> OneLine(text)
  {
    if text != "" {
      DoublingKeepsLines(q, text[1..]);
      assert text == [text[0]] + text[1..];
    }
  }

  // ---------------------------------------------------------------- literals

  datatype Literal = Null | Bool(b: bool) | Num(n: Number) | Str(s: string)

  predicate IsLiteral(v: Literal) {
    v.Num? ==> Canonical(v.n)
  }

  /** formatValue. */
  function FormatValue(v: Literal): string
    requires IsLiteral(v)
  {
    match v
    case Null => "NULL"
    case Bool(b) => if b then "true" else "false"
    case Num(n) => PrintNumber(n)
    case Str(s) => Quoted('\'', s)
  }

  /** parseSqlLiteral on trimmed text. */
  function ReadLiteral(t: string): Option<Literal> {
    if CharAt(t, 0, '\'') then
      var r := ScanQuoted(t, 1, '\'');
      if r.Some? && r.value.end == |t| then Some(Str(r.value.item)) else None
    else
      var n := ReadNumber(t);
      if n.Some? then Some(Num(n.value))
      else if SameWord(t, "true") then Some(Bool(true))
      else if SameWord(t, "false") then Some(Bool(false))
      else if SameWord(t, "null") then Some(Null)
      else None
  }

  function ParseSqlLiteral(raw: string): Option<Literal> {
    ReadLiteral(Trim(raw))
  }

  /** Literals whose printed form the parser accepts. */
  predicate Readable(v: Literal) {
    v.Num? ==> Positional(v.n)
  }

  /** The printed form of a literal neither starts nor ends with white space, a comma or a quote that is not its own. */
  lemma FormatShape(v: Literal)
    requires IsLiteral(v)
    ensures FormatValue(v) != "" && Trimmed(FormatValue(v))
    ensures FormatValue(v)[0] == '\'' <==> v.Str?
    ensures !v.Str? ==> OneLine(FormatValue(v)) && ',' !in FormatValue(v)
  {
    match v {
      case Num(n) =>
        PrintedNumberText(n);
        NumberTextShape(PrintNumber(n));
      case Str(s) =>
      case Null => LetterShape("NULL");
      case Bool(b) => LetterShape(if b then "true" else "false");
    }
  }

  lemma LetterShape(word: string)
    requires word != "" && forall k :: 0 <= k < |word| ==> 'a' <= word[k] <= 'z' || 'A' <= word[k] <= 'Z'
    ensures Trimmed(word) && OneLine(word) && ',' !in word && word[0] != '\''
  {
  }

  predicate NumberChar(c: char) {
    IsDigit(c) || c == '.' || c == '-' || c == '+' || c == 'e'
  }

  lemma MagnitudeChars(digits: string, point: int)
    requires digits != "" && AllDigits(digits)
    ensures forall k :: 0 <= k < |PrintMagnitude(digits, point)| ==> NumberChar(PrintMagnitude(digits, point)[k])
  {
  }

  /** What every printed number looks like. */
  predicate NumberText(t: string) {
    t != "" && (t[0] == '-' || IsDigit(t[0])) && IsDigit(t[|t| - 1]) && forall k :: 0 <= k < |t| ==> NumberChar(t[k])
  }

  lemma PrintedNumberText(n: Number)
    requires Canonical(n)
    ensures NumberText(PrintNumber(n))
  {
    if n.Decimal? {
      MagnitudeStartsWithDigit(n.digits, n.point);
      MagnitudeChars(n.digits, n.point);
      hide PrintMagnitude;
      assert NumberText((if n.negative then "-" else "") + PrintMagnitude(n.digits, n.point));
    }
  }

  lemma NumberTextShape(t: string)
    requires NumberText(t)
    ensures Trimmed(t) && t[0] != '\'' && OneLine(t) && ',' !in t
    ensures !SameWord(t, "true") && !SameWord(t, "false") && !SameWord(t, "null")
  {
    assert Fold(t[0]) == t[0] && t[0] != 't' && t[0] != 'f' && t[0] != 'n';
  }

  /** A printed literal parses back exactly when it is not a number in exponent form. */
  lemma LiteralReadsBack(v: Literal)
    requires IsLiteral(v)
    ensures ParseSqlLiteral(FormatValue(v)) == if Readable(v) then Some(v) else None
  {
    FormatShape(v);
    match v {
      case Null => WordsDoNotRead("NULL");
      case Bool(b) => WordsDoNotRead(if b then "true" else "false");
      case Num(n) => NumberLiteralReadsBack(n);
      case Str(s) => StringLiteralReadsBack(s);
    }
  }

  lemma NumberLiteralReadsBack(n: Number)
    requires Canonical(n)
    ensures ReadLiteral(PrintNumber(n)) == if Positional(n) then Some(Num(n)) else None
  {
    NumberReadsBack(n);
    PrintedNumberText(n);
    NumberTextShape(PrintNumber(n));
    hide PrintNumber, ReadNumber, SameWord, NumberText;
  }

  lemma StringLiteralReadsBack(s: string)
    ensures ReadLiteral(Quoted('\'', s)) == Some(Str(s))
  {
    var t := Quoted('\'', s);
    assert t[0..|t|] == t;
    QuotedReadsBack(t, 0, '\'', s);
    hide ScanQuoted, Quoted, DoubleUp;
  }

  lemma WordsDoNotRead(t: string)
    requires t == "NULL" || t == "true" || t == "false"
    ensures ReadNumber(t).None?
  {
    DigitsEndIs(t, 0, 0);
  }
}
