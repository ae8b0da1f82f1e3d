/**
 Character references of packages/shared-types/src/attribution-html.ts:469-598. A JavaScript
 string is a sequence of UTF-16 code units, here plain integers, so the lone surrogates a
 truncation can leave behind are covered too. The named table is a parameter; only the four
 names the escaper relies on are ever required of it.
 */
module HtmlText {
  import opened Slices

  type Text = seq<int>

  /** The code units of an ASCII literal. */
  function Lit(s: string): (t: Text)
    ensures |t| == |s| && forall i :: 0 <= i < |s| ==> t[i] == s[i] as int
  {
    seq(|s|, i requires 0 <= i < |s| => s[i] as int)
  }

  const AMP := 0x26
  const LT := 0x3C
  const GT := 0x3E
  const QUOT := 0x22
  const APOS := 0x27
  const HASH := 0x23
  const SEMI := 0x3B
  const SLASH := 0x2F
  const EQUALS := 0x3D
  const SPACE := 0x20

  // ---------------------------------------------------------------- character classes

  datatype Class = Digit | Hex | Alnum | TagName | HtmlSpace | AttrName | Unquoted

  predicate IsDigit(c: int) { 0x30 <= c <= 0x39 }

  predicate IsAlpha(c: int) { 0x41 <= c <= 0x5A || 0x61 <= c <= 0x7A }

  predicate IsHtmlSpace(c: int) { c == 0x20 || c == 0x09 || c == 0x0A || c == 0x0D || c == 0x0C }

  predicate Is(cls: Class, c: int) {
    match cls
    case Digit => IsDigit(c)
    case Hex => IsDigit(c) || 0x41 <= c <= 0x46 || 0x61 <= c <= 0x66
    case Alnum => IsAlpha(c) || IsDigit(c)
    case TagName => IsAlpha(c) || IsDigit(c) || c == 0x2D
    case HtmlSpace => IsHtmlSpace(c)
    case AttrName => !IsHtmlSpace(c) && c != EQUALS && c != GT && c != SLASH && c != QUOT && c != APOS
    case Unquoted => !IsHtmlSpace(c) && c != GT
  }

  /** The length of the longest prefix in the class. */
  function Span(cls: Class, s: Text): (n: nat)
    ensures n <= |s|
    ensures forall i :: 0 <= i < n ==> Is(cls, s[i])
    ensures n < |s| ==> !Is(cls, s[n])
  {
    if s == [] || !Is(cls, s[0]) then 0 else 1 + Span(cls, s[1..])
  }

  predicate AllIn(cls: Class, s: Text) {
    forall i :: 0 <= i < |s| ==> Is(cls, s[i])
  }

  lemma {:induction false} SpanExact(cls: Class, p: Text, rest: Text)
    requires AllIn(cls, p)
    requires rest == [] || !Is(cls, rest[0])
    ensures Span(cls, p + rest) == |p|
  {
    if p == [] {
      assert p + rest == rest;
    } else {
      SpanExact(cls, p[1..], rest);
      assert (p + rest)[1..] == p[1..] + rest;
    }
  }

  function LowerUnit(c: int): int {
    if 0x41 <= c <= 0x5A then c + 0x20 else c
  }

  /** toLowerCase on what the sanitizer compares with: ASCII names and prefixes. */
  function Lower(s: Text): (t: Text)
    ensures |t| == |s| && forall i :: 0 <= i < |s| ==> t[i] == LowerUnit(s[i])
  {
    seq(|s|, i requires 0 <= i < |s| => LowerUnit(s[i]))
  }

  // ---------------------------------------------------------------- escaping

  function EscapeUnit(c: int): (t: Text)
    ensures t != []
  {
    if c == AMP then Lit("&amp;")
    else if c == LT then Lit("&lt;")
    else if c == GT then Lit("&gt;")
    else if c == QUOT then Lit("&quot;")
    else if c == APOS then Lit("&#39;")
    else [c]
  }

  function Escape(value: Text): (t: Text)
    ensures |t| >= |value|
  {
    if value == [] then [] else EscapeUnit(value[0]) + Escape(value[1..])
  }

  lemma EscapeCons(c: int, rest: Text)
    ensures Escape([c] + rest) == EscapeUnit(c) + Escape(rest)
  {
    assert ([c] + rest)[1..] == rest;
  }

  lemma {:induction false} EscapeConcat(a: Text, b: Text)
    ensures Escape(a + b) == Escape(a) + Escape(b)
  {
    if a == [] {
      assert a + b == b;
    } else {
      var c, rest := a[0], a[1..];
      assert a == [c] + rest;
      calc {
        Escape(a + b);
        { Concat3([c], rest, b); EscapeCons(c, rest + b); }
        EscapeUnit(c) + Escape(rest + b);
        { EscapeConcat(rest, b); }
        EscapeUnit(c) + (Escape(rest) + Escape(b));
        { Concat3(EscapeUnit(c), Escape(rest), Escape(b)); }
        (EscapeUnit(c) + Escape(rest)) + Escape(b);
        { EscapeCons(c, rest); }
        Escape(a) + Escape(b);
      }
    }
  }

  predicate Markup(c: int) {
    c == LT || c == GT || c == QUOT || c == APOS
  }

  /** No markup character survives escaping. */
  lemma {:induction false} EscapeHasNoMarkup(value: Text)
    ensures forall c :: c in Escape(value) ==> !Markup(c)
  {
    if value != [] {
      EscapeHasNoMarkup(value[1..]);
      forall c | c in EscapeUnit(value[0])
        ensures !Markup(c)
      {
      }
    }
  }

  // ---------------------------------------------------------------- decoding

  type Names = map<Text, Text>

  /** What the escaper needs of the named table. */
  predicate KnowsEscapes(names: Names) {
    && Lit("amp") in names && names[Lit("amp")] == [AMP]
    && Lit("lt") in names && names[Lit("lt")] == [LT]
    && Lit("gt") in names && names[Lit("gt")] == [GT]
    && Lit("quot") in names && names[Lit("quot")] == [QUOT]
  }

  predicate EndsReference(s: Text, at: nat) {
    at < |s| && s[at] == SEMI
  }

  /** The length of the character reference `s` starts with, or 0: ENTITY_PATTERN anchored here. */
  function ReferenceLength(s: Text): (n: nat)
    requires s != [] && s[0] == AMP
    ensures n <= |s|
    ensures n > 0 ==> n >= 3 && s[n - 1] == SEMI
  {
    if |s| > 1 && s[1] == HASH then
      if |s| > 2 && (s[2] == 0x78 || s[2] == 0x58) then
        var n := Span(Hex, s[3..]);
        if n > 0 && EndsReference(s, 3 + n) then 4 + n else 0
      else
        var n := Span(Digit, s[2..]);
        if n > 0 && EndsReference(s, 2 + n) then 3 + n else 0
    else if |s| > 1 && IsAlpha(s[1]) then
      var n := Span(Alnum, s[1..]);
      if EndsReference(s, 1 + n) then 2 + n else 0
    else
      0
  }

  function DigitValue(c: int): nat
    requires Is(Hex, c)
  {
    if IsDigit(c) then c - 0x30 else if c <= 0x46 then c - 0x41 + 10 else c - 0x61 + 10
  }

  function ParseDigits(digits: Text, base: nat): nat
    requires AllIn(Hex, digits)
  {
    if digits == [] then 0
    else ParseDigits(digits[..|digits| - 1], base) * base + DigitValue(digits[|digits| - 1])
  }

  function FromCodePoint(code: nat): Text
    requires code <= 0x10FFFF
  {
    if code <= 0xFFFF then [code]
    else [0xD800 + (code - 0x10000) / 0x400, 0xDC00 + (code - 0x10000) % 0x400]
  }

  function NumericReference(m: Text, code: nat): Text {
    if code == 0 || code > 0x10FFFF || 0xD800 <= code <= 0xDFFF then m else FromCodePoint(code)
  }

  /** What one matched reference is replaced by; an unknown one stays as written. */
  function Replacement(names: Names, m: Text): Text
    requires m != [] && m[0] == AMP && ReferenceLength(m) == |m|
  {
    if m[1] == HASH then
      if m[2] == 0x78 || m[2] == 0x58 then
        NumericReference(m, ParseDigits(m[3..|m| - 1], 16))
      else
        NumericReference(m, ParseDigits(m[2..|m| - 1], 10))
    else
      var name := Lower(m[1..|m| - 1]);
      if name in names then names[name] else m
  }

  /** decodeHtmlEntities. */
  function Decode(names: Names, value: Text): Text
    decreases |value|
  {
    if value == [] then []
    else if value[0] != AMP then [value[0]] + Decode(names, value[1..])
    else
      var n := ReferenceLength(value);
      if n == 0 then [AMP] + Decode(names, value[1..])
      else
        ReferencePrefix(value, n);
        Replacement(names, value[..n]) + Decode(names, value[n..])
  }

  /** A run of class characters that ends in ';' is measured the same when the text stops there. */
  lemma SpanUpToSemi(cls: Class, s: Text, from: nat, n: nat)
    requires !Is(cls, SEMI) && from < n <= |s| && s[n - 1] == SEMI && from + Span(cls, s[from..]) == n - 1
    ensures from + Span(cls, s[..n][from..]) == n - 1
  {
    SpanExact(cls, s[from..n - 1], [SEMI]);
    assert s[..n][from..] == s[from..n - 1] + [SEMI];
  }

  /** A reference is recognised from its own text alone. */
  lemma ReferencePrefix(s: Text, n: nat)
    requires s != [] && s[0] == AMP && ReferenceLength(s) == n && n > 0
    ensures ReferenceLength(s[..n]) == n
  {
    if s[1] == HASH {
      if s[2] == 0x78 || s[2] == 0x58 {
        SpanUpToSemi(Hex, s, 3, n);
      } else {
        SpanUpToSemi(Digit, s, 2, n);
      }
    } else {
      SpanUpToSemi(Alnum, s, 1, n);
    }
  }

  lemma NamedReference(names: Names, name: Text, rest: Text)
    requires name != [] && IsAlpha(name[0]) && AllIn(Alnum, name)
    requires Lower(name) in names
    ensures var m := [AMP] + name + [SEMI];
            Decode(names, m + rest) == names[Lower(name)] + Decode(names, rest)
  {
    var m := [AMP] + name + [SEMI];
    var s := m + rest;
    SpanExact(Alnum, name, [SEMI] + rest);
    assert s[1..] == name + ([SEMI] + rest);
    assert ReferenceLength(s) == |m|;
    assert s[..|m|] == m && s[|m|..] == rest;
    ReferencePrefix(s, |m|);
    assert m[1..|m| - 1] == name;
  }

  lemma ApostropheReference(names: Names, rest: Text)
    ensures Decode(names, Lit("&#39;") + rest) == [APOS] + Decode(names, rest)
  {
    var m := Lit("&#39;");
    var s := m + rest;
    var digits := Lit("39");
    SpanExact(Digit, digits, [SEMI] + rest);
    assert s[2..] == digits + ([SEMI] + rest);
    assert ReferenceLength(s) == 5;
    assert s[..5] == m && s[5..] == rest;
    ReferencePrefix(s, 5);
    assert m[2..4] == digits;
    assert digits[..1] == [0x33] && digits[1] == 0x39;
    assert ParseDigits(digits[..1][..0], 10) == 0;
    assert ParseDigits(digits[..1], 10) == 3;
    assert ParseDigits(digits, 10) == 39;
  }

  lemma DecodeEscapedUnit(names: Names, c: int, rest: Text)
    requires KnowsEscapes(names)
    ensures Decode(names, EscapeUnit(c) + rest) == [c] + Decode(names, rest)
  {
    if c == AMP {
      DecodeLetters(names, "amp", EscapeUnit(c), rest);
    } else if c == LT {
      DecodeLetters(names, "lt", EscapeUnit(c), rest);
    } else if c == GT {
      DecodeLetters(names, "gt", EscapeUnit(c), rest);
    } else if c == QUOT {
      DecodeLetters(names, "quot", EscapeUnit(c), rest);
    } else if c == APOS {
      ApostropheReference(names, rest);
    } else {
      DecodePlainUnit(names, c, rest);
    }
  }

  lemma DecodePlainUnit(names: Names, c: int, rest: Text)
    requires c != AMP
    ensures Decode(names, [c] + rest) == [c] + Decode(names, rest)
  {
    assert ([c] + rest)[1..] == rest;
  }

  lemma DecodeLetters(names: Names, name: string, written: Text, rest: Text)
    requires name != [] && (forall i :: 0 <= i < |name| ==> 'a' <= name[i] <= 'z') && Lit(name) in names
    requires |written| == |name| + 2 && written[0] == AMP && written[|name| + 1] == SEMI
    requires forall i :: 0 <= i < |name| ==> written[i + 1] == name[i] as int
    ensures Decode(names, written + rest) == names[Lit(name)] + Decode(names, rest)
  {
    assert written == [AMP] + Lit(name) + [SEMI];
    NamedEscape(names, Lit(name), rest);
  }

  lemma NamedEscape(names: Names, name: Text, rest: Text)
    requires name != [] && (forall i :: 0 <= i < |name| ==> 0x61 <= name[i] <= 0x7A) && name in names
    ensures Decode(names, [AMP] + name + [SEMI] + rest) == names[name] + Decode(names, rest)
  {
    assert Lower(name) == name;
    NamedReference(names, name, rest);
  }

  /** Decoding undoes escaping, and goes on with whatever follows. */
  lemma {:induction false} DecodeAfterEscape(names: Names, value: Text, rest: Text)
    requires KnowsEscapes(names)
    ensures Decode(names, Escape(value) + rest) == value + Decode(names, rest)
  {
    hide Decode, EscapeUnit;
    if value == [] {
      assert Escape(value) + rest == rest;
      assert value + Decode(names, rest) == Decode(names, rest);
    } else {
      Concat3([value[0]], value[1..], Decode(names, rest));
      Concat3(EscapeUnit(value[0]), Escape(value[1..]), rest);
      DecodeEscapedUnit(names, value[0], Escape(value[1..]) + rest);
      DecodeAfterEscape(names, value[1..], rest);
    }
  }

  /** Decoding undoes escaping, for every string of code units. */
  lemma DecodeEscape(names: Names, value: Text)
    requires KnowsEscapes(names)
    ensures Decode(names, Escape(value)) == value
  {
    DecodeAfterEscape(names, value, []);
    assert Escape(value) + [] == Escape(value);
  }
}
