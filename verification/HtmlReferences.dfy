/**
 What decodeHtmlEntities of packages/shared-types/src/attribution-html.ts:572-598 takes for a character reference
 and what it makes of each, and what readTag (288-383) takes for an attribute.
 */
module HtmlReferences {
  import opened Prelude
  import opened Slices
  import opened HtmlText
  import opened HtmlTokens

  // ---------------------------------------------------------------- which texts are references

  /** `&#` digits `;`, `&#x` hex digits `;`, or `&` a letter, letters and digits, `;`. */
  predicate IsReference(m: Text) {
    |m| >= 3 && m[0] == 0x26 && m[|m| - 1] == 0x3B &&
    var body := m[1..|m| - 1];
    || (IsAlpha(body[0]) && AllIn(Alnum, body))
    || (|body| >= 2 && body[0] == 0x23 && AllIn(Digit, body[1..]))
    || (|body| >= 3 && body[0] == 0x23 && body[1] in {0x78, 0x58} && AllIn(Hex, body[2..]))
  }

  /** The classes, written out: 0-9; those and a-f, A-F; letters and digits; tag names; HTML white space; attribute
      names; unquoted values. */
  lemma ClassesMean(c: int)
    ensures IsAlpha(c) <==> 0x41 <= c <= 0x5A || 0x61 <= c <= 0x7A
    ensures Is(Digit, c) <==> 0x30 <= c <= 0x39
    ensures Is(Hex, c) <==> 0x30 <= c <= 0x39 || 0x41 <= c <= 0x46 || 0x61 <= c <= 0x66
    ensures Is(Alnum, c) <==> 0x30 <= c <= 0x39 || 0x41 <= c <= 0x5A || 0x61 <= c <= 0x7A
    ensures Is(TagName, c) <==> 0x30 <= c <= 0x39 || 0x41 <= c <= 0x5A || 0x61 <= c <= 0x7A || c == 0x2D
    ensures Is(HtmlSpace, c) <==> c in {0x20, 0x09, 0x0A, 0x0C, 0x0D}
    ensures Is(AttrName, c) <==> c !in {0x20, 0x09, 0x0A, 0x0C, 0x0D, 0x3D, 0x3E, 0x2F, 0x22, 0x27}
    ensures Is(Unquoted, c) <==> c !in {0x20, 0x09, 0x0A, 0x0C, 0x0D, 0x3E}
  {
  }

  lemma SpanToSemi(cls: Class, s: Text, from: nat, n: nat)
    requires !Is(cls, SEMI) && from < n <= |s| && s[n - 1] == SEMI
    requires forall k :: from <= k < n - 1 ==> Is(cls, s[k])
    ensures Span(cls, s[from..]) == n - 1 - from
  {
    SpanExact(cls, s[from..n - 1], s[n - 1..]);
    assert s[from..] == s[from..n - 1] + s[n - 1..];
  }

  lemma ReferenceIsMeasured(s: Text, n: nat)
    requires s != [] && s[0] == AMP && n <= |s| && IsReference(s[..n])
    ensures ReferenceLength(s) == n
  {
    var body := s[..n][1..n - 1];
    assert forall k :: 0 <= k < |body| ==> body[k] == s[k + 1];
    if IsAlpha(body[0]) && AllIn(Alnum, body) {
      assert forall k :: 1 <= k < n - 1 ==> s[k] == body[k - 1];
      SpanToSemi(Alnum, s, 1, n);
    } else if |body| >= 2 && body[0] == 0x23 && AllIn(Digit, body[1..]) {
      assert forall k :: 2 <= k < n - 1 ==> s[k] == body[1..][k - 2];
      SpanToSemi(Digit, s, 2, n);
    } else {
      assert forall k :: 3 <= k < n - 1 ==> s[k] == body[2..][k - 3];
      SpanToSemi(Hex, s, 3, n);
    }
  }

  lemma MeasuredIsReference(s: Text)
    requires s != [] && s[0] == AMP && ReferenceLength(s) > 0
    ensures IsReference(s[..ReferenceLength(s)])
  {
    var n := ReferenceLength(s);
    var m := s[..n];
    var body := m[1..n - 1];
    if s[1] == HASH {
      if s[2] == 0x78 || s[2] == 0x58 {
        assert forall k :: 0 <= k < |body| - 2 ==> body[2..][k] == s[3..][k];
      } else {
        assert forall k :: 0 <= k < |body| - 1 ==> body[1..][k] == s[2..][k];
      }
    } else {
      assert forall k :: 0 <= k < |body| ==> body[k] == s[1..][k];
    }
  }

  // ---------------------------------------------------------------- what a reference stands for

  /** A digit's value; hex digits in either case. */
  lemma DigitsMean(digits: Text, c: int, base: nat)
    requires AllIn(Hex, digits) && Is(Hex, c)
    ensures ParseDigits([], base) == 0
    ensures ParseDigits(digits + [c], base) ==
            ParseDigits(digits, base) * base + (if c <= 0x39 then c - 0x30 else if c <= 0x46 then c - 0x37 else c - 0x57)
  {
    assert (digits + [c])[..|digits|] == digits;
  }

  /** The UTF-16 code units of a code point: itself, or a surrogate pair. */
  predicate IsUtf16(code: nat, t: Text) {
    if code <= 0xFFFF then t == [code]
    else |t| == 2 && 0xD800 <= t[0] < 0xDC00 <= t[1] < 0xE000 && 0x10000 + (t[0] - 0xD800) * 0x400 + (t[1] - 0xDC00) == code
  }

  predicate IsCharacter(code: nat) {
    1 <= code <= 0x10FFFF && !(0xD800 <= code <= 0xDFFF)
  }

  lemma NumbersMean(m: Text, code: nat)
    ensures IsCharacter(code) ==> IsUtf16(code, NumericReference(m, code))
    ensures !IsCharacter(code) ==> NumericReference(m, code) == m
  {
  }

  /** What a reference is replaced by: a number that is a character's by that character, a known name, in any letter
      case, by its text, and anything else by itself. */
  predicate StandsFor(names: Names, m: Text, t: Text)
    requires IsReference(m)
  {
    var body := m[1..|m| - 1];
    if body[0] == 0x23 then
      var hex := body[1] in {0x78, 0x58};
      var digits := if hex then body[2..] else body[1..];
      AllIn(Hex, digits) &&
      var code := ParseDigits(digits, if hex then 16 else 10);
      if IsCharacter(code) then IsUtf16(code, t) else t == m
    else if Lower(body) in names then t == names[Lower(body)]
    else t == m
  }

  lemma DecimalIsHex(t: Text)
    requires AllIn(Digit, t)
    ensures AllIn(Hex, t)
  {
  }

  lemma ReplacementMeans(names: Names, m: Text)
    requires IsReference(m) && ReferenceLength(m) == |m|
    ensures StandsFor(names, m, Replacement(names, m))
  {
    var body := m[1..|m| - 1];
    if body[0] == 0x23 {
      assert body[0] == m[1] && body[1] == m[2];
      if body[1] in {0x78, 0x58} {
        assert body[2..] == m[3..|m| - 1];
        NumbersMean(m, ParseDigits(m[3..|m| - 1], 16));
      } else {
        assert body[1..] == m[2..|m| - 1];
        DecimalIsHex(body[1..]);
        NumbersMean(m, ParseDigits(m[2..|m| - 1], 10));
      }
      hide NumericReference, IsUtf16, IsCharacter;
    }
  }

  /** Text is decoded from the left: a reference is replaced by what it stands for, and any other unit stays. */
  lemma DecodeMeans(names: Names, m: Text, c: int, rest: Text)
    ensures Decode(names, []) == []
    ensures IsReference(m) ==> exists t :: StandsFor(names, m, t) && Decode(names, m + rest) == t + Decode(names, rest)
    ensures c != 0x26 || (forall n :: 0 <= n <= |[c] + rest| ==> !IsReference(([c] + rest)[..n])) ==>
              Decode(names, [c] + rest) == [c] + Decode(names, rest)
  {
    if IsReference(m) {
      ReferenceDecodes(names, m, rest);
    }
    var s := [c] + rest;
    assert s[1..] == rest;
    if c == AMP && ReferenceLength(s) > 0 {
      MeasuredIsReference(s);
    }
  }

  lemma ReferenceDecodes(names: Names, m: Text, rest: Text)
    requires IsReference(m)
    ensures exists t :: StandsFor(names, m, t) && Decode(names, m + rest) == t + Decode(names, rest)
  {
    var s := m + rest;
    assert s[..|m|] == m && s[|m|..] == rest && s[0] == m[0];
    ReferenceIsMeasured(s, |m|);
    ReferencePrefix(s, |m|);
    ReplacementMeans(names, m);
    hide StandsFor, Replacement, IsReference;
    assert Decode(names, s) == Replacement(names, m) + Decode(names, rest);
  }

  // ---------------------------------------------------------------- attributes, however they are written

  lemma LowerMeans(t: Text, k: nat)
    requires k < |t|
    ensures |Lower(t)| == |t| && Lower(t)[k] == if 0x41 <= t[k] <= 0x5A then t[k] + 0x20 else t[k]
  {
  }

  /** A name keeps the value it had first. */
  lemma FirstValueWins(attrs: Attrs, name: Text, value: Text, other: Text)
    ensures name in Keep(attrs, name, value) && Keep(attrs, name, value)[name] == (if name in attrs then attrs[name] else value)
    ensures other != name ==> (other in Keep(attrs, name, value) <==> other in attrs)
    ensures other != name && other in attrs ==> Keep(attrs, name, value)[other] == attrs[other]
  {
  }

  lemma RunEnds(cls: Class, s: Text, i: nat, run: Text)
    requires HoldsAt(s, i, run) && AllIn(cls, run) && (i + |run| < |s| ==> !Is(cls, s[i + |run|]))
    ensures EndOf(cls, s, i) == i + |run|
  {
    forall k | i <= k < i + |run| ensures Is(cls, s[k]) {
      UnitOf(s, i, run, k - i);
    }
    EndIs(cls, s, i, i + |run|);
  }

  /** White space and slashes between attributes are passed over, and so is a quote or equals sign where a name should
      start; '>' ends the tag. */
  lemma BetweenAttributes(s: Text, i: nat, attrs: Attrs)
    requires i < |s|
    ensures s[i] in {0x20, 0x09, 0x0A, 0x0C, 0x0D, 0x2F, 0x22, 0x27, 0x3D} ==> AttrRound(s, i, attrs) == Go(attrs, i + 1)
    ensures s[i] == 0x3E ==> AttrRound(s, i, attrs) == Close
  {
  }

  lemma NameThenValue(s: Text, i: nat, name: Text, attrs: Attrs)
    requires name != [] && AllIn(AttrName, name) && HoldsAt(s, i, name) && (i + |name| < |s| ==> !Is(AttrName, s[i + |name|]))
    ensures var value := ReadValue(s, i + |name|);
            AttrRound(s, i, attrs) ==
            if value.None? then Refuse else Go(Keep(attrs, Lower(name), value.value.item), value.value.end)
  {
    RunEnds(AttrName, s, i, name);
    UnitOf(s, i, name, 0);
    assert name[0] == s[i] && s[i..i + |name|] == name;
    hide ReadValue, Keep;
  }

  function EqualsText(before: Text, after: Text): Text {
    before + ([EQUALS] + after)
  }

  lemma EqualsLayout(s: Text, i: nat, before: Text, after: Text)
    requires AllIn(HtmlSpace, before) && AllIn(HtmlSpace, after) && HoldsAt(s, i, EqualsText(before, after))
    requires i + |EqualsText(before, after)| < |s| ==> !Is(HtmlSpace, s[i + |EqualsText(before, after)|])
    ensures EndOf(HtmlSpace, s, i) == i + |before| && UnitAt(s, i + |before|, EQUALS)
    ensures EndOf(HtmlSpace, s, i + |before| + 1) == i + |EqualsText(before, after)|
  {
    PartOf(s, i, before, [EQUALS] + after);
    PartOf(s, i + |before|, [EQUALS], after);
    UnitOf(s, i + |before|, [EQUALS], 0);
    RunEnds(HtmlSpace, s, i, before);
    RunEnds(HtmlSpace, s, i + |before| + 1, after);
  }

  /** What an equals sign and the white space around it start with cannot be part of a name. */
  lemma EqualsEndsTheName(s: Text, i: nat, before: Text, after: Text)
    requires AllIn(HtmlSpace, before) && HoldsAt(s, i, EqualsText(before, after))
    ensures i < |s| && !Is(AttrName, s[i])
  {
    UnitOf(s, i, EqualsText(before, after), 0);
    assert EqualsText(before, after)[0] == if before == [] then EQUALS else before[0];
  }

  lemma ValueBetween(s: Text, i: nat, w: nat, v: nat, close: nat)
    requires i <= |s| && EndOf(HtmlSpace, s, i) == w && UnitAt(s, w, EQUALS) && EndOf(HtmlSpace, s, w + 1) == v
    requires v < |s| && s[v] in {0x22, 0x27} && IndexFrom(s, s[v], v + 1) == Some(close)
    ensures ReadValue(s, i) == Some(Read(s[v + 1..close], close + 1))
  {
    hide EndOf, IndexFrom;
  }

  lemma QuotedValue(s: Text, i: nat, before: Text, after: Text, quote: int, value: Text)
    requires AllIn(HtmlSpace, before) && AllIn(HtmlSpace, after) && quote in {0x22, 0x27} && quote !in value
    requires HoldsAt(s, i, EqualsText(before, after) + ([quote] + (value + [quote])))
    ensures ReadValue(s, i) == Some(Read(value, i + |EqualsText(before, after)| + |value| + 2))
  {
    var at := i + |EqualsText(before, after)|;
    assert |EqualsText(before, after)| == |before| + 1 + |after|;
    hide HoldsAt, EqualsText, EndOf, IndexFrom, AllIn, ReadValue;
    PartOf(s, i, EqualsText(before, after), [quote] + (value + [quote]));
    QuotesAround(s, at, quote, value);
    EqualsLayout(s, i, before, after);
    ValueBetween(s, i, i + |before|, at, at + 1 + |value|);
  }

  lemma QuotesAround(s: Text, at: nat, quote: int, value: Text)
    requires HoldsAt(s, at, [quote] + (value + [quote])) && quote !in value
    ensures at + |value| + 1 < |s| && s[at] == quote && IndexFrom(s, quote, at + 1) == Some(at + 1 + |value|)
    ensures s[at + 1..at + 1 + |value|] == value
  {
    hide HoldsAt;
    PartOf(s, at, [quote], value + [quote]);
    PartOf(s, at + 1, value, [quote]);
    UnitOf(s, at, [quote], 0);
    UnitOf(s, at + 1 + |value|, [quote], 0);
    SliceOf(s, at + 1, value);
    FirstQuote(s, at + 1, quote, value);
  }

  lemma FirstQuote(s: Text, i: nat, quote: int, value: Text)
    requires HoldsAt(s, i, value) && i + |value| < |s| && s[i + |value|] == quote && quote !in value
    ensures IndexFrom(s, quote, i) == Some(i + |value|)
  {
    forall k | i <= k < i + |value| ensures s[k] != quote {
      UnitOf(s, i, value, k - i);
      assert value[k - i] in value;
    }
    IndexIs(s, quote, i, i + |value|);
  }

  /** `name = "value"` or `name = 'value'`, with or without white space around the equals sign. */
  lemma QuotedAttribute(s: Text, i: nat, name: Text, before: Text, after: Text, quote: int, value: Text, attrs: Attrs)
    requires name != [] && AllIn(AttrName, name) && AllIn(HtmlSpace, before) && AllIn(HtmlSpace, after)
    requires quote in {0x22, 0x27} && quote !in value
    requires HoldsAt(s, i, name + (EqualsText(before, after) + ([quote] + (value + [quote]))))
    ensures AttrRound(s, i, attrs) == Go(Keep(attrs, Lower(name), value), i + |name| + |EqualsText(before, after)| + |value| + 2)
  {
    hide HoldsAt, EqualsText, ReadValue, Keep, AttrRound;
    PartOf(s, i, name, EqualsText(before, after) + ([quote] + (value + [quote])));
    PartOf(s, i + |name|, EqualsText(before, after), [quote] + (value + [quote]));
    EqualsEndsTheName(s, i + |name|, before, after);
    QuotedValue(s, i + |name|, before, after, quote, value);
    NameThenValue(s, i, name, attrs);
  }

  lemma UnquotedValue(s: Text, i: nat, before: Text, after: Text, value: Text)
    requires AllIn(HtmlSpace, before) && AllIn(HtmlSpace, after)
    requires AllIn(Unquoted, value) && value != [] && value[0] !in {0x22, 0x27}
    requires HoldsAt(s, i, EqualsText(before, after) + value)
    requires var end := i + |EqualsText(before, after)| + |value|; end < |s| ==> !Is(Unquoted, s[end])
    ensures ReadValue(s, i) == Some(Read(value, i + |EqualsText(before, after)| + |value|))
  {
    var at := i + |EqualsText(before, after)|;
    PartOf(s, i, EqualsText(before, after), value);
    UnitOf(s, at, value, 0);
    EqualsLayout(s, i, before, after);
    RunEnds(Unquoted, s, at, value);
    assert s[at..at + |value|] == value && s[at] == value[0];
    hide HoldsAt, EqualsText, EndOf, IndexFrom;
  }

  /** `name=value` without quotes: the value goes up to white space or the end of the tag. */
  lemma UnquotedAttribute(s: Text, i: nat, name: Text, before: Text, after: Text, value: Text, attrs: Attrs)
    requires name != [] && AllIn(AttrName, name) && AllIn(HtmlSpace, before) && AllIn(HtmlSpace, after)
    requires AllIn(Unquoted, value) && value != [] && value[0] !in {0x22, 0x27}
    requires HoldsAt(s, i, name + (EqualsText(before, after) + value))
    requires var end := i + |name| + |EqualsText(before, after)| + |value|; end < |s| ==> !Is(Unquoted, s[end])
    ensures AttrRound(s, i, attrs) == Go(Keep(attrs, Lower(name), value), i + |name| + |EqualsText(before, after)| + |value|)
  {
    hide HoldsAt, EqualsText, ReadValue, Keep, AttrRound;
    PartOf(s, i, name, EqualsText(before, after) + value);
    PartOf(s, i + |name|, EqualsText(before, after), value);
    EqualsEndsTheName(s, i + |name|, before, after);
    UnquotedValue(s, i + |name|, before, after, value);
    NameThenValue(s, i, name, attrs);
  }

  /** A name without a value has the empty one. */
  lemma BareAttribute(s: Text, i: nat, name: Text, space: Text, attrs: Attrs)
    requires name != [] && AllIn(AttrName, name) && AllIn(HtmlSpace, space) && HoldsAt(s, i, name + space)
    requires var end := i + |name| + |space|;
             end < |s| ==> s[end] != EQUALS && !Is(HtmlSpace, s[end]) && (space == [] ==> !Is(AttrName, s[end]))
    ensures AttrRound(s, i, attrs) == Go(Keep(attrs, Lower(name), []), i + |name| + |space|)
  {
    PartOf(s, i, name, space);
    if space != [] {
      UnitOf(s, i + |name|, space, 0);
      assert space[0] == s[i + |name|];
    }
    RunEnds(HtmlSpace, s, i + |name|, space);
    hide HoldsAt, Keep;
    NameThenValue(s, i, name, attrs);
  }

  lemma UnclosedValue(s: Text, i: nat, before: Text, after: Text, quote: int)
    requires AllIn(HtmlSpace, before) && AllIn(HtmlSpace, after) && quote in {0x22, 0x27}
    requires HoldsAt(s, i, EqualsText(before, after) + [quote]) && quote !in s[i + |EqualsText(before, after)| + 1..]
    ensures i <= |s| && ReadValue(s, i).None?
  {
    var at := i + |EqualsText(before, after)|;
    PartOf(s, i, EqualsText(before, after), [quote]);
    UnitOf(s, at, [quote], 0);
    EqualsLayout(s, i, before, after);
    assert forall k :: at + 1 <= k < |s| ==> s[k] == s[at + 1..][k - at - 1];
    hide HoldsAt, EqualsText, EndOf, IndexFrom;
  }

  /** A quote that never closes makes the whole tag text. */
  lemma UnclosedQuoteRefuses(s: Text, i: nat, name: Text, before: Text, after: Text, quote: int, attrs: Attrs)
    requires name != [] && AllIn(AttrName, name) && AllIn(HtmlSpace, before) && AllIn(HtmlSpace, after) && quote in {0x22, 0x27}
    requires HoldsAt(s, i, name + (EqualsText(before, after) + [quote]))
    requires quote !in s[i + |name| + |EqualsText(before, after)| + 1..]
    ensures AttrRound(s, i, attrs) == Refuse
  {
    hide HoldsAt, EqualsText, ReadValue, Keep, AttrRound;
    PartOf(s, i, name, EqualsText(before, after) + [quote]);
    PartOf(s, i + |name|, EqualsText(before, after), [quote]);
    EqualsEndsTheName(s, i + |name|, before, after);
    UnclosedValue(s, i + |name|, before, after, quote);
    NameThenValue(s, i, name, attrs);
  }

  // ---------------------------------------------------------------- tags

  /** The name of a tag, where one starts. */
  lemma NameIsRead(s: Text, i: nat, name: Text)
    requires name != [] && IsAlpha(name[0]) && AllIn(TagName, name) && HoldsAt(s, i, name)
    requires i + |name| < |s| ==> !Is(TagName, s[i + |name|])
    ensures i < |s| && IsAlpha(s[i]) && s[i] != SLASH && EndOf(TagName, s, i) == i + |name| && s[i..i + |name|] == name
  {
    UnitOf(s, i, name, 0);
    RunEnds(TagName, s, i, name);
  }

  /** A start tag: its name in lower case, and its attributes, which end in '>'. */
  lemma StartTagMeans(s: Text, i: nat, name: Text, attrs: Attrs, end: nat)
    requires name != [] && IsAlpha(name[0]) && AllIn(TagName, name) && UnitAt(s, i, LT) && HoldsAt(s, i + 1, name)
    requires i + 1 + |name| < |s| ==> !Is(TagName, s[i + 1 + |name|])
    requires ReadAttrs(s, i + 1 + |name|, map[]) == Some(Read(attrs, end))
    ensures i <= end <= |s| && ReadTag(s, i) == Some(Read(StartTag(Lower(name), attrs, s[i..end]), end))
  {
    hide ReadAttrs, HoldsAt, EndOf, AllIn, Lower, ReadTag;
    NameIsRead(s, i + 1, name);
    StartTagIs(s, i, i + 1 + |name|, attrs, end);
  }

  /** Without that end there is no tag. */
  lemma UnfinishedTagIsNone(s: Text, i: nat, name: Text)
    requires name != [] && IsAlpha(name[0]) && AllIn(TagName, name) && UnitAt(s, i, LT) && HoldsAt(s, i + 1, name)
    requires i + 1 + |name| < |s| ==> !Is(TagName, s[i + 1 + |name|])
    requires ReadAttrs(s, i + 1 + |name|, map[]).None?
    ensures ReadTag(s, i).None?
  {
    hide ReadAttrs, HoldsAt, EndOf, AllIn, Lower, ReadTag;
    NameIsRead(s, i + 1, name);
    StartTagIsRefused(s, i, i + 1 + |name|);
  }

  lemma StartTagIsRefused(s: Text, start: nat, nameEnd: nat)
    requires UnitAt(s, start, LT) && start + 1 < |s| && IsAlpha(s[start + 1])
    requires EndOf(TagName, s, start + 1) == nameEnd && ReadAttrs(s, nameEnd, map[]).None?
    ensures ReadTag(s, start).None?
  {
    hide ReadAttrs, EndOf;
  }

  /** An end tag: its name in lower case, white space, '>'. */
  lemma EndTagMeans(s: Text, i: nat, name: Text, space: Text)
    requires name != [] && IsAlpha(name[0]) && AllIn(TagName, name) && AllIn(HtmlSpace, space)
    requires UnitAt(s, i, LT) && UnitAt(s, i + 1, SLASH) && HoldsAt(s, i + 2, name + (space + [GT]))
    ensures var end := i + 3 + |name| + |space|;
            end <= |s| && ReadTag(s, i) == Some(Read(EndTag(Lower(name), s[i..end]), end))
  {
    NameThenBracket(s, i + 2, name, space);
    hide HoldsAt, EndOf, AllIn, Lower;
  }

  lemma NameThenBracket(s: Text, at: nat, name: Text, space: Text)
    requires name != [] && IsAlpha(name[0]) && AllIn(TagName, name) && AllIn(HtmlSpace, space)
    requires HoldsAt(s, at, name + (space + [GT]))
    ensures at < |s| && IsAlpha(s[at]) && EndOf(TagName, s, at) == at + |name| && s[at..at + |name|] == name
    ensures EndOf(HtmlSpace, s, at + |name|) == at + |name| + |space| && UnitAt(s, at + |name| + |space|, GT)
  {
    PartOf(s, at, name, space + [GT]);
    SpaceThenBracket(s, at + |name|, space);
    NameIsRead(s, at, name);
  }

  lemma SpaceThenBracket(s: Text, at: nat, space: Text)
    requires AllIn(HtmlSpace, space) && HoldsAt(s, at, space + [GT])
    ensures at < |s| && !Is(TagName, s[at]) && EndOf(HtmlSpace, s, at) == at + |space| && UnitAt(s, at + |space|, GT)
  {
    hide HoldsAt, AllIn;
    PartOf(s, at, space, [GT]);
    UnitOf(s, at + |space|, [GT], 0);
    UnitOf(s, at, space + [GT], 0);
    SpaceOrBracket(space);
    RunEnds(HtmlSpace, s, at, space);
  }

  lemma SpaceOrBracket(space: Text)
    requires AllIn(HtmlSpace, space)
    ensures !Is(TagName, (space + [GT])[0]) && !Is(HtmlSpace, GT)
  {
    assert space != [] ==> Is(HtmlSpace, space[0]);
  }

  /** A '<' that no letter follows, after a slash or not, is text. */
  lemma NoTagWithoutALetter(s: Text, i: nat)
    requires UnitAt(s, i, LT)
    requires var at := if UnitAt(s, i + 1, SLASH) then i + 2 else i + 1; at < |s| ==> !IsAlpha(s[at])
    ensures ReadTag(s, i).None?
  {
  }
}
