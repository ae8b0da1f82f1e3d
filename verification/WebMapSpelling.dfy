/**
 Definition expressions the portal did not print: attrFilterFromEsriDefinition on any spelling of its
 shapes, packages/engine/src/web-map-json.ts:601-778. Fields bare or quoted, any white space where the
 patterns allow it, keywords in either case, numbers with any zeros.
 */
module WebMapSpelling {
  import opened Prelude
  import opened Slices
  import opened SqlLiterals
  import opened WebMapFilter

  predicate IsGap(s: string) {
    forall k :: 0 <= k < |s| ==> IsSpace(s[k])
  }

  /** `[A-Za-z_][A-Za-z0-9_]*`. */
  predicate IsName(s: string) {
    s != "" && !IsDigit(s[0]) && forall k :: 0 <= k < |s| ==> IsLetter(s[k]) || IsDigit(s[k]) || s[k] == '_'
  }

  predicate SpellsField(s: string, field: string) {
    (field != "" && s == Quoted('"', field)) || (IsName(field) && s == field)
  }

  // ---------------------------------------------------------------- white space

  lemma {:induction false} GapSkipped(t: string, i: nat, gap: string)
    requires IsGap(gap) && HoldsAt(t, i, gap) && (i + |gap| < |t| ==> !IsSpace(t[i + |gap|]))
    ensures SkipSpace(t, i) == i + |gap|
    decreases |gap|
  {
    if gap != "" {
      assert gap == gap[..1] + gap[1..];
      PartOf(t, i, gap[..1], gap[1..]);
      UnitOf(t, i, gap, 0);
      GapSkipped(t, i + 1, gap[1..]);
    }
  }

  /** Outer white space is dropped. */
  lemma {:induction false} TrimMeans(lead: string, t: string, trail: string)
    requires IsGap(lead) && IsGap(trail) && Trimmed(t) && t != ""
    ensures Trim(lead + t + trail) == t
    decreases |lead| + |trail|
  {
    var s := lead + t + trail;
    if lead != "" {
      assert s[0] == lead[0] && s[1..] == lead[1..] + t + trail;
      TrimMeans(lead[1..], t, trail);
    } else if trail != "" {
      var last := |trail| - 1;
      assert s[0] == t[0] && s[|s| - 1] == trail[last] && s[..|s| - 1] == lead + t + trail[..last];
      TrimMeans(lead, t, trail[..last]);
    } else {
      assert s == t;
    }
  }

  // ---------------------------------------------------------------- literals

  /** A number is read as its digits without the zeros at either end, the point counted from the first
      of them; nothing but zeros is zero. */
  lemma NumberMeans(minus: bool, whole: string, fraction: string)
    requires whole != "" && AllDigits(whole) && AllDigits(fraction)
    ensures var t := (if minus then "-" else "") + (whole + if fraction == "" then "" else "." + fraction);
            var n := NumberOf(minus, whole, fraction);
            ParseSqlLiteral(t) == Some(Num(n)) && Canonical(n) && SameDecimal(n, minus, whole, fraction)
  {
    var u := whole + if fraction == "" then "" else "." + fraction;
    NumberOfMeans(minus, whole, fraction);
    hide SameDecimal, Canonical, NumberOf;
    MagnitudeMeans(minus, whole, fraction);
    SignedMagnitude(minus, u);
  }

  lemma MagnitudeMeans(minus: bool, whole: string, fraction: string)
    requires whole != "" && AllDigits(whole) && AllDigits(fraction)
    ensures var u := whole + if fraction == "" then "" else "." + fraction;
            && ReadMagnitude(u, minus) == Some(NumberOf(minus, whole, fraction))
            && u != "" && IsDigit(u[0]) && IsDigit(u[|u| - 1])
  {
    hide NumberOf, ReadMagnitude;
    if fraction == "" {
      assert whole + "" == whole;
      ReadWhole(whole, minus);
    } else {
      Concat3(whole, ".", fraction);
      ReadFraction(whole, fraction, minus);
    }
  }

  lemma SignedMagnitude(minus: bool, u: string)
    requires u != "" && IsDigit(u[0]) && IsDigit(u[|u| - 1]) && ReadMagnitude(u, minus).Some?
    ensures ParseSqlLiteral((if minus then "-" else "") + u) == Some(Num(ReadMagnitude(u, minus).value))
  {
    hide ReadMagnitude;
    var t := (if minus then "-" else "") + u;
    assert minus ==> t[1..] == u && t[0] == '-';
    assert !minus ==> t == u;
    assert Trimmed(t);
  }

  predicate SameDecimal(n: Number, minus: bool, whole: string, fraction: string) {
    match n
    case Zero => whole + fraction == Zeros(|whole + fraction|)
    case Decimal(negative, digits, point) =>
      && negative == minus && point <= |whole| && |whole| - point + |digits| <= |whole + fraction|
      && whole + fraction == Zeros(|whole| - point) + digits + Zeros(|fraction| + point - |digits|)
  }

  lemma NumberOfMeans(minus: bool, whole: string, fraction: string)
    requires AllDigits(whole) && AllDigits(fraction)
    ensures SameDecimal(NumberOf(minus, whole, fraction), minus, whole, fraction) && Canonical(NumberOf(minus, whole, fraction))
  {
    var all := whole + fraction;
    var (digits, point) := StripLeading(all, |whole|);
    StripLeadingMeans(all, |whole|);
    StripTrailingMeans(digits);
    var significant := StripTrailing(digits);
    var front := Zeros(|whole| - point);
    if significant == "" {
      assert all == Zeros(|all|);
    } else {
      var back := Zeros(|digits| - |significant|);
      assert all == front + (significant + back) == front + significant + back;
      assert |back| == |fraction| + point - |significant|;
    }
  }

  lemma {:induction false} StripLeadingMeans(all: string, point: int)
    ensures var (digits, p) := StripLeading(all, point);
            && p <= point && all == Zeros(point - p) + digits
            && (digits == "" || digits[0] != '0') && (AllDigits(all) ==> AllDigits(digits))
  {
    if all != "" && all[0] == '0' {
      StripLeadingMeans(all[1..], point - 1);
      var (digits, p) := StripLeading(all, point);
      assert all == "0" + all[1..];
      assert Zeros(point - p) == "0" + Zeros(point - 1 - p);
    } else {
      assert Zeros(0) + all == all;
    }
  }

  lemma {:induction false} StripTrailingMeans(all: string)
    ensures var digits := StripTrailing(all);
            && |digits| <= |all| && all == digits + Zeros(|all| - |digits|)
            && (digits == "" || (digits[|digits| - 1] != '0' && digits[0] == all[0]))
            && (AllDigits(all) ==> AllDigits(digits))
  {
    if all != "" && all[|all| - 1] == '0' {
      var rest := all[..|all| - 1];
      StripTrailingMeans(rest);
      var digits := StripTrailing(all);
      assert all == rest + "0";
      assert Zeros(|all| - |digits|) == Zeros(|rest| - |digits|) + "0";
    } else {
      assert all == all + Zeros(0);
    }
  }

  predicate IsWord(s: string) {
    s != "" && forall k :: 0 <= k < |s| ==> IsLetter(s[k])
  }

  /** Words in any case, and text in single quotes with each quote inside doubled. */
  lemma LiteralMeans(t: string)
    ensures IsWord(t) && SameWord(t, "true") ==> ParseSqlLiteral(t) == Some(Bool(true))
    ensures IsWord(t) && SameWord(t, "false") ==> ParseSqlLiteral(t) == Some(Bool(false))
    ensures IsWord(t) && SameWord(t, "null") ==> ParseSqlLiteral(t) == Some(Null)
    ensures forall s :: t == Quoted('\'', s) ==> ParseSqlLiteral(t) == Some(Str(s))
  {
    if IsWord(t) {
      LettersAreNoSpace(t);
      DigitsEndIs(t, 0, 0);
      assert SameWord(t, "true") ==> Fold(t[0]) == 't';
      assert SameWord(t, "false") ==> Fold(t[0]) == 'f';
      assert SameWord(t, "null") ==> Fold(t[0]) == 'n';
    }
    forall s | t == Quoted('\'', s) ensures ParseSqlLiteral(t) == Some(Str(s)) {
      LiteralReadsBack(Str(s));
    }
  }

  lemma LettersAreNoSpace(t: string)
    requires IsWord(t)
    ensures Trimmed(t) && forall k :: 0 <= k < |t| ==> !IsSpace(t[k])
  {
  }

  // ---------------------------------------------------------------- the field

  lemma {:induction false} NameEnds(t: string, i: nat, j: nat)
    requires i <= j <= |t| && (forall k :: i <= k < j ==> IsIdentChar(t[k])) && (j < |t| ==> !IsIdentChar(t[j]))
    ensures IdentEnd(t, i) == j
    decreases j - i
  {
    if i < j {
      NameEnds(t, i + 1, j);
    }
  }

  /** A field is read whole: quoted, or bare up to the first character no name has. */
  lemma FieldMeans(spelling: string, field: string, tail: string)
    requires SpellsField(spelling, field)
    requires tail == "" || (tail[0] != '"' && tail[0] != '_' && !IsLetter(tail[0]) && !IsDigit(tail[0]))
    ensures FieldAt(spelling + tail) == Some(Read(field, |spelling|))
  {
    var t := spelling + tail;
    assert t[..|spelling|] == spelling;
    if spelling == Quoted('"', field) && field != "" {
      QuotedReadsBack(t, 0, '"', field);
    } else {
      assert t[0] == field[0];
      NameEnds(t, 1, |spelling|);
    }
  }

  lemma {:induction false} ScanMeans(s: string, i: nat, q: char)
    requires i <= |s| && ScanQuoted(s, i, q).Some?
    ensures var r := ScanQuoted(s, i, q).value;
            HoldsAt(s, i, DoubleUp(q, r.item) + [q]) && r.end == i + |DoubleUp(q, r.item)| + 1 && !CharAt(s, r.end, q)
    decreases |s| - i
  {
    var r := ScanQuoted(s, i, q).value;
    if s[i] == q && !CharAt(s, i + 1, q) {
      assert s[i..i + 1] == [q];
    } else {
      var next := if s[i] == q then i + 2 else i + 1;
      ScanMeans(s, next, q);
      var rest := ScanQuoted(s, next, q).value;
      DoubledFirst(q, s[i], rest.item);
      var first := if s[i] == q then [q, q] else [s[i]];
      assert s[i..next] == first;
      hide DoubleUp, ScanQuoted;
      Adjacent(s, i, first, DoubleUp(q, rest.item) + [q]);
    }
  }

  lemma DoubledFirst(q: char, c: char, rest: string)
    ensures DoubleUp(q, [c] + rest) + [q] == (if c == q then [q, q] else [c]) + (DoubleUp(q, rest) + [q])
  {
    assert ([c] + rest)[1..] == rest;
  }

  lemma Adjacent(s: string, i: nat, x: string, y: string)
    requires HoldsAt(s, i, x) && HoldsAt(s, i + |x|, y)
    ensures HoldsAt(s, i, x + y)
  {
    assert s[i..i + |x| + |y|] == s[i..i + |x|] + s[i + |x|..i + |x| + |y|];
  }

  /** And nothing else is read as one. */
  lemma FieldsAreSpelled(t: string)
    requires FieldAt(t).Some?
    ensures var f := FieldAt(t).value; SpellsField(t[..f.end], f.item)
    ensures var f := FieldAt(t).value; IsName(t[..f.end]) && f.end < |t| ==> !IsIdentChar(t[f.end])
  {
    if CharAt(t, 0, '"') {
      ScanMeans(t, 1, '"');
      var f := FieldAt(t).value;
      assert t[..f.end] == t[..1] + t[1..f.end];
    } else {
      NameStops(t, 1);
    }
  }

  lemma {:induction false} NameStops(t: string, i: nat)
    requires i <= |t|
    ensures var j := IdentEnd(t, i); (forall k :: i <= k < j ==> IsIdentChar(t[k])) && (j < |t| ==> !IsIdentChar(t[j]))
    decreases |t| - i
  {
    if i < |t| && IsIdentChar(t[i]) {
      NameStops(t, i + 1);
    }
  }

  // ---------------------------------------------------------------- comparisons

  predicate IsSign(sign: string, cmp: Cmp) {
    match cmp
    case Eq => sign == "="
    case Neq => sign == "<>"
    case Lt => sign == "<"
    case Lte => sign == "<="
    case Gt => sign == ">"
    case Gte => sign == ">="
  }

  /** A literal's text starts with a quote, a minus, a digit or a letter. */
  lemma LiteralStarts(text: string)
    requires text != "" && Trimmed(text) && ParseSqlLiteral(text).Some?
    ensures text[0] == '\'' || text[0] == '-' || IsDigit(text[0]) || IsLetter(text[0])
  {
    if text[0] != '\'' && text[0] != '-' && !IsDigit(text[0]) {
      DigitsEndIs(text, 0, 0);
      assert SameWord(text, "true") ==> Fold(text[0]) == Fold("true"[0]);
      assert SameWord(text, "false") ==> Fold(text[0]) == Fold("false"[0]);
      assert SameWord(text, "null") ==> Fold(text[0]) == Fold("null"[0]);
    }
  }

  lemma SignReads(t: string, p: nat, sign: string, cmp: Cmp)
    requires IsSign(sign, cmp) && HoldsAt(t, p, sign) && p + |sign| < |t|
    requires t[p + |sign|] != '=' && t[p + |sign|] != '>'
    ensures SymbolAt(t, p) == Some((cmp, p + |sign|)) && p < |t| && !IsSpace(t[p]) && !IsIdentChar(t[p]) && t[p] != '"'
  {
    UnitOf(t, p, sign, 0);
    UnitOf(t, p, sign, |sign| - 1);
  }

  /** The whole expression: outer white space, the field, and a tail that starts neither a name nor a quote. */
  lemma ExpressionReads(lead: string, spelling: string, field: string, tail: string, trail: string)
    requires IsGap(lead) && IsGap(trail) && SpellsField(spelling, field)
    requires tail != "" && !IsIdentChar(tail[0]) && tail[0] != '"' && !IsSpace(tail[|tail| - 1])
    ensures ParseFilter(lead + (spelling + tail) + trail) == ParseTail(spelling + tail, field, |spelling|)
    ensures HoldsAt(spelling + tail, |spelling|, tail)
  {
    FieldMeans(spelling, field, tail);
    var t := spelling + tail;
    assert t[|spelling|..|spelling| + |tail|] == tail;
    FirstOfField(spelling, field);
    hide SpellsField, IsSpace, FieldAt, ParseTail, IsIdentChar;
    assert t[0] == spelling[0] && t[|t| - 1] == tail[|tail| - 1];
    TrimMeans(lead, t, trail);
  }

  lemma FirstOfField(spelling: string, field: string)
    requires SpellsField(spelling, field)
    ensures spelling != "" && !IsSpace(spelling[0])
  {
  }

  lemma SpaceIsNoName(c: char)
    requires IsSpace(c)
    ensures !IsIdentChar(c) && c != '"' && !IsLetter(c)
  {
  }

  /** `FIELD op literal`, with or without white space around the operator. */
  lemma ComparisonMeans(lead: string, spelling: string, field: string, gap: string, sign: string, cmp: Cmp, gap': string,
                        text: string, v: Literal, trail: string)
    requires IsGap(lead) && IsGap(trail) && IsGap(gap) && IsGap(gap') && SpellsField(spelling, field) && IsSign(sign, cmp)
    requires text != "" && Trimmed(text) && OneLine(text) && ParseSqlLiteral(text) == Some(v)
    ensures ParseFilter(lead + (spelling + (gap + (sign + (gap' + text)))) + trail) == Some(Compare(field, cmp, v))
  {
    var tail := gap + (sign + (gap' + text));
    ComparisonShape(gap, sign, cmp, gap', text);
    ExpressionReads(lead, spelling, field, tail, trail);
    CompareTailIs(spelling + tail, |spelling|, gap, sign, cmp, gap', text, v);
    hide SpellsField, IsGap, Trimmed, ParseSqlLiteral, OneLine, CompareTail, NullTail, InTail, LikeTail, HoldsAt, ParseFilter;
  }

  lemma CompareTailIs(t: string, e: nat, gap: string, sign: string, cmp: Cmp, gap': string, text: string, v: Literal)
    requires IsGap(gap) && IsGap(gap') && IsSign(sign, cmp)
    requires text != "" && Trimmed(text) && OneLine(text) && ParseSqlLiteral(text) == Some(v)
    requires HoldsAt(t, e, gap + (sign + (gap' + text))) && e + |gap| + |sign| + |gap'| + |text| == |t|
    ensures e <= |t| && CompareTail(t, e) == Some((cmp, v))
  {
    hide IsGap, SkipSpace, SymbolAt, ParseSqlLiteral, OneLine, Trimmed, IsSign, HoldsAt;
    ComparisonLayout(t, e, gap, sign, cmp, gap', text);
    var p := e + |gap| + |sign|;
    assert p + |gap'| < |t|;
  }

  lemma ComparisonShape(gap: string, sign: string, cmp: Cmp, gap': string, text: string)
    requires IsGap(gap) && IsGap(gap') && IsSign(sign, cmp) && text != "" && Trimmed(text)
    ensures var tail := gap + (sign + (gap' + text));
            tail != "" && !IsIdentChar(tail[0]) && tail[0] != '"' && !IsSpace(tail[|tail| - 1])
  {
    var tail := gap + (sign + (gap' + text));
    if gap != "" {
      SpaceIsNoName(gap[0]);
      assert tail[0] == gap[0];
    } else {
      assert tail[0] == sign[0];
    }
    assert tail[|tail| - 1] == text[|text| - 1];
  }

  lemma ComparisonLayout(t: string, e: nat, gap: string, sign: string, cmp: Cmp, gap': string, text: string)
    requires IsGap(gap) && IsGap(gap') && IsSign(sign, cmp) && text != "" && Trimmed(text) && ParseSqlLiteral(text).Some?
    requires HoldsAt(t, e, gap + (sign + (gap' + text))) && e + |gap| + |sign| + |gap'| + |text| == |t|
    ensures var p := e + |gap|;
            && SkipSpace(t, e) == p && SymbolAt(t, p) == Some((cmp, p + |sign|))
            && SkipSpace(t, p + |sign|) == p + |sign| + |gap'| && t[p + |sign| + |gap'|..] == text
  {
    hide ParseSqlLiteral, HoldsAt, IsSpace, IsDigit, IsLetter, IsGap, IsSign, SkipSpace, SymbolAt, Trimmed;
    LiteralStarts(text);
    AfterSign(gap', text);
    PartOf(t, e, gap, sign + (gap' + text));
    PartOf(t, e + |gap|, sign, gap' + text);
    PartOf(t, e + |gap| + |sign|, gap', text);
    var a := e + |gap| + |sign|;
    UnitOf(t, a + |gap'|, text, 0);
    UnitOf(t, a, gap' + text, 0);
    RestIs(t, a + |gap'|, text);
    SignReads(t, e + |gap|, sign, cmp);
    GapSkipped(t, e, gap);
    GapSkipped(t, a, gap');
  }

  lemma AfterSign(gap: string, text: string)
    requires IsGap(gap) && text != "" && (text[0] == '\'' || text[0] == '-' || IsDigit(text[0]) || IsLetter(text[0]))
    ensures gap + text != "" && (gap + text)[0] != '=' && (gap + text)[0] != '>' && !IsSpace(text[0])
  {
    assert gap != "" ==> IsSpace(gap[0]);
  }

  // ---------------------------------------------------------------- keywords

  predicate SpellsWord(s: string, word: string) {
    IsWord(s) && SameWord(s, word)
  }

  /** A gap and a word that is not the one looked for. */
  lemma WordDiffers(t: string, e: nat, gap: string, c: string, word: string, k: nat)
    requires IsGap(gap) && HoldsAt(t, e, gap + c) && k < |c| && k < |word| && !IsSpace(c[0]) && Fold(c[k]) != Fold(word[k])
    ensures e <= |t| && Keyword(t, e, word).None?
  {
    PartOf(t, e, gap, c);
    UnitOf(t, e + |gap|, c, 0);
    UnitOf(t, e + |gap|, c, k);
    GapSkipped(t, e, gap);
    var p := e + |gap|;
    if p + |word| <= |t| {
      assert t[p..p + |word|][k] == t[p + k];
    }
  }

  lemma WordFound(t: string, e: nat, gap: string, s: string, word: string)
    requires IsGap(gap) && gap != "" && SpellsWord(s, word) && HoldsAt(t, e, gap + s)
    ensures e <= |t| && Keyword(t, e, word) == Some(e + |gap| + |s|)
  {
    PartOf(t, e, gap, s);
    UnitOf(t, e + |gap|, s, 0);
    LettersAreNoSpace(s);
    GapSkipped(t, e, gap);
  }

  /** A keyword after the field is no comparison. */
  lemma WordIsNoSign(t: string, e: nat, gap: string, s: string)
    requires IsGap(gap) && IsWord(s) && HoldsAt(t, e, gap + s)
    ensures CompareTail(t, e).None?
  {
    PartOf(t, e, gap, s);
    UnitOf(t, e + |gap|, s, 0);
    LettersAreNoSpace(s);
    GapSkipped(t, e, gap);
  }

  lemma GapFirst(gap: string, rest: string)
    requires IsGap(gap) && gap != "" && rest != "" && !IsSpace(rest[|rest| - 1])
    ensures var tail := gap + rest; tail != "" && !IsIdentChar(tail[0]) && tail[0] != '"' && !IsSpace(tail[|tail| - 1])
  {
    SpaceIsNoName(gap[0]);
    assert (gap + rest)[0] == gap[0];
    assert (gap + rest)[|gap + rest| - 1] == rest[|rest| - 1];
  }

  /** `FIELD IS NULL`. */
  lemma NullTestMeans(lead: string, spelling: string, field: string, gap: string, isWord: string, gap': string, nullWord: string, trail: string)
    requires IsGap(lead) && IsGap(trail) && IsGap(gap) && gap != "" && IsGap(gap') && gap' != "" && SpellsField(spelling, field)
    requires SpellsWord(isWord, "is") && SpellsWord(nullWord, "null")
    ensures ParseFilter(lead + (spelling + (gap + (isWord + (gap' + nullWord)))) + trail) == Some(NullTest(field, true))
  {
    var tail := gap + (isWord + (gap' + nullWord));
    LettersAreNoSpace(nullWord);
    GapFirst(gap, isWord + (gap' + nullWord));
    ExpressionReads(lead, spelling, field, tail, trail);
    NullTailIs(spelling + tail, |spelling|, gap, isWord, gap', nullWord);
    hide SpellsField, IsGap, SpellsWord, ParseFilter, CompareTail, NullTail, HoldsAt;
  }

  lemma NullTailIs(t: string, e: nat, gap: string, isWord: string, gap': string, nullWord: string)
    requires IsGap(gap) && gap != "" && IsGap(gap') && gap' != "" && SpellsWord(isWord, "is") && SpellsWord(nullWord, "null")
    requires HoldsAt(t, e, gap + (isWord + (gap' + nullWord))) && e + |gap| + |isWord| + |gap'| + |nullWord| == |t|
    ensures e <= |t| && CompareTail(t, e).None? && NullTail(t, e) == Some(true)
  {
    hide IsGap, SpellsWord, CompareTail, Keyword, HoldsAt;
    Concat3(gap, isWord, gap' + nullWord);
    PartOf(t, e, gap + isWord, gap' + nullWord);
    WordFound(t, e, gap, isWord, "is");
    WordIsAWord(isWord, "is");
    WordIsNoSign(t, e, gap, isWord);
    WordFound(t, e + |gap| + |isWord|, gap', nullWord, "null");
  }

  lemma WordIsAWord(s: string, word: string)
    requires SpellsWord(s, word)
    ensures IsWord(s) && !IsSpace(s[0]) && |s| == |word| && forall k :: 0 <= k < |s| ==> Fold(s[k]) == Fold(word[k])
  {
    LettersAreNoSpace(s);
  }

  /** `FIELD IS NOT NULL`. */
  lemma NotNullTestMeans(lead: string, spelling: string, field: string, gap: string, isWord: string, gap': string, notWord: string,
                         gap'': string, nullWord: string, trail: string)
    requires IsGap(lead) && IsGap(trail) && IsGap(gap) && gap != "" && IsGap(gap') && gap' != "" && IsGap(gap'') && gap'' != ""
    requires SpellsField(spelling, field) && SpellsWord(isWord, "is") && SpellsWord(notWord, "not") && SpellsWord(nullWord, "null")
    ensures ParseFilter(lead + (spelling + (gap + (isWord + (gap' + (notWord + (gap'' + nullWord)))))) + trail) == Some(NullTest(field, false))
  {
    var rest := gap' + (notWord + (gap'' + nullWord));
    var tail := gap + (isWord + rest);
    LettersAreNoSpace(nullWord);
    GapFirst(gap, isWord + rest);
    ExpressionReads(lead, spelling, field, tail, trail);
    NotNullTailIs(spelling + tail, |spelling|, gap, isWord, gap', notWord, gap'', nullWord);
    hide SpellsField, IsGap, SpellsWord, ParseFilter, CompareTail, NullTail, HoldsAt;
  }

  lemma NotNullTailIs(t: string, e: nat, gap: string, isWord: string, gap': string, notWord: string, gap'': string, nullWord: string)
    requires IsGap(gap) && gap != "" && IsGap(gap') && gap' != "" && IsGap(gap'') && gap'' != ""
    requires SpellsWord(isWord, "is") && SpellsWord(notWord, "not") && SpellsWord(nullWord, "null")
    requires HoldsAt(t, e, gap + (isWord + (gap' + (notWord + (gap'' + nullWord)))))
    requires e + |gap| + |isWord| + |gap'| + |notWord| + |gap''| + |nullWord| == |t|
    ensures e <= |t| && CompareTail(t, e).None? && NullTail(t, e) == Some(false)
  {
    hide IsGap, SpellsWord, CompareTail, Keyword, HoldsAt;
    var rest := gap' + (notWord + (gap'' + nullWord));
    Concat3(gap, isWord, rest);
    PartOf(t, e, gap + isWord, rest);
    WordFound(t, e, gap, isWord, "is");
    WordIsAWord(isWord, "is");
    WordIsNoSign(t, e, gap, isWord);
    var e' := e + |gap| + |isWord|;
    Concat3(gap', notWord, gap'' + nullWord);
    PartOf(t, e', gap' + notWord, gap'' + nullWord);
    WordIsAWord(notWord, "not");
    WordDiffers(t, e', gap', notWord, "null", 1);
    WordFound(t, e', gap', notWord, "not");
    WordFound(t, e' + |gap'| + |notWord|, gap'', nullWord, "null");
  }

  /** `FIELD LIKE 'pattern'`: only a pattern that ends in '%' is a filter, and one that also starts with
      another '%' asks for the text anywhere. */
  lemma LikeMeans(lead: string, spelling: string, field: string, gap: string, likeWord: string, gap': string, pattern: string, trail: string)
    requires IsGap(lead) && IsGap(trail) && IsGap(gap) && gap != "" && IsGap(gap') && gap' != "" && SpellsField(spelling, field)
    requires SpellsWord(likeWord, "like")
    ensures var read := ParseFilter(lead + (spelling + (gap + (likeWord + (gap' + Quoted('\'', pattern))))) + trail);
            && (forall text :: pattern == "%" + text + "%" ==> read == Some(Contains(field, text)))
            && (forall text :: pattern == text + "%" && (text == "" || text[0] != '%') ==> read == Some(StartsWith(field, text)))
            && (pattern == "" || pattern[|pattern| - 1] != '%' ==> read.None?)
  {
    var quoted := Quoted('\'', pattern);
    var tail := gap + (likeWord + (gap' + quoted));
    assert quoted[|quoted| - 1] == '\'' && !IsSpace('\'');
    GapFirst(gap, likeWord + (gap' + quoted));
    ExpressionReads(lead, spelling, field, tail, trail);
    var t, e := spelling + tail, |spelling|;
    LikeTailIs(t, e, gap, likeWord, gap', pattern);
    forall text | pattern == "%" + text + "%" ensures LikeFilter(field, pattern) == Some(Contains(field, text)) {
      ContainsPattern(field, text);
    }
    forall text | pattern == text + "%" && (text == "" || text[0] != '%') ensures LikeFilter(field, pattern) == Some(StartsWith(field, text)) {
      PrefixPattern(field, text);
    }
    hide SpellsField, IsSpace, SpellsWord, ParseFilter, CompareTail, InTail, LikeTail, NullTail, HoldsAt, Quoted;
  }

  lemma LikeTailIs(t: string, e: nat, gap: string, likeWord: string, gap': string, pattern: string)
    requires IsGap(gap) && gap != "" && IsGap(gap') && gap' != "" && SpellsWord(likeWord, "like")
    requires HoldsAt(t, e, gap + (likeWord + (gap' + Quoted('\'', pattern))))
    requires e + |gap + (likeWord + (gap' + Quoted('\'', pattern)))| == |t|
    ensures LikeTail(t, e) == Some(pattern) && CompareTail(t, e).None? && NullTail(t, e).None? && InTail(t, e).None?
  {
    hide IsSpace, SpellsWord, CompareTail, Keyword, HoldsAt, Quoted;
    var quoted := Quoted('\'', pattern);
    Concat3(gap, likeWord, gap' + quoted);
    PartOf(t, e, gap + likeWord, gap' + quoted);
    WordIsAWord(likeWord, "like");
    WordIsNoSign(t, e, gap, likeWord);
    WordFound(t, e, gap, likeWord, "like");
    WordDiffers(t, e, gap, likeWord, "is", 0);
    WordDiffers(t, e, gap, likeWord, "in", 0);
    var a := e + |gap| + |likeWord|;
    PartOf(t, a, gap', quoted);
    QuotedReadsBack(t, a + |gap'|, '\'', pattern);
    QuoteIsNoSpace();
    GapSkipped(t, a, gap');
  }

  // ---------------------------------------------------------------- lists

  /** An element with the white space around it. */
  datatype Cell = Cell(before: string, text: string, after: string, value: Literal)

  predicate IsCell(c: Cell) {
    && IsGap(c.before) && IsGap(c.after) && c.text != "" && Trimmed(c.text)
    && ParseSqlLiteral(c.text) == Some(c.value) && !c.value.Null?
  }

  predicate AreCells(cells: seq<Cell>) {
    forall k :: 0 <= k < |cells| ==> IsCell(cells[k])
  }

  function CellText(c: Cell): string {
    c.before + (c.text + c.after)
  }

  /** The cells between commas. */
  function ListText(cells: seq<Cell>): string {
    if cells == [] then ""
    else if |cells| == 1 then CellText(cells[0])
    else CellText(cells[0]) + ("," + ListText(cells[1..]))
  }

  function ValuesOf(cells: seq<Cell>): seq<Literal> {
    seq(|cells|, k requires 0 <= k < |cells| => cells[k].value)
  }

  /** Only quoted text holds commas. */
  lemma NoCommas(text: string)
    requires text != "" && Trimmed(text) && ParseSqlLiteral(text).Some? && text[0] != '\''
    ensures ',' !in text
  {
    if ReadNumber(text).Some? {
      NumberHasNoComma(text);
    } else {
      assert Fold(',') == ',';
      assert forall k :: 0 <= k < |text| && text[k] == ',' ==> Fold(text[k]) == ',';
    }
  }

  lemma NumberHasNoComma(text: string)
    requires ReadNumber(text).Some?
    ensures ',' !in text
  {
    var u := if CharAt(text, 0, '-') then text[1..] else text;
    var e := DigitsEnd(u, 0);
    assert forall k :: 0 <= k < e ==> u[..e][k] == u[k];
    if e < |u| {
      var f := DigitsEnd(u, e + 1);
      assert forall k :: e + 1 <= k < f ==> u[e + 1..f][k - e - 1] == u[k];
    }
    assert forall k :: 0 <= k < |u| ==> u[k] != ',';
  }

  /** The element at `start` is `v`, and the scan goes on at `next`. */
  predicate CutsTo(body: string, start: nat, next: nat, v: Literal) {
    && start < |body| && ElementEnd(body, start).Some?
    && ParseSqlLiteral(body[start..ElementEnd(body, start).value]) == Some(v)
    && SkipSpace(body, ElementEnd(body, start).value) == next
  }

  /** What the scan cuts out and where it goes on. */
  lemma CellCut(body: string, i: nat, c: Cell)
    requires IsCell(c) && HoldsAt(body, i, CellText(c))
    requires i + |CellText(c)| == |body| || CharAt(body, i + |CellText(c)|, ',')
    ensures i <= |body| && SkipSpace(body, i) == i + |c.before|
    ensures CutsTo(body, i + |c.before|, i + |CellText(c)|, c.value)
  {
    hide IsSpace, ParseSqlLiteral, ElementEnd, HoldsAt, IsGap, IsCell, SkipSpace, CharAt;
    PartOf(body, i, c.before, c.text + c.after);
    PartOf(body, i + |c.before|, c.text, c.after);
    CellGaps(c);
    UnitOf(body, i + |c.before|, c.text, 0);
    assert i + |CellText(c)| == i + |c.before| + |c.text| + |c.after|;
    GapSkipped(body, i, c.before);
    if c.text[0] == '\'' {
      QuotedCell(body, i + |c.before|, c);
    } else {
      PlainCell(body, i + |c.before|, c);
    }
  }

  lemma CellGaps(c: Cell)
    requires IsCell(c)
    ensures IsGap(c.before) && IsGap(c.after) && c.text != "" && !IsSpace(c.text[0])
  {
  }

  lemma CommaIsNoSpace()
    ensures !IsSpace(',')
  {
  }

  lemma QuotedCell(body: string, i: nat, c: Cell)
    requires IsCell(c) && c.text[0] == '\'' && HoldsAt(body, i, c.text) && HoldsAt(body, i + |c.text|, c.after)
    requires i + |c.text| + |c.after| == |body| || CharAt(body, i + |c.text| + |c.after|, ',')
    ensures CutsTo(body, i, i + |c.text| + |c.after|, c.value)
  {
    var s := QuotedText(c.text, c.value);
    CellGaps(c);
    GapAfter(body, i + |c.text|, c.after);
    WholeHolds(c.text);
    assert body[i..i + |c.text|] == c.text;
    hide Quoted, HoldsAt, IsGap, ParseSqlLiteral;
    QuotedReadsBack(body, i, '\'', s);
    assert ParseSqlLiteral(c.text) == Some(c.value);
    hide IsCell, IsSpace, SkipSpace, ScanQuoted;
  }

  /** Text read as a literal that starts with a quote is a whole quoted text. */
  lemma QuotedText(text: string, v: Literal) returns (s: string)
    requires text != "" && text[0] == '\'' && Trimmed(text) && ParseSqlLiteral(text) == Some(v)
    ensures text == Quoted('\'', s)
  {
    ScanMeans(text, 1, '\'');
    var r := ScanQuoted(text, 1, '\'').value;
    s := r.item;
    assert text == text[..1] + text[1..|text|];
  }

  lemma GapAfter(body: string, i: nat, gap: string)
    requires IsGap(gap) && HoldsAt(body, i, gap) && (i + |gap| == |body| || CharAt(body, i + |gap|, ','))
    ensures SkipSpace(body, i) == i + |gap| && !CharAt(body, i, '\'')
  {
    CommaIsNoSpace();
    QuoteIsNoSpace();
    if gap != "" {
      UnitOf(body, i, gap, 0);
      assert IsSpace(gap[0]);
    }
    hide IsSpace;
    GapSkipped(body, i, gap);
  }

  lemma PlainCell(body: string, i: nat, c: Cell)
    requires IsCell(c) && c.text[0] != '\'' && HoldsAt(body, i, c.text) && HoldsAt(body, i + |c.text|, c.after)
    requires i + |c.text| + |c.after| == |body| || CharAt(body, i + |c.text| + |c.after|, ',')
    ensures CutsTo(body, i, i + |c.text| + |c.after|, c.value)
  {
    hide IsSpace, SkipSpace, HoldsAt, IsGap, ReadLiteral, Trim, Trimmed, ParseSqlLiteral;
    UnitOf(body, i, c.text, 0);
    NoCommas(c.text);
    PlainChars(body, i, c.text, c.after);
    CommaIs(body, i, i + |c.text| + |c.after|);
    PlainText(body, i, c);
    CommaIsNoSpace();
    NoSpaceHere(body, i + |c.text| + |c.after|);
  }

  lemma PlainText(body: string, i: nat, c: Cell)
    requires IsCell(c) && HoldsAt(body, i, c.text) && HoldsAt(body, i + |c.text|, c.after)
    ensures ParseSqlLiteral(body[i..i + |c.text| + |c.after|]) == Some(c.value)
  {
    hide IsSpace, ReadLiteral, Trim;
    assert body[i..i + |c.text| + |c.after|] == "" + c.text + c.after;
    TrimMeans("", c.text, c.after);
    assert Trim(c.text) == c.text;
  }

  lemma PlainChars(body: string, i: nat, text: string, after: string)
    requires ',' !in text && IsGap(after) && HoldsAt(body, i, text) && HoldsAt(body, i + |text|, after)
    ensures forall k :: i <= k < i + |text| + |after| ==> body[k] != ','
  {
    CommaIsNoSpace();
    hide IsSpace;
    forall k | i <= k < i + |text| + |after| ensures body[k] != ',' {
      if k < i + |text| {
        UnitOf(body, i, text, k - i);
        assert text[k - i] in text;
      } else {
        UnitOf(body, i + |text|, after, k - i - |text|);
      }
    }
  }

  /** The scan reads every cell, whatever white space stands around the commas. */
  lemma {:induction false} ListMeans(body: string, i: nat, cells: seq<Cell>, out: seq<Literal>)
    requires cells != [] && AreCells(cells) && HoldsAt(body, i, ListText(cells)) && i + |ListText(cells)| == |body|
    ensures ListFrom(body, i, out, true) == Some(out + ValuesOf(cells))
    decreases |cells|
  {
    hide IsCell, CellText, ListFrom, HoldsAt, ValuesOf;
    var c := cells[0];
    FirstValue(cells);
    if |cells| == 1 {
      CellRead(body, i, c, out);
    } else {
      var rest := cells[1..];
      PartOf(body, i, CellText(c), "," + ListText(rest));
      PartOf(body, i + |CellText(c)|, ",", ListText(rest));
      UnitOf(body, i + |CellText(c)|, ",", 0);
      CellRead(body, i, c, out);
      ListMeans(body, i + |CellText(c)| + 1, rest, out + [c.value]);
      Concat3(out, [c.value], ValuesOf(rest));
    }
  }

  lemma CellIsNotNull(c: Cell)
    requires IsCell(c)
    ensures !c.value.Null?
  {
  }

  /** `FIELD IN (literal, ...)`. */
  lemma ListTestMeans(lead: string, spelling: string, field: string, gap: string, inWord: string, gap': string, cells: seq<Cell>, trail: string)
    requires IsGap(lead) && IsGap(trail) && IsGap(gap) && gap != "" && IsGap(gap') && SpellsField(spelling, field)
    requires SpellsWord(inWord, "in") && cells != [] && AreCells(cells) && OneLine(ListText(cells))
    ensures ParseFilter(lead + (spelling + (gap + (inWord + (gap' + ("(" + (ListText(cells) + ")")))))) + trail)
            == Some(InList(field, ValuesOf(cells)))
  {
    hide ListText, OneLine, AreCells, IsSpace;
    var body := ListText(cells);
    var rest := gap' + ("(" + (body + ")"));
    var tail := gap + (inWord + rest);
    assert tail[|tail| - 1] == ')';
    BracketsAreNoSpace();
    GapFirst(gap, inWord + rest);
    ExpressionReads(lead, spelling, field, tail, trail);
    InTailMeans(spelling + tail, |spelling|, gap, inWord, gap', cells);
    hide SpellsField, SpellsWord, ParseFilter, CompareTail, InTail, NullTail, HoldsAt;
  }

  lemma BracketsAreNoSpace()
    ensures !IsSpace('(') && !IsSpace(')')
  {
  }

  lemma InTailMeans(t: string, e: nat, gap: string, inWord: string, gap': string, cells: seq<Cell>)
    requires IsGap(gap) && gap != "" && IsGap(gap') && SpellsWord(inWord, "in") && cells != [] && AreCells(cells) && OneLine(ListText(cells))
    requires HoldsAt(t, e, gap + (inWord + (gap' + ("(" + (ListText(cells) + ")")))))
    requires e + |gap| + |inWord| + |gap'| + |ListText(cells)| + 2 == |t|
    ensures InTail(t, e) == Some(ValuesOf(cells)) && CompareTail(t, e).None? && NullTail(t, e).None?
  {
    hide ListText, OneLine, AreCells, IsSpace, SpellsWord, CompareTail, Keyword, HoldsAt, ListFrom, ValuesOf;
    var body := ListText(cells);
    var rest := gap' + ("(" + (body + ")"));
    Concat3(gap, inWord, rest);
    PartOf(t, e, gap + inWord, rest);
    WordIsAWord(inWord, "in");
    WordIsNoSign(t, e, gap, inWord);
    WordFound(t, e, gap, inWord, "in");
    WordDiffers(t, e, gap, inWord, "is", 1);
    var a := e + |gap| + |inWord|;
    PartOf(t, a, gap', "(" + (body + ")"));
    var b := a + |gap'|;
    PartOf(t, b, "(", body + ")");
    PartOf(t, b + 1, body, ")");
    UnitOf(t, b, "(", 0);
    UnitOf(t, |t| - 1, ")", 0);
    BracketsAreNoSpace();
    GapSkipped(t, a, gap');
    BodyIs(t, b + 1, body);
    WholeHolds(body);
    ListMeans(body, 0, cells, []);
    assert [] + ValuesOf(cells) == ValuesOf(cells);
  }

  lemma BodyIs(t: string, b: nat, body: string)
    requires HoldsAt(t, b, body) && b + |body| + 1 == |t|
    ensures t[b..|t| - 1] == body
  {
  }

  lemma {:induction false} CellsRead(body: string, i: nat, cells: seq<Cell>, out: seq<Literal>)
    requires cells != [] && AreCells(cells) && HoldsAt(body, i, ListText(cells)) && CharAt(body, i + |ListText(cells)|, ',')
    ensures i <= |body| && ListFrom(body, i, out, true) == ListFrom(body, i + |ListText(cells)| + 1, out + ValuesOf(cells), true)
    decreases |cells|
  {
    hide IsCell, CellText, ListFrom, HoldsAt, ValuesOf;
    var c := cells[0];
    FirstValue(cells);
    if |cells| == 1 {
      CellRead(body, i, c, out);
    } else {
      var rest := cells[1..];
      PartOf(body, i, CellText(c), "," + ListText(rest));
      PartOf(body, i + |CellText(c)|, ",", ListText(rest));
      UnitOf(body, i + |CellText(c)|, ",", 0);
      CellRead(body, i, c, out);
      CellsRead(body, i + |CellText(c)| + 1, rest, out + [c.value]);
      Concat3(out, [c.value], ValuesOf(rest));
    }
  }

  lemma FirstValue(cells: seq<Cell>)
    requires cells != []
    ensures ValuesOf(cells) == [cells[0].value] + ValuesOf(cells[1..])
    ensures |cells| == 1 ==> ValuesOf(cells) == [cells[0].value]
  {
  }

  /** One cell, up to the comma or the end. */
  lemma CellRead(body: string, i: nat, c: Cell, out: seq<Literal>)
    requires IsCell(c) && HoldsAt(body, i, CellText(c))
    requires i + |CellText(c)| == |body| || CharAt(body, i + |CellText(c)|, ',')
    ensures var next := i + |CellText(c)|;
            ListFrom(body, i, out, true) == if next == |body| then Some(out + [c.value]) else ListFrom(body, next + 1, out + [c.value], true)
  {
    hide IsCell, CellText, SkipSpace, ElementEnd, ParseSqlLiteral, IsSpace, HoldsAt;
    CellIsNotNull(c);
    CellCut(body, i, c);
  }

  /** A list of nothing but white space, and one that ends in a comma, are refused. */
  lemma DanglingCommaRefuses(cells: seq<Cell>, gap: string)
    requires AreCells(cells) && IsGap(gap)
    ensures ListFrom(if cells == [] then gap else ListText(cells) + ("," + gap), 0, [], true).None?
  {
    hide IsSpace, ListText, AreCells, SkipSpace;
    if cells == [] {
      WholeHolds(gap);
      GapSkipped(gap, 0, gap);
    } else {
      var body := ListText(cells) + ("," + gap);
      WholeHolds(body);
      PartOf(body, 0, ListText(cells), "," + gap);
      PartOf(body, |ListText(cells)|, ",", gap);
      UnitOf(body, |ListText(cells)|, ",", 0);
      CellsRead(body, 0, cells, []);
      GapSkipped(body, |ListText(cells)| + 1, gap);
    }
  }

  // ---------------------------------------------------------------- nothing else is a literal

  /** A number's text: an optional minus, digits, and no point without digits after it. */
  lemma NumberSpelling(t: string) returns (minus: bool, whole: string, fraction: string)
    requires ReadNumber(t).Some?
    ensures whole != "" && AllDigits(whole) && AllDigits(fraction)
    ensures t == (if minus then "-" else "") + (whole + if fraction == "" then "" else "." + fraction)
  {
    hide ReadMagnitude;
    minus := CharAt(t, 0, '-');
    var u := if minus then t[1..] else t;
    assert t == (if minus then "-" else "") + u;
    whole, fraction := MagnitudeSpelling(u, minus);
  }

  lemma MagnitudeSpelling(u: string, minus: bool) returns (whole: string, fraction: string)
    requires ReadMagnitude(u, minus).Some?
    ensures whole != "" && AllDigits(whole) && AllDigits(fraction) && u == whole + if fraction == "" then "" else "." + fraction
  {
    var e := DigitsEnd(u, 0);
    whole := u[..e];
    if e == |u| {
      fraction := "";
    } else {
      fraction := u[e + 1..];
      assert [u[e]] == ".";
      assert u == u[..e] + ([u[e]] + u[e + 1..]);
    }
  }

  /** What is read as a literal is a number so spelled, one of the three words or one quoted text. */
  lemma LiteralsAreSpelled(t: string, v: Literal)
    requires ParseSqlLiteral(t) == Some(v)
    ensures match v
            case Num(_) => ReadNumber(Trim(t)).Some?
            case Str(s) => Trim(t) == Quoted('\'', s)
            case Bool(b) => SameWord(Trim(t), if b then "true" else "false")
            case Null => SameWord(Trim(t), "null")
  {
    var u := Trim(t);
    if v.Str? {
      ScanMeans(u, 1, '\'');
      assert u == u[..1] + u[1..|u|];
    }
  }

  /** The letters, each with its lower-case form; no other character has one. */
  lemma FoldMeans(c: char)
    ensures var u := c as int; Fold(c) as int == if 65 <= u < 91 then u + 32 else u
  {
  }

  /** How a large and a small number are printed. */
  lemma ExponentForms()
    ensures PrintNumber(Decimal(false, "1", 22)) == "1" + ("e" + ("+" + NatDigits(21)))
    ensures PrintNumber(Decimal(false, "25", -6)) == "2" + "." + "5" + ("e" + ("-" + NatDigits(7)))
    ensures PrintNumber(Decimal(false, "1", 21)) == "1" + Zeros(20)
    ensures PrintNumber(Decimal(false, "5", -5)) == "0." + (Zeros(5) + "5")
  {
    hide NatDigits, Zeros;
    assert "25"[..1] == "2" && "25"[1..] == "5";
    NoSign(PrintMagnitude("1", 22));
    NoSign(PrintMagnitude("25", -6));
    NoSign(PrintMagnitude("1", 21));
    NoSign(PrintMagnitude("5", -5));
  }

  lemma NoSign(s: string)
    ensures "" + s == s
  {
  }

  /** White space, written out. */
  lemma SpacesMean(c: char)
    ensures IsSpace(c) <==>
            c as int in {0x09, 0x0A, 0x0B, 0x0C, 0x0D, 0x20, 0xA0, 0x1680, 0x2000, 0x2001, 0x2002, 0x2003, 0x2004, 0x2005, 0x2006,
                         0x2007, 0x2008, 0x2009, 0x200A, 0x2028, 0x2029, 0x202F, 0x205F, 0x3000, 0xFEFF}
  {
  }
}
