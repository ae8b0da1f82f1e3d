/**
 Attribute filters as Esri definition expressions: the printer and the parser of
 packages/engine/src/web-map-json.ts:546-611 and 631-778. Each regular expression is a recogniser
 over positions; a filter carries exactly the value its operator takes.
 */
module WebMapFilter {
  import opened Prelude
  import opened Slices
  import opened SqlLiterals

  datatype Cmp = Eq | Neq | Lt | Lte | Gt | Gte

  datatype Filter =
    | Compare(field: string, cmp: Cmp, value: Literal)
    | InList(field: string, values: seq<Literal>)
    | Contains(field: string, text: string)
    | StartsWith(field: string, text: string)
    | NullTest(field: string, isNull: bool)

  predicate AllLiterals(values: seq<Literal>) {
    forall k :: 0 <= k < |values| ==> IsLiteral(values[k])
  }

  predicate IsFilter(f: Filter) {
    (f.Compare? ==> IsLiteral(f.value)) && (f.InList? ==> AllLiterals(f.values))
  }

  // ---------------------------------------------------------------- printing

  function Symbol(cmp: Cmp): string {
    match cmp
    case Eq => "="
    case Neq => "<>"
    case Lt => "<"
    case Lte => "<="
    case Gt => ">"
    case Gte => ">="
  }

  function JoinValues(values: seq<Literal>): string
    requires AllLiterals(values)
  {
    if values == [] then ""
    else if |values| == 1 then FormatValue(values[0])
    else FormatValue(values[0]) + (", " + JoinValues(values[1..]))
  }

  /** Everything after the field name. */
  function PrintTail(f: Filter): string
    requires IsFilter(f)
  {
    match f
    case Compare(_, cmp, value) => " " + (Symbol(cmp) + (" " + FormatValue(value)))
    case InList(_, values) => " IN (" + (JoinValues(values) + ")")
    case Contains(_, text) => " LIKE " + Quoted('\'', "%" + text + "%")
    case StartsWith(_, text) => " LIKE " + Quoted('\'', text + "%")
    case NullTest(_, isNull) => if isNull then " IS NULL" else " IS NOT NULL"
  }

  /** esriDefinitionFromAttrFilter: None when there is nothing to print. */
  function PrintFilter(f: Filter): Option<string>
    requires IsFilter(f)
  {
    if f.InList? && f.values == [] then None
    else Some(Quoted('"', f.field) + PrintTail(f))
  }

  // ---------------------------------------------------------------- parsing

  predicate IsIdentChar(c: char) {
    'A' <= c <= 'Z' || 'a' <= c <= 'z' || c == '_' || IsDigit(c)
  }

  function IdentEnd(t: string, i: nat): (j: nat)
    requires i <= |t|
    ensures i <= j <= |t|
    decreases |t| - i
  {
    if i < |t| && IsIdentChar(t[i]) then IdentEnd(t, i + 1) else i
  }

  /** FIELD_FRAGMENT at the front of `t`: a non-empty quoted name, or a bare identifier. */
  function FieldAt(t: string): (r: Option<Read<string>>)
    ensures r.Some? ==> r.value.end <= |t|
  {
    if CharAt(t, 0, '"') then
      var r := ScanQuoted(t, 1, '"');
      if r.None? || r.value.item == "" then None else r
    else if t != "" && IsIdentChar(t[0]) && !IsDigit(t[0]) then
      var e := IdentEnd(t, 1);
      Some(Read(t[..e], e))
    else
      None
  }

  function SymbolAt(t: string, p: nat): Option<(Cmp, nat)> {
    if CharAt(t, p, '<') && CharAt(t, p + 1, '>') then Some((Neq, p + 2))
    else if CharAt(t, p, '<') && CharAt(t, p + 1, '=') then Some((Lte, p + 2))
    else if CharAt(t, p, '>') && CharAt(t, p + 1, '=') then Some((Gte, p + 2))
    else if CharAt(t, p, '=') then Some((Eq, p + 1))
    else if CharAt(t, p, '<') then Some((Lt, p + 1))
    else if CharAt(t, p, '>') then Some((Gt, p + 1))
    else None
  }

  /** `\s*(<>|<=|>=|=|<|>)\s*(.+)$` with a literal at the end. */
  function CompareTail(t: string, e: nat): Option<(Cmp, Literal)>
    requires e <= |t|
  {
    var symbol := SymbolAt(t, SkipSpace(t, e));
    if symbol.None? || symbol.value.1 > |t| then None
    else
      var q := SkipSpace(t, symbol.value.1);
      if q == |t| || !OneLine(t[q..]) then None
      else
        var literal := ParseSqlLiteral(t[q..]);
        if literal.None? then None else Some((symbol.value.0, literal.value))
  }

  /** `\s+WORD`: the position after the word. */
  function Keyword(t: string, e: nat, word: string): (r: Option<nat>)
    requires e <= |t|
    ensures r.Some? ==> e < r.value <= |t|
  {
    var p := SkipSpace(t, e);
    if p > e && WordAt(t, p, word) then Some(p + |word|) else None
  }

  /** `\s+IS\s+(NOT\s+)?NULL$`: whether the test is for null. */
  function NullTail(t: string, e: nat): Option<bool>
    requires e <= |t|
  {
    var is_ := Keyword(t, e, "is");
    if is_.None? then None
    else if Keyword(t, is_.value, "null") == Some(|t|) then Some(true)
    else
      var not := Keyword(t, is_.value, "not");
      if not.Some? && Keyword(t, not.value, "null") == Some(|t|) then Some(false) else None
  }

  /** Where the list element starting at `i` ends; None for an unterminated string. */
  function ElementEnd(body: string, i: nat): (r: Option<nat>)
    requires i < |body|
    ensures r.Some? ==> i <= r.value <= |body|
  {
    if body[i] == '\'' then
      var r := ScanQuoted(body, i + 1, '\'');
      if r.None? then None else Some(r.value.end)
    else
      Some(CommaFrom(body, i))
  }

  function CommaFrom(body: string, i: nat): (j: nat)
    requires i <= |body|
    ensures i <= j <= |body|
    decreases |body| - i
  {
    if i < |body| && body[i] != ',' then CommaFrom(body, i + 1) else i
  }

  /** parseSqlLiteralList from position `i`, with what was read so far. */
  function ListFrom(body: string, i: nat, out: seq<Literal>, expectElement: bool): Option<seq<Literal>>
    requires i <= |body|
    decreases |body| - i
  {
    var start := SkipSpace(body, i);
    if start == |body| then if expectElement then None else Some(out)
    else
      var end := ElementEnd(body, start);
      if end.None? then None
      else
        var literal := ParseSqlLiteral(body[start..end.value]);
        if literal.None? || literal.value.Null? then None
        else
          var next := SkipSpace(body, end.value);
          if next == |body| then Some(out + [literal.value])
          else if body[next] != ',' then None
          else ListFrom(body, next + 1, out + [literal.value], true)
  }

  /** `\s+IN\s*\((.*)\)$` with a readable list inside. */
  function InTail(t: string, e: nat): Option<seq<Literal>>
    requires e <= |t|
  {
    var in_ := Keyword(t, e, "in");
    if in_.None? then None
    else
      var open := SkipSpace(t, in_.value);
      if !CharAt(t, open, '(') || open + 1 >= |t| || t[|t| - 1] != ')' || !OneLine(t[open + 1..|t| - 1]) then None
      else ListFrom(t[open + 1..|t| - 1], 0, [], true)
  }

  /** `\s+LIKE\s+'((?:[^']|'')*)'$`: the pattern. */
  function LikeTail(t: string, e: nat): Option<string>
    requires e <= |t|
  {
    var like := Keyword(t, e, "like");
    if like.None? then None
    else
      var p := SkipSpace(t, like.value);
      if p == like.value || !CharAt(t, p, '\'') then None
      else
        var r := ScanQuoted(t, p + 1, '\'');
        if r.Some? && r.value.end == |t| then Some(r.value.item) else None
  }

  /** The two pattern shapes with a filter equivalent. */
  function LikeFilter(field: string, pattern: string): Option<Filter> {
    if |pattern| >= 2 && pattern[0] == '%' && pattern[|pattern| - 1] == '%' then Some(Contains(field, pattern[1..|pattern| - 1]))
    else if pattern != "" && pattern[|pattern| - 1] == '%' then Some(StartsWith(field, pattern[..|pattern| - 1]))
    else None
  }

  function ParseTail(t: string, field: string, e: nat): Option<Filter>
    requires e <= |t|
  {
    var compare := CompareTail(t, e);
    if compare.Some? then Some(Compare(field, compare.value.0, compare.value.1))
    else
      var nullTest := NullTail(t, e);
      if nullTest.Some? then Some(NullTest(field, nullTest.value))
      else
        var list := InTail(t, e);
        if list.Some? then Some(InList(field, list.value))
        else
          var like := LikeTail(t, e);
          if like.Some? then LikeFilter(field, like.value) else None
  }

  /** attrFilterFromEsriDefinition: None stands for the warning and the dropped filter. */
  function ParseFilter(expr: string): Option<Filter> {
    var t := Trim(expr);
    var field := FieldAt(t);
    if field.None? then None else ParseTail(t, field.value.item, field.value.end)
  }

  /** Some filter comes back from its own printed form. */
  predicate RoundTrips(f: Filter)
    requires IsFilter(f)
  {
    PrintFilter(f).Some? && ParseFilter(PrintFilter(f).value) == Some(f)
  }

  /** What a caller can check beforehand. */
  predicate Representable(f: Filter) {
    && f.field != ""
    && match f
       case Compare(_, _, value) => Readable(value) && (value.Str? ==> OneLine(value.s))
       case InList(_, values) => values != [] && forall k :: 0 <= k < |values| ==> ListReadable(values[k]) && (values[k].Str? ==> OneLine(values[k].s))
       case Contains(_, _) => true
       case StartsWith(_, text) => text == "" || text[0] != '%'
       case NullTest(_, _) => true
  }

  predicate ListReadable(v: Literal) {
    Readable(v) && !v.Null?
  }

  // ---------------------------------------------------------------- the list body

  lemma {:induction false} CommaIs(body: string, i: nat, j: nat)
    requires i <= j <= |body| && (forall k :: i <= k < j ==> body[k] != ',') && (j == |body| || body[j] == ',')
    ensures CommaFrom(body, i) == j
    decreases j - i
  {
    if i < j {
      CommaIs(body, i + 1, j);
    }
  }

  /** A string element ends at its own closing quote, whatever commas it holds. */
  lemma StringElement(body: string, i: nat, text: string)
    requires HoldsAt(body, i, Quoted('\'', text)) && !CharAt(body, i + |Quoted('\'', text)|, '\'')
    ensures i < |body| && !IsSpace(body[i]) && ElementEnd(body, i) == Some(i + |Quoted('\'', text)|)
  {
    hide Quoted;
    QuotedReadsBack(body, i, '\'', text);
  }

  lemma PlainElement(body: string, i: nat, t: string)
    requires t != "" && Trimmed(t) && t[0] != '\'' && ',' !in t && HoldsAt(body, i, t)
    requires i + |t| == |body| || body[i + |t|] == ','
    ensures i < |body| && !IsSpace(body[i]) && ElementEnd(body, i) == Some(i + |t|)
  {
    UnitOf(body, i, t, 0);
    forall k | i <= k < i + |t|
      ensures body[k] != ','
    {
      UnitOf(body, i, t, k - i);
      assert t[k - i] in t;
    }
    CommaIs(body, i, i + |t|);
  }

  lemma PlainLiteralCut(body: string, i: nat, v: Literal)
    requires IsLiteral(v) && !v.Str? && HoldsAt(body, i, FormatValue(v))
    requires i + |FormatValue(v)| == |body| || CharAt(body, i + |FormatValue(v)|, ',')
    ensures i < |body| && !IsSpace(body[i]) && ElementEnd(body, i) == Some(i + |FormatValue(v)|)
  {
    hide ElementEnd, FormatValue, IsSpace, OneLine, Trimmed, HoldsAt;
    FormatShape(v);
    PlainElement(body, i, FormatValue(v));
  }

  /** An element followed by a comma or the end is cut out exactly. */
  lemma ElementCut(body: string, i: nat, v: Literal)
    requires IsLiteral(v) && HoldsAt(body, i, FormatValue(v))
    requires i + |FormatValue(v)| == |body| || CharAt(body, i + |FormatValue(v)|, ',')
    ensures i < |body| && !IsSpace(body[i]) && ElementEnd(body, i) == Some(i + |FormatValue(v)|)
  {
    hide ElementEnd, Quoted, IsSpace, HoldsAt, PrintNumber;
    if v.Str? {
      StringElement(body, i, v.s);
    } else {
      PlainLiteralCut(body, i, v);
    }
  }

  lemma ElementReadsBack(body: string, i: nat, v: Literal)
    requires IsLiteral(v) && HoldsAt(body, i, FormatValue(v))
    requires i + |FormatValue(v)| == |body| || CharAt(body, i + |FormatValue(v)|, ',')
    ensures i < |body| && !IsSpace(body[i]) && ElementEnd(body, i) == Some(i + |FormatValue(v)|)
    ensures ParseSqlLiteral(body[i..i + |FormatValue(v)|]) == if Readable(v) then Some(v) else None
  {
    hide ElementEnd, ParseSqlLiteral, FormatValue, Readable, IsLiteral, IsSpace;
    ElementCut(body, i, v);
    LiteralReadsBack(v);
  }

  lemma SkipOneSpace(body: string, i: nat, out: seq<Literal>, expectElement: bool)
    requires i < |body| && IsSpace(body[i])
    ensures ListFrom(body, i, out, expectElement) == ListFrom(body, i + 1, out, expectElement)
  {
    hide ElementEnd, ParseSqlLiteral, IsSpace;
    assert SkipSpace(body, i) == SkipSpace(body, i + 1);
  }

  lemma NoSpaceHere(body: string, i: nat)
    requires i <= |body| && (i == |body| || !IsSpace(body[i]))
    ensures SkipSpace(body, i) == i
  {
  }

  /** One element of the scan. */
  lemma ListStep(body: string, i: nat, v: Literal, out: seq<Literal>, expectElement: bool)
    requires IsLiteral(v) && HoldsAt(body, i, FormatValue(v))
    requires i + |FormatValue(v)| == |body| || CharAt(body, i + |FormatValue(v)|, ',')
    ensures var end := i + |FormatValue(v)|;
            ListFrom(body, i, out, expectElement) ==
              if !ListReadable(v) then None
              else if end == |body| then Some(out + [v])
              else ListFrom(body, end + 1, out + [v], true)
  {
    hide ElementEnd, ParseSqlLiteral, FormatValue, HoldsAt, IsLiteral, SkipSpace;
    var end := i + |FormatValue(v)|;
    ElementReadsBack(body, i, v);
    NoSpaceHere(body, i);
    NoSpaceHere(body, end);
  }

  /** A printed list reads back exactly when none of its elements is NULL or in exponent form. */
  lemma {:induction false} ListReadsBack(body: string, i: nat, values: seq<Literal>, out: seq<Literal>)
    requires values != [] && AllLiterals(values)
    requires HoldsAt(body, i, JoinValues(values)) && i + |JoinValues(values)| == |body|
    ensures ListFrom(body, i, out, true) ==
            if forall k :: 0 <= k < |values| ==> ListReadable(values[k]) then Some(out + values) else None
    decreases |values|
  {
    hide ListFrom, FormatValue, ListReadable, HoldsAt, IsSpace;
    var t := FormatValue(values[0]);
    if |values| == 1 {
      ListStep(body, i, values[0], out, true);
      assert [values[0]] == values;
    } else {
      var rest := values[1..];
      PartOf(body, i, t, ", " + JoinValues(rest));
      PartOf(body, i + |t|, ", ", JoinValues(rest));
      UnitOf(body, i + |t|, ", ", 0);
      UnitOf(body, i + |t|, ", ", 1);
      ListStep(body, i, values[0], out, true);
      SpaceIsSpace();
      SkipOneSpace(body, i + |t| + 1, out + [values[0]], true);
      ListReadsBack(body, i + |t| + 2, rest, out + [values[0]]);
      Concat3(out, [values[0]], rest);
      assert [values[0]] + rest == values;
      FirstAndRest(values);
    }
  }

  lemma SpaceIsSpace()
    ensures IsSpace(' ')
  {
  }

  lemma FirstAndRest(values: seq<Literal>)
    requires values != []
    ensures (forall k :: 0 <= k < |values| ==> ListReadable(values[k])) <==>
            ListReadable(values[0]) && forall k :: 0 <= k < |values[1..]| ==> ListReadable(values[1..][k])
  {
    forall k | 0 <= k < |values| && ListReadable(values[0]) && forall j :: 0 <= j < |values[1..]| ==> ListReadable(values[1..][j])
      ensures ListReadable(values[k])
    {
      assert k > 0 ==> values[1..][k - 1] == values[k];
    }
  }

  // ---------------------------------------------------------------- keywords and the field

  predicate IsLetter(c: char) {
    'A' <= c <= 'Z' || 'a' <= c <= 'z'
  }

  lemma OneSpaceHere(t: string, e: nat)
    requires CharAt(t, e, ' ') && e + 1 < |t| && !IsSpace(t[e + 1])
    ensures SkipSpace(t, e) == e + 1
  {
    assert SkipSpace(t, e + 1) == e + 1;
  }

  lemma KeywordReads(t: string, e: nat, printed: string, word: string)
    requires printed != "" && (forall k :: 0 <= k < |printed| ==> IsLetter(printed[k])) && SameWord(printed, word)
    requires HoldsAt(t, e, " " + printed)
    ensures e <= |t| && Keyword(t, e, word) == Some(e + 1 + |word|)
  {
    UnitOf(t, e, " " + printed, 0);
    UnitOf(t, e, " " + printed, 1);
    PartOf(t, e, " ", printed);
    assert !IsSpace(printed[0]);
    OneSpaceHere(t, e);
  }

  lemma KeywordDiffers(t: string, e: nat, word: string, k: nat)
    requires CharAt(t, e, ' ') && e + 1 + k < |t| && !IsSpace(t[e + 1])
    requires k < |word| && Fold(t[e + 1 + k]) != Fold(word[k])
    ensures Keyword(t, e, word).None?
  {
    OneSpaceHere(t, e);
    if e + 1 + |word| <= |t| {
      assert t[e + 1..e + 1 + |word|][k] == t[e + 1 + k];
    }
  }

  /** A letter after the space: not a comparison. */
  lemma LetterIsNoSymbol(t: string, e: nat)
    requires CharAt(t, e, ' ') && e + 1 < |t| && IsLetter(t[e + 1])
    ensures CompareTail(t, e).None?
  {
    OneSpaceHere(t, e);
  }

  lemma FieldReadsBack(field: string, tail: string)
    requires tail != "" && tail[0] == ' '
    ensures FieldAt(Quoted('"', field) + tail) == if field == "" then None else Some(Read(field, |Quoted('"', field)|))
  {
    var q := Quoted('"', field);
    var t := q + tail;
    assert t[0..|q|] == q;
    assert t[|q|] == ' ';
    QuotedReadsBack(t, 0, '"', field);
  }

  // ---------------------------------------------------------------- each tail reads back

  lemma SymbolReads(t: string, p: nat, cmp: Cmp)
    requires HoldsAt(t, p, Symbol(cmp)) && CharAt(t, p + |Symbol(cmp)|, ' ')
    ensures SymbolAt(t, p) == Some((cmp, p + |Symbol(cmp)|)) && p < |t| && !IsSpace(t[p]) && Fold(t[p]) == t[p] && !IsLetter(t[p])
  {
    UnitOf(t, p, Symbol(cmp), 0);
    UnitOf(t, p, Symbol(cmp), |Symbol(cmp)| - 1);
  }

  lemma CompareLayout(t: string, e: nat, cmp: Cmp, text: string)
    requires text != "" && !IsSpace(text[0])
    requires HoldsAt(t, e, " " + (Symbol(cmp) + (" " + text))) && e + |Symbol(cmp)| + 2 + |text| == |t|
    ensures CharAt(t, e, ' ') && e + 1 < |t| && !IsSpace(t[e + 1]) && !IsLetter(t[e + 1])
    ensures SkipSpace(t, e) == e + 1 && SymbolAt(t, e + 1) == Some((cmp, e + 1 + |Symbol(cmp)|))
    ensures SkipSpace(t, e + 1 + |Symbol(cmp)|) == e + 2 + |Symbol(cmp)| && t[e + 2 + |Symbol(cmp)|..] == text
  {
    hide IsSpace, HoldsAt, SkipSpace, SymbolAt, Symbol, IsLetter;
    var symbol := Symbol(cmp);
    PartOf(t, e, " ", symbol + (" " + text));
    PartOf(t, e + 1, symbol, " " + text);
    PartOf(t, e + 1 + |symbol|, " ", text);
    UnitOf(t, e, " ", 0);
    UnitOf(t, e + 1 + |symbol|, " ", 0);
    UnitOf(t, e + 2 + |symbol|, text, 0);
    SymbolReads(t, e + 1, cmp);
    OneSpaceHere(t, e);
    OneSpaceHere(t, e + 1 + |symbol|);
    RestIs(t, e + 2 + |symbol|, text);
  }

  lemma RestIs(t: string, i: nat, text: string)
    requires HoldsAt(t, i, text) && i + |text| == |t|
    ensures t[i..] == text
  {
  }

  lemma FormattedOneLine(v: Literal)
    requires IsLiteral(v)
    ensures OneLine(FormatValue(v)) <==> (v.Str? ==> OneLine(v.s))
  {
    FormatShape(v);
    if v.Str? {
      DoublingKeepsLines('\'', v.s);
      var d := DoubleUp('\'', v.s);
      assert forall c :: c in Quoted('\'', v.s) <==> c == '\'' || c in d;
    }
  }

  lemma CompareReadsBack(t: string, field: string, e: nat, cmp: Cmp, v: Literal)
    requires IsLiteral(v)
    requires HoldsAt(t, e, " " + (Symbol(cmp) + (" " + FormatValue(v)))) && e + |Symbol(cmp)| + 2 + |FormatValue(v)| == |t|
    ensures ParseTail(t, field, e) ==
            if Readable(v) && (v.Str? ==> OneLine(v.s)) then Some(Compare(field, cmp, v)) else None
  {
    hide FormatValue, ParseSqlLiteral, IsSpace, SkipSpace, SymbolAt, OneLine, NullTail, InTail, LikeTail, HoldsAt;
    FormatShape(v);
    CompareLayout(t, e, cmp, FormatValue(v));
    FormattedOneLine(v);
    LiteralReadsBack(v);
    NoKeywordTails(t, e);
  }

  /** Neither IS, IN nor LIKE can follow. */
  lemma NoKeywordTails(t: string, e: nat)
    requires CharAt(t, e, ' ') && e + 1 < |t| && !IsSpace(t[e + 1]) && !IsLetter(t[e + 1])
    ensures NullTail(t, e).None? && InTail(t, e).None? && LikeTail(t, e).None?
  {
    KeywordDiffers(t, e, "is", 0);
    KeywordDiffers(t, e, "in", 0);
    KeywordDiffers(t, e, "like", 0);
  }

  /** A space and an upper-case word. */
  lemma WordReads(t: string, e: nat, printed: string, word: string)
    requires |printed| > 1 && printed[0] == ' ' && (forall k :: 1 <= k < |printed| ==> IsLetter(printed[k]))
    requires SameWord(printed[1..], word) && HoldsAt(t, e, printed)
    ensures e + |printed| <= |t| && Keyword(t, e, word) == Some(e + |printed|) && CharAt(t, e, ' ') && t[e + 1] == printed[1]
  {
    assert printed == " " + printed[1..];
    UnitOf(t, e, printed, 0);
    UnitOf(t, e, printed, 1);
    KeywordReads(t, e, printed[1..], word);
  }

  lemma IsNullReadsBack(t: string, e: nat)
    requires HoldsAt(t, e, " IS NULL") && e + 8 == |t|
    ensures NullTail(t, e) == Some(true)
  {
    hide Keyword, HoldsAt;
    assert " IS NULL" == " IS" + " NULL";
    PartOf(t, e, " IS", " NULL");
    WordReads(t, e, " IS", "is");
    WordReads(t, e + 3, " NULL", "null");
  }

  lemma IsNotNullReadsBack(t: string, e: nat)
    requires HoldsAt(t, e, " IS NOT NULL") && e + 12 == |t|
    ensures NullTail(t, e) == Some(false)
  {
    hide Keyword, HoldsAt;
    assert " IS NOT NULL" == " IS" + (" NOT" + " NULL");
    PartOf(t, e, " IS", " NOT" + " NULL");
    PartOf(t, e + 3, " NOT", " NULL");
    WordReads(t, e, " IS", "is");
    NotIsNotNull(t, e + 3);
    WordReads(t, e + 3, " NOT", "not");
    WordReads(t, e + 7, " NULL", "null");
  }

  lemma NotIsNotNull(t: string, e: nat)
    requires HoldsAt(t, e, " NOT")
    ensures e <= |t| && Keyword(t, e, "null").None?
  {
    UnitOf(t, e, " NOT", 0);
    UnitOf(t, e, " NOT", 1);
    UnitOf(t, e, " NOT", 2);
    NotSpaces();
    KeywordDiffers(t, e, "null", 1);
  }

  lemma NullReadsBack(t: string, field: string, e: nat, isNull: bool)
    requires HoldsAt(t, e, if isNull then " IS NULL" else " IS NOT NULL") && e + (if isNull then 8 else 12) == |t|
    ensures ParseTail(t, field, e) == Some(NullTest(field, isNull))
  {
    hide NullTail, CompareTail, InTail, LikeTail;
    var tail := if isNull then " IS NULL" else " IS NOT NULL";
    UnitOf(t, e, tail, 0);
    UnitOf(t, e, tail, 1);
    LetterIsNoSymbol(t, e);
    if isNull {
      IsNullReadsBack(t, e);
    } else {
      IsNotNullReadsBack(t, e);
    }
  }

  lemma NotSpaces()
    ensures !IsSpace('N') && !IsSpace('L') && !IsSpace('I') && !IsSpace('(')
  {
  }

  // ---------------------------------------------------------------- IN

  predicate LinesOk(values: seq<Literal>) {
    forall k :: 0 <= k < |values| ==> (values[k].Str? ==> OneLine(values[k].s))
  }

  lemma {:induction false} JoinOneLine(values: seq<Literal>)
    requires AllLiterals(values)
    ensures OneLine(JoinValues(values)) <==> LinesOk(values)
    decreases |values|
  {
    hide FormatValue;
    if |values| == 1 {
      FormattedOneLine(values[0]);
    } else if |values| > 1 {
      FormattedOneLine(values[0]);
      JoinOneLine(values[1..]);
      var first, rest := FormatValue(values[0]), JoinValues(values[1..]);
      assert forall c :: c in first + (", " + rest) <==> c in first || c == ',' || c == ' ' || c in rest;
      assert OneLine(first + (", " + rest)) <==> OneLine(first) && OneLine(rest);
      LinesFirstAndRest(values);
    }
  }

  lemma LinesFirstAndRest(values: seq<Literal>)
    requires values != []
    ensures LinesOk(values) <==> (values[0].Str? ==> OneLine(values[0].s)) && LinesOk(values[1..])
  {
    hide OneLine;
    if (values[0].Str? ==> OneLine(values[0].s)) && LinesOk(values[1..]) {
      forall k | 0 <= k < |values| && values[k].Str?
        ensures OneLine(values[k].s)
      {
        assert k > 0 ==> values[1..][k - 1] == values[k];
      }
    }
  }

  lemma InBody(t: string, e: nat, body: string)
    requires HoldsAt(t, e, " IN (" + (body + ")")) && e + 6 + |body| == |t|
    ensures t[|t| - 1] == ')' && t[e + 5..|t| - 1] == body
  {
    PartOf(t, e, " IN (", body + ")");
    PartOf(t, e + 5, body, ")");
    UnitOf(t, e + 5 + |body|, ")", 0);
  }

  lemma InLayout(t: string, e: nat, body: string)
    requires HoldsAt(t, e, " IN (" + (body + ")")) && e + 6 + |body| == |t|
    ensures Keyword(t, e, "in") == Some(e + 3) && Keyword(t, e, "is").None? && Keyword(t, e, "like").None?
    ensures CharAt(t, e, ' ') && e + 1 < |t| && t[e + 1] == 'I'
    ensures SkipSpace(t, e + 3) == e + 4 && CharAt(t, e + 4, '(') && t[|t| - 1] == ')' && t[e + 5..|t| - 1] == body
  {
    InBody(t, e, body);
    hide Keyword, IsSpace, HoldsAt;
    assert " IN (" == " IN" + " (";
    PartOf(t, e, " IN (", body + ")");
    PartOf(t, e, " IN", " (");
    WordReads(t, e, " IN", "in");
    UnitOf(t, e, " IN", 1);
    UnitOf(t, e, " IN", 2);
    UnitOf(t, e + 3, " (", 0);
    UnitOf(t, e + 3, " (", 1);
    NotSpaces();
    KeywordDiffers(t, e, "is", 1);
    KeywordDiffers(t, e, "like", 0);
    OneSpaceHere(t, e + 3);
  }

  lemma InTailIs(t: string, e: nat, values: seq<Literal>)
    requires values != [] && AllLiterals(values)
    requires HoldsAt(t, e, " IN (" + (JoinValues(values) + ")")) && e + 6 + |JoinValues(values)| == |t|
    ensures InTail(t, e) == if LinesOk(values) && forall k :: 0 <= k < |values| ==> ListReadable(values[k]) then Some(values) else None
  {
    hide JoinValues, Keyword, SkipSpace, OneLine, LinesOk, ListReadable, ListFrom, HoldsAt;
    var body := JoinValues(values);
    InLayout(t, e, body);
    JoinOneLine(values);
    WholeHolds(body);
    ListReadsBack(body, 0, values, []);
    assert [] + values == values;
  }

  lemma WholeHolds(s: string)
    ensures HoldsAt(s, 0, s)
  {
    assert s[0..|s|] == s;
  }

  lemma InReadsBack(t: string, field: string, e: nat, values: seq<Literal>)
    requires values != [] && AllLiterals(values)
    requires HoldsAt(t, e, " IN (" + (JoinValues(values) + ")")) && e + 6 + |JoinValues(values)| == |t|
    ensures ParseTail(t, field, e) ==
            if LinesOk(values) && forall k :: 0 <= k < |values| ==> ListReadable(values[k]) then Some(InList(field, values)) else None
  {
    InTailIs(t, e, values);
    InLayout(t, e, JoinValues(values));
    hide JoinValues, Keyword, SkipSpace, LinesOk, ListReadable, InTail, CompareTail, HoldsAt;
    LetterIsNoSymbol(t, e);
  }

  // ---------------------------------------------------------------- LIKE

  lemma LikeLayout(t: string, e: nat, pattern: string)
    requires HoldsAt(t, e, " LIKE " + Quoted('\'', pattern)) && e + 6 + |Quoted('\'', pattern)| == |t|
    ensures Keyword(t, e, "like") == Some(e + 5) && Keyword(t, e, "is").None? && Keyword(t, e, "in").None?
    ensures CharAt(t, e, ' ') && e + 1 < |t| && t[e + 1] == 'L'
    ensures SkipSpace(t, e + 5) == e + 6 && CharAt(t, e + 6, '\'') && ScanQuoted(t, e + 7, '\'') == Some(Read(pattern, |t|))
  {
    hide Keyword, IsSpace, Quoted;
    assert " LIKE " == " LIKE" + " ";
    PartOf(t, e, " LIKE ", Quoted('\'', pattern));
    PartOf(t, e, " LIKE", " ");
    WordReads(t, e, " LIKE", "like");
    UnitOf(t, e, " LIKE", 1);
    UnitOf(t, e + 5, " ", 0);
    QuotedReadsBack(t, e + 6, '\'', pattern);
    NotSpaces();
    QuoteIsNoSpace();
    KeywordDiffers(t, e, "is", 0);
    KeywordDiffers(t, e, "in", 0);
    OneSpaceHere(t, e + 5);
  }

  lemma QuoteIsNoSpace()
    ensures !IsSpace('\'') && !IsSpace('"')
  {
  }

  /** A LIKE tail is read as its pattern, and the pattern alone decides the filter. */
  lemma LikeReadsBack(t: string, field: string, e: nat, pattern: string)
    requires HoldsAt(t, e, " LIKE " + Quoted('\'', pattern)) && e + 6 + |Quoted('\'', pattern)| == |t|
    ensures ParseTail(t, field, e) == LikeFilter(field, pattern)
  {
    LikeLayout(t, e, pattern);
    hide Keyword, SkipSpace, ScanQuoted, CompareTail, LikeFilter, HoldsAt, Quoted;
    LetterIsNoSymbol(t, e);
  }

  lemma ContainsPattern(field: string, text: string)
    ensures LikeFilter(field, "%" + text + "%") == Some(Contains(field, text))
  {
    var p := "%" + text + "%";
    assert p[1..|p| - 1] == text;
  }

  /** A prefix that itself starts with '%' reads back as a containment test. */
  lemma PrefixPattern(field: string, text: string)
    ensures LikeFilter(field, text + "%") ==
            if text == "" || text[0] != '%' then Some(StartsWith(field, text)) else Some(Contains(field, text[1..]))
  {
    if text == "" {
      assert "" + "%" == "%" && "%"[..0] == "";
    } else {
      NonEmptyPrefix(field, text, text + "%");
    }
  }

  lemma NonEmptyPrefix(field: string, text: string, p: string)
    requires text != "" && p == text + "%"
    ensures LikeFilter(field, p) == if text[0] != '%' then Some(StartsWith(field, text)) else Some(Contains(field, text[1..]))
  {
    assert p[..|p| - 1] == text && p[0] == text[0];
    assert p[1..|p| - 1] == text[1..];
  }

  // ---------------------------------------------------------------- the round trip

  lemma TailShape(f: Filter)
    requires IsFilter(f) && (f.InList? ==> f.values != [])
    ensures PrintTail(f) != "" && PrintTail(f)[0] == ' ' && !IsSpace(PrintTail(f)[|PrintTail(f)| - 1])
  {
    if f.Compare? {
      FormatShape(f.value);
    }
  }

  /** What a printed filter means to the parser once its field is read. */
  function TailMeaning(f: Filter): Option<Filter> {
    match f
    case Compare(_, _, value) => if Readable(value) && (value.Str? ==> OneLine(value.s)) then Some(f) else None
    case InList(_, values) => if LinesOk(values) && forall k :: 0 <= k < |values| ==> ListReadable(values[k]) then Some(f) else None
    case Contains(_, _) => Some(f)
    case StartsWith(field, text) => Some(if text == "" || text[0] != '%' then f else Contains(field, text[1..]))
    case NullTest(_, _) => Some(f)
  }

  /** What a printed filter reads back as. */
  function Reimported(f: Filter): Option<Filter> {
    if f.field == "" || (f.InList? && f.values == []) then None else TailMeaning(f)
  }

  lemma TailReadsBack(t: string, f: Filter, e: nat)
    requires IsFilter(f) && (f.InList? ==> f.values != [])
    requires HoldsAt(t, e, PrintTail(f)) && e + |PrintTail(f)| == |t|
    ensures ParseTail(t, f.field, e) == TailMeaning(f)
  {
    hide ParseTail, FormatValue, Quoted, JoinValues, Readable, OneLine, HoldsAt, LikeFilter, ListReadable, LinesOk;
    match f {
      case Compare(field, cmp, value) => CompareReadsBack(t, field, e, cmp, value);
      case InList(field, values) => InReadsBack(t, field, e, values);
      case Contains(field, text) =>
        LikeReadsBack(t, field, e, "%" + text + "%");
        ContainsPattern(field, text);
      case StartsWith(field, text) =>
        LikeReadsBack(t, field, e, text + "%");
        PrefixPattern(field, text);
      case NullTest(field, isNull) => NullReadsBack(t, field, e, isNull);
    }
  }

  /** The parser's verdict on every printed filter. */
  lemma PrintedFilterMeans(f: Filter)
    requires IsFilter(f) && PrintFilter(f).Some?
    ensures ParseFilter(PrintFilter(f).value) == Reimported(f)
  {
    hide PrintTail, ParseTail, FieldAt, Quoted, ParseFilter, TailMeaning;
    ParsePrinted(f);
    TailReadsBack(PrintFilter(f).value, f, |Quoted('"', f.field)|);
  }

  /** Parsing a printed filter returns the same filter exactly when the filter is representable:
      a non-empty field; no exponent-form number; one-line strings in comparisons and lists; a
      non-empty list without NULL; a prefix that does not itself start with '%'. */
  lemma RoundTripIffRepresentable(f: Filter)
    requires IsFilter(f)
    ensures RoundTrips(f) <==> Representable(f)
  {
    if PrintFilter(f).Some? {
      PrintedFilterMeans(f);
    }
    hide PrintFilter, ParseFilter;
  }

  lemma ParsePrinted(f: Filter)
    requires IsFilter(f) && PrintFilter(f).Some?
    ensures var q, t := Quoted('"', f.field), PrintFilter(f).value;
            && HoldsAt(t, |q|, PrintTail(f)) && |q| + |PrintTail(f)| == |t|
            && ParseFilter(t) == if f.field == "" then None else ParseTail(t, f.field, |q|)
  {
    var q, tail := Quoted('"', f.field), PrintTail(f);
    TailShape(f);
    QuotedPrefix(f.field, tail);
    hide PrintTail, ParseTail, FieldAt, Quoted, Trimmed, HoldsAt;
    FieldReadsBack(f.field, tail);
  }

  lemma QuotedPrefix(field: string, tail: string)
    requires tail != "" && !IsSpace(tail[|tail| - 1])
    ensures var q := Quoted('"', field); Trimmed(q + tail) && HoldsAt(q + tail, |q|, tail)
  {
    var q := Quoted('"', field);
    assert q[0] == '"';
    QuoteIsNoSpace();
    hide Quoted, IsSpace;
    var t := q + tail;
    assert t[0] == '"' && t[|t| - 1] == tail[|tail| - 1];
    assert t[|q|..|q| + |tail|] == tail;
  }

  // ---------------------------------------------------------------- the list scan as written

  method SkipSpaceAt(body: string, start: nat) returns (i: nat)
    requires start <= |body|
    ensures i == SkipSpace(body, start)
  {
    i := start;
    while i < |body| && IsSpace(body[i])
      invariant i <= |body| && SkipSpace(body, start) == SkipSpace(body, i)
    {
      i := i + 1;
    }
  }

  /** From just after an opening quote to just after the closing one. */
  method ScanQuote(body: string, start: nat) returns (end: Option<nat>)
    requires start <= |body|
    ensures end == (var r := ScanQuoted(body, start, '\''); if r.None? then None else Some(r.value.end))
  {
    var j := start;
    while true
      invariant j <= |body|
      invariant (var r := ScanQuoted(body, start, '\''); if r.None? then None else Some(r.value.end))
             == (var r := ScanQuoted(body, j, '\''); if r.None? then None else Some(r.value.end))
      decreases |body| - j
    {
      if j >= |body| {
        return None;
      }
      if body[j] == '\'' {
        if !CharAt(body, j + 1, '\'') {
          return Some(j + 1);
        }
        j := j + 2;
      } else {
        j := j + 1;
      }
    }
  }

  method ElementEndAt(body: string, i: nat) returns (end: Option<nat>)
    requires i < |body|
    ensures end == ElementEnd(body, i)
  {
    if body[i] == '\'' {
      end := ScanQuote(body, i + 1);
    } else {
      var j := i;
      while j < |body| && body[j] != ','
        invariant j <= |body| && CommaFrom(body, i) == CommaFrom(body, j)
      {
        j := j + 1;
      }
      end := Some(j);
    }
  }

  /** parseSqlLiteralList: a scan that keeps the values read so far and whether one is still due. */
  method ParseSqlLiteralList(body: string) returns (values: Option<seq<Literal>>)
    ensures values == ListFrom(body, 0, [], true)
    ensures values.Some? ==> values.value != [] && forall k :: 0 <= k < |values.value| ==> !values.value[k].Null?
  {
    hide ParseSqlLiteral, ElementEnd, SkipSpace;
    var out: seq<Literal> := [];
    var i := 0;
    var expectElement := true;
    while i < |body|
      invariant i <= |body|
      invariant ListFrom(body, 0, [], true) == ListFrom(body, i, out, expectElement)
      invariant !expectElement ==> out != []
      invariant forall k :: 0 <= k < |out| ==> !out[k].Null?
    {
      var start := SkipSpaceAt(body, i);
      if start >= |body| {
        i := |body|;
        break;
      }
      var end := ElementEndAt(body, start);
      if end.None? {
        return None;
      }
      var literal := ParseSqlLiteral(body[start..end.value]);
      if literal.None? || literal.value.Null? {
        return None;
      }
      out := out + [literal.value];
      expectElement := false;
      i := SkipSpaceAt(body, end.value);
      if i < |body| {
        if body[i] != ',' {
          return None;
        }
        i := i + 1;
        expectElement := true;
      } else {
        return Some(out);
      }
    }
    values := if expectElement then None else Some(out);
  }
}
