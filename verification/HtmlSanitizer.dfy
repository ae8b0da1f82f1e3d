/**
 The sanitizer of packages/shared-types/src/attribution-html.ts:86-207 and 401-467. The output is a
 list of pieces, so that "well formed" can be said about what was emitted and "emitted tags
 re-tokenize to themselves" can be proved piece by piece.
 */
module HtmlSanitizer {
  import opened Prelude
  import opened HtmlText
  import opened HtmlTokens
  import opened Slices

  datatype Profile = Profile(maxLength: nat, allowed: set<Text>, voidTags: set<Text>, names: Names)

  // ---------------------------------------------------------------- safeHttpUrl

  predicate IsUrlControl(c: int) {
    0 <= c <= 0x1F || c == 0x7F
  }

  function WithoutControls(s: Text): (t: Text)
    ensures forall c :: c in t ==> !IsUrlControl(c) && c in s
  {
    if s == [] then []
    else if IsUrlControl(s[0]) then WithoutControls(s[1..])
    else [s[0]] + WithoutControls(s[1..])
  }

  /** The code units String.prototype.trim removes. */
  predicate IsJsSpace(c: int) {
    0x09 <= c <= 0x0D || c == 0x20 || c == 0xA0 || c == 0x1680 || 0x2000 <= c <= 0x200A || c == 0x2028 || c == 0x2029
    || c == 0x202F || c == 0x205F || c == 0x3000 || c == 0xFEFF
  }

  predicate Trimmed(s: Text) {
    s == [] || (!IsJsSpace(s[0]) && !IsJsSpace(s[|s| - 1]))
  }

  function Trim(s: Text): (t: Text)
    ensures Trimmed(t)
    ensures forall c :: c in t ==> c in s
    ensures Trimmed(s) ==> t == s
    decreases |s|
  {
    if s == [] then []
    else if IsJsSpace(s[0]) then Trim(s[1..])
    else if IsJsSpace(s[|s| - 1]) then Trim(s[..|s| - 1])
    else s
  }

  predicate StartsWith(s: Text, prefix: Text) {
    |prefix| <= |s| && s[..|prefix|] == prefix
  }

  /** What may be written into an href: an absolute http(s) URL with a destination, in normal form. */
  predicate GoodHref(h: Text) {
    && (forall c :: c in h ==> !IsUrlControl(c))
    && Trimmed(h)
    && if StartsWith(Lower(h), Lit("https://")) then |h| > 8 else StartsWith(Lower(h), Lit("http://")) && |h| > 7
  }

  /** safeHttpUrl. */
  function SafeHttpUrl(names: Names, rawHref: Text): (r: Option<Text>)
    ensures r.Some? ==> GoodHref(r.value)
  {
    var normalized := Trim(WithoutControls(Decode(names, rawHref)));
    var lower := Lower(normalized);
    var scheme := if StartsWith(lower, Lit("https://")) then 8 else if StartsWith(lower, Lit("http://")) then 7 else 0;
    if scheme == 0 || |normalized| == scheme then None else Some(normalized)
  }

  lemma {:induction false} NoControlsToRemove(s: Text)
    requires forall c :: c in s ==> !IsUrlControl(c)
    ensures WithoutControls(s) == s
  {
    if s != [] {
      assert forall c :: c in s[1..] ==> c in s;
      assert s[0] in s;
      NoControlsToRemove(s[1..]);
      assert s == [s[0]] + s[1..];
    }
  }

  /** A good href survives being escaped, read back and checked again. */
  lemma SafeUrlOfEscaped(names: Names, h: Text)
    requires KnowsEscapes(names) && GoodHref(h)
    ensures SafeHttpUrl(names, Escape(h)) == Some(h)
  {
    DecodeEscape(names, h);
    NoControlsToRemove(h);
  }

  // ---------------------------------------------------------------- pieces

  datatype Piece =
    | Chars(text: Text)
    | Opens(name: Text)
    | Link(href: Text)
    | Closes(name: Text)

  const A: Text := [0x61]

  /** ` name="value"`. */
  function AttributeText(name: Text, value: Text): Text {
    [SPACE] + (name + ([EQUALS, QUOT] + (value + [QUOT])))
  }

  /** Attributes and the end of their tag. */
  function AttributeTexts(items: seq<(Text, Text)>): Text {
    if items == [] then [GT] else AttributeText(items[0].0, items[0].1) + AttributeTexts(items[1..])
  }

  /** A start tag: `<name`, its attributes, `>`. */
  function TagText(name: Text, items: seq<(Text, Text)>): Text {
    [LT] + (name + AttributeTexts(items))
  }

  /** `href` is checked and escaped; `target` and `rel` are the sanitizer's own. */
  function LinkItems(href: Text): seq<(Text, Text)> {
    [(Lit("href"), Escape(href)), (Lit("target"), Lit("_blank")), (Lit("rel"), Lit("noopener noreferrer"))]
  }

  function Render(piece: Piece): Text {
    match piece
    case Chars(text) => Escape(text)
    case Opens(name) => TagText(name, [])
    case Link(href) => TagText(A, LinkItems(href))
    case Closes(name) => [LT, SLASH] + name + [GT]
  }

  function RenderAll(pieces: seq<Piece>): Text {
    if pieces == [] then [] else Render(pieces[0]) + RenderAll(pieces[1..])
  }

  function Last<T>(s: seq<T>): T
    requires s != []
  {
    s[|s| - 1]
  }

  /** renderStartTag: what an allowed start tag is rewritten to, or None to show it as text. */
  function StartPiece(p: Profile, token: Token): Option<Piece>
    requires token.StartTag?
  {
    if token.name !in p.allowed then None
    else if token.name != A then Some(Opens(token.name))
    else if Lit("href") !in token.attrs then None
    else
      var safe := SafeHttpUrl(p.names, token.attrs[Lit("href")]);
      if safe.None? then None else Some(Link(safe.value))
  }

  /** lastIndexOfTag. */
  function LastIndex(open: seq<Text>, name: Text): (d: Option<nat>)
    ensures d.Some? ==> d.value < |open| && open[d.value] == name && name !in open[d.value + 1..]
    ensures d.None? ==> name !in open
  {
    if open == [] then None
    else if Last(open) == name then Some(|open| - 1)
    else LastIndex(open[..|open| - 1], name)
  }

  /** Close the open elements from the innermost down to `depth`. */
  function CloseDownTo(open: seq<Text>, depth: nat): seq<Piece>
    requires depth <= |open|
    decreases |open|
  {
    if |open| == depth then [] else [Closes(Last(open))] + CloseDownTo(open[..|open| - 1], depth)
  }

  function StackAfterOpening(p: Profile, open: seq<Text>, name: Text): seq<Text> {
    if name in p.voidTags then open else open + [name]
  }

  function ShownAsText(p: Profile, token: Token): Piece {
    Chars(Decode(p.names, SourceOf(token)))
  }

  /** What one token emits, and the stack of open elements after it. */
  function Emit(p: Profile, open: seq<Text>, token: Token): (seq<Piece>, seq<Text>) {
    match token
    case Words(_) => ([ShownAsText(p, token)], open)
    case StartTag(name, _, _) =>
      var piece := StartPiece(p, token);
      if piece.None? then ([ShownAsText(p, token)], open)
      else ([piece.value], StackAfterOpening(p, open, name))
    case EndTag(name, _) =>
      var depth := LastIndex(open, name);
      if depth.None? then ([ShownAsText(p, token)], open)
      else (CloseDownTo(open, depth.value), open[..depth.value])
  }

  function Pieces(p: Profile, open: seq<Text>, tokens: seq<Token>): seq<Piece>
    decreases |tokens|
  {
    if tokens == [] then CloseDownTo(open, 0)
    else
      var (out, stack) := Emit(p, open, tokens[0]);
      out + Pieces(p, stack, tokens[1..])
  }

  function Cut(p: Profile, input: Text): Text {
    if |input| > p.maxLength then input[..p.maxLength] else input
  }

  function SanitizedPieces(p: Profile, input: Text): seq<Piece> {
    Pieces(p, [], Tokenize(Cut(p, input)))
  }

  /** sanitizeHtml on a string. */
  function Sanitize(p: Profile, input: Text): Text {
    RenderAll(SanitizedPieces(p, input))
  }

  // ---------------------------------------------------------------- well-formedness

  /** Tag names an allow list may hold: what the tokenizer can produce. */
  predicate IsTagName(name: Text) {
    && name != [] && IsAlpha(name[0]) && AllIn(TagName, name) && Lower(name) == name
  }

  ghost predicate ValidProfile(p: Profile) {
    KnowsEscapes(p.names) && forall n :: n in p.allowed ==> IsTagName(n)
  }

  /** Read left to right, the pieces open only allowed elements, close exactly the innermost open
      one, link only to good hrefs, and leave nothing open. */
  predicate WellFormed(p: Profile, open: seq<Text>, pieces: seq<Piece>)
    decreases |pieces|
  {
    if pieces == [] then open == []
    else
      match pieces[0]
      case Chars(_) => WellFormed(p, open, pieces[1..])
      case Opens(name) => name in p.allowed && name != A && WellFormed(p, StackAfterOpening(p, open, name), pieces[1..])
      case Link(href) => A in p.allowed && GoodHref(href) && WellFormed(p, StackAfterOpening(p, open, A), pieces[1..])
      case Closes(name) => open != [] && Last(open) == name && WellFormed(p, open[..|open| - 1], pieces[1..])
  }

  lemma CloseInnermost(p: Profile, open: seq<Text>, rest: seq<Piece>)
    requires open != [] && WellFormed(p, open[..|open| - 1], rest)
    ensures WellFormed(p, open, [Closes(Last(open))] + rest)
  {
    assert ([Closes(Last(open))] + rest)[1..] == rest;
  }

  lemma {:induction false} ClosingIsWellFormed(p: Profile, open: seq<Text>, depth: nat, rest: seq<Piece>)
    requires depth <= |open| && WellFormed(p, open[..depth], rest)
    ensures WellFormed(p, open, CloseDownTo(open, depth) + rest)
    decreases |open|
  {
    if |open| == depth {
      assert open[..depth] == open;
      assert CloseDownTo(open, depth) + rest == rest;
    } else {
      var inner := open[..|open| - 1];
      assert inner[..depth] == open[..depth];
      ClosingIsWellFormed(p, inner, depth, rest);
      CloseInnermost(p, open, CloseDownTo(inner, depth) + rest);
      Concat3([Closes(Last(open))], CloseDownTo(inner, depth), rest);
    }
  }

  lemma {:induction false} PiecesAreWellFormed(p: Profile, open: seq<Text>, tokens: seq<Token>)
    ensures WellFormed(p, open, Pieces(p, open, tokens))
    decreases |tokens|
  {
    if tokens == [] {
      ClosingIsWellFormed(p, open, 0, []);
      assert CloseDownTo(open, 0) + [] == CloseDownTo(open, 0);
    } else {
      var (out, stack) := Emit(p, open, tokens[0]);
      var rest := Pieces(p, stack, tokens[1..]);
      PiecesAreWellFormed(p, stack, tokens[1..]);
      if tokens[0].EndTag? && LastIndex(open, tokens[0].name).Some? {
        ClosingIsWellFormed(p, open, LastIndex(open, tokens[0].name).value, rest);
      } else {
        assert out + rest == [out[0]] + rest;
        assert (out + rest)[1..] == rest;
      }
    }
  }

  /** Whatever the input, the output is well formed: allowed elements properly nested and all
      closed, anchors only to http(s) URLs in normal form, everything else escaped text. */
  lemma OutputIsWellFormed(p: Profile, input: Text)
    ensures WellFormed(p, [], SanitizedPieces(p, input))
    ensures Sanitize(p, input) == RenderAll(SanitizedPieces(p, input))
    ensures SourcesOf(Tokenize(Cut(p, input))) == Cut(p, input)
  {
    PiecesAreWellFormed(p, [], Tokenize(Cut(p, input)));
    TokenizeIsTotal(Cut(p, input));
  }

  // ---------------------------------------------------------------- emitted tags read back

  /** The tag name just after '<' or '</'. */
  lemma NameReadsBack(s: Text, i: nat, name: Text)
    requires IsTagName(name) && HoldsAt(s, i, name) && i + |name| < |s| && !Is(TagName, s[i + |name|])
    ensures IsAlpha(s[i]) && EndOf(TagName, s, i) == i + |name| && Lower(s[i..i + |name|]) == name
  {
    forall k | i <= k < i + |name|
      ensures Is(TagName, s[k])
    {
      UnitOf(s, i, name, k - i);
    }
    UnitOf(s, i, name, 0);
    EndIs(TagName, s, i, i + |name|);
  }

  lemma ClosesLayout(s: Text, i: nat, name: Text)
    requires HoldsAt(s, i, Render(Closes(name)))
    ensures UnitAt(s, i, LT) && UnitAt(s, i + 1, SLASH) && HoldsAt(s, i + 2, name) && UnitAt(s, i + 2 + |name|, GT)
  {
    var t := Render(Closes(name));
    UnitOf(s, i, t, 0);
    UnitOf(s, i, t, 1);
    UnitOf(s, i, t, |name| + 2);
    Concat3([LT, SLASH], name, [GT]);
    PartOf(s, i, [LT, SLASH], name + [GT]);
    PartOf(s, i + 2, name, [GT]);
  }

  lemma ClosesReadsBack(s: Text, i: nat, name: Text)
    requires IsTagName(name) && HoldsAt(s, i, Render(Closes(name)))
    ensures UnitAt(s, i, LT)
    ensures ReadTag(s, i) == Some(Read(EndTag(name, Render(Closes(name))), i + |name| + 3))
  {
    ClosesLayout(s, i, name);
    NameReadsBack(s, i + 2, name);
    EndTagIs(s, i, i + 2 + |name|);
  }

  lemma AttributeLayout(s: Text, i: nat, name: Text, value: Text)
    requires HoldsAt(s, i, AttributeText(name, value))
    ensures UnitAt(s, i, SPACE) && HoldsAt(s, i + 1, name)
    ensures UnitAt(s, i + 1 + |name|, EQUALS) && UnitAt(s, i + 2 + |name|, QUOT)
    ensures HoldsAt(s, i + 3 + |name|, value) && UnitAt(s, i + 3 + |name| + |value|, QUOT)
    ensures |AttributeText(name, value)| == 4 + |name| + |value| && i + |AttributeText(name, value)| <= |s|
  {
    hide HoldsAt;
    PartOf(s, i, [SPACE], name + ([EQUALS, QUOT] + (value + [QUOT])));
    PartOf(s, i + 1, name, [EQUALS, QUOT] + (value + [QUOT]));
    PartOf(s, i + 1 + |name|, [EQUALS, QUOT], value + [QUOT]);
    PartOf(s, i + 3 + |name|, value, [QUOT]);
    UnitOf(s, i, [SPACE], 0);
    UnitOf(s, i + 1 + |name|, [EQUALS, QUOT], 0);
    UnitOf(s, i + 1 + |name|, [EQUALS, QUOT], 1);
    UnitOf(s, i + 3 + |name| + |value|, [QUOT], 0);
  }

  /** ` name="value"` in the source is one attribute of the tag. */
  lemma AttributeReadsBack(s: Text, i: nat, name: Text, value: Text, attrs: Attrs)
    requires name != [] && AllIn(AttrName, name) && QUOT !in value
    requires HoldsAt(s, i, AttributeText(name, value))
    ensures i + |AttributeText(name, value)| <= |s|
    ensures ReadAttrs(s, i, attrs) == ReadAttrs(s, i + |AttributeText(name, value)|, Keep(attrs, Lower(name), value))
  {
    hide ReadAttrs;
    AttributeRounds(s, i, name, value, attrs);
    RoundStep(s, i, attrs, attrs, i + 1);
    RoundStep(s, i + 1, attrs, Keep(attrs, Lower(name), value), i + |AttributeText(name, value)|);
  }

  lemma AttributeRounds(s: Text, i: nat, name: Text, value: Text, attrs: Attrs)
    requires name != [] && AllIn(AttrName, name) && QUOT !in value
    requires HoldsAt(s, i, AttributeText(name, value))
    ensures i + 1 < i + |AttributeText(name, value)| <= |s|
    ensures AttrRound(s, i, attrs) == Go(attrs, i + 1)
    ensures AttrRound(s, i + 1, attrs) == Go(Keep(attrs, Lower(name), value), i + |AttributeText(name, value)|)
  {
    hide HoldsAt, ReadValue, EndOf, Keep;
    AttributeLayout(s, i, name, value);
    QuotedValueReadsBack(s, i + 1 + |name|, value);
    AttrNameReadsBack(s, i + 1, name);
    SpaceRound(s, i, attrs);
    NamedRound(s, i + 1, i + 1 + |name|, value, i + |AttributeText(name, value)|, attrs);
  }

  lemma SpaceRound(s: Text, i: nat, attrs: Attrs)
    requires UnitAt(s, i, SPACE)
    ensures AttrRound(s, i, attrs) == Go(attrs, i + 1)
  {
  }

  lemma AttrNameReadsBack(s: Text, n: nat, name: Text)
    requires name != [] && AllIn(AttrName, name) && HoldsAt(s, n, name) && UnitAt(s, n + |name|, EQUALS)
    ensures EndOf(AttrName, s, n) == n + |name| && s[n..n + |name|] == name && Is(AttrName, s[n])
  {
    forall k | n <= k < n + |name|
      ensures Is(AttrName, s[k])
    {
      UnitOf(s, n, name, k - n);
    }
    EndIs(AttrName, s, n, n + |name|);
  }

  lemma QuotedValueReadsBack(s: Text, i: nat, value: Text)
    requires QUOT !in value && UnitAt(s, i, EQUALS) && UnitAt(s, i + 1, QUOT)
    requires HoldsAt(s, i + 2, value) && UnitAt(s, i + 2 + |value|, QUOT)
    ensures ReadValue(s, i) == Some(Read(value, i + 3 + |value|))
  {
    forall k | i + 2 <= k < i + 2 + |value|
      ensures s[k] != QUOT
    {
      UnitOf(s, i + 2, value, k - i - 2);
      assert value[k - i - 2] in value;
    }
    IndexIs(s, QUOT, i + 2, i + 2 + |value|);
    EndIs(HtmlSpace, s, i, i);
    EndIs(HtmlSpace, s, i + 1, i + 1);
  }

  lemma LowerCaseLiteral(name: string)
    requires forall i :: 0 <= i < |name| ==> 'a' <= name[i] <= 'z'
    ensures Lower(Lit(name)) == Lit(name) && AllIn(AttrName, Lit(name))
  {
  }

  predicate PlainAttribute(name: Text, value: Text) {
    name != [] && AllIn(AttrName, name) && Lower(name) == name && QUOT !in value
  }

  function KeepAll(attrs: Attrs, items: seq<(Text, Text)>): Attrs
    decreases |items|
  {
    if items == [] then attrs else KeepAll(Keep(attrs, items[0].0, items[0].1), items[1..])
  }

  lemma ClosingBracket(s: Text, i: nat, attrs: Attrs)
    requires UnitAt(s, i, GT)
    ensures ReadAttrs(s, i, attrs) == Some(Read(attrs, i + 1))
  {
  }

  /** Any list of plain attributes followed by '>' reads back as that list, first occurrence winning. */
  lemma {:induction false} AttributesReadBack(s: Text, i: nat, items: seq<(Text, Text)>, attrs: Attrs)
    requires forall k :: 0 <= k < |items| ==> PlainAttribute(items[k].0, items[k].1)
    requires HoldsAt(s, i, AttributeTexts(items))
    ensures ReadAttrs(s, i, attrs) == Some(Read(KeepAll(attrs, items), i + |AttributeTexts(items)|))
    decreases |items|
  {
    hide ReadAttrs, AttributeText, Keep, PlainAttribute;
    if items == [] {
      UnitOf(s, i, [GT], 0);
      ClosingBracket(s, i, attrs);
    } else {
      FirstAttributeReadsBack(s, i, items, attrs);
      AttributesReadBack(s, i + |AttributeText(items[0].0, items[0].1)|, items[1..], Keep(attrs, items[0].0, items[0].1));
    }
  }

  lemma FirstAttributeReadsBack(s: Text, i: nat, items: seq<(Text, Text)>, attrs: Attrs)
    requires items != [] && PlainAttribute(items[0].0, items[0].1) && HoldsAt(s, i, AttributeTexts(items))
    ensures var first := AttributeText(items[0].0, items[0].1);
            && i + |first| <= |s| && HoldsAt(s, i + |first|, AttributeTexts(items[1..]))
            && |AttributeTexts(items)| == |first| + |AttributeTexts(items[1..])|
            && ReadAttrs(s, i, attrs) == ReadAttrs(s, i + |first|, Keep(attrs, items[0].0, items[0].1))
  {
    hide ReadAttrs, AttributeText, Keep, HoldsAt;
    var (name, value) := items[0];
    PartOf(s, i, AttributeText(name, value), AttributeTexts(items[1..]));
    AttributeReadsBack(s, i, name, value, attrs);
  }

  lemma LinkItemsArePlain(href: Text)
    ensures forall k :: 0 <= k < |LinkItems(href)| ==> PlainAttribute(LinkItems(href)[k].0, LinkItems(href)[k].1)
    ensures Lit("href") in KeepAll(map[], LinkItems(href)) && KeepAll(map[], LinkItems(href))[Lit("href")] == Escape(href)
  {
    EscapeHasNoMarkup(href);
    LowerCaseLiteral("href");
    LowerCaseLiteral("target");
    LowerCaseLiteral("rel");
    HrefIsKept(map[Lit("href") := Escape(href)], LinkItems(href)[1..], Escape(href));
  }

  /** A later attribute never displaces the href already kept. */
  lemma {:induction false} HrefIsKept(attrs: Attrs, items: seq<(Text, Text)>, value: Text)
    requires Lit("href") in attrs && attrs[Lit("href")] == value
    ensures Lit("href") in KeepAll(attrs, items) && KeepAll(attrs, items)[Lit("href")] == value
    decreases |items|
  {
    if items != [] {
      HrefIsKept(Keep(attrs, items[0].0, items[0].1), items[1..], value);
    }
  }

  lemma TagLayout(s: Text, i: nat, name: Text, items: seq<(Text, Text)>)
    requires HoldsAt(s, i, TagText(name, items))
    ensures UnitAt(s, i, LT) && HoldsAt(s, i + 1, name) && HoldsAt(s, i + 1 + |name|, AttributeTexts(items))
    ensures i + 1 + |name| < |s| && (s[i + 1 + |name|] == SPACE || s[i + 1 + |name|] == GT)
  {
    PartOf(s, i, [LT], name + AttributeTexts(items));
    PartOf(s, i + 1, name, AttributeTexts(items));
    UnitOf(s, i, [LT], 0);
    UnitOf(s, i + 1 + |name|, AttributeTexts(items), 0);
  }

  lemma TagNameAt(s: Text, i: nat, name: Text, items: seq<(Text, Text)>)
    requires IsTagName(name) && HoldsAt(s, i, TagText(name, items))
    ensures UnitAt(s, i, LT) && i + 1 < |s| && IsAlpha(s[i + 1])
    ensures EndOf(TagName, s, i + 1) == i + 1 + |name| <= |s| && Lower(s[i + 1..i + 1 + |name|]) == name
  {
    TagLayout(s, i, name, items);
    NameReadsBack(s, i + 1, name);
  }

  lemma TagAttrsAt(s: Text, i: nat, name: Text, items: seq<(Text, Text)>)
    requires HoldsAt(s, i, TagText(name, items))
    requires forall k :: 0 <= k < |items| ==> PlainAttribute(items[k].0, items[k].1)
    ensures i + 1 + |name| <= |s|
    ensures ReadAttrs(s, i + 1 + |name|, map[]) == Some(Read(KeepAll(map[], items), i + |TagText(name, items)|))
  {
    hide *;
    TagLayout(s, i, name, items);
    TagLength(name, items);
    AttributesReadBack(s, i + 1 + |name|, items, map[]);
  }

  lemma TagLength(name: Text, items: seq<(Text, Text)>)
    ensures |TagText(name, items)| == 1 + |name| + |AttributeTexts(items)|
  {
  }

  /** A tag written with plain attributes reads back as itself. */
  lemma TagReadsBack(s: Text, i: nat, name: Text, items: seq<(Text, Text)>)
    requires IsTagName(name) && HoldsAt(s, i, TagText(name, items))
    requires forall k :: 0 <= k < |items| ==> PlainAttribute(items[k].0, items[k].1)
    ensures UnitAt(s, i, LT)
    ensures ReadTag(s, i) == Some(Read(StartTag(name, KeepAll(map[], items), TagText(name, items)), i + |TagText(name, items)|))
  {
    TagNameAt(s, i, name, items);
    TagAttrsAt(s, i, name, items);
    StartTagIs(s, i, i + 1 + |name|, KeepAll(map[], items), i + |TagText(name, items)|);
  }
}
