/**
 How long an output can get, so that a caller knows before the call that it will fit the cap: the
 expansion of packages/shared-types/src/attribution-html.ts:163-207 is at most sevenfold.
 */
module HtmlBound {
  import opened HtmlText
  import opened HtmlTokens
  import opened HtmlSanitizer
  import opened HtmlFixedPoint

  /** No named reference stands for a text that is more than six times as long when it is escaped. */
  predicate ModestNames(names: Names) {
    forall n :: n in names ==> |Escape(names[n])| <= 6 * (|n| + 2)
  }

  // ---------------------------------------------------------------- text

  lemma EscapeUnitBound(c: int)
    ensures 1 <= |EscapeUnit(c)| <= 6
  {
  }

  lemma {:induction false} EscapeBound(t: Text)
    ensures |Escape(t)| <= 6 * |t|
  {
    hide EscapeUnit;
    if t != [] {
      EscapeUnitBound(t[0]);
      EscapeBound(t[1..]);
    }
  }

  lemma NumericBound(m: Text, code: nat)
    requires |m| >= 3
    ensures |Escape(NumericReference(m, code))| <= 6 * |m|
  {
    EscapeBound(NumericReference(m, code));
  }

  lemma ReplacementBound(names: Names, m: Text)
    requires ModestNames(names) && m != [] && m[0] == AMP && ReferenceLength(m) == |m| && |m| >= 3
    ensures |Escape(Replacement(names, m))| <= 6 * |m|
  {
    hide Escape, NumericReference, ParseDigits;
    if m[1] == HASH {
      if m[2] == 0x78 || m[2] == 0x58 {
        NumericBound(m, ParseDigits(m[3..|m| - 1], 16));
      } else {
        NumericBound(m, ParseDigits(m[2..|m| - 1], 10));
      }
    } else {
      EscapeBound(m);
      assert |Lower(m[1..|m| - 1])| == |m| - 2;
    }
  }

  /** Decoded and escaped again, a text is at most six times as long. */
  lemma {:induction false} ShownBound(names: Names, t: Text)
    requires ModestNames(names)
    ensures |Escape(Decode(names, t))| <= 6 * |t|
    decreases |t|
  {
    hide Escape, Replacement, ReferenceLength;
    if t == [] {
      EscapeBound([]);
    } else if t[0] != AMP || ReferenceLength(t) == 0 {
      ShownBound(names, t[1..]);
      EscapeCons(t[0], Decode(names, t[1..]));
      EscapeUnitBound(t[0]);
    } else {
      var n := ReferenceLength(t);
      ReferencePrefix(t, n);
      ReplacementBound(names, t[..n]);
      ShownBound(names, t[n..]);
      EscapeConcat(Replacement(names, t[..n]), Decode(names, t[n..]));
    }
  }

  // ---------------------------------------------------------------- hrefs

  lemma {:induction false} FewerUnits(t: Text)
    ensures |Escape(WithoutControls(t))| <= |Escape(t)|
  {
    hide EscapeUnit;
    if t != [] {
      FewerUnits(t[1..]);
      if !IsUrlControl(t[0]) {
        EscapeCons(t[0], WithoutControls(t[1..]));
      }
    }
  }

  lemma {:induction false} TrimBound(t: Text)
    ensures |Escape(Trim(t))| <= |Escape(t)|
    decreases |t|
  {
    hide EscapeUnit;
    if t != [] && IsJsSpace(t[0]) {
      TrimBound(t[1..]);
    } else if t != [] && IsJsSpace(t[|t| - 1]) {
      TrimBound(t[..|t| - 1]);
      assert t == t[..|t| - 1] + [t[|t| - 1]];
      EscapeConcat(t[..|t| - 1], [t[|t| - 1]]);
    }
  }

  lemma HrefBound(names: Names, raw: Text)
    requires ModestNames(names) && SafeHttpUrl(names, raw).Some?
    ensures |Escape(SafeHttpUrl(names, raw).value)| <= 6 * |raw| && raw != []
  {
    var decoded := Decode(names, raw);
    ShownBound(names, raw);
    FewerUnits(decoded);
    TrimBound(WithoutControls(decoded));
    hide Escape;
  }

  // ---------------------------------------------------------------- tokens are as long as they must be

  /** A start tag's source holds its name, two brackets and the href it was given, with `href=`. */
  predicate SourceFits(token: Token) {
    token.StartTag? ==>
      && |token.raw| >= |token.name| + 2
      && (Lit("href") in token.attrs && token.attrs[Lit("href")] != [] ==> |token.raw| >= |token.attrs[Lit("href")]| + 8)
  }

  lemma ValueFits(s: Text, i: nat)
    requires i <= |s| && ReadValue(s, i).Some?
    ensures var v := ReadValue(s, i).value; v.item == [] || |v.item| + 1 <= v.end - i
  {
  }

  lemma {:induction false} AttrsFit(s: Text, i: nat, attrs: Attrs, name: Text)
    requires i <= |s| && ReadAttrs(s, i, attrs).Some? && name !in attrs
    ensures var r := ReadAttrs(s, i, attrs).value;
            name in r.item && r.item[name] != [] ==> |r.item[name]| + |name| + 2 <= r.end - i
    decreases |s| - i
  {
    hide ReadValue, EndOf;
    match AttrRound(s, i, attrs) {
      case Close =>
      case Go(more, next) =>
        if name in more {
          RoundFits(s, i, attrs, more, next, name);
          AttrsKept(s, next, more, name);
        } else {
          AttrsFit(s, next, more, name);
        }
    }
  }

  lemma RoundFits(s: Text, i: nat, attrs: Attrs, more: Attrs, next: nat, name: Text)
    requires i < |s| && AttrRound(s, i, attrs) == Go(more, next) && name !in attrs && name in more
    ensures more[name] == [] || |more[name]| + |name| + 1 <= next - i
  {
    var nameEnd := EndOf(AttrName, s, i);
    ValueFits(s, nameEnd);
    assert name == Lower(s[i..nameEnd]);
  }

  lemma {:induction false} AttrsKept(s: Text, i: nat, attrs: Attrs, name: Text)
    requires i <= |s| && ReadAttrs(s, i, attrs).Some? && name in attrs
    ensures var r := ReadAttrs(s, i, attrs).value; name in r.item && r.item[name] == attrs[name] && r.end > i
    decreases |s| - i
  {
    hide ReadValue, EndOf;
    match AttrRound(s, i, attrs) {
      case Close =>
      case Go(more, next) => AttrsKept(s, next, more, name);
    }
  }

  lemma TagFits(s: Text, i: nat)
    requires UnitAt(s, i, LT) && ReadTag(s, i).Some?
    ensures SourceFits(ReadTag(s, i).value.item)
  {
    hide EndOf, AttrRound, ReadAttrs, Lower;
    if !UnitAt(s, i + 1, SLASH) {
      var end := EndOf(TagName, s, i + 1);
      AttrsFit(s, end, map[], Lit("href"));
      NonemptyName(s, i + 1);
    }
  }

  lemma NonemptyName(s: Text, at: nat)
    requires at < |s| && IsAlpha(s[at])
    ensures EndOf(TagName, s, at) > at
  {
  }

  predicate AllFit(tokens: seq<Token>) {
    forall k :: 0 <= k < |tokens| ==> SourceFits(tokens[k])
  }

  lemma {:induction false} TokensFit(s: Text, i: nat, text: Text)
    requires i <= |s|
    ensures AllFit(TokensFrom(s, i, text))
    decreases |s| - i
  {
    hide ReadTag, SourceFits;
    if i == |s| {
      FlushFits(text);
    } else if s[i] != LT {
      TokensFit(s, i + 1, text + [s[i]]);
    } else if ReadTag(s, i).None? {
      TokensFit(s, i + 1, text + [LT]);
    } else {
      var r := ReadTag(s, i).value;
      FlushFits(text);
      TagFits(s, i);
      TokensFit(s, r.end, []);
    }
  }

  lemma FlushFits(text: Text)
    ensures AllFit(Flush(text))
  {
  }

  // ---------------------------------------------------------------- the output

  function ClosersOf(open: seq<Text>): nat {
    |RenderAll(CloseDownTo(open, 0))|
  }

  lemma OneMoreCloser(open: seq<Text>, name: Text)
    ensures ClosersOf(open + [name]) == |name| + 3 + ClosersOf(open)
  {
    var more := open + [name];
    assert more[..|more| - 1] == open;
    assert CloseDownTo(more, 0) == [Closes(name)] + CloseDownTo(open, 0);
  }

  lemma {:induction false} ClosersSplit(open: seq<Text>, depth: nat)
    requires depth <= |open|
    ensures ClosersOf(open) == |RenderAll(CloseDownTo(open, depth))| + ClosersOf(open[..depth])
    decreases |open|
  {
    hide Render;
    if |open| == depth {
      assert open[..depth] == open;
    } else {
      var inner := open[..|open| - 1];
      assert inner[..depth] == open[..depth];
      ClosersSplit(inner, depth);
    }
  }

  lemma TextPieceBound(p: Profile, token: Token)
    requires ModestNames(p.names)
    ensures |RenderAll([ShownAsText(p, token)])| <= 6 * |SourceOf(token)|
  {
    ShownBound(p.names, SourceOf(token));
    hide Escape, Decode;
    assert [ShownAsText(p, token)][1..] == [];
  }

  lemma TagPieceBound(p: Profile, open: seq<Text>, token: Token)
    requires ModestNames(p.names) && token.StartTag? && SourceFits(token) && StartPiece(p, token).Some?
    ensures |Render(StartPiece(p, token).value)| + ClosersOf(StackAfterOpening(p, open, token.name)) <= ClosersOf(open) + 7 * |token.raw|
  {
    OneMoreCloser(open, token.name);
    var piece := StartPiece(p, token).value;
    hide ClosersOf, Escape, SafeHttpUrl;
    if piece.Link? {
      HrefBound(p.names, token.attrs[Lit("href")]);
      LinkLength(piece.href);
    } else {
      assert |Render(piece)| == |token.name| + 2;
    }
  }

  lemma LinkLength(href: Text)
    ensures |Render(Link(href))| == 53 + |Escape(href)|
  {
    var items := LinkItems(href);
    hide Escape;
    assert items[1..][1..] == [items[2]] && items[2..][1..] == [] && items[1..][0] == items[1];
    assert |AttributeTexts([])| == 1;
    assert |AttributeTexts([items[2]])| == 27;
    assert items[1..] == [items[1], items[2]];
    assert |AttributeTexts(items[1..])| == 43;
    assert |AttributeTexts(items)| == 51 + |items[0].1|;
  }

  /** One token: what it emits, with the change in what is left to close, is at most sevenfold. */
  lemma EmitBound(p: Profile, open: seq<Text>, token: Token)
    requires ModestNames(p.names) && SourceFits(token)
    ensures var (out, stack) := Emit(p, open, token);
            |RenderAll(out)| + ClosersOf(stack) <= ClosersOf(open) + 7 * |SourceOf(token)|
  {
    TextPieceBound(p, token);
    hide ClosersOf, Render, Escape, Decode, SourceFits;
    match token
    case Words(_) =>
    case StartTag(name, _, _) =>
      var piece := StartPiece(p, token);
      if piece.Some? {
        TagPieceBound(p, open, token);
        assert RenderAll([piece.value]) == Render(piece.value) + [];
      }
    case EndTag(name, _) =>
      var depth := LastIndex(open, name);
      if depth.Some? {
        ClosersSplit(open, depth.value);
      }
  }

  lemma {:induction false} PiecesBound(p: Profile, open: seq<Text>, tokens: seq<Token>)
    requires ModestNames(p.names) && AllFit(tokens)
    ensures |RenderAll(Pieces(p, open, tokens))| <= ClosersOf(open) + 7 * |SourcesOf(tokens)|
    decreases |tokens|
  {
    hide Emit, Render, SourceFits;
    if tokens != [] {
      var (out, stack) := Emit(p, open, tokens[0]);
      EmitBound(p, open, tokens[0]);
      PiecesBound(p, stack, tokens[1..]);
      RenderConcat(out, Pieces(p, stack, tokens[1..]));
    }
  }

  /** The output is at most seven times as long as the input, so a short enough input is sanitized once
      and for all: a condition on the input alone. */
  lemma ShortInputsAreIdempotent(p: Profile, input: Text)
    requires ValidProfile(p) && ModestNames(p.names)
    ensures |Sanitize(p, input)| <= 7 * |input|
    ensures 7 * |input| <= p.maxLength ==> Sanitize(p, Sanitize(p, input)) == Sanitize(p, input)
  {
    var cut := Cut(p, input);
    TokensFit(cut, 0, []);
    PiecesBound(p, [], Tokenize(cut));
    TokenizeIsTotal(cut);
    assert ClosersOf([]) == 0;
    if 7 * |input| <= p.maxLength {
      SanitizeIsIdempotent(p, input);
    }
  }
}
