/**
 Sanitizing is a fixed point (packages/shared-types/src/attribution-html.ts:61-69): the output
 re-tokenizes to the tags and the text it was built from, and each of those is emitted again as it
 stands. The method is sanitizeHtml itself.
 */
module HtmlFixedPoint {
  import opened Prelude
  import opened HtmlText
  import opened HtmlTokens
  import opened HtmlReader
  import opened HtmlSanitizer
  import opened Slices

  /** The token an emitted tag reads back as. */
  function TokenOf(piece: Piece): Token
    requires !piece.Chars?
  {
    match piece
    case Opens(name) => StartTag(name, map[], Render(piece))
    case Link(href) => StartTag(A, KeepAll(map[], LinkItems(href)), Render(piece))
    case Closes(name) => EndTag(name, Render(piece))
  }

  /** The tokens of a piece list followed by the text `tail`; `pending` is text still waiting for the
      next tag. */
  function TokensOf(pieces: seq<Piece>, pending: Text, tail: Text): seq<Token>
    decreases |pieces|
  {
    if pieces == [] then Flush(Escape(pending) + tail)
    else if pieces[0].Chars? then TokensOf(pieces[1..], pending + pieces[0].text, tail)
    else Flush(Escape(pending)) + [TokenOf(pieces[0])] + TokensOf(pieces[1..], [], tail)
  }

  predicate TagNames(open: seq<Text>) {
    forall k :: 0 <= k < |open| ==> IsTagName(open[k])
  }

  /** The stack after a piece. */
  function StackAfter(p: Profile, open: seq<Text>, piece: Piece): seq<Text> {
    match piece
    case Chars(_) => open
    case Opens(name) => StackAfterOpening(p, open, name)
    case Link(_) => StackAfterOpening(p, open, A)
    case Closes(_) => if open == [] then [] else open[..|open| - 1]
  }

  function StackThrough(p: Profile, open: seq<Text>, pieces: seq<Piece>): seq<Text>
    decreases |pieces|
  {
    if pieces == [] then open else StackThrough(p, StackAfter(p, open, pieces[0]), pieces[1..])
  }

  /** The piece may come next when these elements are open. */
  predicate Fits(p: Profile, open: seq<Text>, piece: Piece) {
    match piece
    case Chars(_) => true
    case Opens(name) => name in p.allowed && name != A
    case Link(href) => A in p.allowed && GoodHref(href)
    case Closes(name) => open != [] && Last(open) == name
  }

  /** Well formed as far as it goes: elements may still be open at the end. */
  predicate Runs(p: Profile, open: seq<Text>, pieces: seq<Piece>)
    decreases |pieces|
  {
    pieces == [] || (Fits(p, open, pieces[0]) && Runs(p, StackAfter(p, open, pieces[0]), pieces[1..]))
  }

  lemma {:induction false} WellFormedRuns(p: Profile, open: seq<Text>, pieces: seq<Piece>)
    ensures WellFormed(p, open, pieces) <==> Runs(p, open, pieces) && StackThrough(p, open, pieces) == []
    decreases |pieces|
  {
    if pieces != [] {
      WellFormedRuns(p, StackAfter(p, open, pieces[0]), pieces[1..]);
    }
  }

  lemma FirstPiece(p: Profile, open: seq<Text>, pieces: seq<Piece>)
    requires ValidProfile(p) && TagNames(open) && pieces != [] && Runs(p, open, pieces)
    ensures Runs(p, StackAfter(p, open, pieces[0]), pieces[1..])
    ensures TagNames(StackAfter(p, open, pieces[0]))
    ensures pieces[0].Opens? || pieces[0].Closes? ==> IsTagName(pieces[0].name)
  {
  }

  lemma TagPieceReadsBack(s: Text, i: nat, piece: Piece)
    requires !piece.Chars? && HoldsAt(s, i, Render(piece))
    requires piece.Opens? || piece.Closes? ==> IsTagName(piece.name)
    ensures UnitAt(s, i, LT)
    ensures ReadTag(s, i) == Some(Read(TokenOf(piece), i + |Render(piece)|))
  {
    hide ReadTag, HoldsAt, AttributeTexts, AttributeText, Escape, UnitAt;
    match piece
    case Opens(name) => TagReadsBack(s, i, name, []);
    case Link(href) => LinkReadsBack(s, i, href);
    case Closes(name) => ClosesReadsBack(s, i, name);
  }

  lemma LinkReadsBack(s: Text, i: nat, href: Text)
    requires HoldsAt(s, i, Render(Link(href)))
    ensures UnitAt(s, i, LT) && ReadTag(s, i) == Some(Read(TokenOf(Link(href)), i + |Render(Link(href))|))
  {
    hide ReadTag, HoldsAt, AttributeTexts, AttributeText, Escape, UnitAt;
    LinkItemsArePlain(href);
    TagReadsBack(s, i, A, LinkItems(href));
  }

  /** `s` from `i` on is the rendering of the pieces and then `tail`. */
  predicate Holds(s: Text, i: nat, pieces: seq<Piece>, tail: Text) {
    i <= |s| && s[i..] == RenderAll(pieces) + tail
  }

  lemma SplitRendering(s: Text, i: nat, pieces: seq<Piece>, tail: Text)
    requires pieces != [] && Holds(s, i, pieces, tail)
    ensures HoldsAt(s, i, Render(pieces[0]))
    ensures Holds(s, i + |Render(pieces[0])|, pieces[1..], tail)
  {
    hide Render;
    Concat3(Render(pieces[0]), RenderAll(pieces[1..]), tail);
    SplitAt(s, i, Render(pieces[0]), RenderAll(pieces[1..]) + tail);
  }

  lemma TagIsOneToken(s: Text, i: nat, text: Text, r: Read<Token>)
    requires UnitAt(s, i, LT) && ReadTag(s, i) == Some(r)
    ensures TokensFrom(s, i, text) == Flush(text) + [r.item] + TokensFrom(s, r.end, [])
  {
  }

  lemma EscapedTextIsPending(s: Text, i: nat, text: Text, pending: Text)
    requires HoldsAt(s, i, Escape(text))
    ensures TokensFrom(s, i, Escape(pending)) == TokensFrom(s, i + |Escape(text)|, Escape(pending + text))
  {
    hide TokensFrom, Escape;
    EscapeHasNoMarkup(text);
    TextAccumulates(s, i, i + |Escape(text)|, Escape(pending));
    EscapeConcat(pending, text);
  }

  /** Without a '>' no tag ends, so what looks like one is text. */
  lemma {:induction false} NoBracketNoAttrs(s: Text, i: nat, attrs: Attrs)
    requires i <= |s| && GT !in s[i..]
    ensures ReadAttrs(s, i, attrs).None?
    decreases |s| - i
  {
    hide ReadValue, EndOf, Keep;
    if i < |s| {
      assert s[i] in s[i..];
      match AttrRound(s, i, attrs) {
        case Refuse =>
        case Close =>
        case Go(more, next) =>
          assert s[next..] == s[i..][next - i..];
          NoBracketNoAttrs(s, next, more);
      }
    }
  }

  lemma NoBracketNoTag(s: Text, i: nat)
    requires UnitAt(s, i, LT) && GT !in s[i..]
    ensures ReadTag(s, i).None?
  {
    hide ReadAttrs, EndOf, Lower;
    forall k | i <= k < |s| ensures s[k] != GT {
      assert s[k] == s[i..][k - i];
    }
    forall k | i <= k <= |s| ensures ReadAttrs(s, k, map[]).None? {
      assert s[k..] == s[i..][k - i..];
      NoBracketNoAttrs(s, k, map[]);
    }
  }

  lemma {:induction false} NoBracketIsText(s: Text, i: nat, text: Text)
    requires i <= |s| && GT !in s[i..]
    ensures TokensFrom(s, i, text) == Flush(text + s[i..])
    decreases |s| - i
  {
    hide ReadTag, Flush;
    if i == |s| {
      assert text + s[i..] == text;
    } else {
      assert s[i + 1..] == s[i..][1..];
      assert text + s[i..] == (text + [s[i]]) + s[i + 1..];
      NoBracketIsText(s, i + 1, text + [s[i]]);
      if s[i] == LT {
        NoBracketNoTag(s, i);
      }
    }
  }

  /** A rendered list, with any text after it in which no tag ends, tokenizes to its own tags and text. */
  lemma {:induction false} Retokenize(p: Profile, open: seq<Text>, s: Text, i: nat, pieces: seq<Piece>, pending: Text, tail: Text)
    requires ValidProfile(p) && TagNames(open) && Runs(p, open, pieces)
    requires Holds(s, i, pieces, tail) && GT !in tail
    ensures TokensFrom(s, i, Escape(pending)) == TokensOf(pieces, pending, tail)
    decreases |pieces|, 2
  {
    if pieces == [] {
      assert [] + tail == tail;
      NoBracketIsText(s, i, Escape(pending));
    } else if pieces[0].Chars? {
      RetokenizeText(p, open, s, i, pieces, pending, tail);
    } else {
      RetokenizeTag(p, open, s, i, pieces, pending, tail);
    }
  }

  lemma RetokenizeText(p: Profile, open: seq<Text>, s: Text, i: nat, pieces: seq<Piece>, pending: Text, tail: Text)
    requires ValidProfile(p) && TagNames(open) && Runs(p, open, pieces)
    requires pieces != [] && pieces[0].Chars? && Holds(s, i, pieces, tail) && GT !in tail
    ensures TokensFrom(s, i, Escape(pending)) == TokensOf(pieces, pending, tail)
    decreases |pieces|, 0
  {
    hide TokensFrom, Runs, Escape, Holds;
    var text := pieces[0].text;
    FirstPiece(p, open, pieces);
    SplitRendering(s, i, pieces, tail);
    EscapedTextIsPending(s, i, text, pending);
    Retokenize(p, open, s, i + |Escape(text)|, pieces[1..], pending + text, tail);
  }

  lemma RetokenizeTag(p: Profile, open: seq<Text>, s: Text, i: nat, pieces: seq<Piece>, pending: Text, tail: Text)
    requires ValidProfile(p) && TagNames(open) && Runs(p, open, pieces)
    requires i <= |s| && pieces != [] && !pieces[0].Chars? && Holds(s, i, pieces, tail) && GT !in tail
    ensures TokensFrom(s, i, Escape(pending)) == TokensOf(pieces, pending, tail)
    decreases |pieces|, 1
  {
    hide TokensFrom, ReadTag, Escape, Holds;
    var piece := pieces[0];
    var j := i + |Render(piece)|;
    calc {
      TokensFrom(s, i, Escape(pending));
      { TagStep(p, open, s, i, pieces, Escape(pending), tail); }
      Flush(Escape(pending)) + [TokenOf(piece)] + TokensFrom(s, j, []);
      { RestAfterTag(p, open, s, i, pieces, tail); }
      Flush(Escape(pending)) + [TokenOf(piece)] + TokensOf(pieces[1..], [], tail);
      TokensOf(pieces, pending, tail);
    }
  }

  lemma TagStep(p: Profile, open: seq<Text>, s: Text, i: nat, pieces: seq<Piece>, text: Text, tail: Text)
    requires ValidProfile(p) && TagNames(open) && Runs(p, open, pieces)
    requires pieces != [] && !pieces[0].Chars? && Holds(s, i, pieces, tail)
    ensures i <= |s| && i + |Render(pieces[0])| <= |s|
    ensures TokensFrom(s, i, text) == Flush(text) + [TokenOf(pieces[0])] + TokensFrom(s, i + |Render(pieces[0])|, [])
  {
    hide TokensFrom, ReadTag, Render, Runs, StackAfter, TagNames, ValidProfile, TokenOf, IsTagName;
    FirstPiece(p, open, pieces);
    SplitRendering(s, i, pieces, tail);
    TagPieceReadsBack(s, i, pieces[0]);
    TagIsOneToken(s, i, text, Read(TokenOf(pieces[0]), i + |Render(pieces[0])|));
  }

  lemma RestAfterTag(p: Profile, open: seq<Text>, s: Text, i: nat, pieces: seq<Piece>, tail: Text)
    requires ValidProfile(p) && TagNames(open) && Runs(p, open, pieces)
    requires pieces != [] && !pieces[0].Chars? && Holds(s, i, pieces, tail) && GT !in tail
    ensures i + |Render(pieces[0])| <= |s|
    ensures TokensFrom(s, i + |Render(pieces[0])|, []) == TokensOf(pieces[1..], [], tail)
    decreases |pieces|, 0
  {
    hide TokensFrom, TokensOf, Render, Runs, StackAfter, TagNames, ValidProfile;
    FirstPiece(p, open, pieces);
    SplitRendering(s, i, pieces, tail);
    Retokenize(p, StackAfter(p, open, pieces[0]), s, i + |Render(pieces[0])|, pieces[1..], [], tail);
  }

  // ---------------------------------------------------------------- and is emitted again

  lemma {:induction false} RenderConcat(a: seq<Piece>, b: seq<Piece>)
    ensures RenderAll(a + b) == RenderAll(a) + RenderAll(b)
  {
    hide Render;
    if a == [] {
      assert a + b == b;
    } else {
      calc {
        RenderAll(a + b);
        { assert (a + b)[1..] == a[1..] + b; }
        Render(a[0]) + RenderAll(a[1..] + b);
        { RenderConcat(a[1..], b); }
        Render(a[0]) + (RenderAll(a[1..]) + RenderAll(b));
        { Concat3(Render(a[0]), RenderAll(a[1..]), RenderAll(b)); }
        RenderAll(a) + RenderAll(b);
      }
    }
  }

  lemma PiecesOfCons(p: Profile, open: seq<Text>, token: Token, tail: seq<Token>)
    ensures var (out, stack) := Emit(p, open, token);
            RenderAll(Pieces(p, open, [token] + tail)) == RenderAll(out) + RenderAll(Pieces(p, stack, tail))
  {
    var (out, stack) := Emit(p, open, token);
    assert ([token] + tail)[1..] == tail;
    RenderConcat(out, Pieces(p, stack, tail));
  }

  /** Escaped text is decoded and escaped back to itself; other text after it is shown as it decodes. */
  lemma FlushedTextIsKept(p: Profile, open: seq<Text>, pending: Text, raw: Text, tail: seq<Token>)
    requires ValidProfile(p)
    ensures RenderAll(Pieces(p, open, Flush(Escape(pending) + raw) + tail)) ==
            Escape(pending) + Escape(Decode(p.names, raw)) + RenderAll(Pieces(p, open, tail))
  {
    var text := Escape(pending) + raw;
    if text == [] {
      assert Flush(text) + tail == tail;
      assert raw == [] && Escape(pending) == [];
    } else {
      var shown := Chars(pending + Decode(p.names, raw));
      DecodeAfterEscape(p.names, pending, raw);
      PiecesOfCons(p, open, Words(text), tail);
      assert RenderAll([shown]) == Escape(shown.text);
      EscapeConcat(pending, Decode(p.names, raw));
    }
  }

  /** An emitted tag is allowed again, and closes or opens the same element. */
  lemma TagIsEmittedAgain(p: Profile, open: seq<Text>, pieces: seq<Piece>)
    requires ValidProfile(p) && pieces != [] && !pieces[0].Chars? && Runs(p, open, pieces)
    ensures Emit(p, open, TokenOf(pieces[0])) == ([pieces[0]], StackAfter(p, open, pieces[0]))
  {
    match pieces[0]
    case Opens(name) =>
    case Link(href) =>
      LinkItemsArePlain(href);
      SafeUrlOfEscaped(p.names, href);
    case Closes(name) =>
      assert LastIndex(open, name) == Some(|open| - 1);
      assert CloseDownTo(open, |open| - 1) == [Closes(name)];
  }

  /** What a second pass adds: the text after the pieces as it decodes, then whatever is still open. */
  function Remainder(p: Profile, open: seq<Text>, tail: Text): Text {
    Escape(Decode(p.names, tail)) + RenderAll(CloseDownTo(open, 0))
  }

  lemma {:induction false} Resanitize(p: Profile, open: seq<Text>, pieces: seq<Piece>, pending: Text, tail: Text)
    requires ValidProfile(p) && TagNames(open) && Runs(p, open, pieces)
    ensures RenderAll(Pieces(p, open, TokensOf(pieces, pending, tail))) ==
            Escape(pending) + (RenderAll(pieces) + Remainder(p, StackThrough(p, open, pieces), tail))
    decreases |pieces|
  {
    if pieces == [] {
      assert Flush(Escape(pending) + tail) + [] == Flush(Escape(pending) + tail);
      FlushedTextIsKept(p, open, pending, tail, []);
      var closers := RenderAll(CloseDownTo(open, 0));
      Concat3(Escape(pending), Escape(Decode(p.names, tail)), closers);
      assert [] + Remainder(p, open, tail) == Remainder(p, open, tail);
    } else {
      var piece, rest := pieces[0], pieces[1..];
      FirstPiece(p, open, pieces);
      if piece.Chars? {
        var after := Remainder(p, StackThrough(p, open, rest), tail);
        Resanitize(p, open, rest, pending + piece.text, tail);
        EscapeConcat(pending, piece.text);
        Concat3(Escape(pending), Escape(piece.text), RenderAll(rest) + after);
        Concat3(Escape(piece.text), RenderAll(rest), after);
      } else {
        ResanitizeTag(p, open, pieces, pending, tail);
      }
    }
  }

  lemma ResanitizeTag(p: Profile, open: seq<Text>, pieces: seq<Piece>, pending: Text, tail: Text)
    requires ValidProfile(p) && TagNames(open) && pieces != [] && !pieces[0].Chars? && Runs(p, open, pieces)
    ensures RenderAll(Pieces(p, open, TokensOf(pieces, pending, tail))) ==
            Escape(pending) + (RenderAll(pieces) + Remainder(p, StackThrough(p, open, pieces), tail))
    decreases |pieces|, 0
  {
    var rest := pieces[1..];
    var stack := StackAfter(p, open, pieces[0]);
    var tokens := TokensOf(rest, [], tail);
    TagThenTail(p, open, pieces, tokens);
    FirstPiece(p, open, pieces);
    Resanitize(p, stack, rest, [], tail);
    TagTokens(pieces, pending, tail);
    assert StackThrough(p, open, pieces) == StackThrough(p, stack, rest);
    DecodeNothing(p.names);
    hide *;
    var after := RenderAll(rest) + Remainder(p, StackThrough(p, stack, rest), tail);
    FlushedTextIsKept(p, open, pending, [], [TokenOf(pieces[0])] + tokens);
    assert Escape(pending) + [] == Escape(pending);
    assert [] + after == after;
    Concat3(Render(pieces[0]), RenderAll(rest), Remainder(p, StackThrough(p, stack, rest), tail));
  }

  lemma DecodeNothing(names: Names)
    ensures Decode(names, []) == [] && Escape([]) == []
  {
  }

  lemma TagTokens(pieces: seq<Piece>, pending: Text, tail: Text)
    requires pieces != [] && !pieces[0].Chars?
    ensures TokensOf(pieces, pending, tail) == Flush(Escape(pending)) + ([TokenOf(pieces[0])] + TokensOf(pieces[1..], [], tail))
    ensures RenderAll(pieces) == Render(pieces[0]) + RenderAll(pieces[1..])
    ensures Escape([]) == []
  {
    hide Render, TokenOf, Flush;
    Concat3(Flush(Escape(pending)), [TokenOf(pieces[0])], TokensOf(pieces[1..], [], tail));
  }

  lemma TagThenTail(p: Profile, open: seq<Text>, pieces: seq<Piece>, tail: seq<Token>)
    requires ValidProfile(p) && pieces != [] && !pieces[0].Chars? && Runs(p, open, pieces)
    ensures RenderAll(Pieces(p, open, [TokenOf(pieces[0])] + tail)) ==
            Render(pieces[0]) + RenderAll(Pieces(p, StackAfter(p, open, pieces[0]), tail))
  {
    assert RenderAll([pieces[0]]) == Render(pieces[0]);
    TagIsEmittedAgain(p, open, pieces);
    hide Pieces, Render, Emit, TokenOf, Runs, StackAfter, RenderAll;
    PiecesOfCons(p, open, TokenOf(pieces[0]), tail);
  }

  /** What sanitizing makes of any text that fits the cap, is a rendered list as far as it goes, and then
      goes on without ending a tag. */
  lemma SanitizeUnfinished(p: Profile, pieces: seq<Piece>, tail: Text)
    requires ValidProfile(p) && Runs(p, [], pieces) && GT !in tail && |RenderAll(pieces) + tail| <= p.maxLength
    ensures Sanitize(p, RenderAll(pieces) + tail) == RenderAll(pieces) + Remainder(p, StackThrough(p, [], pieces), tail)
  {
    hide Pieces, TokensFrom, TokensOf, RenderAll, Remainder, Escape;
    var s := RenderAll(pieces) + tail;
    assert s[0..] == s;
    DecodeNothing(p.names);
    Retokenize(p, [], s, 0, pieces, [], tail);
    Resanitize(p, [], pieces, [], tail);
    var all := RenderAll(pieces) + Remainder(p, StackThrough(p, [], pieces), tail);
    assert [] + all == all;
  }

  lemma OutputRuns(p: Profile, input: Text)
    ensures Runs(p, [], SanitizedPieces(p, input)) && StackThrough(p, [], SanitizedPieces(p, input)) == []
  {
    PiecesAreWellFormed(p, [], Tokenize(Cut(p, input)));
    WellFormedRuns(p, [], SanitizedPieces(p, input));
  }

  /** The output, read by the same tokenizer, is exactly the pieces that were emitted: every allowed
      tag comes back as itself and everything between the tags is one escaped text. */
  lemma OutputReadsBack(p: Profile, input: Text)
    requires ValidProfile(p)
    ensures Tokenize(Sanitize(p, input)) == TokensOf(SanitizedPieces(p, input), [], [])
  {
    var pieces := SanitizedPieces(p, input);
    OutputRuns(p, input);
    var s := RenderAll(pieces);
    assert s[0..] == s && s + [] == s;
    Retokenize(p, [], s, 0, pieces, [], []);
  }

  /** Sanitizing twice is sanitizing once, for every string, whenever the first output fits the cap. */
  lemma SanitizeIsIdempotent(p: Profile, input: Text)
    requires ValidProfile(p) && |Sanitize(p, input)| <= p.maxLength
    ensures Sanitize(p, Sanitize(p, input)) == Sanitize(p, input)
  {
    var pieces := SanitizedPieces(p, input);
    OutputRuns(p, input);
    assert RenderAll(pieces) + [] == RenderAll(pieces);
    SanitizeUnfinished(p, pieces, []);
    assert Remainder(p, [], []) == [];
  }

  // ---------------------------------------------------------------- why the output must fit

  function Ampersands(n: nat): (t: Text)
    ensures |t| == n && forall i :: 0 <= i < n ==> t[i] == AMP
  {
    seq(n, _ => AMP)
  }

  lemma {:induction false} AmpersandsDecode(names: Names, n: nat)
    ensures Decode(names, Ampersands(n)) == Ampersands(n)
  {
    if n > 0 {
      AmpersandsDecode(names, n - 1);
      assert Ampersands(n)[1..] == Ampersands(n - 1);
      assert [AMP] + Ampersands(n - 1) == Ampersands(n);
    }
  }

  lemma {:induction false} AmpersandsEscape(n: nat)
    ensures |Escape(Ampersands(n))| == 5 * n
    ensures forall k :: 0 <= k <= n ==> Escape(Ampersands(n))[..5 * k] == Escape(Ampersands(k))
  {
    if n > 0 {
      AmpersandsEscape(n - 1);
      var rest := Escape(Ampersands(n - 1));
      assert Ampersands(n)[1..] == Ampersands(n - 1);
      assert Escape(Ampersands(n)) == Lit("&amp;") + rest;
      forall k | 0 <= k <= n
        ensures Escape(Ampersands(n))[..5 * k] == Escape(Ampersands(k))
      {
        if k > 0 {
          assert Ampersands(k)[1..] == Ampersands(k - 1);
          assert (Lit("&amp;") + rest)[..5 * k] == Lit("&amp;") + rest[..5 * (k - 1)];
        }
      }
    }
  }

  lemma PlainTextIsOneToken(text: Text)
    requires text != [] && LT !in text
    ensures Tokenize(text) == [Words(text)]
  {
    assert text[0..|text|] == text;
    TextAccumulates(text, 0, |text|, []);
    assert [] + text == text;
  }

  lemma SanitizedPlainText(p: Profile, text: Text)
    requires text != [] && LT !in text && |text| <= p.maxLength
    ensures Sanitize(p, text) == Escape(Decode(p.names, text))
  {
    PlainTextIsOneToken(text);
    PiecesOfCons(p, [], Words(text), []);
    assert [Words(text)] + [] == [Words(text)];
  }

  /** The hypothesis is needed: at either real cap a full-length run of ampersands grows fivefold,
      and the second pass cuts it back. */
  lemma TooLongOutputIsNotFixed(p: Profile, k: nat)
    requires ValidProfile(p) && k > 0 && p.maxLength == 5 * k
    ensures var once := Sanitize(p, Ampersands(p.maxLength));
            |once| == 5 * p.maxLength && |Sanitize(p, once)| == p.maxLength && Sanitize(p, once) != once
  {
    var input := Ampersands(p.maxLength);
    AmpersandsDecode(p.names, p.maxLength);
    SanitizedPlainText(p, input);
    AmpersandsEscape(p.maxLength);
    var once := Escape(input);
    var seen := once[..p.maxLength];
    assert seen == Escape(Ampersands(k));
    EscapeHasNoMarkup(Ampersands(k));
    SanitizedPlainText(p, seen);
    DecodeEscape(p.names, Ampersands(k));
    assert Cut(p, once) == seen && Cut(p, seen) == seen;
  }

  // ---------------------------------------------------------------- the loop of sanitizeHtml

  lemma CloseOneMore(open: seq<Text>, i: nat, depth: nat)
    requires depth < i <= |open|
    ensures RenderAll(CloseDownTo(open[..i], depth)) == Render(Closes(open[i - 1])) + RenderAll(CloseDownTo(open[..i - 1], depth))
  {
    assert open[..i][..i - 1] == open[..i - 1];
  }

  method CloseLoop(open: seq<Text>, depth: nat) returns (out: Text)
    requires depth <= |open|
    ensures out == RenderAll(CloseDownTo(open, depth))
  {
    hide Render;
    out := [];
    var i := |open|;
    assert open[..i] == open;
    while i > depth
      invariant depth <= i <= |open|
      invariant RenderAll(CloseDownTo(open, depth)) == out + RenderAll(CloseDownTo(open[..i], depth))
    {
      CloseOneMore(open, i, depth);
      Concat3(out, Render(Closes(open[i - 1])), RenderAll(CloseDownTo(open[..i - 1], depth)));
      out := out + Render(Closes(open[i - 1]));
      i := i - 1;
    }
  }

  /** One token of the main loop: what it appends and what stays open. */
  method EmitToken(p: Profile, open: seq<Text>, token: Token) returns (out: Text, stack: seq<Text>)
    ensures out == RenderAll(Emit(p, open, token).0)
    ensures stack == Emit(p, open, token).1
  {
    stack := open;
    match token {
      case Words(text) =>
        out := Escape(Decode(p.names, text));
      case StartTag(name, _, raw) =>
        var rendered := StartPiece(p, token);
        if rendered.None? {
          out := Escape(Decode(p.names, raw));
        } else {
          out := Render(rendered.value);
          if name !in p.voidTags {
            stack := stack + [name];
          }
        }
      case EndTag(name, raw) =>
        var depth := LastIndex(open, name);
        if depth.None? {
          out := Escape(Decode(p.names, raw));
        } else {
          out := CloseLoop(open, depth.value);
          stack := open[..depth.value];
        }
    }
  }

  /** sanitizeHtml: a missing or non-string input (None) is the empty string. */
  method SanitizeHtml(p: Profile, input: Option<Text>) returns (result: Text)
    ensures result == if input.None? then [] else Sanitize(p, input.value)
    ensures ValidProfile(p) && |result| <= p.maxLength ==> Sanitize(p, result) == result
  {
    if input.None? || input.value == [] {
      result := [];
      return;
    }
    hide Emit, Escape, Decode, TokensFrom, StartPiece;
    var tokens := TokenizeSource(Cut(p, input.value));
    var out: Text := [];
    var open: seq<Text> := [];
    for i := 0 to |tokens|
      invariant Sanitize(p, input.value) == out + RenderAll(Pieces(p, open, tokens[i..]))
    {
      assert tokens[i..] == [tokens[i]] + tokens[i + 1..];
      PiecesOfCons(p, open, tokens[i], tokens[i + 1..]);
      var piece, stack := EmitToken(p, open, tokens[i]);
      Concat3(out, piece, RenderAll(Pieces(p, stack, tokens[i + 1..])));
      out := out + piece;
      open := stack;
    }
    assert tokens[|tokens|..] == [];
    var closers := CloseLoop(open, 0);
    result := out + closers;
    if ValidProfile(p) && |result| <= p.maxLength {
      SanitizeIsIdempotent(p, input.value);
    }
  }
}
