/**
 The length cap of packages/shared-types/src/attribution-html.ts:163-170 and idempotence: which outputs
 longer than the cap are fixed points all the same, and how long an input may be for its output to fit.
 */
module HtmlCut {
  import opened Prelude
  import opened HtmlText
  import opened HtmlTokens
  import opened HtmlSanitizer
  import opened HtmlFixedPoint
  import opened Slices

  /** Nothing but end tags. */
  predicate EndTags(t: Text)
    decreases |t|
  {
    t == []
    || (UnitAt(t, 0, LT) && UnitAt(t, 1, SLASH)
        && var close := IndexFrom(t, GT, 0);
           close.Some? && EndTags(t[close.value + 1..]))
  }

  /** The text ends in `&amp;` and the first `m` letters of `amp`. */
  predicate EndsInAmpersand(t: Text, m: nat)
    requires m <= 3
  {
    |t| >= 5 + m && t[|t| - 5 - m..] == Lit("&amp;") + Lit("amp")[..m]
  }

  predicate RepeatsAmpersand(t: Text) {
    EndsInAmpersand(t, 0) || EndsInAmpersand(t, 1) || EndsInAmpersand(t, 2) || EndsInAmpersand(t, 3)
  }

  /** Cut there, the text loses nothing that a second pass would not put back: only whole end tags, or
      the rest of an escaped ampersand that is repeated by the letters after it, and end tags. */
  predicate IsSafeCut(t: Text, cap: nat)
    requires cap <= |t|
  {
    EndTags(t[cap..])
    || (cap + 4 <= |t| && EndTags(t[cap + 4..]) && RepeatsAmpersand(t[..cap + 4]))
  }

  // ---------------------------------------------------------------- one unit or one tag at a time

  predicate IsAtom(piece: Piece) {
    piece.Chars? ==> |piece.text| == 1
  }

  predicate Atoms(pieces: seq<Piece>) {
    forall k :: 0 <= k < |pieces| ==> IsAtom(pieces[k])
  }

  function Units(t: Text): (u: seq<Piece>)
    ensures Atoms(u)
  {
    if t == [] then [] else [Chars([t[0]])] + Units(t[1..])
  }

  function Explode(pieces: seq<Piece>): (e: seq<Piece>)
    ensures Atoms(e)
  {
    if pieces == [] then []
    else (if pieces[0].Chars? then Units(pieces[0].text) else [pieces[0]]) + Explode(pieces[1..])
  }

  lemma UnitRender(c: int)
    ensures Render(Chars([c])) == EscapeUnit(c)
  {
    assert [c] == [c] + [];
    EscapeCons(c, []);
  }

  lemma {:induction false} UnitsRender(t: Text)
    ensures RenderAll(Units(t)) == Escape(t)
  {
    hide Render, EscapeUnit;
    if t != [] {
      UnitRender(t[0]);
      UnitsRender(t[1..]);
    }
  }

  lemma {:induction false} UnitsRun(p: Profile, open: seq<Text>, t: Text)
    ensures Runs(p, open, Units(t)) && StackThrough(p, open, Units(t)) == open
  {
    if t != [] {
      UnitsRun(p, open, t[1..]);
    }
  }

  lemma {:induction false} RunsConcat(p: Profile, open: seq<Text>, a: seq<Piece>, b: seq<Piece>)
    ensures Runs(p, open, a + b) <==> Runs(p, open, a) && Runs(p, StackThrough(p, open, a), b)
    ensures StackThrough(p, open, a + b) == StackThrough(p, StackThrough(p, open, a), b)
    decreases |a|
  {
    hide Fits, StackAfter;
    if a == [] {
      assert a + b == b;
    } else {
      assert (a + b)[1..] == a[1..] + b;
      RunsConcat(p, StackAfter(p, open, a[0]), a[1..], b);
    }
  }

  lemma {:induction false} ExplodeKeeps(p: Profile, open: seq<Text>, pieces: seq<Piece>)
    ensures RenderAll(Explode(pieces)) == RenderAll(pieces)
    ensures Runs(p, open, Explode(pieces)) <==> Runs(p, open, pieces)
    ensures StackThrough(p, open, Explode(pieces)) == StackThrough(p, open, pieces)
    decreases |pieces|
  {
    if pieces != [] {
      var first := if pieces[0].Chars? then Units(pieces[0].text) else [pieces[0]];
      var rest := Explode(pieces[1..]);
      ExplodeKeeps(p, StackAfter(p, open, pieces[0]), pieces[1..]);
      FirstExplodes(p, open, pieces[0], first);
      hide Render, RenderAll, Units, Explode, Fits, StackAfter;
      RunsConcat(p, open, first, rest);
      RenderConcat(first, rest);
      RenderCons(pieces);
    }
  }

  lemma RenderCons(pieces: seq<Piece>)
    requires pieces != []
    ensures RenderAll(pieces) == Render(pieces[0]) + RenderAll(pieces[1..])
  {
  }

  lemma FirstExplodes(p: Profile, open: seq<Text>, piece: Piece, first: seq<Piece>)
    requires first == if piece.Chars? then Units(piece.text) else [piece]
    ensures RenderAll(first) == Render(piece)
    ensures Runs(p, open, first) <==> Fits(p, open, piece)
    ensures StackThrough(p, open, first) == StackAfter(p, open, piece)
  {
    if piece.Chars? {
      UnitsRender(piece.text);
      UnitsRun(p, open, piece.text);
    } else {
      assert first[1..] == [];
      assert RenderAll(first) == Render(piece) + [];
    }
  }

  lemma {:induction false} FindAtom(pieces: seq<Piece>, q: nat) returns (n: nat)
    requires q < |RenderAll(pieces)|
    ensures n < |pieces|
    ensures |RenderAll(pieces[..n])| <= q < |RenderAll(pieces[..n])| + |Render(pieces[n])|
    decreases |pieces|
  {
    hide Render;
    var first := |Render(pieces[0])|;
    if q < first {
      n := 0;
      assert pieces[..0] == [];
    } else {
      var k := FindAtom(pieces[1..], q - first);
      n := k + 1;
      assert pieces[..n][0] == pieces[0] && pieces[..n][1..] == pieces[1..][..k];
    }
  }

  // ---------------------------------------------------------------- tags and units as texts

  lemma {:induction false} AttributesHaveOneBracket(items: seq<(Text, Text)>)
    requires forall k :: 0 <= k < |items| ==> GT !in items[k].0 && LT !in items[k].0 && GT !in items[k].1 && LT !in items[k].1
    ensures var t := AttributeTexts(items);
            t != [] && t[|t| - 1] == GT && GT !in t[..|t| - 1] && LT !in t
  {
    if items != [] {
      AttributesHaveOneBracket(items[1..]);
      var rest := AttributeTexts(items[1..]);
      var first := AttributeText(items[0].0, items[0].1);
      assert (first + rest)[..|first| + |rest| - 1] == first + rest[..|rest| - 1];
    }
  }

  lemma LinkItemsHaveNoBracket(href: Text)
    ensures forall k :: 0 <= k < 3 ==>
              GT !in LinkItems(href)[k].0 && LT !in LinkItems(href)[k].0 && GT !in LinkItems(href)[k].1 && LT !in LinkItems(href)[k].1
  {
    EscapeHasNoMarkup(href);
  }

  predicate NamesATag(piece: Piece) {
    piece.Opens? || piece.Closes? ==> IsTagName(piece.name)
  }

  /** A tag begins with its only '<' and ends with its only '>'. */
  lemma TagBrackets(piece: Piece)
    requires !piece.Chars? && NamesATag(piece)
    ensures var t := Render(piece);
            && |t| >= 3 && t[0] == LT && LT !in t[1..] && t[|t| - 1] == GT && GT !in t[..|t| - 1]
            && (if piece.Closes? then t[1] == SLASH else t[1] != SLASH)
  {
    match piece
    case Opens(name) =>
      TagTextBrackets(name, []);
    case Link(href) =>
      LinkItemsHaveNoBracket(href);
      TagTextBrackets(A, LinkItems(href));
    case Closes(name) =>
      NameHasNoBracket(name);
      assert Render(piece)[1..] == [SLASH] + name + [GT];
      assert Render(piece)[..|name| + 2] == [LT, SLASH] + name;
  }

  lemma NameHasNoBracket(name: Text)
    requires IsTagName(name)
    ensures GT !in name && LT !in name && name[0] != SLASH
  {
  }

  lemma TagTextBrackets(name: Text, items: seq<(Text, Text)>)
    requires IsTagName(name)
    requires forall k :: 0 <= k < |items| ==> GT !in items[k].0 && LT !in items[k].0 && GT !in items[k].1 && LT !in items[k].1
    ensures var t := TagText(name, items);
            |t| >= 3 && t[0] == LT && LT !in t[1..] && t[|t| - 1] == GT && GT !in t[..|t| - 1] && t[1] != SLASH
  {
    NameHasNoBracket(name);
    AttributesHaveOneBracket(items);
    var rest := AttributeTexts(items);
    var t := TagText(name, items);
    hide AttributeTexts;
    assert t[1..] == name + rest;
    assert t[..|t| - 1] == [LT] + (name + rest[..|rest| - 1]);
  }

  /** Escaped units are text without brackets, with '&' only in front, and none is the start of another. */
  lemma UnitShape(c: int)
    ensures var e := EscapeUnit(c);
            && LT !in e && GT !in e && (forall k :: 1 <= k < |e| ==> e[k] != AMP)
            && (|e| > 1 ==> e[0] == AMP && e[|e| - 1] == SEMI && SEMI !in e[..|e| - 1])
            && (|e| == 1 ==> e == [c] && c != AMP)
            && (|e| >= 2 && e[1] == 'a' as int ==> c == AMP && e == Lit("&amp;"))
  {
  }

  // ---------------------------------------------------------------- end tags and closers

  lemma {:induction false} ClosersAreEndTags(open: seq<Text>)
    requires TagNames(open)
    ensures EndTags(RenderAll(CloseDownTo(open, 0)))
    decreases |open|
  {
    if open != [] {
      var inner := open[..|open| - 1];
      ClosersAreEndTags(inner);
      EndTagFirst(Last(open), RenderAll(CloseDownTo(inner, 0)));
    }
  }

  lemma EndTagFirst(name: Text, rest: Text)
    requires IsTagName(name)
    ensures var t := Render(Closes(name)) + rest;
            && UnitAt(t, 0, LT) && UnitAt(t, 1, SLASH) && IndexFrom(t, GT, 0) == Some(|Render(Closes(name))| - 1)
            && t[|Render(Closes(name))|..] == rest
            && (EndTags(t) <==> EndTags(rest))
  {
    TagBrackets(Closes(name));
    var tag := Render(Closes(name));
    var t := tag + rest;
    hide Render;
    forall k | 0 <= k < |tag| - 1 ensures t[k] != GT {
      assert t[k] == tag[..|tag| - 1][k];
    }
    IndexIs(t, GT, 0, |tag| - 1);
  }

  /** A well-formed rest that reads as end tags is exactly what closes the open elements. */
  lemma {:induction false} EndTagsAreClosers(p: Profile, open: seq<Text>, pieces: seq<Piece>)
    requires ValidProfile(p) && TagNames(open) && Atoms(pieces)
    requires Runs(p, open, pieces) && StackThrough(p, open, pieces) == []
    requires EndTags(RenderAll(pieces))
    ensures RenderAll(pieces) == RenderAll(CloseDownTo(open, 0))
    decreases |pieces|
  {
    if pieces != [] {
      hide Render, Fits;
      var piece, rest := pieces[0], pieces[1..];
      FirstPiece(p, open, pieces);
      AtomStarts(piece);
      if piece.Closes? {
        ClosesTheLast(p, open, piece);
        EndTagFirst(piece.name, RenderAll(rest));
        EndTagsAreClosers(p, open[..|open| - 1], rest);
      }
    }
  }

  lemma ClosesTheLast(p: Profile, open: seq<Text>, piece: Piece)
    requires piece.Closes? && Fits(p, open, piece)
    ensures open != [] && piece == Closes(Last(open))
  {
  }

  lemma AtomStarts(piece: Piece)
    requires IsAtom(piece) && NamesATag(piece)
    ensures Render(piece) != []
    ensures piece.Chars? ==> Render(piece)[0] != LT
    ensures !piece.Chars? ==> Render(piece)[0] == LT && |Render(piece)| >= 3 && (piece.Closes? <==> Render(piece)[1] == SLASH)
  {
    if piece.Chars? {
      assert piece == Chars([piece.text[0]]);
      UnitRender(piece.text[0]);
      UnitShape(piece.text[0]);
    } else {
      TagBrackets(piece);
    }
  }

  predicate PlainUnit(c: int) {
    c != AMP && !Markup(c)
  }

  lemma WordStep(piece: Piece, after: Text, word: Text, rest: Text)
    requires IsAtom(piece) && NamesATag(piece) && word != [] && PlainUnit(word[0])
    requires Render(piece) + after == word + rest
    ensures piece == Chars([word[0]]) && after == word[1..] + rest
  {
    AtomStarts(piece);
    assert (Render(piece) + after)[0] == word[0];
    if piece.Chars? {
      assert piece == Chars([piece.text[0]]);
      UnitRender(piece.text[0]);
      UnitShape(piece.text[0]);
      hide Render, EscapeUnit;
      assert Render(piece) == [word[0]];
      assert after == ([word[0]] + after)[1..] == (word + rest)[1..] == word[1..] + rest;
    }
  }

  /** The same behind a plain word: the word is text, and the rest closes the open elements. */
  lemma {:induction false} WordThenEndTags(p: Profile, open: seq<Text>, pieces: seq<Piece>, word: Text, rest: Text)
    requires ValidProfile(p) && TagNames(open) && Atoms(pieces)
    requires Runs(p, open, pieces) && StackThrough(p, open, pieces) == []
    requires RenderAll(pieces) == word + rest && EndTags(rest) && forall c :: c in word ==> PlainUnit(c)
    ensures rest == RenderAll(CloseDownTo(open, 0))
    decreases |word|
  {
    hide EndTags, Render, PlainUnit, Fits;
    if word == [] {
      assert word + rest == rest;
      EndTagsAreClosers(p, open, pieces);
    } else {
      assert word[0] in word && |RenderAll(pieces)| > 0;
      FirstPiece(p, open, pieces);
      RenderCons(pieces);
      WordStep(pieces[0], RenderAll(pieces[1..]), word, rest);
      WordThenEndTags(p, open, pieces[1..], word[1..], rest);
    }
  }

  // ---------------------------------------------------------------- what a cut leaves

  /** The cap falls into atom `n`, after its first `|head|` units. */
  ghost predicate CutsAt(pieces: seq<Piece>, cap: nat, n: nat, head: Text) {
    && n < |pieces| && |head| < |Render(pieces[n])| && head == Render(pieces[n])[..|head|]
    && cap == |RenderAll(pieces[..n])| + |head|
  }

  lemma SplitHere(pieces: seq<Piece>, n: nat)
    requires n < |pieces|
    ensures RenderAll(pieces) == RenderAll(pieces[..n]) + (Render(pieces[n]) + RenderAll(pieces[n + 1..]))
    ensures RenderAll(pieces[n..]) == Render(pieces[n]) + RenderAll(pieces[n + 1..])
  {
    hide Render;
    assert pieces == pieces[..n] + pieces[n..];
    RenderConcat(pieces[..n], pieces[n..]);
    assert pieces[n..][1..] == pieces[n + 1..];
  }

  lemma {:induction false} RunningStack(p: Profile, open: seq<Text>, pieces: seq<Piece>)
    requires ValidProfile(p) && TagNames(open) && Runs(p, open, pieces)
    ensures TagNames(StackThrough(p, open, pieces))
    ensures forall k :: 0 <= k < |pieces| ==> NamesATag(pieces[k])
    decreases |pieces|
  {
    if pieces != [] {
      FirstPiece(p, open, pieces);
      RunningStack(p, StackAfter(p, open, pieces[0]), pieces[1..]);
      forall k | 0 <= k < |pieces| ensures NamesATag(pieces[k]) {
        assert k > 0 ==> pieces[k] == pieces[1..][k - 1];
      }
    }
  }

  lemma HeadHasNoBracket(piece: Piece, head: Text)
    requires IsAtom(piece) && NamesATag(piece) && |head| < |Render(piece)| && head == Render(piece)[..|head|]
    ensures GT !in head
  {
    var t := Render(piece);
    if piece.Chars? {
      assert piece == Chars([piece.text[0]]);
      UnitRender(piece.text[0]);
      UnitShape(piece.text[0]);
    } else {
      TagBrackets(piece);
      assert head == t[..|t| - 1][..|head|];
    }
  }

  lemma RunsToTheCut(p: Profile, pieces: seq<Piece>, n: nat)
    requires ValidProfile(p) && Runs(p, [], pieces) && n < |pieces|
    ensures Runs(p, [], pieces[..n]) && Runs(p, StackThrough(p, [], pieces[..n]), pieces[n..])
    ensures StackThrough(p, [], pieces) == StackThrough(p, StackThrough(p, [], pieces[..n]), pieces[n..])
    ensures TagNames(StackThrough(p, [], pieces[..n])) && NamesATag(pieces[n])
  {
    assert pieces == pieces[..n] + pieces[n..];
    hide Runs, StackThrough;
    RunsConcat(p, [], pieces[..n], pieces[n..]);
    RunningStack(p, [], pieces);
    RunningStack(p, [], pieces[..n]);
  }

  /** The second pass over an overlong output gives the part before the cut, the cut atom's head as
      text, and the closers. */
  lemma CutOutput(p: Profile, pieces: seq<Piece>, n: nat, head: Text)
    requires ValidProfile(p) && Atoms(pieces) && Runs(p, [], pieces) && CutsAt(pieces, p.maxLength, n, head)
    ensures Sanitize(p, RenderAll(pieces)) == RenderAll(pieces[..n]) + Remainder(p, StackThrough(p, [], pieces[..n]), head)
    ensures Runs(p, [], pieces[..n]) && Runs(p, StackThrough(p, [], pieces[..n]), pieces[n..])
    ensures StackThrough(p, [], pieces) == StackThrough(p, StackThrough(p, [], pieces[..n]), pieces[n..])
    ensures TagNames(StackThrough(p, [], pieces[..n])) && NamesATag(pieces[n])
  {
    hide Render, RenderAll, Remainder, Runs, StackThrough, Sanitize, ValidProfile, TagNames;
    RunsToTheCut(p, pieces, n);
    HeadHasNoBracket(pieces[n], head);
    SplitHere(pieces, n);
    var seen := RenderAll(pieces[..n]) + head;
    TakeInto(RenderAll(pieces[..n]), Render(pieces[n]), RenderAll(pieces[n + 1..]), head);
    SanitizeUnfinished(p, pieces[..n], head);
    SameCut(p, RenderAll(pieces), seen);
  }

  lemma TakeInto(before: Text, piece: Text, rest: Text, head: Text)
    requires |head| < |piece| && head == piece[..|head|]
    ensures var y := before + (piece + rest);
            |before| + |head| < |y| && y[..|before| + |head|] == before + head
  {
  }

  lemma SameCut(p: Profile, long: Text, seen: Text)
    requires |long| > p.maxLength && long[..p.maxLength] == seen
    ensures Sanitize(p, long) == Sanitize(p, seen)
  {
    hide Pieces, Tokenize, RenderAll;
    assert Cut(p, long) == seen && Cut(p, seen) == seen;
  }

  /** A cut inside a tag shows the tag's start as text. */
  lemma CutInTagShows(p: Profile, open: seq<Text>, piece: Piece, rest: Text, head: Text)
    requires !piece.Chars? && NamesATag(piece) && head != [] && |head| < |Render(piece)| && head == Render(piece)[..|head|]
    ensures Remainder(p, open, head) != Render(piece) + rest
  {
    TagBrackets(piece);
    var tag := Render(piece);
    hide Render, CloseDownTo, RenderAll;
    assert head[0] == LT && head == [LT] + head[1..];
    DecodePlainUnit(p.names, LT, head[1..]);
    EscapeCons(LT, Decode(p.names, head[1..]));
    assert EscapeUnit(LT)[0] == AMP;
    assert (tag + rest)[0] == LT;
  }

  /** Inside an atom nothing starts an end tag. */
  lemma InsideAtom(piece: Piece, rest: Text, at: nat)
    requires IsAtom(piece) && NamesATag(piece) && 0 < at < |Render(piece)|
    ensures !EndTags((Render(piece) + rest)[at..])
  {
    var t := Render(piece);
    if piece.Chars? {
      assert piece == Chars([piece.text[0]]);
      UnitRender(piece.text[0]);
      UnitShape(piece.text[0]);
    } else {
      TagBrackets(piece);
      assert t[at] == t[1..][at - 1];
    }
    hide Render;
    assert (t + rest)[at..][0] == t[at];
    assert t[at] in t;
  }

  /** A stretch without '>' that begins inside a tag ends inside it. */
  lemma TagGoesOn(piece: Piece, rest: Text, from: nat, to: nat)
    requires !piece.Chars? && NamesATag(piece) && from < |Render(piece)| && from <= to <= |Render(piece) + rest|
    ensures GT !in (Render(piece) + rest)[from..to] ==> to < |Render(piece)|
  {
    TagBrackets(piece);
    var tag := Render(piece);
    hide Render;
    assert to >= |tag| ==> (tag + rest)[from..to][|tag| - 1 - from] == tag[|tag| - 1];
  }

  /** A cut inside an escaped unit shows its head as text again. */
  lemma CutInUnit(p: Profile, open: seq<Text>, c: int, rest: Text, head: Text)
    requires TagNames(open) && head != [] && |head| < |EscapeUnit(c)| && head == EscapeUnit(c)[..|head|]
    ensures Remainder(p, open, head) == EscapeUnit(c) + rest <==>
            c == AMP && rest == head[1..] + RenderAll(CloseDownTo(open, 0))
  {
    UnitShape(c);
    var unit, closers := EscapeUnit(c), RenderAll(CloseDownTo(open, 0));
    HeadIsLiteral(p.names, c, head);
    hide RenderAll, CloseDownTo, EscapeUnit, Decode;
    assert Remainder(p, open, head) == (Lit("&amp;") + head[1..]) + closers;
    Concat3(Lit("&amp;"), head[1..], closers);
    if Remainder(p, open, head) == unit + rest {
      assert (unit + rest)[1] == 'a' as int;
      assert unit == Lit("&amp;");
      assert rest == (unit + rest)[5..] == head[1..] + closers;
    }
    if c == AMP && rest == head[1..] + closers {
      assert unit == Lit("&amp;") by { AmpUnit(); }
    }
  }

  lemma AmpUnit()
    ensures EscapeUnit(AMP) == Lit("&amp;")
  {
  }

  /** An unfinished reference stays as it is; only its '&' is escaped. */
  lemma HeadIsLiteral(names: Names, c: int, head: Text)
    requires head != [] && |head| < |EscapeUnit(c)| && head == EscapeUnit(c)[..|head|]
    ensures Decode(names, head) == head && Escape(head) == Lit("&amp;") + head[1..]
  {
    UnitShape(c);
    assert head == [AMP] + head[1..];
    assert SEMI !in head;
    assert ReferenceLength(head) == 0;
    PlainDecodes(names, head[1..]);
    EscapeCons(AMP, head[1..]);
    UnitTailIsPlain(c);
    PlainEscapes(head[1..]);
  }

  lemma UnitTailIsPlain(c: int)
    ensures forall d :: d in EscapeUnit(c)[1..] ==> PlainUnit(d)
  {
  }

  lemma {:induction false} PlainDecodes(names: Names, t: Text)
    requires AMP !in t
    ensures Decode(names, t) == t
    decreases |t|
  {
    if t != [] {
      assert t[0] in t;
      PlainDecodes(names, t[1..]);
      assert t == [t[0]] + t[1..];
    }
  }

  lemma {:induction false} PlainEscapes(t: Text)
    requires forall d :: d in t ==> PlainUnit(d)
    ensures Escape(t) == t
    decreases |t|
  {
    if t != [] {
      assert t[0] in t;
      PlainEscapes(t[1..]);
      assert t == [t[0]] + t[1..];
    }
  }

  // ---------------------------------------------------------------- the exact condition

  lemma DropInto(before: Text, after: Text, k: nat)
    requires k <= |after|
    ensures (before + after)[|before| + k..] == after[k..]
  {
  }

  lemma AtTheCut(pieces: seq<Piece>, cap: nat, n: nat, head: Text)
    requires CutsAt(pieces, cap, n, head)
    ensures cap < |RenderAll(pieces)|
    ensures RenderAll(pieces)[cap..] == (Render(pieces[n]) + RenderAll(pieces[n + 1..]))[|head|..]
  {
    SplitHere(pieces, n);
    hide Render, RenderAll;
    DropInto(RenderAll(pieces[..n]), Render(pieces[n]) + RenderAll(pieces[n + 1..]), |head|);
  }

  lemma FixedByDefinition(y: Text, before: Text, after: Text, remainder: Text, out: Text)
    requires y == before + after && out == before + remainder
    ensures out == y <==> remainder == after
  {
    if out == y {
      assert remainder == out[|before|..] && after == y[|before|..];
    }
  }

  /** A fixed overlong output is cut safely. */
  lemma FixedIsSafe(p: Profile, pieces: seq<Piece>, n: nat, head: Text)
    requires ValidProfile(p) && Atoms(pieces) && Runs(p, [], pieces) && CutsAt(pieces, p.maxLength, n, head)
    requires p.maxLength < |RenderAll(pieces)|
    requires Sanitize(p, RenderAll(pieces)) == RenderAll(pieces)
    ensures IsSafeCut(RenderAll(pieces), p.maxLength)
  {
    var cap, piece := p.maxLength, pieces[n];
    var open := StackThrough(p, [], pieces[..n]);
    CutOutput(p, pieces, n, head);
    SplitHere(pieces, n);
    AtTheCut(pieces, cap, n, head);
    var y, before, rest := RenderAll(pieces), RenderAll(pieces[..n]), RenderAll(pieces[n + 1..]);
    FixedByDefinition(y, before, Render(piece) + rest, Remainder(p, open, head), Sanitize(p, y));
    ClosersAreEndTags(open);
    if head == [] {
      EmptyRemainder(p, open);
      assert y[cap..] == Render(piece) + rest;
    } else if piece.Chars? {
      assert piece == Chars([piece.text[0]]);
      UnitRender(piece.text[0]);
      CutInUnit(p, open, piece.text[0], rest, head);
      AmpUnit();
      SafeInAmpersand(y, before, head, RenderAll(CloseDownTo(open, 0)), cap);
    } else {
      CutInTagShows(p, open, piece, rest, head);
    }
  }

  lemma EmptyRemainder(p: Profile, open: seq<Text>)
    ensures Remainder(p, open, []) == RenderAll(CloseDownTo(open, 0))
  {
    DecodeNothing(p.names);
    assert [] + RenderAll(CloseDownTo(open, 0)) == RenderAll(CloseDownTo(open, 0));
  }

  lemma EndsWithRepeat(before: Text, m: nat)
    requires m <= 3
    ensures EndsInAmpersand(before + (Lit("&amp;") + Lit("amp")[..m]), m)
  {
    var word := Lit("&amp;") + Lit("amp")[..m];
    assert (before + word)[|before|..] == word;
  }

  lemma SafeInAmpersand(y: Text, before: Text, head: Text, closers: Text, cap: nat)
    requires 0 < |head| < 5 && head == Lit("&amp;")[..|head|] && cap == |before| + |head|
    requires y == before + (Lit("&amp;") + (head[1..] + closers)) && EndTags(closers)
    ensures cap <= |y| && IsSafeCut(y, cap)
  {
    var m := |head| - 1;
    LettersOfAmp(m);
    EndsWithRepeat(before, m);
    hide EndTags, EndsInAmpersand;
    var shown := before + (Lit("&amp;") + head[1..]);
    assert y == shown + closers;
    assert y[..cap + 4] == shown && y[cap + 4..] == closers;
  }

  lemma AmpersandIsItsUnit(piece: Piece, rest: Text, off: nat, to: nat)
    requires IsAtom(piece) && NamesATag(piece) && off < |Render(piece)|
    requires off + 1 < to <= |Render(piece) + rest|
    requires var after := Render(piece) + rest;
             after[off] == AMP && after[off + 1] == 'a' as int && GT !in after[off..to] && EndTags(after[to..])
    ensures piece == Chars([AMP]) && off == 0
  {
    var after := Render(piece) + rest;
    if piece.Chars? {
      assert piece == Chars([piece.text[0]]);
      UnitRender(piece.text[0]);
      UnitShape(piece.text[0]);
      var unit := EscapeUnit(piece.text[0]);
      assert after[off] == unit[off];
    } else {
      TagGoesOn(piece, rest, off, to);
      InsideAtom(piece, rest, to);
    }
  }

  /** The text after that unit. */
  lemma AfterTheUnit(before: Text, rest: Text, y: Text, m: nat)
    requires m <= 3 && y == before + (Lit("&amp;") + rest) && |before| + 5 + m <= |y|
    requires EndsInAmpersand(y[..|before| + 5 + m], m)
    ensures rest == Lit("amp")[..m] + y[|before| + 5 + m..]
  {
    var to := |before| + 5 + m;
    var word := Lit("&amp;") + Lit("amp")[..m];
    assert y[..to][|before|..] == word;
    assert forall k :: 0 <= k < m ==> rest[k] == y[..to][|before|..][5 + k] == word[5 + k] == Lit("amp")[k];
    assert rest[..m] == Lit("amp")[..m];
    assert rest[m..] == y[to..];
  }

  lemma AmpersandSlice(y: Text, cap: nat, m: nat)
    requires m <= 3 && cap + 4 <= |y| && EndsInAmpersand(y[..cap + 4], m)
    ensures m + 1 <= cap && y[cap - m - 1] == AMP && y[cap - m] == 'a' as int && GT !in y[cap - m - 1..cap + 4]
  {
    var word := Lit("&amp;") + Lit("amp")[..m];
    assert y[..cap + 4][cap - m - 1..] == y[cap - m - 1..cap + 4] == word;
    assert word[0] == AMP && word[1] == 'a' as int && GT !in word;
    assert y[cap - m - 1] == word[0] && y[cap - m] == word[1];
  }

  lemma SliceBehind(before: Text, after: Text, y: Text, at: nat, to: nat)
    requires y == before + after && |before| <= at && at + 1 < to <= |y|
    ensures to <= |before| + |after|
    ensures after[at - |before|] == y[at] && after[at + 1 - |before|] == y[at + 1]
    ensures after[at - |before|..to - |before|] == y[at..to] && after[to - |before|..] == y[to..]
  {
  }

  lemma RepeatInParts(y: Text, before: Text, piece: Piece, rest: Text, cap: nat, m: nat)
    requires IsAtom(piece) && NamesATag(piece) && m <= 3 && y == before + (Render(piece) + rest)
    requires |before| <= cap - m - 1 < |before| + |Render(piece)|
    requires cap + 4 <= |y| && EndTags(y[cap + 4..]) && EndsInAmpersand(y[..cap + 4], m)
    ensures piece == Chars([AMP]) && cap == |before| + m + 1
  {
    hide *;
    AmpersandSlice(y, cap, m);
    SliceBehind(before, Render(piece) + rest, y, cap - m - 1, cap + 4);
    AmpersandIsItsUnit(piece, rest, cap - m - 1 - |before|, cap + 4 - |before|);
  }

  /** Where an escaped ampersand is repeated by the letters after it, it is a unit of its own. */
  lemma RepeatLocates(p: Profile, pieces: seq<Piece>, cap: nat, m: nat) returns (n: nat)
    requires ValidProfile(p) && Atoms(pieces) && Runs(p, [], pieces) && m <= 3
    requires var y := RenderAll(pieces);
             cap + 4 <= |y| && EndTags(y[cap + 4..]) && EndsInAmpersand(y[..cap + 4], m)
    ensures n < |pieces| && pieces[n] == Chars([AMP]) && cap == |RenderAll(pieces[..n])| + m + 1
    ensures RenderAll(pieces[n + 1..]) == Lit("amp")[..m] + RenderAll(pieces)[cap + 4..]
  {
    hide Render, RenderAll, EndTags, Runs;
    n := FindAtom(pieces, cap - m - 1);
    RunningStack(p, [], pieces);
    SplitHere(pieces, n);
    AmpUnit();
    UnitRender(AMP);
    RepeatInParts(RenderAll(pieces), RenderAll(pieces[..n]), pieces[n], RenderAll(pieces[n + 1..]), cap, m);
    AfterTheUnit(RenderAll(pieces[..n]), RenderAll(pieces[n + 1..]), RenderAll(pieces), m);
  }

  lemma SafeIsFixedByEndTags(p: Profile, pieces: seq<Piece>, n: nat, head: Text)
    requires ValidProfile(p) && Atoms(pieces) && Runs(p, [], pieces) && StackThrough(p, [], pieces) == []
    requires CutsAt(pieces, p.maxLength, n, head) && p.maxLength < |RenderAll(pieces)|
    requires EndTags(RenderAll(pieces)[p.maxLength..])
    ensures Sanitize(p, RenderAll(pieces)) == RenderAll(pieces)
  {
    var cap, piece := p.maxLength, pieces[n];
    var open := StackThrough(p, [], pieces[..n]);
    CutOutput(p, pieces, n, head);
    SplitHere(pieces, n);
    AtTheCut(pieces, cap, n, head);
    if head != [] {
      InsideAtom(piece, RenderAll(pieces[n + 1..]), |head|);
    } else {
      EmptyRemainder(p, open);
      EndTagsAreClosers(p, open, pieces[n..]);
    }
  }

  lemma LettersOfAmp(m: nat)
    requires m <= 3
    ensures forall c :: c in Lit("amp")[..m] ==> PlainUnit(c)
    ensures Lit("&amp;")[..m + 1][1..] == Lit("amp")[..m]
  {
  }

  lemma SafeIsFixedByAmpersand(p: Profile, pieces: seq<Piece>, m: nat)
    requires ValidProfile(p) && Atoms(pieces) && Runs(p, [], pieces) && StackThrough(p, [], pieces) == [] && m <= 3
    requires var y := RenderAll(pieces);
             p.maxLength + 4 <= |y| && EndTags(y[p.maxLength + 4..]) && EndsInAmpersand(y[..p.maxLength + 4], m)
    ensures Sanitize(p, RenderAll(pieces)) == RenderAll(pieces)
  {
    var y, cap, head := RenderAll(pieces), p.maxLength, Lit("&amp;")[..m + 1];
    var n := RepeatLocates(p, pieces, cap, m);
    AmpUnit();
    UnitRender(AMP);
    LettersOfAmp(m);
    hide Render, RenderAll, EndTags, StackThrough, Sanitize, EscapeUnit, CloseDownTo, Remainder, EndsInAmpersand;
    CutOutput(p, pieces, n, head);
    SplitHere(pieces, n);
    var open := StackThrough(p, [], pieces[..n]);
    UnitOffTheList(p, open, pieces[n..]);
    assert pieces[n..][1..] == pieces[n + 1..];
    WordThenEndTags(p, open, pieces[n + 1..], head[1..], y[cap + 4..]);
    CutInUnit(p, open, AMP, RenderAll(pieces[n + 1..]), head);
  }

  lemma UnitOffTheList(p: Profile, open: seq<Text>, pieces: seq<Piece>)
    requires pieces != [] && pieces[0].Chars? && Runs(p, open, pieces)
    ensures Runs(p, open, pieces[1..]) && StackThrough(p, open, pieces) == StackThrough(p, open, pieces[1..])
  {
  }

  lemma FindCut(pieces: seq<Piece>, cap: nat) returns (n: nat, head: Text)
    requires cap < |RenderAll(pieces)|
    ensures CutsAt(pieces, cap, n, head)
  {
    n := FindAtom(pieces, cap);
    head := Render(pieces[n])[..cap - |RenderAll(pieces[..n])|];
  }

  lemma SafeIsFixed(p: Profile, pieces: seq<Piece>, n: nat, head: Text)
    requires ValidProfile(p) && Atoms(pieces) && Runs(p, [], pieces) && StackThrough(p, [], pieces) == []
    requires CutsAt(pieces, p.maxLength, n, head)
    requires p.maxLength < |RenderAll(pieces)| && IsSafeCut(RenderAll(pieces), p.maxLength)
    ensures Sanitize(p, RenderAll(pieces)) == RenderAll(pieces)
  {
    hide Sanitize, RenderAll, Render, StackThrough, Runs, EndTags, EndsInAmpersand, Atoms, ValidProfile, CutsAt;
    var y, cap := RenderAll(pieces), p.maxLength;
    if EndTags(y[cap..]) {
      SafeIsFixedByEndTags(p, pieces, n, head);
    } else {
      var m := if EndsInAmpersand(y[..cap + 4], 0) then 0 else if EndsInAmpersand(y[..cap + 4], 1) then 1
               else if EndsInAmpersand(y[..cap + 4], 2) then 2 else 3;
      SafeIsFixedByAmpersand(p, pieces, m);
    }
  }

  /** The same over atoms. */
  lemma OverlongAtoms(p: Profile, pieces: seq<Piece>)
    requires ValidProfile(p) && Atoms(pieces) && Runs(p, [], pieces) && StackThrough(p, [], pieces) == []
    requires |RenderAll(pieces)| > p.maxLength
    ensures Sanitize(p, RenderAll(pieces)) == RenderAll(pieces) <==> IsSafeCut(RenderAll(pieces), p.maxLength)
  {
    var n, head := FindCut(pieces, p.maxLength);
    hide *;
    if Sanitize(p, RenderAll(pieces)) == RenderAll(pieces) {
      FixedIsSafe(p, pieces, n, head);
    } else if IsSafeCut(RenderAll(pieces), p.maxLength) {
      SafeIsFixed(p, pieces, n, head);
    }
  }

  /** An output longer than the cap is a fixed point exactly when the cap cuts it safely. */
  lemma OverlongIsFixedIff(p: Profile, input: Text)
    requires ValidProfile(p) && |Sanitize(p, input)| > p.maxLength
    ensures Sanitize(p, Sanitize(p, input)) == Sanitize(p, input) <==> IsSafeCut(Sanitize(p, input), p.maxLength)
  {
    OutputRuns(p, input);
    ExplodeKeeps(p, [], SanitizedPieces(p, input));
    OverlongAtoms(p, Explode(SanitizedPieces(p, input)));
  }

  /** Idempotence, in full: the first output fits the cap or is cut safely by it. */
  lemma IdempotentIff(p: Profile, input: Text)
    requires ValidProfile(p)
    ensures Sanitize(p, Sanitize(p, input)) == Sanitize(p, input) <==>
            |Sanitize(p, input)| <= p.maxLength || IsSafeCut(Sanitize(p, input), p.maxLength)
  {
    hide Sanitize;
    if |Sanitize(p, input)| <= p.maxLength {
      SanitizeIsIdempotent(p, input);
    } else {
      OverlongIsFixedIff(p, input);
    }
  }

  /** Fitting is not necessary: an element left open at the very cap is closed past it, and the second
      pass closes it again. */
  lemma OverlongCanBeFixed(p: Profile, tag: Text, text: Text)
    requires ValidProfile(p) && tag in p.allowed && tag != A && tag !in p.voidTags
    requires (forall c :: c in text ==> PlainUnit(c)) && |tag| + 2 + |text| == p.maxLength
    ensures var input := Render(Opens(tag)) + text;
            && Sanitize(p, input) == input + Render(Closes(tag))
            && |Sanitize(p, input)| > p.maxLength && Sanitize(p, Sanitize(p, input)) == Sanitize(p, input)
  {
    var pieces, closers := [Opens(tag), Chars(text)], Render(Closes(tag));
    var input := Render(Opens(tag)) + text;
    assert [tag][..0] == [] && CloseDownTo([tag], 0) == [Closes(tag)];
    assert RenderAll([Closes(tag)]) == closers + [];
    PlainEscapes(text);
    assert pieces[1..] == [Chars(text)] && [Chars(text)][1..] == [];
    assert RenderAll([Chars(text)]) == text + [];
    assert RenderAll(pieces) == input && input + [] == input;
    assert [] + [tag] == [tag];
    assert StackThrough(p, [tag], [Chars(text)]) == [tag] && Runs(p, [tag], [Chars(text)]);
    assert StackAfter(p, [], pieces[0]) == [tag];
    assert Runs(p, [], pieces) && StackThrough(p, [], pieces) == [tag];
    EmptyRemainder(p, [tag]);
    hide Render, RenderAll, Escape;
    SanitizeUnfinished(p, pieces, []);
    var y := Sanitize(p, input);
    assert y == input + closers && y[p.maxLength..] == closers;
    ClosersAreEndTags([tag]);
    OverlongIsFixedIff(p, input);
  }
}
