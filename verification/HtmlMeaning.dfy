/**
 What the sanitizer makes of each token, and of whole elements
 (packages/shared-types/src/attribution-html.ts:163-207, 401-467): what it keeps, not only what it never lets
 through.
 */
module HtmlMeaning {
  import opened Prelude
  import opened Filters
  import opened Slices
  import opened HtmlText
  import opened HtmlTokens
  import opened HtmlSanitizer
  import HtmlFixedPoint

  // ---------------------------------------------------------------- hrefs

  function NoControl(): int -> bool { (c: int) => !(0 <= c < 0x20) && c != 0x7F }

  predicate AllJsSpace(s: Text) {
    forall c :: c in s ==> IsJsSpace(c)
  }

  /** `h` is the decoded href freed of controls and of the white space around it. */
  ghost predicate IsNormalForm(decoded: Text, h: Text) {
    Trimmed(h) && LiesInside(h, Filter(decoded, NoControl()))
  }

  /** An absolute http or https URL with something after the scheme, in any letter case. */
  predicate IsHttpUrl(h: Text) {
    || (|h| > 7 && Lower(h[..7]) == Lit("http://"))
    || (|h| > 8 && Lower(h[..8]) == Lit("https://"))
  }

  lemma {:induction false} WithoutSnoc(s: Text, c: int)
    ensures WithoutControls(s + [c]) == WithoutControls(s) + if NoControl()(c) then [c] else []
  {
    if s != [] {
      assert (s + [c])[0] == s[0] && (s + [c])[1..] == s[1..] + [c];
      WithoutSnoc(s[1..], c);
    }
  }

  lemma {:induction false} WithoutIsFiltered(s: Text)
    ensures WithoutControls(s) == Filter(s, NoControl())
  {
    if s != [] {
      var front, last := s[..|s| - 1], s[|s| - 1];
      WithoutIsFiltered(front);
      WithoutSnoc(front, last);
      assert s == front + [last];
    }
  }

  lemma {:induction false} TrimFinds(lead: Text, h: Text, trail: Text)
    requires AllJsSpace(lead) && AllJsSpace(trail) && Trimmed(h) && h != []
    ensures Trim(lead + h + trail) == h
    decreases |lead| + |trail|
  {
    var s := lead + h + trail;
    if lead != [] {
      assert lead[0] in lead && s[0] == lead[0] && s[1..] == lead[1..] + h + trail;
      TrimFinds(lead[1..], h, trail);
    } else if trail != [] {
      var last := trail[|trail| - 1];
      assert last in trail && s[|s| - 1] == last && s[..|s| - 1] == lead + h + trail[..|trail| - 1];
      assert s[0] == h[0];
      TrimFinds(lead, h, trail[..|trail| - 1]);
    } else {
      assert s == h;
    }
  }

  ghost predicate LiesInside(t: Text, s: Text) {
    exists lead, trail :: AllJsSpace(lead) && AllJsSpace(trail) && s == lead + t + trail
  }

  lemma InsideItself(s: Text)
    ensures LiesInside(s, s)
  {
    assert AllJsSpace([]) && s == [] + s + [];
  }

  lemma InsideLonger(t: Text, s: Text, c: int)
    requires LiesInside(t, s) && IsJsSpace(c)
    ensures LiesInside(t, [c] + s) && LiesInside(t, s + [c])
  {
    var lead, trail :| AllJsSpace(lead) && AllJsSpace(trail) && s == lead + t + trail;
    assert AllJsSpace([c] + lead) && [c] + s == ([c] + lead) + t + trail;
    assert AllJsSpace(trail + [c]) && s + [c] == lead + t + (trail + [c]);
  }

  lemma {:induction false} TrimIsInside(s: Text)
    ensures LiesInside(Trim(s), s)
    decreases |s|
  {
    hide LiesInside;
    if s == [] {
      InsideItself(s);
    } else if IsJsSpace(s[0]) {
      assert Trim(s) == Trim(s[1..]);
      TrimIsInside(s[1..]);
      hide Trim, IsJsSpace;
      InsideLonger(Trim(s[1..]), s[1..], s[0]);
      assert s == [s[0]] + s[1..];
    } else if IsJsSpace(s[|s| - 1]) {
      var front, last := s[..|s| - 1], s[|s| - 1];
      assert Trim(s) == Trim(front);
      TrimIsInside(front);
      hide Trim, IsJsSpace;
      InsideLonger(Trim(front), front, last);
      assert s == front + [last];
    } else {
      InsideItself(s);
    }
  }

  /** The code units String.prototype.trim removes, written out. */
  lemma JsSpaces(c: int)
    ensures IsJsSpace(c) <==> c in {0x09, 0x0A, 0x0B, 0x0C, 0x0D, 0x20, 0xA0, 0x1680, 0x2000, 0x2001, 0x2002, 0x2003, 0x2004, 0x2005, 0x2006,
                                    0x2007, 0x2008, 0x2009, 0x200A, 0x2028, 0x2029, 0x202F, 0x205F, 0x3000, 0xFEFF}
  {
  }

  /** safeHttpUrl accepts an href exactly when its normal form is an http(s) URL, and hands that on. */
  lemma SafeHttpUrlMeans(names: Names, rawHref: Text, h: Text)
    ensures SafeHttpUrl(names, rawHref) == Some(h) <==> IsNormalForm(Decode(names, rawHref), h) && IsHttpUrl(h)
  {
    hide Decode, WithoutControls, Trim, IsNormalForm, Lower, StartsWith, IsHttpUrl;
    var decoded := Decode(names, rawHref);
    var normalized := Trim(WithoutControls(decoded));
    NormalFormIs(decoded, h);
    SchemeMeans(normalized);
    NothingIsNoUrl();
  }

  lemma NothingIsNoUrl()
    ensures !IsHttpUrl([])
  {
  }

  /** A text other than the empty one has one normal form: what is left of it without controls and outer white space. */
  lemma NormalFormIs(decoded: Text, h: Text)
    ensures IsNormalForm(decoded, Trim(WithoutControls(decoded)))
    ensures h != [] && IsNormalForm(decoded, h) ==> h == Trim(WithoutControls(decoded))
  {
    hide Trim, AllJsSpace;
    WithoutIsFiltered(decoded);
    TrimIsInside(WithoutControls(decoded));
    if IsNormalForm(decoded, h) && h != [] {
      var lead, trail :| AllJsSpace(lead) && AllJsSpace(trail) && Filter(decoded, NoControl()) == lead + h + trail;
      TrimFinds(lead, h, trail);
    }
  }

  lemma SchemeMeans(h: Text)
    ensures IsHttpUrl(h) <==>
            var lower := Lower(h);
            var scheme := if StartsWith(lower, Lit("https://")) then 8 else if StartsWith(lower, Lit("http://")) then 7 else 0;
            scheme != 0 && |h| != scheme
  {
    assert |h| >= 7 ==> Lower(h)[..7] == Lower(h[..7]);
    assert |h| >= 8 ==> Lower(h)[..8] == Lower(h[..8]);
    if |h| >= 8 && Lower(h[..8]) == Lit("https://") {
      assert Lower(h[..7])[4] == Lower(h[..8])[4] == 's' as int;
      assert Lit("http://")[4] == ':' as int;
    }
  }

  // ---------------------------------------------------------------- what is written

  /** The five characters with a meaning in markup are written as references, all others as they are. */
  lemma EscapeMeans(a: Text, b: Text)
    ensures Escape([0x26]) == Lit("&amp;") && Escape([0x3C]) == Lit("&lt;") && Escape([0x3E]) == Lit("&gt;")
    ensures Escape([0x22]) == Lit("&quot;") && Escape([0x27]) == Lit("&#39;") && Escape([]) == []
    ensures forall c :: c !in {0x26, 0x3C, 0x3E, 0x22, 0x27} ==> Escape([c]) == [c]
    ensures Escape(a + b) == Escape(a) + Escape(b)
  {
    EscapeConcat(a, b);
    forall c ensures Escape([c]) == EscapeUnit(c) {
      EscapeOne(c);
    }
    hide Escape;
  }

  lemma EscapeOne(c: int)
    ensures Escape([c]) == EscapeUnit(c)
  {
    hide Escape, EscapeUnit;
    EscapeCons(c, []);
    assert [c] + [] == [c] && EscapeUnit(c) + [] == EscapeUnit(c);
    EscapeNothing();
  }

  lemma EscapeNothing()
    ensures Escape([]) == []
  {
  }

  function Attribute(name: string, value: Text): Text {
    Lit(" ") + Lit(name) + Lit("=\"") + value + Lit("\"")
  }

  /** A link's tag, with the sanitizer's own target and rel. */
  function LinkTag(href: Text): Text {
    Lit("<a") + Attribute("href", Escape(href)) + Attribute("target", Lit("_blank")) + Attribute("rel", Lit("noopener noreferrer")) + Lit(">")
  }

  lemma RenderMeans(name: Text, href: Text, text: Text)
    ensures Render(Opens(name)) == Lit("<") + name + Lit(">")
    ensures Render(Closes(name)) == Lit("</") + name + Lit(">")
    ensures Render(Link(href)) == LinkTag(href)
    ensures Render(Chars(text)) == Escape(text)
  {
    assert AttributeTexts([]) == [GT];
    assert Lit("<") == [LT] && Lit(">") == [GT] && Lit("</") == [LT, SLASH];
    LinkRenders(href);
  }

  lemma AttributeIs(name: string, value: Text)
    ensures AttributeText(Lit(name), value) == Attribute(name, value)
  {
    assert Lit(" ") == [SPACE] && Lit("=\"") == [EQUALS, QUOT] && Lit("\"") == [QUOT];
  }

  lemma LinkAttributes(value: Text)
    ensures var target, rel := (Lit("target"), Lit("_blank")), (Lit("rel"), Lit("noopener noreferrer"));
            AttributeTexts([(Lit("href"), value), target, rel]) ==
            AttributeText(Lit("href"), value) + (AttributeText(target.0, target.1) + (AttributeText(rel.0, rel.1) + [GT]))
  {
    var href, target, rel := (Lit("href"), value), (Lit("target"), Lit("_blank")), (Lit("rel"), Lit("noopener noreferrer"));
    hide AttributeText, Lit;
    var last: seq<(Text, Text)> := [rel];
    assert [href, target, rel][1..] == [target, rel] && [target, rel][1..] == last && last[1..] == [];
    assert AttributeTexts(last) == AttributeText(rel.0, rel.1) + [GT];
    assert AttributeTexts([target, rel]) == AttributeText(target.0, target.1) + AttributeTexts(last);
  }

  lemma LinkRenders(href: Text)
    ensures Render(Link(href)) == LinkTag(href)
  {
    LinkAttributes(Escape(href));
    AttributeIs("href", Escape(href));
    AttributeIs("target", Lit("_blank"));
    AttributeIs("rel", Lit("noopener noreferrer"));
    assert Lit(">") == [GT] && Lit("<a") == [LT] + A;
    var a, b, c := Attribute("href", Escape(href)), Attribute("target", Lit("_blank")), Attribute("rel", Lit("noopener noreferrer"));
    assert AttributeTexts(LinkItems(href)) == a + (b + (c + [GT]));
    assert Render(Link(href)) == [LT] + (A + AttributeTexts(LinkItems(href)));
    assert LinkTag(href) == [LT] + A + a + b + c + [GT];
    hide *;
    SixTexts([LT], A, a, b, c, [GT]);
  }

  lemma SixTexts(u: Text, v: Text, w: Text, x: Text, y: Text, z: Text)
    ensures u + (v + (w + (x + (y + z)))) == u + v + w + x + y + z
  {
  }

  // ---------------------------------------------------------------- token by token

  function StackWith(p: Profile, open: seq<Text>, name: Text): seq<Text> {
    if name in p.voidTags then open else open + [name]
  }

  /** An allowed element other than a link is kept, whatever attributes it was written with; it stays open unless
      it is void. */
  lemma AllowedTagIsKept(p: Profile, open: seq<Text>, name: Text, attrs: Attrs, raw: Text, rest: seq<Token>)
    requires name in p.allowed && name != Lit("a")
    ensures Pieces(p, open, [StartTag(name, attrs, raw)] + rest) == [Opens(name)] + Pieces(p, StackWith(p, open, name), rest)
  {
    assert ([StartTag(name, attrs, raw)] + rest)[1..] == rest;
    assert Lit("a") == A;
  }

  /** An allowed link is kept exactly when its href has an http(s) URL as its normal form, and links to that. */
  lemma LinkIsKeptIff(p: Profile, open: seq<Text>, attrs: Attrs, raw: Text, rest: seq<Token>, h: Text)
    requires Lit("a") in p.allowed
    ensures (Lit("href") in attrs && IsNormalForm(Decode(p.names, attrs[Lit("href")]), h) && IsHttpUrl(h)) <==>
            StartPiece(p, StartTag(Lit("a"), attrs, raw)) == Some(Link(h))
    ensures Lit("href") in attrs && IsNormalForm(Decode(p.names, attrs[Lit("href")]), h) && IsHttpUrl(h) ==>
              Pieces(p, open, [StartTag(Lit("a"), attrs, raw)] + rest) == [Link(h)] + Pieces(p, StackWith(p, open, Lit("a")), rest)
  {
    assert ([StartTag(Lit("a"), attrs, raw)] + rest)[1..] == rest;
    assert Lit("a") == A;
    if Lit("href") in attrs {
      SafeHttpUrlMeans(p.names, attrs[Lit("href")], h);
      hide SafeHttpUrl, IsNormalForm, IsHttpUrl, Decode;
    }
  }

  /** Any other start tag is shown as the text it was written as. */
  lemma RefusedTagIsShown(p: Profile, open: seq<Text>, name: Text, attrs: Attrs, raw: Text, rest: seq<Token>)
    requires name in p.allowed ==>
               name == Lit("a") && (Lit("href") in attrs ==> forall h :: !(IsNormalForm(Decode(p.names, attrs[Lit("href")]), h) && IsHttpUrl(h)))
    ensures Pieces(p, open, [StartTag(name, attrs, raw)] + rest) == [Chars(Decode(p.names, raw))] + Pieces(p, open, rest)
  {
    assert ([StartTag(name, attrs, raw)] + rest)[1..] == rest;
    if name in p.allowed && Lit("href") in attrs && SafeHttpUrl(p.names, attrs[Lit("href")]).Some? {
      SafeHttpUrlMeans(p.names, attrs[Lit("href")], SafeHttpUrl(p.names, attrs[Lit("href")]).value);
      assert false;
    }
  }

  lemma TextIsKept(p: Profile, open: seq<Text>, text: Text, rest: seq<Token>)
    ensures Pieces(p, open, [Words(text)] + rest) == [Chars(Decode(p.names, text))] + Pieces(p, open, rest)
  {
    assert ([Words(text)] + rest)[1..] == rest;
  }

  /** The end tags of the elements from the innermost down to depth `d`, in that order. */
  predicate ClosesDownTo(open: seq<Text>, d: nat, closed: seq<Piece>)
    requires d <= |open|
  {
    |closed| == |open| - d && forall k :: 0 <= k < |closed| ==> closed[k] == Closes(open[|open| - 1 - k])
  }

  lemma {:induction false} ClosersAre(open: seq<Text>, d: nat)
    requires d <= |open|
    ensures ClosesDownTo(open, d, CloseDownTo(open, d))
    decreases |open|
  {
    if |open| > d {
      var inner := open[..|open| - 1];
      var closed, rest := CloseDownTo(open, d), CloseDownTo(inner, d);
      ClosersAre(inner, d);
      assert closed == [Closes(open[|open| - 1])] + rest;
      hide CloseDownTo;
      forall k | 0 <= k < |closed| ensures closed[k] == Closes(open[|open| - 1 - k]) {
        assert k > 0 ==> closed[k] == rest[k - 1] && inner[|inner| - 1 - (k - 1)] == open[|open| - 1 - k];
      }
    }
  }

  /** An end tag closes down to its nearest open element; one that matches none is shown as text. */
  lemma EndTagCloses(p: Profile, open: seq<Text>, name: Text, raw: Text, rest: seq<Token>)
    ensures name !in open ==>
              Pieces(p, open, [EndTag(name, raw)] + rest) == [Chars(Decode(p.names, raw))] + Pieces(p, open, rest)
    ensures forall d :: 0 <= d < |open| && open[d] == name && name !in open[d + 1..] ==>
              exists closed :: ClosesDownTo(open, d, closed) &&
                               Pieces(p, open, [EndTag(name, raw)] + rest) == closed + Pieces(p, open[..d], rest)
  {
    assert ([EndTag(name, raw)] + rest)[1..] == rest;
    forall d | 0 <= d < |open| && open[d] == name && name !in open[d + 1..]
      ensures LastIndex(open, name) == Some(d)
    {
      NearestIs(open, name, d);
    }
    if LastIndex(open, name).Some? {
      ClosersAre(open, LastIndex(open, name).value);
    }
  }

  lemma NearestIs(open: seq<Text>, name: Text, d: nat)
    requires d < |open| && open[d] == name && name !in open[d + 1..]
    ensures LastIndex(open, name) == Some(d)
  {
    assert name in open;
    var found := LastIndex(open, name).value;
    assert forall k :: d < k < |open| ==> open[k] == open[d + 1..][k - d - 1];
    assert forall k :: found < k < |open| ==> open[k] == open[found + 1..][k - found - 1];
  }

  /** At the end everything still open is closed. */
  lemma OpenElementsAreClosed(p: Profile, open: seq<Text>)
    ensures ClosesDownTo(open, 0, Pieces(p, open, []))
  {
    ClosersAre(open, 0);
  }

  // ---------------------------------------------------------------- whole elements

  function EndText(name: Text): Text {
    [LT, SLASH] + name + [GT]
  }

  lemma EndTextRenders(name: Text)
    ensures EndText(name) == Render(Closes(name)) && |EndText(name)| == |name| + 3
  {
  }

  lemma EndTagLast(s: Text, j: nat, name: Text, text: Text)
    requires IsTagName(name) && HoldsAt(s, j, EndText(name)) && |s| == j + |EndText(name)|
    ensures TokensFrom(s, j, text) == Flush(text) + [EndTag(name, EndText(name))]
  {
    EndTextRenders(name);
    hide ReadTag, TokensFrom, IsTagName, HoldsAt, EndText, Render, Flush;
    ClosesReadsBack(s, j, name);
    HtmlFixedPoint.TagIsOneToken(s, j, text, Read(EndTag(name, EndText(name)), |s|));
    NothingLeft(s);
    assert Flush(text) + [EndTag(name, EndText(name))] + [] == Flush(text) + [EndTag(name, EndText(name))];
  }

  lemma StartTagFirst(s: Text, name: Text, items: seq<(Text, Text)>)
    requires IsTagName(name) && HoldsAt(s, 0, TagText(name, items))
    requires forall k :: 0 <= k < |items| ==> PlainAttribute(items[k].0, items[k].1)
    ensures Tokenize(s) == [StartTag(name, KeepAll(map[], items), TagText(name, items))] + TokensFrom(s, |TagText(name, items)|, [])
  {
    TagReadsBack(s, 0, name, items);
    var token := StartTag(name, KeepAll(map[], items), TagText(name, items));
    hide TagText, ReadTag, TokensFrom, KeepAll, PlainAttribute, IsTagName, HoldsAt;
    HtmlFixedPoint.TagIsOneToken(s, 0, [], Read(token, |TagText(name, items)|));
    assert Flush([]) == [] && [] + [token] == [token];
  }

  /** A start tag, text without a tag in it, and the end tag, as three tokens. */
  lemma ElementTokens(name: Text, items: seq<(Text, Text)>, text: Text)
    requires IsTagName(name) && LT !in text
    requires forall k :: 0 <= k < |items| ==> PlainAttribute(items[k].0, items[k].1)
    ensures Tokenize(TagText(name, items) + text + EndText(name)) ==
            [StartTag(name, KeepAll(map[], items), TagText(name, items))] + (Flush(text) + [EndTag(name, EndText(name))])
  {
    ThreeParts(TagText(name, items), text, EndText(name));
    hide *;
    ThreeTokens(TagText(name, items) + text + EndText(name), name, items, text);
  }

  lemma ThreeTokens(s: Text, name: Text, items: seq<(Text, Text)>, text: Text)
    requires IsTagName(name) && LT !in text
    requires forall k :: 0 <= k < |items| ==> PlainAttribute(items[k].0, items[k].1)
    requires HoldsAt(s, 0, TagText(name, items)) && HoldsAt(s, |TagText(name, items)|, text)
    requires HoldsAt(s, |TagText(name, items)| + |text|, EndText(name)) && |TagText(name, items)| + |text| + |EndText(name)| == |s|
    ensures Tokenize(s) == [StartTag(name, KeepAll(map[], items), TagText(name, items))] + (Flush(text) + [EndTag(name, EndText(name))])
  {
    hide *;
    StartTagFirst(s, name, items);
    TextBetween(s, |TagText(name, items)|, text);
    EndTagLast(s, |TagText(name, items)| + |text|, name, text);
  }

  lemma TextBetween(s: Text, i: nat, text: Text)
    requires HoldsAt(s, i, text) && LT !in text
    ensures TokensFrom(s, i, []) == TokensFrom(s, i + |text|, text)
  {
    hide TokensFrom;
    TextAccumulates(s, i, i + |text|, []);
    assert [] + text == text;
  }

  lemma ThreeParts(head: Text, text: Text, tail: Text)
    ensures var s, j := head + text + tail, |head| + |text|;
            HoldsAt(s, 0, head) && HoldsAt(s, |head|, text) && HoldsAt(s, j, tail) && j + |tail| == |s|
  {
  }

  lemma NothingLeft(s: Text)
    ensures TokensFrom(s, |s|, []) == []
  {
  }

  /** What is shown between two tags. */
  function Shown(p: Profile, text: Text): Text {
    Escape(Decode(p.names, text))
  }

  lemma {:induction false} RenderConcat(a: seq<Piece>, b: seq<Piece>)
    ensures RenderAll(a + b) == RenderAll(a) + RenderAll(b)
  {
    HtmlFixedPoint.RenderConcat(a, b);
  }

  lemma ElementPieces(p: Profile, name: Text, text: Text, raw: Text)
    requires name !in p.voidTags
    ensures RenderAll(Pieces(p, [name], Flush(text) + [EndTag(name, raw)])) == Shown(p, text) + EndText(name)
  {
    var last := [EndTag(name, raw)];
    EndTagCloses(p, [name], name, raw, []);
    assert [name][1..] == [] && [name][0] == name && [name][..0] == [];
    assert last + [] == last;
    var closed :| ClosesDownTo([name], 0, closed) && Pieces(p, [name], last) == closed + Pieces(p, [], []);
    assert closed == [Closes(name)] && Pieces(p, [], []) == [];
    assert Pieces(p, [name], last) == [Closes(name)];
    assert RenderAll([Closes(name)]) == EndText(name);
    if text == [] {
      assert Flush(text) + last == last && Shown(p, text) == [];
    } else {
      TextIsKept(p, [name], text, last);
      var shown := Chars(Decode(p.names, text));
      assert ([shown] + [Closes(name)])[1..] == [Closes(name)];
      hide Pieces;
      assert RenderAll([shown] + [Closes(name)]) == Render(shown) + RenderAll([Closes(name)]);
    }
  }

  lemma AroundText(tag: Text, shown: Text, end: Text)
    ensures tag + (shown + end) == tag + shown + end
  {
  }

  lemma KeptElement(p: Profile, piece: Piece, name: Text, text: Text, raw: Text)
    requires name !in p.voidTags
    ensures RenderAll([piece] + Pieces(p, [name], Flush(text) + [EndTag(name, raw)])) == Render(piece) + Shown(p, text) + EndText(name)
  {
    var rest := Pieces(p, [name], Flush(text) + [EndTag(name, raw)]);
    ElementPieces(p, name, text, raw);
    assert RenderAll([piece]) == Render(piece) + [] == Render(piece);
    hide *;
    RenderConcat([piece], rest);
    AroundText(Render(piece), Shown(p, text), EndText(name));
  }

  lemma ShortIsWhole(p: Profile, s: Text)
    requires |s| <= p.maxLength
    ensures Sanitize(p, s) == RenderAll(Pieces(p, [], Tokenize(s)))
  {
  }

  /** An allowed element written with any plain attributes around text comes out as that element around the text:
      the attributes are dropped, nothing else. */
  lemma ElementSurvives(p: Profile, name: Text, items: seq<(Text, Text)>, text: Text)
    requires IsTagName(name) && name in p.allowed && name != Lit("a") && name !in p.voidTags && LT !in text
    requires forall k :: 0 <= k < |items| ==> PlainAttribute(items[k].0, items[k].1)
    requires |TagText(name, items) + text + EndText(name)| <= p.maxLength
    ensures Sanitize(p, TagText(name, items) + text + EndText(name)) == [LT] + name + [GT] + Shown(p, text) + EndText(name)
  {
    var attrs, raw, rest := KeepAll(map[], items), TagText(name, items), Flush(text) + [EndTag(name, EndText(name))];
    assert StackWith(p, [], name) == [] + [name] == [name];
    RenderMeans(name, [], []);
    assert Lit("<") == [LT] && Lit(">") == [GT];
    hide *;
    ShortIsWhole(p, raw + text + EndText(name));
    ElementTokens(name, items, text);
    AllowedTagIsKept(p, [], name, attrs, raw, rest);
    KeptElement(p, Opens(name), name, text, EndText(name));
  }

  /** A link around text comes out as a link to the normal form of its first href around the text, when that is an
      http(s) URL. */
  lemma LinkSurvives(p: Profile, items: seq<(Text, Text)>, text: Text, h: Text)
    requires A in p.allowed && A !in p.voidTags && LT !in text
    requires forall k :: 0 <= k < |items| ==> PlainAttribute(items[k].0, items[k].1)
    requires FirstValue(items, Lit("href")).Some? && IsNormalForm(Decode(p.names, FirstValue(items, Lit("href")).value), h) && IsHttpUrl(h)
    requires |TagText(A, items) + text + EndText(A)| <= p.maxLength
    ensures Sanitize(p, TagText(A, items) + text + EndText(A)) == LinkTag(h) + Shown(p, text) + EndText(A)
  {
    var attrs, raw, rest := KeepAll(map[], items), TagText(A, items), Flush(text) + [EndTag(A, EndText(A))];
    assert StackWith(p, [], A) == [] + [A] == [A];
    LinkName();
    RenderMeans(A, h, []);
    KeptIsFirst(map[], items, Lit("href"));
    hide *;
    ShortIsWhole(p, raw + text + EndText(A));
    ElementTokens(A, items, text);
    LinkIsKeptIff(p, [], attrs, raw, rest, h);
    KeptElement(p, Link(h), A, text, EndText(A));
  }

  lemma LinkName()
    ensures A == Lit("a") && IsTagName(A)
  {
  }

  /** The value of the first attribute of that name. */
  function FirstValue(items: seq<(Text, Text)>, name: Text): Option<Text> {
    if items == [] then None
    else if items[0].0 == name then Some(items[0].1)
    else FirstValue(items[1..], name)
  }

  lemma {:induction false} KeptIsFirst(attrs: Attrs, items: seq<(Text, Text)>, name: Text)
    ensures name in attrs ==> name in KeepAll(attrs, items) && KeepAll(attrs, items)[name] == attrs[name]
    ensures name !in attrs ==>
              if FirstValue(items, name).Some? then name in KeepAll(attrs, items) && KeepAll(attrs, items)[name] == FirstValue(items, name).value
              else name !in KeepAll(attrs, items)
    decreases |items|
  {
    if items != [] {
      KeptIsFirst(Keep(attrs, items[0].0, items[0].1), items[1..], name);
    }
  }

  /** An element that is not allowed is shown as it was written, with its tags. */
  lemma RefusedElementIsShown(p: Profile, name: Text, items: seq<(Text, Text)>, text: Text)
    requires IsTagName(name) && name !in p.allowed && LT !in text
    requires forall k :: 0 <= k < |items| ==> PlainAttribute(items[k].0, items[k].1)
    requires |TagText(name, items) + text + EndText(name)| <= p.maxLength
    ensures Sanitize(p, TagText(name, items) + text + EndText(name)) ==
            Shown(p, TagText(name, items)) + (Shown(p, text) + Shown(p, EndText(name)))
  {
    var attrs, raw, last := KeepAll(map[], items), TagText(name, items), [EndTag(name, EndText(name))];
    ElementTokens(name, items, text);
    RefusedTagIsShown(p, [], name, attrs, raw, Flush(text) + last);
    RefusedRest(p, name, text);
    var rest := Pieces(p, [], Flush(text) + last);
    hide Pieces, Flush, TagText;
    RenderConcat([Chars(Decode(p.names, raw))], rest);
    assert RenderAll([Chars(Decode(p.names, raw))]) == Shown(p, raw);
  }

  lemma RefusedRest(p: Profile, name: Text, text: Text)
    ensures RenderAll(Pieces(p, [], Flush(text) + [EndTag(name, EndText(name))])) == Shown(p, text) + Shown(p, EndText(name))
  {
    var last := [EndTag(name, EndText(name))];
    EndTagCloses(p, [], name, EndText(name), []);
    assert last + [] == last;
    var shown := Chars(Decode(p.names, EndText(name)));
    assert Pieces(p, [], last) == [shown] + [];
    assert RenderAll([shown]) == Shown(p, EndText(name));
    if text == [] {
      assert Flush(text) + last == last && Shown(p, text) == [];
    } else {
      TextIsKept(p, [], text, last);
      hide Pieces;
      RenderConcat([Chars(Decode(p.names, text))], [shown]);
      assert RenderAll([Chars(Decode(p.names, text))]) == Shown(p, text);
    }
  }
}
