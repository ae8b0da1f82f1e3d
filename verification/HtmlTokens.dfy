/**
 The tokenizer of packages/shared-types/src/attribution-html.ts:213-383. The grammar is given by
 functions over positions in a fixed source; the loops that advance an index are the methods of
 HtmlReader, proved against these functions.
 */
module HtmlTokens {
  import opened Prelude
  import opened HtmlText
  import opened Slices

  type Attrs = map<Text, Text>

  datatype Token =
    | Words(text: Text)
    | StartTag(name: Text, attrs: Attrs, raw: Text)
    | EndTag(name: Text, raw: Text)

  /** The characters a token was made from. */
  function SourceOf(token: Token): Text {
    if token.Words? then token.text else token.raw
  }

  function SourcesOf(tokens: seq<Token>): Text {
    if tokens == [] then [] else SourceOf(tokens[0]) + SourcesOf(tokens[1..])
  }

  /** Something read, and the position after it. */
  datatype Read<T> = Read(item: T, end: nat)

  /** The first position from `i` on whose unit is not in the class. */
  function EndOf(cls: Class, s: Text, i: nat): (j: nat)
    requires i <= |s|
    ensures i <= j <= |s|
    ensures forall k :: i <= k < j ==> Is(cls, s[k])
    ensures j < |s| ==> !Is(cls, s[j])
    decreases |s| - i
  {
    if i == |s| || !Is(cls, s[i]) then i else EndOf(cls, s, i + 1)
  }

  lemma {:induction false} EndIs(cls: Class, s: Text, i: nat, j: nat)
    requires i <= j <= |s|
    requires forall k :: i <= k < j ==> Is(cls, s[k])
    requires j < |s| ==> !Is(cls, s[j])
    ensures EndOf(cls, s, i) == j
    decreases j - i
  {
    if i < j {
      EndIs(cls, s, i + 1, j);
    }
  }

  /** `s.indexOf(c, i)`. */
  function IndexFrom(s: Text, c: int, i: nat): (n: Option<nat>)
    requires i <= |s|
    ensures n.Some? ==> i <= n.value < |s| && s[n.value] == c
    decreases |s| - i
  {
    if i == |s| then None else if s[i] == c then Some(i) else IndexFrom(s, c, i + 1)
  }

  lemma {:induction false} IndexIs(s: Text, c: int, i: nat, j: nat)
    requires i <= j < |s| && s[j] == c
    requires forall k :: i <= k < j ==> s[k] != c
    ensures IndexFrom(s, c, i) == Some(j)
    decreases j - i
  {
    if i < j {
      IndexIs(s, c, i + 1, j);
    }
  }

  predicate UnitAt(s: Text, i: nat, c: int) {
    i < |s| && s[i] == c
  }

  /** `sep* '=' sep* attrValue`, or nothing at all after a bare attribute name; None when a quote never closes. */
  function ReadValue(s: Text, i: nat): (r: Option<Read<Text>>)
    requires i <= |s|
    ensures r.Some? ==> i <= r.value.end <= |s|
  {
    var w := EndOf(HtmlSpace, s, i);
    if !UnitAt(s, w, EQUALS) then Some(Read([], w))
    else
      var v := EndOf(HtmlSpace, s, w + 1);
      if UnitAt(s, v, QUOT) || UnitAt(s, v, APOS) then
        var close := IndexFrom(s, s[v], v + 1);
        if close.None? then None else Some(Read(s[v + 1..close.value], close.value + 1))
      else
        var end := EndOf(Unquoted, s, v);
        Some(Read(s[v..end], end))
  }

  /** First occurrence wins, as in a browser. */
  function Keep(attrs: Attrs, name: Text, value: Text): Attrs {
    if name in attrs then attrs else attrs[name := value]
  }

  /** One round of the attribute loop: refuse the tag, close it, or go on. */
  datatype Round = Refuse | Close | Go(attrs: Attrs, next: nat)

  function AttrRound(s: Text, i: nat, attrs: Attrs): (r: Round)
    requires i < |s|
    ensures r.Go? ==> i < r.next <= |s|
  {
    if Is(HtmlSpace, s[i]) || s[i] == SLASH then Go(attrs, i + 1)
    else if s[i] == GT then Close
    else
      var nameEnd := EndOf(AttrName, s, i);
      if nameEnd == i then Go(attrs, i + 1)
      else
        var v := ReadValue(s, nameEnd);
        if v.None? then Refuse else Go(Keep(attrs, Lower(s[i..nameEnd]), v.value.item), v.value.end)
  }

  /** The attributes up to and including the closing '>'. */
  function ReadAttrs(s: Text, i: nat, attrs: Attrs): (r: Option<Read<Attrs>>)
    requires i <= |s|
    ensures r.Some? ==> i < r.value.end <= |s|
    decreases |s| - i
  {
    if i == |s| then None
    else
      match AttrRound(s, i, attrs)
      case Refuse => None
      case Close => Some(Read(attrs, i + 1))
      case Go(more, next) => ReadAttrs(s, next, more)
  }

  lemma RoundStep(s: Text, i: nat, attrs: Attrs, more: Attrs, next: nat)
    requires i < |s| && AttrRound(s, i, attrs) == Go(more, next)
    ensures ReadAttrs(s, i, attrs) == ReadAttrs(s, next, more)
  {
  }

  lemma NamedRound(s: Text, i: nat, nameEnd: nat, value: Text, end: nat, attrs: Attrs)
    requires i < nameEnd <= |s| && Is(AttrName, s[i])
    requires EndOf(AttrName, s, i) == nameEnd && ReadValue(s, nameEnd) == Some(Read(value, end))
    ensures AttrRound(s, i, attrs) == Go(Keep(attrs, Lower(s[i..nameEnd]), value), end)
  {
  }

  /** readTag: a tag starting at the '<' at `start`, or None when that is literal text after all. */
  function ReadTag(s: Text, start: nat): (r: Option<Read<Token>>)
    requires UnitAt(s, start, LT)
    ensures r.Some? ==> start < r.value.end <= |s| && !r.value.item.Words? && SourceOf(r.value.item) == s[start..r.value.end]
  {
    var closing := UnitAt(s, start + 1, SLASH);
    var at := if closing then start + 2 else start + 1;
    if at >= |s| || !IsAlpha(s[at]) then None
    else
      var end := EndOf(TagName, s, at);
      var name := Lower(s[at..end]);
      if closing then
        var w := EndOf(HtmlSpace, s, end);
        if UnitAt(s, w, GT) then Some(Read(EndTag(name, s[start..w + 1]), w + 1)) else None
      else
        var attrs := ReadAttrs(s, end, map[]);
        if attrs.None? then None
        else Some(Read(StartTag(name, attrs.value.item, s[start..attrs.value.end]), attrs.value.end))
  }

  lemma StartTagIs(s: Text, start: nat, nameEnd: nat, attrs: Attrs, end: nat)
    requires UnitAt(s, start, LT) && start + 1 < |s| && IsAlpha(s[start + 1])
    requires EndOf(TagName, s, start + 1) == nameEnd && ReadAttrs(s, nameEnd, map[]) == Some(Read(attrs, end))
    ensures ReadTag(s, start) == Some(Read(StartTag(Lower(s[start + 1..nameEnd]), attrs, s[start..end]), end))
  {
  }

  lemma EndTagIs(s: Text, start: nat, nameEnd: nat)
    requires UnitAt(s, start, LT) && UnitAt(s, start + 1, SLASH) && start + 2 < |s| && IsAlpha(s[start + 2])
    requires EndOf(TagName, s, start + 2) == nameEnd && UnitAt(s, nameEnd, GT)
    ensures ReadTag(s, start) == Some(Read(EndTag(Lower(s[start + 2..nameEnd]), s[start..nameEnd + 1]), nameEnd + 1))
  {
    EndIs(HtmlSpace, s, nameEnd, nameEnd);
  }

  function Flush(text: Text): seq<Token> {
    if text == [] then [] else [Words(text)]
  }

  /** The tokens from position `i` on, when `text` is still waiting to be flushed. */
  function TokensFrom(s: Text, i: nat, text: Text): seq<Token>
    requires i <= |s|
    decreases |s| - i
  {
    if i == |s| then Flush(text)
    else if s[i] != LT then TokensFrom(s, i + 1, text + [s[i]])
    else
      var r := ReadTag(s, i);
      if r.None? then TokensFrom(s, i + 1, text + [LT])
      else Flush(text) + [r.value.item] + TokensFrom(s, r.value.end, [])
  }

  function Tokenize(source: Text): seq<Token> {
    TokensFrom(source, 0, [])
  }

  lemma {:induction false} SourcesConcat(a: seq<Token>, b: seq<Token>)
    ensures SourcesOf(a + b) == SourcesOf(a) + SourcesOf(b)
  {
    if a == [] {
      assert a + b == b;
    } else {
      calc {
        SourcesOf(a + b);
        { assert (a + b)[1..] == a[1..] + b; }
        SourceOf(a[0]) + SourcesOf(a[1..] + b);
        { SourcesConcat(a[1..], b); }
        SourceOf(a[0]) + (SourcesOf(a[1..]) + SourcesOf(b));
        { Concat3(SourceOf(a[0]), SourcesOf(a[1..]), SourcesOf(b)); }
        SourcesOf(a) + SourcesOf(b);
      }
    }
  }

  lemma FlushSource(text: Text)
    ensures SourcesOf(Flush(text)) == text
  {
  }

  lemma OneTokenLater(text: Text, token: Token, rest: seq<Token>)
    ensures SourcesOf(Flush(text) + [token] + rest) == text + (SourceOf(token) + SourcesOf(rest))
  {
    FlushSource(text);
    assert SourcesOf([token]) == SourceOf(token);
    SourcesConcat(Flush(text), [token]);
    SourcesConcat(Flush(text) + [token], rest);
    Concat3(text, SourceOf(token), SourcesOf(rest));
  }

  lemma {:induction false} SourcesFrom(s: Text, i: nat, text: Text)
    requires i <= |s|
    ensures SourcesOf(TokensFrom(s, i, text)) == text + s[i..]
    decreases |s| - i
  {
    hide ReadTag, SourcesOf, Flush;
    if i == |s| {
      FlushSource(text);
    } else if s[i] != LT || ReadTag(s, i).None? {
      SourcesFrom(s, i + 1, text + [s[i]]);
      assert s[i..] == [s[i]] + s[i + 1..];
      Concat3(text, [s[i]], s[i + 1..]);
    } else {
      var r := ReadTag(s, i).value;
      SourcesFrom(s, r.end, []);
      OneTokenLater(text, r.item, TokensFrom(s, r.end, []));
      assert s[i..] == s[i..r.end] + s[r.end..];
    }
  }

  /** Nothing is dropped: the tokens' sources concatenate to exactly the input. */
  lemma TokenizeIsTotal(source: Text)
    ensures SourcesOf(Tokenize(source)) == source
  {
    SourcesFrom(source, 0, []);
  }

  /** Plain text is accumulated, never tokenized. */
  lemma {:induction false} TextAccumulates(s: Text, i: nat, j: nat, text: Text)
    requires i <= j <= |s| && LT !in s[i..j]
    ensures TokensFrom(s, i, text) == TokensFrom(s, j, text + s[i..j])
    decreases j - i
  {
    if i == j {
      assert text + s[i..j] == text;
    } else {
      assert s[i] == s[i..j][0];
      assert s[i..j] == [s[i]] + s[i + 1..j];
      Concat3(text, [s[i]], s[i + 1..j]);
      TextAccumulates(s, i + 1, j, text + [s[i]]);
    }
  }
}

/** The index-advancing loops of the tokenizer. */
module HtmlReader {
  import opened Prelude
  import opened HtmlText
  import opened HtmlTokens

  /** `while (i < source.length && class(source[i])) i += 1`. */
  method Skip(cls: Class, source: Text, start: nat) returns (i: nat)
    requires start <= |source|
    ensures i == EndOf(cls, source, start)
  {
    i := start;
    while i < |source| && Is(cls, source[i])
      invariant i <= |source|
      invariant EndOf(cls, source, start) == EndOf(cls, source, i)
    {
      i := i + 1;
    }
  }

  method FindFrom(source: Text, c: int, start: nat) returns (close: Option<nat>)
    requires start <= |source|
    ensures close == IndexFrom(source, c, start)
  {
    var i := start;
    while i < |source| && source[i] != c
      invariant i <= |source|
      invariant IndexFrom(source, c, start) == IndexFrom(source, c, i)
    {
      i := i + 1;
    }
    close := if i < |source| then Some(i) else None;
  }

  method ReadValueAt(source: Text, start: nat) returns (r: Option<Read<Text>>)
    requires start <= |source|
    ensures r == ReadValue(source, start)
  {
    var i := Skip(HtmlSpace, source, start);
    if !UnitAt(source, i, EQUALS) {
      return Some(Read([], i));
    }
    i := Skip(HtmlSpace, source, i + 1);
    if UnitAt(source, i, QUOT) || UnitAt(source, i, APOS) {
      var close := FindFrom(source, source[i], i + 1);
      r := if close.None? then None else Some(Read(source[i + 1..close.value], close.value + 1));
    } else {
      var valueStart := i;
      i := Skip(Unquoted, source, i);
      r := Some(Read(source[valueStart..i], i));
    }
  }

  /** One round of readTag's attribute loop. */
  method AttrRoundAt(source: Text, i: nat, attrs: Attrs) returns (r: Round)
    requires i < |source|
    ensures r == AttrRound(source, i, attrs)
  {
    var c := source[i];
    if Is(HtmlSpace, c) {
      return Go(attrs, i + 1);
    }
    if c == GT {
      return Close;
    }
    if c == SLASH {
      return Go(attrs, i + 1);
    }
    var nameEnd := Skip(AttrName, source, i);
    if nameEnd == i {
      return Go(attrs, i + 1);
    }
    var v := ReadValueAt(source, nameEnd);
    r := if v.None? then Refuse else Go(Keep(attrs, Lower(source[i..nameEnd]), v.value.item), v.value.end);
  }

  method ReadAttrsAt(source: Text, start: nat) returns (r: Option<Read<Attrs>>)
    requires start <= |source|
    ensures r == ReadAttrs(source, start, map[])
  {
    var i := start;
    var attrs: Attrs := map[];
    while i < |source|
      invariant i <= |source|
      invariant ReadAttrs(source, start, map[]) == ReadAttrs(source, i, attrs)
    {
      var round := AttrRoundAt(source, i, attrs);
      match round {
        case Refuse => return None;
        case Close => return Some(Read(attrs, i + 1));
        case Go(more, next) => attrs, i := more, next;
      }
    }
    r := None;
  }

  /** readTag. */
  method ReadTagAt(source: Text, start: nat) returns (r: Option<Read<Token>>)
    requires UnitAt(source, start, LT)
    ensures r == ReadTag(source, start)
  {
    var i := start + 1;
    var closing := UnitAt(source, i, SLASH);
    if closing {
      i := i + 1;
    }
    var nameStart := i;
    if i >= |source| || !IsAlpha(source[i]) {
      return None;
    }
    i := Skip(TagName, source, i);
    var name := Lower(source[nameStart..i]);
    if closing {
      i := Skip(HtmlSpace, source, i);
      r := if UnitAt(source, i, GT) then Some(Read(EndTag(name, source[start..i + 1]), i + 1)) else None;
    } else {
      var attrs := ReadAttrsAt(source, i);
      r := if attrs.None? then None
           else Some(Read(StartTag(name, attrs.value.item, source[start..attrs.value.end]), attrs.value.end));
    }
  }

  /** tokenize. */
  method TokenizeSource(source: Text) returns (tokens: seq<Token>)
    ensures tokens == Tokenize(source)
    ensures SourcesOf(tokens) == source
  {
    TokenizeIsTotal(source);
    tokens := [];
    var text: Text := [];
    var i := 0;
    while i < |source|
      invariant i <= |source|
      invariant Tokenize(source) == tokens + TokensFrom(source, i, text)
    {
      if source[i] != LT {
        text := text + [source[i]];
        i := i + 1;
      } else {
        var tag := ReadTagAt(source, i);
        if tag.None? {
          text := text + [LT];
          i := i + 1;
        } else {
          tokens := tokens + Flush(text) + [tag.value.item];
          text := [];
          i := tag.value.end;
        }
      }
    }
    tokens := tokens + Flush(text);
  }
}
