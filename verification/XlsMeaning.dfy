/**
 What the importer makes of a name and of a row, read off the cells: sanitizeId, uniqueId and the row
 types of packages/form-schema/src/xlsform-import.ts:153-235 and 499-510.
 */
module XlsMeaning {
  import opened Prelude
  import opened QuestionIds
  import opened XlsForm

  // ---------------------------------------------------------------- the words of a name

  predicate IsPlain(c: char) {
    IsWordChar(c) && c != '_'
  }

  predicate IsJunk(s: string) {
    forall k :: 0 <= k < |s| ==> !IsPlain(s[k])
  }

  predicate IsRun(s: string) {
    s != "" && forall k :: 0 <= k < |s| ==> IsPlain(s[k])
  }

  /** A run of letters and digits, and what stands before it. */
  datatype Word = Word(gap: string, run: string)

  /** Only the first word may follow on nothing. */
  predicate AreWords(words: seq<Word>) {
    && (forall k :: 0 <= k < |words| ==> IsJunk(words[k].gap) && IsRun(words[k].run))
    && (forall k :: 1 <= k < |words| ==> words[k].gap != "")
  }

  function Spelled(words: seq<Word>, trail: string): string {
    if words == [] then trail else words[0].gap + (words[0].run + Spelled(words[1..], trail))
  }

  /** The words with one underscore between them. */
  function Underscored(words: seq<Word>): string {
    if words == [] then ""
    else if |words| == 1 then words[0].run
    else words[0].run + ("_" + Underscored(words[1..]))
  }

  function Bar(gap: string): string {
    if gap == "" then "" else "_"
  }

  lemma {:induction false} OnlyWordCharsOfConcat(s: string, t: string)
    ensures OnlyWordChars(s + t) == OnlyWordChars(s) + OnlyWordChars(t)
  {
    if s == "" {
      assert s + t == t;
    } else {
      assert (s + t)[1..] == s[1..] + t;
      OnlyWordCharsOfConcat(s[1..], t);
    }
  }

  lemma {:induction false} JunkIsBars(s: string)
    requires IsJunk(s)
    ensures forall k :: 0 <= k < |s| ==> OnlyWordChars(s)[k] == '_'
  {
    if s != "" {
      JunkIsBars(s[1..]);
    }
  }

  lemma {:induction false} CollapseBars(bars: string, rest: string)
    requires bars != "" && (forall k :: 0 <= k < |bars| ==> bars[k] == '_') && (rest == "" || rest[0] != '_')
    ensures Collapse(bars + rest) == "_" + Collapse(rest)
  {
    assert (bars + rest)[1..] == bars[1..] + rest;
    if |bars| > 1 {
      CollapseBars(bars[1..], rest);
    } else {
      assert bars[1..] + rest == rest;
    }
  }

  lemma {:induction false} CollapseRun(run: string, rest: string)
    requires forall k :: 0 <= k < |run| ==> IsPlain(run[k])
    ensures Collapse(run + rest) == run + Collapse(rest)
  {
    if run == "" {
      assert run + rest == rest;
    } else {
      assert (run + rest)[1..] == run[1..] + rest;
      CollapseRun(run[1..], rest);
      assert run == [run[0]] + run[1..];
    }
  }

  function Squeezed(s: string): string {
    Collapse(OnlyWordChars(s))
  }

  lemma {:induction false} SqueezeGap(gap: string, rest: string)
    requires IsJunk(gap) && (rest == "" || IsPlain(rest[0]))
    ensures Squeezed(gap + rest) == Bar(gap) + Squeezed(rest)
  {
    OnlyWordCharsOfConcat(gap, rest);
    JunkIsBars(gap);
    if gap == "" {
      assert gap + rest == rest;
    } else {
      CollapseBars(OnlyWordChars(gap), OnlyWordChars(rest));
    }
  }

  lemma SqueezeRun(run: string, rest: string)
    requires IsRun(run)
    ensures Squeezed(run + rest) == run + Squeezed(rest)
  {
    OnlyWordCharsOfConcat(run, rest);
    OnlyWordCharsAre(run);
    assert AllWord(run);
    CollapseRun(run, OnlyWordChars(rest));
  }

  lemma {:induction false} SqueezeWords(words: seq<Word>, trail: string)
    requires AreWords(words) && words != [] && IsJunk(trail)
    ensures Squeezed(Spelled(words, trail)) == Bar(words[0].gap) + (Underscored(words) + Bar(trail))
  {
    hide Squeezed;
    var w, rest := words[0], Spelled(words[1..], trail);
    SqueezeGap(w.gap, w.run + rest);
    SqueezeRun(w.run, rest);
    if |words| > 1 {
      SqueezeWords(words[1..], trail);
    } else {
      assert trail + "" == trail;
      SqueezeGap(trail, "");
      assert Squeezed("") == "" by {
        SqueezeNothing();
      }
    }
  }

  lemma SqueezeNothing()
    ensures Squeezed("") == ""
  {
  }

  lemma {:induction false} UnderscoredEnds(words: seq<Word>)
    requires AreWords(words) && words != []
    ensures var u := Underscored(words); u != "" && u[0] == words[0].run[0] && IsPlain(u[0]) && IsPlain(u[|u| - 1])
  {
    if |words| > 1 {
      UnderscoredEnds(words[1..]);
    }
  }

  lemma StripBars(lead: string, u: string, trail: string)
    requires u != "" && u[0] != '_' && u[|u| - 1] != '_'
    ensures Strip(Bar(lead) + (u + Bar(trail))) == u
  {
    var s := u + Bar(trail);
    assert Strip(u) == u;
    assert trail != "" ==> s[..|s| - 1] == u;
    assert trail == "" ==> s == u;
    assert Strip(s) == u;
    assert lead != "" ==> (Bar(lead) + s)[1..] == s;
    assert lead == "" ==> Bar(lead) + s == s;
  }

  /** A name becomes its words with single underscores between them, whatever stood between, before or
      after; a first digit gets "q_" in front, and a name without a word becomes nothing. */
  lemma NameMeans(raw: string, words: seq<Word>, trail: string, fold: string -> string)
    requires AreWords(words) && IsJunk(trail) && fold(raw) == Spelled(words, trail)
    ensures SanitizeId(raw, fold) ==
            if words == [] then "" else if IsDigit(words[0].run[0]) then "q_" + Underscored(words) else Underscored(words)
  {
    if words == [] {
      assert trail + "" == trail;
      SqueezeGap(trail, "");
      assert Strip("") == "" && Strip("_") == "";
    } else {
      SqueezeWords(words, trail);
      UnderscoredEnds(words);
      StripBars(words[0].gap, Underscored(words), trail);
    }
  }

  /** Every text is such words and a trail. */
  lemma {:induction false} EveryTextHasWords(s: string) returns (words: seq<Word>, trail: string)
    ensures AreWords(words) && IsJunk(trail) && s == Spelled(words, trail)
  {
    if s == "" {
      words, trail := [], "";
    } else {
      words, trail := EveryTextHasWords(s[1..]);
      var c := s[..1];
      assert s == c + s[1..];
      if !IsPlain(s[0]) && words == [] {
        trail := c + trail;
      } else if !IsPlain(s[0]) {
        words := [words[0].(gap := c + words[0].gap)] + words[1..];
      } else if words != [] && words[0].gap == "" {
        words := [words[0].(run := c + words[0].run)] + words[1..];
      } else {
        assert ([Word("", c)] + words)[1..] == words;
        words := [Word("", c)] + words;
      }
    }
  }

  // ---------------------------------------------------------------- the numbered ids

  function NatOf(s: string): nat
    requires AllDigits(s)
  {
    if s == "" then 0 else 10 * NatOf(s[..|s| - 1]) + (s[|s| - 1] as int - '0' as int)
  }

  lemma {:induction false} NatDigitsMean(n: nat)
    ensures NatOf(NatDigits(n)) == n && (NatDigits(n)[0] == '0' ==> n == 0)
  {
    var s := NatDigits(n);
    if n >= 10 {
      NatDigitsMean(n / 10);
      assert s[..|s| - 1] == NatDigits(n / 10);
      assert s[0] == NatDigits(n / 10)[0];
    }
  }

  /** The id is the sanitized name ("q" for an empty one), or the first of name_2, name_3, ... that is free. */
  lemma UniqueIdMeans(suggested: string, taken: set<string>, fold: string -> string)
    ensures var id := if SanitizeId(suggested, fold) == "" then "q" else SanitizeId(suggested, fold);
            && (id !in taken ==> UniqueId(suggested, taken, fold) == id)
            && (id in taken ==> exists n :: n >= 2 && UniqueId(suggested, taken, fold) == Candidate(id, n) && !IsTaken(id, n, taken)
                                           && forall k :: 2 <= k < n ==> IsTaken(id, k, taken))
  {
    hide SanitizeId, Candidate, IsTaken;
    var id := if SanitizeId(suggested, fold) == "" then "q" else SanitizeId(suggested, fold);
    FirstFreeIsFree(id, 2, taken);
  }

  // ---------------------------------------------------------------- rows

  /** What one row adds, for every type cell. */
  lemma RowMeans(s: Scan, row: Row, i: nat, v: Vocabulary)
    ensures row.typ == "" || row.typ in META_TYPES ==> Read(s, row, i, v) == s
    ensures row.typ in {"begin_group", "begin group"} ==>
              Adds(s, Read(s, row, i, v), Open(Head(NewId(s, row, "group_", i, v), "group", false, i)))
    ensures row.typ in {"begin_repeat", "begin repeat"} ==>
              Adds(s, Read(s, row, i, v), Open(Head(NewId(s, row, "repeat_", i, v), "group", true, i)))
    ensures row.typ in {"end_group", "end group", "end_repeat", "end repeat"} ==>
              Read(s, row, i, v) == Scan(s.tokens + [Close], s.taken, s.warnings)
    ensures IsQuestionRow(row) && v.mapType(v.typeKey(row.typ)).None? ==>
              Read(s, row, i, v) == Scan(s.tokens, s.taken, s.warnings + [UnsupportedType(i + 2)])
    ensures IsQuestionRow(row) && v.mapType(v.typeKey(row.typ)).Some? ==>
              var typ := v.refine(v.mapType(v.typeKey(row.typ)).value, row.appearance);
              Adds(s, Read(s, row, i, v), Item(Head(NewId(s, row, "q_", i, v), typ, false, i)))
  {
    if row.typ in META_TYPES {
      MetaRowsAreNoMarkers(row);
    }
    hide UniqueId, NatDigits;
  }

  /** Neither empty, a marker nor metadata. */
  predicate IsQuestionRow(row: Row) {
    && row.typ != "" && row.typ !in META_TYPES
    && row.typ !in {"begin_group", "begin group", "begin_repeat", "begin repeat", "end_group", "end group", "end_repeat", "end repeat"}
  }

  lemma MetaRowsAreNoMarkers(row: Row)
    requires row.typ in META_TYPES
    ensures row.typ !in {"begin_group", "begin group", "begin_repeat", "begin repeat", "end_group", "end group", "end_repeat", "end repeat"}
  {
    assert |row.typ| >= 3 && row.typ[0] != 'b' && (row.typ[0] == 'e' ==> |row.typ| <= 5);
  }

  function NewId(s: Scan, row: Row, fallback: string, i: nat, v: Vocabulary): string {
    UniqueId(if row.name.Some? then row.name.value else fallback + NatDigits(i + 1), s.taken, v.fold)
  }

  predicate Adds(s: Scan, s': Scan, t: Token)
    requires !t.Close?
  {
    s' == Scan(s.tokens + [t], s.taken + {t.head.id}, s.warnings)
  }

  /** The code units `\w` matches. */
  lemma WordCharsMean(c: char)
    ensures IsWordChar(c) <==> var u := c as int; 48 <= u < 58 || 65 <= u < 91 || u == 95 || 97 <= u < 123
  {
  }
}
