/**
 Ids for imported questions: sanitizeId and uniqueId of packages/form-schema/src/xlsform-import.ts:153-174
 and 499-510. Trimming and Unicode folding are one parameter.
 */
module QuestionIds {
  import opened Prelude

  // ---------------------------------------------------------------- sanitizeId

  predicate IsWordChar(c: char) {
    'a' <= c <= 'z' || 'A' <= c <= 'Z' || IsDigit(c) || c == '_'
  }

  /** `.replace(/[^\w]/g, '_')`. */
  function OnlyWordChars(s: string): (r: string)
    ensures |r| == |s|
  {
    if s == "" then "" else [if IsWordChar(s[0]) then s[0] else '_'] + OnlyWordChars(s[1..])
  }

  /** `.replace(/_+/g, '_')`. */
  function Collapse(s: string): string {
    if s == "" then ""
    else if |s| > 1 && s[0] == '_' && s[1] == '_' then Collapse(s[1..])
    else [s[0]] + Collapse(s[1..])
  }

  /** `.replace(/^_+|_+$/g, '')`. */
  function Strip(s: string): string
    decreases |s|
  {
    if s != "" && s[0] == '_' then Strip(s[1..])
    else if s != "" && s[|s| - 1] == '_' then Strip(s[..|s| - 1])
    else s
  }

  function SanitizeId(raw: string, fold: string -> string): string {
    var s := Strip(Collapse(OnlyWordChars(fold(raw))));
    if s == "" then "" else if IsDigit(s[0]) then "q_" + s else s
  }

  predicate AllWord(s: string) {
    forall k :: 0 <= k < |s| ==> IsWordChar(s[k])
  }

  predicate NoDoubles(s: string) {
    forall k :: 0 < k < |s| ==> !(s[k - 1] == '_' && s[k] == '_')
  }

  /** A letter first, then letters, digits and single underscores, no underscore last. */
  predicate IsQuestionId(s: string) {
    s != "" && AllWord(s) && NoDoubles(s) && !IsDigit(s[0]) && s[0] != '_' && s[|s| - 1] != '_'
  }

  lemma {:induction false} OnlyWordCharsAre(s: string)
    ensures AllWord(OnlyWordChars(s))
    ensures AllWord(s) ==> OnlyWordChars(s) == s
  {
    if s != "" {
      OnlyWordCharsAre(s[1..]);
      assert AllWord(s) ==> AllWord(s[1..]);
    }
  }

  lemma {:induction false} CollapseLeavesSingles(s: string)
    requires AllWord(s)
    ensures AllWord(Collapse(s)) && NoDoubles(Collapse(s))
    ensures s != "" ==> Collapse(s) != "" && Collapse(s)[0] == s[0]
    ensures NoDoubles(s) ==> Collapse(s) == s
  {
    if s != "" {
      CollapseLeavesSingles(s[1..]);
      assert NoDoubles(s) && |s| > 1 ==> !(s[1 - 1] == '_' && s[1] == '_');
      assert NoDoubles(s) ==> NoDoubles(s[1..]) by {
        if NoDoubles(s) {
          forall k | 0 < k < |s[1..]| ensures !(s[1..][k - 1] == '_' && s[1..][k] == '_') {
            assert s[1..][k - 1] == s[k] && s[1..][k] == s[k + 1] && !(s[k + 1 - 1] == '_' && s[k + 1] == '_');
          }
        }
      }
    }
  }

  lemma {:induction false} StripKeeps(s: string)
    requires AllWord(s) && NoDoubles(s)
    ensures AllWord(Strip(s)) && NoDoubles(Strip(s))
    ensures Strip(s) != "" ==> Strip(s)[0] != '_' && Strip(s)[|Strip(s)| - 1] != '_'
    decreases |s|
  {
    if s != "" && s[0] == '_' {
      forall k | 0 < k < |s[1..]| ensures !(s[1..][k - 1] == '_' && s[1..][k] == '_') {
        assert s[1..][k - 1] == s[k] && s[1..][k] == s[k + 1] && !(s[k + 1 - 1] == '_' && s[k + 1] == '_');
      }
      StripKeeps(s[1..]);
    } else if s != "" && s[|s| - 1] == '_' {
      StripKeeps(s[..|s| - 1]);
    }
  }

  /** A sanitized id is empty or well formed, whatever the name column holds. */
  lemma SanitizedIsAnId(raw: string, fold: string -> string)
    ensures SanitizeId(raw, fold) == "" || IsQuestionId(SanitizeId(raw, fold))
  {
    var words := OnlyWordChars(fold(raw));
    OnlyWordCharsAre(fold(raw));
    CollapseLeavesSingles(words);
    StripKeeps(Collapse(words));
    var s := Strip(Collapse(words));
    if s != "" && IsDigit(s[0]) {
      var r := "q_" + s;
      assert r[0] == 'q' && r[1] == '_' && r[2..] == s;
      forall k | 0 < k < |r| ensures !(r[k - 1] == '_' && r[k] == '_') {
        if k >= 3 {
          assert r[k - 1] == s[k - 3] && r[k] == s[k - 2];
        }
      }
    }
  }

  /** Sanitizing what is already an id changes nothing. */
  lemma SanitizeIsIdempotent(raw: string, fold: string -> string)
    requires forall s :: AllWord(s) ==> fold(s) == s
    ensures var id := SanitizeId(raw, fold); SanitizeId(id, fold) == id
  {
    var id := SanitizeId(raw, fold);
    SanitizedIsAnId(raw, fold);
    if id == "" {
      assert AllWord(id);
    } else {
      OnlyWordCharsAre(id);
      CollapseLeavesSingles(id);
    }
  }

  // ---------------------------------------------------------------- uniqueId

  lemma {:induction false} DigitsAreInjective(m: nat, n: nat)
    requires NatDigits(m) == NatDigits(n)
    ensures m == n
    decreases m
  {
    var s, t := NatDigits(m), NatDigits(n);
    assert s[|s| - 1] == ('0' as int + m % 10) as char;
    assert t[|t| - 1] == ('0' as int + n % 10) as char;
    if m >= 10 && n >= 10 {
      assert NatDigits(m / 10) == s[..|s| - 1] && NatDigits(n / 10) == t[..|t| - 1];
      DigitsAreInjective(m / 10, n / 10);
    }
  }

  function Candidate(id: string, n: nat): string {
    id + "_" + NatDigits(n)
  }

  lemma CandidatesDiffer(id: string, m: nat, n: nat)
    requires Candidate(id, m) == Candidate(id, n)
    ensures m == n
  {
    assert Candidate(id, m)[|id| + 1..] == NatDigits(m);
    assert Candidate(id, n)[|id| + 1..] == NatDigits(n);
    DigitsAreInjective(m, n);
  }

  predicate IsTaken(id: string, n: nat, taken: set<string>) {
    Candidate(id, n) in taken
  }

  /** The first free candidate from n on; each one met is struck off, which is why the search ends. */
  function FirstFree(id: string, n: nat, taken: set<string>): string
    decreases |taken|
  {
    if Candidate(id, n) in taken then FirstFree(id, n + 1, taken - {Candidate(id, n)}) else Candidate(id, n)
  }

  function UniqueId(suggested: string, taken: set<string>, fold: string -> string): string {
    var s := SanitizeId(suggested, fold);
    var id := if s == "" then "q" else s;
    if id in taken then FirstFree(id, 2, taken) else id
  }

  lemma {:induction false} FirstFreeIsFree(id: string, n: nat, taken: set<string>)
    ensures exists m :: n <= m && FirstFree(id, n, taken) == Candidate(id, m) && !IsTaken(id, m, taken)
                        && forall k :: n <= k < m ==> IsTaken(id, k, taken)
    decreases |taken|
  {
    if IsTaken(id, n, taken) {
      var fewer := taken - {Candidate(id, n)};
      FirstFreeIsFree(id, n + 1, fewer);
      var m :| n + 1 <= m && FirstFree(id, n + 1, fewer) == Candidate(id, m) && !IsTaken(id, m, fewer)
               && forall k :: n + 1 <= k < m ==> IsTaken(id, k, fewer);
      if Candidate(id, m) == Candidate(id, n) {
        CandidatesDiffer(id, m, n);
      }
      assert !IsTaken(id, m, taken);
      forall k | n <= k < m ensures IsTaken(id, k, taken) {
        assert k > n ==> IsTaken(id, k, fewer);
      }
    } else {
      assert FirstFree(id, n, taken) == Candidate(id, n);
    }
  }

  /** The id handed out is free, and it is the sanitized name itself whenever that was free. */
  lemma UniqueIdIsFree(suggested: string, taken: set<string>, fold: string -> string)
    ensures UniqueId(suggested, taken, fold) !in taken
    ensures SanitizeId(suggested, fold) != "" && SanitizeId(suggested, fold) !in taken ==>
              UniqueId(suggested, taken, fold) == SanitizeId(suggested, fold)
  {
    hide SanitizeId;
    var s := SanitizeId(suggested, fold);
    FirstFreeIsFree(if s == "" then "q" else s, 2, taken);
  }

  /** The candidates from 2 up to but not including n. */
  function Passed(id: string, n: nat): set<string> {
    if n <= 2 then {} else Passed(id, n - 1) + {Candidate(id, n - 1)}
  }

  lemma {:induction false} LaterNotPassed(id: string, n: nat, m: nat)
    requires n <= m
    ensures Candidate(id, m) !in Passed(id, n)
  {
    hide Candidate;
    if n > 2 {
      LaterNotPassed(id, n - 1, m);
      if Candidate(id, m) == Candidate(id, n - 1) {
        CandidatesDiffer(id, m, n - 1);
      }
    }
  }

  /** Passing one more taken candidate: the search goes on over a smaller set. */
  lemma PassOne(id: string, n: nat, taken: set<string>)
    requires n >= 2 && Candidate(id, n) in taken && Passed(id, n) <= taken
    ensures Passed(id, n + 1) <= taken
    ensures FirstFree(id, n + 1, taken - Passed(id, n + 1)) == FirstFree(id, n, taken - Passed(id, n))
    ensures |taken - Passed(id, n + 1)| < |taken - Passed(id, n)|
  {
    hide Candidate;
    LaterNotPassed(id, n, n);
    var left := taken - Passed(id, n);
    assert left - {Candidate(id, n)} == taken - Passed(id, n + 1);
    Smaller(left, Candidate(id, n));
  }

  lemma StopAt(id: string, n: nat, taken: set<string>)
    requires n >= 2 && Candidate(id, n) !in taken
    ensures FirstFree(id, n, taken - Passed(id, n)) == Candidate(id, n)
  {
  }

  lemma StartSearch(id: string, taken: set<string>)
    ensures Passed(id, 2) == {} && taken - Passed(id, 2) == taken
  {
  }

  /** The renaming loop. Every candidate it passes is another member of the finite set of taken ids. */
  method TakeUniqueId(suggested: string, idsTaken: set<string>, fold: string -> string) returns (candidate: string, taken: set<string>)
    ensures candidate == UniqueId(suggested, idsTaken, fold)
    ensures taken == idsTaken + {candidate}
  {
    hide SanitizeId, Candidate, Passed, FirstFree;
    var id := SanitizeId(suggested, fold);
    if id == "" {
      id := "q";
    }
    candidate := id;
    var n := 2;
    StartSearch(id, idsTaken);
    while candidate in idsTaken
      invariant n >= 2 && candidate == if n == 2 then id else Candidate(id, n - 1)
      invariant n > 2 ==> id in idsTaken && Passed(id, n - 1) <= idsTaken
      invariant n > 2 ==> FirstFree(id, n - 1, idsTaken - Passed(id, n - 1)) == FirstFree(id, 2, idsTaken)
      decreases if n == 2 then 1 else 0, if n == 2 then 0 else |idsTaken - Passed(id, n - 1)|
    {
      if n > 2 {
        PassOne(id, n - 1, idsTaken);
      }
      candidate := Candidate(id, n);
      n := n + 1;
    }
    if n > 2 {
      StopAt(id, n - 1, idsTaken);
    }
    taken := idsTaken + {candidate};
  }

  lemma Smaller(s: set<string>, x: string)
    requires x in s
    ensures |s - {x}| < |s|
  {
  }
}
