/**
 Calculated answers: walkQuestions and applyCalculations of packages/form-schema/src/index.ts:1498-1507
 and 2304-2328. One pass evaluates every calculation against the response as it was before the pass,
 so a chain of calculations needs one pass per link.
 */
module FormCalculations {
  import opened Prelude
  import opened FormExpr
  import opened FormState

  datatype Calc = Calc(id: string, expr: Expr)

  /** The calculations in walkQuestions order: repeat children included, like any others. */
  function Calcs(qs: seq<Question>): seq<Calc>
    decreases qs, 0
  {
    if qs == [] then [] else CalcsOf(qs[0]) + Calcs(qs[1..])
  }

  function CalcsOf(q: Question): seq<Calc>
    decreases q, 1
  {
    (if q.calculate.Some? then [Calc(q.id, q.calculate.value)] else [])
    + if q.kind.Group? then Calcs(q.children) else []
  }

  /** The writes of one pass: `computed` comes from `before`, the comparison from the running copy. */
  function Written(calcs: seq<Calc>, next: Response, before: Response, host: Host, clock: Clock): Response {
    if calcs == [] then next
    else
      var computed := Evaluate(calcs[0].expr, before, host, clock);
      Written(calcs[1..], if Get(next, calcs[0].id) == computed then next else next[calcs[0].id := computed], before, host, clock)
  }

  function Pass(calcs: seq<Calc>, r: Response, host: Host, clock: Clock): Response {
    Written(calcs, r, r, host, clock)
  }

  /** The loop of applyCalculations over the walked questions. `changed` is false when the very
      response that came in is handed back. */
  method ApplyCalculations(qs: seq<Question>, response: Response, host: Host, clock: Clock) returns (next: Response, changed: bool)
    ensures next == Pass(Calcs(qs), response, host, clock)
    ensures !changed ==> next == response
    ensures !changed <==> forall k :: 0 <= k < |Calcs(qs)| ==> Solves(Calcs(qs)[k], response, host, clock)
  {
    hide Evaluate, Calcs;
    var calcs := Calcs(qs);
    next, changed := response, false;
    for n := 0 to |calcs|
      invariant Written(calcs[n..], next, response, host, clock) == Pass(calcs, response, host, clock)
      invariant !changed ==> next == response
      invariant !changed <==> forall k :: 0 <= k < n ==> Solves(calcs[k], response, host, clock)
    {
      assert calcs[n..][0] == calcs[n] && calcs[n..][1..] == calcs[n + 1..];
      var computed := Evaluate(calcs[n].expr, response, host, clock);
      if Get(next, calcs[n].id) != computed {
        if !changed {
          changed := true;
        }
        next := next[calcs[n].id := computed];
      }
    }
    assert calcs[|calcs|..] == [];
  }

  // ---------------------------------------------------------------- one pass

  predicate Distinct(calcs: seq<Calc>) {
    forall i, j :: 0 <= i < j < |calcs| ==> calcs[i].id != calcs[j].id
  }

  predicate Computes(calcs: seq<Calc>, id: string) {
    exists k :: 0 <= k < |calcs| && calcs[k].id == id
  }

  /** The stored answer is what the calculation says. */
  predicate Solves(c: Calc, r: Response, host: Host, clock: Clock) {
    Get(r, c.id) == Evaluate(c.expr, r, host, clock)
  }

  lemma ComputesTail(calcs: seq<Calc>, id: string)
    requires calcs != [] && Computes(calcs[1..], id)
    ensures Computes(calcs, id)
  {
    var k :| 0 <= k < |calcs[1..]| && calcs[1..][k].id == id;
    assert calcs[k + 1].id == id;
  }

  lemma {:induction false} WrittenAt(calcs: seq<Calc>, next: Response, before: Response, host: Host, clock: Clock)
    requires Distinct(calcs)
    ensures var after := Written(calcs, next, before, host, clock);
            && (forall k :: 0 <= k < |calcs| ==> Get(after, calcs[k].id) == Evaluate(calcs[k].expr, before, host, clock))
            && (forall id :: !Computes(calcs, id) ==> Get(after, id) == Get(next, id))
  {
    hide Evaluate;
    if calcs != [] {
      var computed := Evaluate(calcs[0].expr, before, host, clock);
      var next' := if Get(next, calcs[0].id) == computed then next else next[calcs[0].id := computed];
      WrittenAt(calcs[1..], next', before, host, clock);
      assert !Computes(calcs[1..], calcs[0].id);
      var after := Written(calcs, next, before, host, clock);
      forall k | 0 <= k < |calcs| ensures Get(after, calcs[k].id) == Evaluate(calcs[k].expr, before, host, clock) {
        if k > 0 {
          assert calcs[k] == calcs[1..][k - 1];
        }
      }
      forall id | !Computes(calcs, id) ensures Get(after, id) == Get(next, id) {
        if Computes(calcs[1..], id) {
          ComputesTail(calcs, id);
        }
        assert id != calcs[0].id;
      }
    }
  }

  lemma {:induction false} NothingToWrite(calcs: seq<Calc>, next: Response, before: Response, host: Host, clock: Clock)
    requires forall k :: 0 <= k < |calcs| ==> Get(next, calcs[k].id) == Evaluate(calcs[k].expr, before, host, clock)
    ensures Written(calcs, next, before, host, clock) == next
  {
    hide Evaluate;
    if calcs != [] {
      NothingToWrite(calcs[1..], next, before, host, clock);
    }
  }

  /** A pass is the identity exactly when every calculation already holds. */
  lemma FixedIffSolved(calcs: seq<Calc>, r: Response, host: Host, clock: Clock)
    requires Distinct(calcs)
    ensures Pass(calcs, r, host, clock) == r <==> forall k :: 0 <= k < |calcs| ==> Solves(calcs[k], r, host, clock)
  {
    hide Evaluate;
    WrittenAt(calcs, r, r, host, clock);
    if forall k :: 0 <= k < |calcs| ==> Solves(calcs[k], r, host, clock) {
      NothingToWrite(calcs, r, r, host, clock);
    }
  }

  // ---------------------------------------------------------------- many passes

  /** The response after n passes; pass m runs at clocks(m). */
  function Passes(calcs: seq<Calc>, r: Response, host: Host, clocks: nat -> Clock, n: nat): Response {
    if n == 0 then r else Pass(calcs, Passes(calcs, r, host, clocks, n - 1), host, clocks(n - 1))
  }

  /** A calculation that reads another one ranks above it, and ranks stay below k: the reference
      graph is acyclic and its longest chain has at most k calculations. */
  ghost predicate Ranked(calcs: seq<Calc>, rank: string -> nat, k: nat) {
    && (forall i :: 0 <= i < |calcs| ==> rank(calcs[i].id) < k)
    && (forall i, j :: 0 <= i < |calcs| && 0 <= j < |calcs| && calcs[j].id in Refs(calcs[i].expr) ==>
          rank(calcs[j].id) < rank(calcs[i].id))
  }

  predicate Timeless(calcs: seq<Calc>) {
    forall i :: 0 <= i < |calcs| ==> Calls(calcs[i].expr) !! CLOCK_BUILTINS
  }

  /** `s` leaves the answers alone and satisfies every calculation. */
  ghost predicate IsSolution(calcs: seq<Calc>, r: Response, s: Response, host: Host, clock: Clock) {
    && (forall k :: 0 <= k < |calcs| ==> Solves(calcs[k], s, host, clock))
    && (forall id :: !Computes(calcs, id) ==> Get(s, id) == Get(r, id))
  }

  lemma {:induction false} AnswersNeverChange(calcs: seq<Calc>, r: Response, host: Host, clocks: nat -> Clock, n: nat, id: string)
    requires Distinct(calcs) && !Computes(calcs, id)
    ensures Get(Passes(calcs, r, host, clocks, n), id) == Get(r, id)
  {
    hide Evaluate, Written;
    if n > 0 {
      var before := Passes(calcs, r, host, clocks, n - 1);
      AnswersNeverChange(calcs, r, host, clocks, n - 1, id);
      WrittenAt(calcs, before, before, host, clocks(n - 1));
    }
  }

  lemma PassComputes(calcs: seq<Calc>, r: Response, host: Host, clocks: nat -> Clock, n: nat, i: nat)
    requires Distinct(calcs) && n > 0 && i < |calcs|
    ensures Get(Passes(calcs, r, host, clocks, n), calcs[i].id)
         == Evaluate(calcs[i].expr, Passes(calcs, r, host, clocks, n - 1), host, clocks(n - 1))
  {
    var before := Passes(calcs, r, host, clocks, n - 1);
    WrittenAt(calcs, before, before, host, clocks(n - 1));
  }

  /** After m passes a calculation ranked below m holds the same value as in any later pass: two runs
      from the same answers agree on it. */
  lemma {:induction false} LowRanksAgree(calcs: seq<Calc>, r: Response, host: Host, c1: nat -> Clock, c2: nat -> Clock,
                                         rank: string -> nat, k: nat, m: nat, n: nat, i: nat)
    requires Distinct(calcs) && Timeless(calcs) && Ranked(calcs, rank, k)
    requires i < |calcs| && rank(calcs[i].id) < m && rank(calcs[i].id) < n
    ensures Get(Passes(calcs, r, host, c1, m), calcs[i].id) == Get(Passes(calcs, r, host, c2, n), calcs[i].id)
    decreases rank(calcs[i].id)
  {
    hide Evaluate, Pass, Passes, Refs, Calls;
    var r1, r2 := Passes(calcs, r, host, c1, m - 1), Passes(calcs, r, host, c2, n - 1);
    forall id | id in Refs(calcs[i].expr) ensures Lookup(r1, id) == Lookup(r2, id) {
      if Computes(calcs, id) {
        var j :| 0 <= j < |calcs| && calcs[j].id == id;
        LowRanksAgree(calcs, r, host, c1, c2, rank, k, m - 1, n - 1, j);
      } else {
        AnswersNeverChange(calcs, r, host, c1, m - 1, id);
        AnswersNeverChange(calcs, r, host, c2, n - 1, id);
      }
    }
    EvaluateDependsOnRefs(calcs[i].expr, r1, r2, host, c1(m - 1), c2(n - 1));
    PassComputes(calcs, r, host, c1, m, i);
    PassComputes(calcs, r, host, c2, n, i);
  }

  lemma KthPassSolves(calcs: seq<Calc>, r: Response, host: Host, clocks: nat -> Clock, rank: string -> nat, k: nat, n: nat, i: nat, now: Clock)
    requires Distinct(calcs) && Timeless(calcs) && Ranked(calcs, rank, k) && k <= n && i < |calcs|
    ensures Solves(calcs[i], Passes(calcs, r, host, clocks, n), host, now)
  {
    hide Evaluate, Pass, Passes, Refs, Calls;
    assert 0 < k;
    var last, before := Passes(calcs, r, host, clocks, n), Passes(calcs, r, host, clocks, n - 1);
    forall id | id in Refs(calcs[i].expr) ensures Lookup(before, id) == Lookup(last, id) {
      if Computes(calcs, id) {
        var j :| 0 <= j < |calcs| && calcs[j].id == id;
        LowRanksAgree(calcs, r, host, clocks, clocks, rank, k, n - 1, n, j);
      } else {
        AnswersNeverChange(calcs, r, host, clocks, n - 1, id);
        AnswersNeverChange(calcs, r, host, clocks, n, id);
      }
    }
    EvaluateDependsOnRefs(calcs[i].expr, before, last, host, clocks(n - 1), now);
    PassComputes(calcs, r, host, clocks, n, i);
  }

  /** k passes reach a fixed point: from then on every pass, at whatever time, changes nothing, and
      the response solves every calculation while leaving the answers alone. */
  lemma PassesSettle(calcs: seq<Calc>, r: Response, host: Host, clocks: nat -> Clock, rank: string -> nat, k: nat, n: nat, now: Clock)
    requires Distinct(calcs) && Timeless(calcs) && Ranked(calcs, rank, k) && k <= n
    ensures Pass(calcs, Passes(calcs, r, host, clocks, n), host, now) == Passes(calcs, r, host, clocks, n)
    ensures Passes(calcs, r, host, clocks, n) == Passes(calcs, r, host, clocks, k)
    ensures IsSolution(calcs, r, Passes(calcs, r, host, clocks, n), host, now)
    decreases n
  {
    hide Evaluate, Pass, Solves;
    var settled := Passes(calcs, r, host, clocks, n);
    forall i | 0 <= i < |calcs| ensures Solves(calcs[i], settled, host, now) {
      KthPassSolves(calcs, r, host, clocks, rank, k, n, i, now);
    }
    forall id | !Computes(calcs, id) ensures Get(settled, id) == Get(r, id) {
      AnswersNeverChange(calcs, r, host, clocks, n, id);
    }
    FixedIffSolved(calcs, settled, host, now);
    if k < n {
      PassesSettle(calcs, r, host, clocks, rank, k, n - 1, clocks(n - 1));
    }
  }

  /** The settled response is the only one that solves the calculations over the same answers. */
  lemma SolutionIsUnique(calcs: seq<Calc>, r: Response, s1: Response, s2: Response, host: Host, c1: Clock, c2: Clock,
                         rank: string -> nat, k: nat, id: string)
    requires Distinct(calcs) && Timeless(calcs) && Ranked(calcs, rank, k)
    requires IsSolution(calcs, r, s1, host, c1) && IsSolution(calcs, r, s2, host, c2)
    ensures Get(s1, id) == Get(s2, id)
    decreases rank(id)
  {
    hide Evaluate;
    if Computes(calcs, id) {
      var i :| 0 <= i < |calcs| && calcs[i].id == id;
      var refs := Refs(calcs[i].expr);
      forall ref | ref in refs ensures Lookup(s1, ref) == Lookup(s2, ref) {
        if Computes(calcs, ref) {
          SolutionIsUnique(calcs, r, s1, s2, host, c1, c2, rank, k, ref);
        }
      }
      EvaluateDependsOnRefs(calcs[i].expr, s1, s2, host, c1, c2);
      assert Solves(calcs[i], s1, host, c1) && Solves(calcs[i], s2, host, c2);
    }
  }

  // ---------------------------------------------------------------- reference chains

  /** Positions of calculations, each of which reads the next one. */
  ghost predicate IsChain(calcs: seq<Calc>, path: seq<nat>) {
    && (forall m :: 0 <= m < |path| ==> path[m] < |calcs|)
    && (forall m :: 0 <= m < |path| - 1 ==> calcs[path[m + 1]].id in Refs(calcs[path[m]].expr))
  }

  ghost predicate ChainsUpTo(calcs: seq<Calc>, k: nat) {
    forall path :: IsChain(calcs, path) ==> |path| <= k
  }

  /** No calculation reads itself, directly or through others. */
  ghost predicate Acyclic(calcs: seq<Calc>) {
    forall path :: IsChain(calcs, path) && |path| > 1 ==> path[0] != path[|path| - 1]
  }

  ghost predicate StartsChain(calcs: seq<Calc>, i: nat, n: nat) {
    exists path :: IsChain(calcs, path) && |path| == n && n > 0 && path[0] == i
  }

  /** The length of the longest chain from a calculation, looked for from n down. */
  ghost function Longest(calcs: seq<Calc>, i: nat, n: nat): (l: nat)
    ensures l <= n
    ensures l > 0 ==> StartsChain(calcs, i, l)
    ensures forall m :: l < m <= n ==> !StartsChain(calcs, i, m)
  {
    if n == 0 then 0 else if StartsChain(calcs, i, n) then n else Longest(calcs, i, n - 1)
  }

  ghost function RankOf(calcs: seq<Calc>, k: nat, id: string): nat {
    if i :| 0 <= i < |calcs| && calcs[i].id == id then Max(Longest(calcs, i, k) - 1, 0) else 0
  }

  lemma ChainStarts(calcs: seq<Calc>, i: nat, k: nat)
    requires i < |calcs| && ChainsUpTo(calcs, k)
    ensures 1 <= Longest(calcs, i, k) <= k
  {
    hide Refs;
    assert IsChain(calcs, [i]);
    assert StartsChain(calcs, i, 1);
  }

  lemma ReaderStartsLongerChain(calcs: seq<Calc>, i: nat, j: nat, k: nat)
    requires i < |calcs| && j < |calcs| && ChainsUpTo(calcs, k) && calcs[j].id in Refs(calcs[i].expr)
    ensures Longest(calcs, j, k) < Longest(calcs, i, k)
  {
    hide Refs;
    ChainStarts(calcs, j, k);
    var l := Longest(calcs, j, k);
    var path :| IsChain(calcs, path) && |path| == l && path[0] == j;
    var longer := [i] + path;
    assert forall m :: 0 < m < |longer| ==> longer[m] == path[m - 1];
    assert IsChain(calcs, longer);
    assert StartsChain(calcs, i, l + 1);
  }

  lemma {:induction false} RanksBoundChains(calcs: seq<Calc>, rank: string -> nat, k: nat, path: seq<nat>)
    requires Ranked(calcs, rank, k) && IsChain(calcs, path) && path != []
    ensures |path| <= rank(calcs[path[0]].id) + 1 <= k
    ensures |path| > 1 ==> rank(calcs[path[|path| - 1]].id) < rank(calcs[path[0]].id)
    decreases |path|
  {
    hide Refs;
    if |path| > 1 {
      assert calcs[path[0 + 1]].id in Refs(calcs[path[0]].expr);
      assert forall m :: 0 <= m < |path[1..]| ==> path[1..][m] == path[m + 1];
      RanksBoundChains(calcs, rank, k, path[1..]);
    }
  }

  /** The ranking the proofs go by exists exactly when no reference chain is longer than k. */
  lemma RankedIffChains(calcs: seq<Calc>, k: nat)
    requires Distinct(calcs)
    ensures ChainsUpTo(calcs, k) <==> exists rank :: Ranked(calcs, rank, k)
  {
    hide Refs;
    if ChainsUpTo(calcs, k) {
      var rank := (id: string) => RankOf(calcs, k, id);
      forall i | 0 <= i < |calcs| ensures rank(calcs[i].id) == Longest(calcs, i, k) - 1 && rank(calcs[i].id) < k {
        ChainStarts(calcs, i, k);
      }
      forall i, j | 0 <= i < |calcs| && 0 <= j < |calcs| && calcs[j].id in Refs(calcs[i].expr)
        ensures rank(calcs[j].id) < rank(calcs[i].id)
      {
        ReaderStartsLongerChain(calcs, i, j, k);
      }
      assert Ranked(calcs, rank, k);
    }
    if rank :| Ranked(calcs, rank, k) {
      forall path | IsChain(calcs, path) ensures |path| <= k {
        if path != [] {
          RanksBoundChains(calcs, rank, k, path);
        }
      }
    }
  }

  lemma DistinctFit(path: seq<nat>, n: nat)
    requires forall m :: 0 <= m < |path| ==> path[m] < n
    requires forall a, b :: 0 <= a < b < |path| ==> path[a] != path[b]
    ensures |path| <= n
  {
    var used := set m: nat | m < |path| :: path[m];
    SetOfDistinct(path);
    SubsetSize(used, Below(n));
  }

  function Below(n: nat): (s: set<nat>)
    ensures |s| == n && forall m: nat :: m in s <==> m < n
  {
    if n == 0 then {} else Below(n - 1) + {n - 1}
  }

  lemma {:induction false} SetOfDistinct(path: seq<nat>)
    requires forall a, b :: 0 <= a < b < |path| ==> path[a] != path[b]
    ensures |set m: nat | m < |path| :: path[m]| == |path|
  {
    if path != [] {
      var init := path[..|path| - 1];
      SetOfDistinct(init);
      var a, b := (set m: nat | m < |path| :: path[m]), (set m: nat | m < |init| :: init[m]);
      var last := path[|path| - 1];
      forall x | x in b + {last} ensures x in a {
        if x in b {
          var m: nat :| m < |init| && init[m] == x;
          assert path[m] == x;
        }
      }
      forall x | x in a ensures x in b + {last} {
        var m: nat :| m < |path| && path[m] == x;
        assert m < |init| ==> init[m] == x;
      }
      assert a == b + {last};
    }
  }

  /** An acyclic reference graph is one whose chains are bounded, and the number of calculations is then
      a bound. */
  lemma AcyclicIffBounded(calcs: seq<Calc>)
    requires Distinct(calcs)
    ensures Acyclic(calcs) <==> ChainsUpTo(calcs, |calcs|)
    ensures Acyclic(calcs) <==> exists k :: ChainsUpTo(calcs, k)
  {
    hide Refs;
    if Acyclic(calcs) {
      forall path | IsChain(calcs, path) ensures |path| <= |calcs| {
        forall a, b | 0 <= a < b < |path| ensures path[a] != path[b] {
          var part := path[a..b + 1];
          assert forall m :: 0 <= m < |part| ==> part[m] == path[a + m];
          assert IsChain(calcs, part);
        }
        DistinctFit(path, |calcs|);
      }
    }
    if k :| ChainsUpTo(calcs, k) {
      RankedIffChains(calcs, k);
      var rank :| Ranked(calcs, rank, k);
      forall path | IsChain(calcs, path) && |path| > 1 ensures path[0] != path[|path| - 1] {
        RanksBoundChains(calcs, rank, k, path);
      }
    }
  }

  /** With reference chains of at most k calculations, k passes settle: from then on every pass, at
      whatever time, changes nothing, and the response is the one solution over the same answers. */
  lemma ChainsSettle(calcs: seq<Calc>, r: Response, host: Host, clocks: nat -> Clock, k: nat, n: nat, now: Clock)
    requires Distinct(calcs) && Timeless(calcs) && ChainsUpTo(calcs, k) && k <= n
    ensures Pass(calcs, Passes(calcs, r, host, clocks, n), host, now) == Passes(calcs, r, host, clocks, n)
    ensures Passes(calcs, r, host, clocks, n) == Passes(calcs, r, host, clocks, k)
    ensures IsSolution(calcs, r, Passes(calcs, r, host, clocks, n), host, now)
    ensures forall s, id :: IsSolution(calcs, r, s, host, now) ==> Get(s, id) == Get(Passes(calcs, r, host, clocks, n), id)
  {
    hide Pass, IsSolution, Evaluate, Ranked, ChainsUpTo;
    RankedIffChains(calcs, k);
    var rank :| Ranked(calcs, rank, k);
    PassesSettle(calcs, r, host, clocks, rank, k, n, now);
    var settled := Passes(calcs, r, host, clocks, n);
    forall s, id | IsSolution(calcs, r, s, host, now) ensures Get(s, id) == Get(settled, id) {
      SolutionIsUnique(calcs, r, s, settled, host, now, now, rank, k, id);
    }
  }

  // ---------------------------------------------------------------- the bound is exact

  /** ids[0] is the text "x"; every later id copies the one before it. */
  function Chain(ids: seq<string>): seq<Calc> {
    seq(|ids|, i requires 0 <= i < |ids| => Calc(ids[i], Concat([if i == 0 then Const(Str("x")) else Ref(ids[i - 1])])))
  }

  predicate DistinctIds(ids: seq<string>) {
    forall i, j :: 0 <= i < j < |ids| ==> ids[i] != ids[j]
  }

  lemma ConcatOfOne(o: Operand, r: Response, host: Host, clock: Clock)
    ensures Evaluate(Concat([o]), r, host, clock) == Str(Text(Resolve(o, r, host, clock), host))
  {
    hide Text;
    var v := Resolve(o, r, host, clock);
    assert [o][1..] == [];
    assert ResolveAll([o], r, host, clock) == [v];
    assert [v][1..] == [];
    assert ConcatText([v], host) == Text(v, host);
  }

  lemma {:induction false} ChainAdvancesOneLink(ids: seq<string>, host: Host, clocks: nat -> Clock, n: nat, i: nat)
    requires DistinctIds(ids) && 0 < n && i < |ids|
    ensures Get(Passes(Chain(ids), map[], host, clocks, n), ids[i]) == Str(if i < n then "x" else "")
    decreases n
  {
    hide Evaluate, Pass, Passes;
    PassComputes(Chain(ids), map[], host, clocks, n, i);
    var before := Passes(Chain(ids), map[], host, clocks, n - 1);
    var o := if i == 0 then Const(Str("x")) else Ref(ids[i - 1]);
    ConcatOfOne(o, before, host, clocks(n - 1));
    if i > 0 {
      if n > 1 {
        ChainAdvancesOneLink(ids, host, clocks, n - 1, i - 1);
      } else {
        NoPassesYet(Chain(ids), host, clocks);
      }
    }
  }

  lemma NoPassesYet(calcs: seq<Calc>, host: Host, clocks: nat -> Clock)
    ensures Passes(calcs, map[], host, clocks, 0) == map[]
  {
  }

  /** For every k some form with a longest chain of k calculations needs all k passes. */
  lemma FewerPassesDoNotSettle(ids: seq<string>, host: Host, clocks: nat -> Clock, n: nat)
    requires DistinctIds(ids) && n < |ids|
    ensures Passes(Chain(ids), map[], host, clocks, n + 1) != Passes(Chain(ids), map[], host, clocks, n)
  {
    ChainAdvancesOneLink(ids, host, clocks, n + 1, n);
    if n > 0 {
      ChainAdvancesOneLink(ids, host, clocks, n, n);
    }
  }

  /** Without an acyclic reference graph no number of passes settles: `id := id + 1`. */
  lemma {:induction false} SelfReferenceNeverSettles(id: string, host: Host, clocks: nat -> Clock, n: nat)
    ensures var calcs := [Calc(id, Binary(Add, Ref(id), Const(Num(1.0))))];
            Passes(calcs, map[id := Num(0.0)], host, clocks, n) == map[id := Num(n as real)]
  {
    if n > 0 {
      SelfReferenceNeverSettles(id, host, clocks, n - 1);
      var sum := Binary(Add, Ref(id), Const(Num(1.0)));
      var before: Response := map[id := Num((n - 1) as real)];
      assert Resolve(Ref(id), before, host, clocks(n - 1)) == Num((n - 1) as real);
      assert Evaluate(sum, before, host, clocks(n - 1)) == Num(n as real);
      assert Written([], before[id := Num(n as real)], before, host, clocks(n - 1)) == before[id := Num(n as real)];
      assert [Calc(id, sum)][1..] == [];
    }
  }

  // ---------------------------------------------------------------- which questions are calculated

  /** The question at a path of positions, through groups and repeats only. */
  function QuestionAt(qs: seq<Question>, path: seq<nat>): Option<Question>
    decreases |path|
  {
    if path == [] || path[0] >= |qs| then None
    else if |path| == 1 then Some(qs[path[0]])
    else if qs[path[0]].kind.Group? then QuestionAt(qs[path[0]].children, path[1..])
    else None
  }

  ghost predicate IsCalculated(qs: seq<Question>, c: Calc) {
    exists path: seq<nat> :: CalculatedAt(qs, path, c)
  }

  predicate CalculatedAt(qs: seq<Question>, path: seq<nat>, c: Calc) {
    QuestionAt(qs, path).Some? && QuestionAt(qs, path).value.id == c.id && QuestionAt(qs, path).value.calculate == Some(c.expr)
  }

  /** The pass evaluates the expression of every calculated question at any depth, and nothing else. */
  lemma {:induction false} CalcsMean(qs: seq<Question>, c: Calc)
    ensures c in Calcs(qs) <==> IsCalculated(qs, c)
    decreases qs
  {
    hide IsCalculated, CalculatedAt;
    if qs == [] {
      NothingIsCalculated(c);
    } else {
      CalcsMean(qs[1..], c);
      if qs[0].kind.Group? {
        CalcsMean(qs[0].children, c);
      }
      FirstOrLater(qs, c);
    }
  }

  lemma NothingIsCalculated(c: Calc)
    ensures !IsCalculated([], c)
  {
  }

  lemma FirstOrLater(qs: seq<Question>, c: Calc)
    requires qs != []
    ensures IsCalculated(qs, c) <==>
            (qs[0].id == c.id && qs[0].calculate == Some(c.expr))
            || (qs[0].kind.Group? && IsCalculated(qs[0].children, c)) || IsCalculated(qs[1..], c)
  {
    if IsCalculated(qs, c) {
      var path: seq<nat> :| CalculatedAt(qs, path, c);
      if path[0] > 0 {
        assert qs[1..][path[0] - 1] == qs[path[0]];
        var later := [path[0] - 1] + path[1..];
        assert later[1..] == path[1..];
        assert CalculatedAt(qs[1..], later, c);
      } else if |path| > 1 {
        assert CalculatedAt(qs[0].children, path[1..], c);
      }
    }
    if qs[0].id == c.id && qs[0].calculate == Some(c.expr) {
      assert CalculatedAt(qs, [0], c);
    }
    if qs[0].kind.Group? && IsCalculated(qs[0].children, c) {
      var path: seq<nat> :| CalculatedAt(qs[0].children, path, c);
      var within := [0] + path;
      assert within[1..] == path;
      assert CalculatedAt(qs, within, c);
    }
    if IsCalculated(qs[1..], c) {
      var path: seq<nat> :| CalculatedAt(qs[1..], path, c);
      var later := [path[0] + 1] + path[1..];
      assert later[1..] == path[1..];
      assert CalculatedAt(qs, later, c);
    }
  }
}
