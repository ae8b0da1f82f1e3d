/** The elements of a list that satisfy a predicate, in order. */
module Filters {
  function Filter<T>(s: seq<T>, p: T -> bool): (f: seq<T>)
    ensures |f| <= |s|
  {
    if s == [] then [] else Filter(s[..|s| - 1], p) + if p(s[|s| - 1]) then [s[|s| - 1]] else []
  }

  lemma {:induction false} FilterHas<T>(s: seq<T>, p: T -> bool, x: T)
    ensures x in Filter(s, p) <==> x in s && p(x)
  {
    if s != [] {
      FilterHas(s[..|s| - 1], p, x);
      assert s == s[..|s| - 1] + [s[|s| - 1]];
    }
  }

  lemma {:induction false} FilterSnoc<T>(s: seq<T>, x: T, p: T -> bool)
    ensures Filter(s + [x], p) == Filter(s, p) + if p(x) then [x] else []
  {
    assert (s + [x])[..|s|] == s;
  }

  lemma {:induction false} FiltersCommute<T>(s: seq<T>, p: T -> bool, q: T -> bool)
    ensures Filter(Filter(s, p), q) == Filter(Filter(s, q), p)
  {
    if s != [] {
      var front, x := s[..|s| - 1], s[|s| - 1];
      FiltersCommute(front, p, q);
      FilterSnoc(Filter(front, p), x, q);
      FilterSnoc(Filter(front, q), x, p);
      assert Filter(front, p) + [] == Filter(front, p) && Filter(front, q) + [] == Filter(front, q);
    }
  }

  /** A predicate that, once true, stays true cuts a list in two. */
  lemma {:induction false} FilterCuts<T>(s: seq<T>, p: T -> bool, q: T -> bool)
    requires forall x :: x in s ==> q(x) == !p(x)
    requires forall i, j :: 0 <= i < j < |s| && p(s[i]) ==> p(s[j])
    ensures s == Filter(s, q) + Filter(s, p)
  {
    if s != [] {
      var front, x := s[..|s| - 1], s[|s| - 1];
      assert s == front + [x];
      FilterSnoc(front, x, p);
      FilterSnoc(front, x, q);
      FilterCuts(front, p, q);
      if q(x) {
        AllFiltered(front, q);
        NoneFiltered(front, p);
      }
    }
  }

  lemma {:induction false} AllFiltered<T>(s: seq<T>, p: T -> bool)
    requires forall i :: 0 <= i < |s| ==> p(s[i])
    ensures Filter(s, p) == s
  {
    if s != [] {
      AllFiltered(s[..|s| - 1], p);
      assert s == s[..|s| - 1] + [s[|s| - 1]];
    }
  }

  lemma {:induction false} NoneFiltered<T>(s: seq<T>, p: T -> bool)
    requires forall i :: 0 <= i < |s| ==> !p(s[i])
    ensures Filter(s, p) == []
  {
    if s != [] {
      NoneFiltered(s[..|s| - 1], p);
    }
  }

  lemma {:induction false} FilterKeepsOrder<T>(s: seq<T>, p: T -> bool, i: nat, j: nat)
    requires i < j < |Filter(s, p)|
    ensures exists a, b :: 0 <= a < b < |s| && s[a] == Filter(s, p)[i] && s[b] == Filter(s, p)[j]
  {
    var front := s[..|s| - 1];
    var f := Filter(front, p);
    if j < |f| {
      FilterKeepsOrder(front, p, i, j);
      var a, b :| 0 <= a < b < |front| && front[a] == f[i] && front[b] == f[j];
      assert s[a] == Filter(s, p)[i] && s[b] == Filter(s, p)[j];
    } else {
      FilterHas(front, p, f[i]);
      var a :| 0 <= a < |front| && front[a] == f[i];
      assert s[a] == Filter(s, p)[i] && s[|s| - 1] == Filter(s, p)[j];
    }
  }
}
