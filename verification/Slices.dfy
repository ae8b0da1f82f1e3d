/** Where one sequence occurs inside another: the vocabulary of the reading-back proofs. */
module Slices {
  /** `s` holds `t` at position `i`. */
  predicate HoldsAt<T(==)>(s: seq<T>, i: nat, t: seq<T>) {
    i + |t| <= |s| && s[i..i + |t|] == t
  }

  lemma UnitOf<T>(s: seq<T>, i: nat, t: seq<T>, k: nat)
    requires HoldsAt(s, i, t) && k < |t|
    ensures i + k < |s| && s[i + k] == t[k]
  {
    assert s[i + k] == s[i..i + |t|][k];
  }

  lemma SliceOf<T>(s: seq<T>, i: nat, t: seq<T>)
    requires HoldsAt(s, i, t)
    ensures i + |t| <= |s| && s[i..i + |t|] == t
  {
  }

  lemma PartOf<T>(s: seq<T>, i: nat, x: seq<T>, y: seq<T>)
    requires HoldsAt(s, i, x + y)
    ensures HoldsAt(s, i, x) && HoldsAt(s, i + |x|, y)
  {
    var t := x + y;
    assert s[i..i + |x|] == s[i..i + |t|][..|x|] == x;
    assert s[i + |x|..i + |t|] == s[i..i + |t|][|x|..] == y;
  }

  lemma SplitAt<T>(s: seq<T>, i: nat, x: seq<T>, y: seq<T>)
    requires i <= |s| && s[i..] == x + y
    ensures HoldsAt(s, i, x) && s[i + |x|..] == y
  {
    assert s[i..i + |x|] == s[i..][..|x|];
    assert s[i + |x|..] == s[i..][|x|..];
  }

  lemma Concat3<T>(x: seq<T>, y: seq<T>, z: seq<T>)
    ensures (x + y) + z == x + (y + z)
  {
  }
}
