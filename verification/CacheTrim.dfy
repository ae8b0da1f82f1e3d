/**
 The page and layer caches: trimCache of apps/portal-web/public/sw.js:1485-1505 behind its
 delete-then-put callers (1692-1698, 1752-1768). Keys are listed in insertion order.
 */
module CacheTrim {
  import opened Filters
  import opened Prelude

  function Without(key: string): string -> bool { (k: string) => k != key }

  function Exempt(isExempt: string -> bool): string -> bool { (k: string) => isExempt(k) }

  /** Dropping the first n keys that are not exempt. */
  function DropOldest(keys: seq<string>, n: nat, isExempt: string -> bool): seq<string>
    decreases |keys|
  {
    if keys == [] || n == 0 then keys
    else if isExempt(keys[0]) then [keys[0]] + DropOldest(keys[1..], n, isExempt)
    else DropOldest(keys[1..], n - 1, isExempt)
  }

  function Trimmed(keys: seq<string>, cap: nat, isExempt: string -> bool): seq<string> {
    if |keys| <= cap then keys else DropOldest(keys, |keys| - cap, isExempt)
  }

  /** cache.delete(key) before cache.put(key). */
  function Put(keys: seq<string>, key: string): seq<string> {
    Filter(keys, Without(key)) + [key]
  }

  lemma {:induction false} FilterConcat<T>(a: seq<T>, b: seq<T>, p: T -> bool)
    ensures Filter(a + b, p) == Filter(a, p) + Filter(b, p)
  {
    if b == [] {
      assert a + b == a;
    } else {
      var front, x := b[..|b| - 1], b[|b| - 1];
      assert a + b == (a + front) + [x] && b == front + [x];
      FilterConcat(a, front, p);
      FilterSnoc(a + front, x, p);
      FilterSnoc(front, x, p);
    }
  }

  predicate Distinct(keys: seq<string>) {
    forall i, j :: 0 <= i < j < |keys| ==> keys[i] != keys[j]
  }

  lemma DropOne(kept: seq<string>, key: string, rest: seq<string>)
    requires Distinct(kept + [key] + rest)
    ensures Filter(kept + [key] + rest, Without(key)) == kept + rest && Distinct(kept + rest)
  {
    var all := kept + [key] + rest;
    forall k | 0 <= k < |kept| ensures kept[k] != key {
      assert all[k] != all[|kept|];
    }
    forall k | 0 <= k < |rest| ensures rest[k] != key {
      assert all[|kept|] != all[|kept| + 1 + k];
    }
    AllFiltered(kept, Without(key));
    AllFiltered(rest, Without(key));
    FilterConcat(kept + [key], rest, Without(key));
    FilterSnoc(kept, key, Without(key));
    assert kept + [] == kept;
    forall i, j | 0 <= i < j < |kept + rest| ensures (kept + rest)[i] != (kept + rest)[j] {
      assert (kept + rest)[i] == all[if i < |kept| then i else i + 1];
      assert (kept + rest)[j] == all[if j < |kept| then j else j + 1];
    }
  }

  lemma StepOver(kept: seq<string>, key: string, rest: seq<string>, n: nat, isExempt: string -> bool)
    requires n > 0
    ensures kept + ([key] + rest) == (kept + [key]) + rest
    ensures isExempt(key) ==> kept + DropOldest([key] + rest, n, isExempt) == (kept + [key]) + DropOldest(rest, n, isExempt)
    ensures !isExempt(key) ==> DropOldest([key] + rest, n, isExempt) == DropOldest(rest, n - 1, isExempt)
  {
    assert ([key] + rest)[1..] == rest;
    assert kept + ([key] + DropOldest(rest, n, isExempt)) == (kept + [key]) + DropOldest(rest, n, isExempt);
  }

  class KeyedCache {
    var keys: seq<string>

    constructor ()
      ensures keys == []
    {
      keys := [];
    }

    method Delete(key: string)
      modifies this
      ensures keys == Filter(old(keys), Without(key))
    {
      keys := Filter(keys, Without(key));
    }

    /** One step of the walk: skip an exempt key, delete any other. */
    method VisitKey(key: string, overflow: nat, isExempt: string -> bool, ghost kept: seq<string>, ghost rest: seq<string>)
      returns (left: nat, ghost kept': seq<string>)
      requires overflow > 0 && keys == kept + ([key] + rest) && Distinct(keys)
      modifies this
      ensures keys == kept' + rest && Distinct(keys)
      ensures kept' + DropOldest(rest, left, isExempt) == kept + DropOldest([key] + rest, overflow, isExempt)
    {
      hide Filter, Distinct, DropOldest;
      left, kept' := overflow, kept;
      StepOver(kept, key, rest, overflow, isExempt);
      if isExempt(key) {
        kept' := kept + [key];
        return;
      }
      DropOne(kept, key, rest);
      Delete(key);
      left := overflow - 1;
    }

    /** trimCache: walks the keys as they were listed and deletes until the overflow is gone. */
    method Trim(cap: nat, isExempt: string -> bool)
      requires Distinct(keys)
      modifies this
      ensures keys == Trimmed(old(keys), cap, isExempt)
    {
      hide Filter, Distinct, DropOldest;
      if |keys| <= cap {
        return;
      }
      var listed := keys;
      var overflow := |listed| - cap;
      ghost var kept: seq<string>, ahead := [], listed;
      ghost var goal := DropOldest(listed, overflow, isExempt);
      var n := 0;
      Unprefixed(listed);
      Unprefixed(goal);
      assert listed[0..] == listed;
      while n < |listed| && overflow > 0
        invariant n <= |listed| && overflow >= 0 && ahead == listed[n..]
        invariant keys == kept + ahead && Distinct(keys)
        invariant kept + DropOldest(ahead, overflow, isExempt) == goal
      {
        ghost var rest := listed[n + 1..];
        assert ahead == [listed[n]] + rest;
        overflow, kept := VisitKey(listed[n], overflow, isExempt, kept, rest);
        ahead := rest;
        n := n + 1;
      }
      DropsNothing(ahead, overflow, isExempt);
    }

    /** The tail of a write: delete, put, trim. */
    method Write(key: string, cap: nat, isExempt: string -> bool)
      requires Distinct(keys)
      modifies this
      ensures keys == Trimmed(Put(old(keys), key), cap, isExempt)
    {
      PutIsDistinct(keys, key);
      Delete(key);
      keys := keys + [key];
      Trim(cap, isExempt);
    }
  }

  lemma Unprefixed(keys: seq<string>)
    ensures [] + keys == keys
  {
  }

  lemma DropsNothing(keys: seq<string>, n: nat, isExempt: string -> bool)
    requires keys == [] || n == 0
    ensures DropOldest(keys, n, isExempt) == keys
  {
  }

  lemma PutIsDistinct(keys: seq<string>, key: string)
    requires Distinct(keys)
    ensures Distinct(Put(keys, key))
  {
    var f := Filter(keys, Without(key));
    forall i, j | 0 <= i < j < |Put(keys, key)| ensures Put(keys, key)[i] != Put(keys, key)[j] {
      if j < |f| {
        FilterKeepsOrder(keys, Without(key), i, j);
      } else {
        FilterHas(keys, Without(key), f[i]);
      }
    }
  }

  // ---------------------------------------------------------------- exemptions

  /** An exempt key is never deleted. */
  lemma {:induction false} ExemptStays(keys: seq<string>, n: nat, isExempt: string -> bool, key: string)
    requires key in keys && isExempt(key)
    ensures key in DropOldest(keys, n, isExempt)
    decreases |keys|
  {
    if n > 0 && keys[0] != key {
      assert key in keys[1..];
      ExemptStays(keys[1..], if isExempt(keys[0]) then n else n - 1, isExempt, key);
    }
  }

  lemma {:induction false} DropsAsManyAsItCan(keys: seq<string>, n: nat, isExempt: string -> bool)
    ensures |DropOldest(keys, n, isExempt)| == |keys| - Min(n, |keys| - |Filter(keys, Exempt(isExempt))|)
    decreases |keys|
  {
    if keys != [] {
      assert keys == [keys[0]] + keys[1..];
      FilterConcat([keys[0]], keys[1..], Exempt(isExempt));
      assert Filter([keys[0]], Exempt(isExempt)) == if isExempt(keys[0]) then [keys[0]] else [] by {
        assert [keys[0]][..0] == [];
      }
      DropsAsManyAsItCan(keys[1..], if n == 0 || isExempt(keys[0]) then n else n - 1, isExempt);
    }
  }

  /** After a trim the cache is at the cap, or it holds exempt keys only. */
  lemma TrimReachesTheCap(keys: seq<string>, cap: nat, isExempt: string -> bool)
    ensures |Trimmed(keys, cap, isExempt)| <= Max(cap, |Filter(keys, Exempt(isExempt))|)
    ensures |Trimmed(keys, cap, isExempt)| >= Min(cap, |keys|)
  {
    if |keys| > cap {
      DropsAsManyAsItCan(keys, |keys| - cap, isExempt);
    }
  }

  // ---------------------------------------------------------------- most recent writes

  function NoneExempt(): string -> bool { (key: string) => false }

  lemma {:induction false} DropIsSuffix(keys: seq<string>, n: nat)
    requires n <= |keys|
    ensures DropOldest(keys, n, NoneExempt()) == keys[n..]
    decreases |keys|
  {
    if keys != [] && n > 0 {
      DropIsSuffix(keys[1..], n - 1);
    }
  }

  function Newest(keys: seq<string>, cap: nat): seq<string> {
    if |keys| <= cap then keys else keys[|keys| - cap..]
  }

  lemma TrimKeepsNewest(keys: seq<string>, cap: nat)
    ensures Trimmed(keys, cap, NoneExempt()) == Newest(keys, cap)
  {
    if |keys| > cap {
      DropIsSuffix(keys, |keys| - cap);
    }
  }

  /** Every key ever written, by its last write. */
  function ByLastWrite(writes: seq<string>): seq<string> {
    if writes == [] then [] else Put(ByLastWrite(writes[..|writes| - 1]), writes[|writes| - 1])
  }

  function CacheAfter(writes: seq<string>, cap: nat): seq<string> {
    if writes == [] then []
    else Trimmed(Put(CacheAfter(writes[..|writes| - 1], cap), writes[|writes| - 1]), cap, NoneExempt())
  }

  lemma {:induction false} ByLastWriteIsDistinct(writes: seq<string>)
    ensures Distinct(ByLastWrite(writes))
  {
    if writes != [] {
      ByLastWriteIsDistinct(writes[..|writes| - 1]);
      PutIsDistinct(ByLastWrite(writes[..|writes| - 1]), writes[|writes| - 1]);
    }
  }

  lemma PutOnNewest(keys: seq<string>, key: string, cap: nat)
    requires Distinct(keys) && cap > 0
    ensures Newest(Put(Newest(keys, cap), key), cap) == Newest(Put(keys, key), cap)
  {
    if |keys| > cap {
      var early, late := keys[..|keys| - cap], keys[|keys| - cap..];
      assert keys == early + late;
      var e, l := Filter(early, Without(key)), Filter(late, Without(key));
      FilterConcat(early, late, Without(key));
      assert Put(keys, key) == e + (l + [key]);
      if key in late {
        OneDropped(keys, late, |keys| - cap, key);
        assert |l + [key]| == cap;
      } else {
        forall k | 0 <= k < |late| ensures late[k] != key {
        }
        AllFiltered(late, Without(key));
        assert l == late && |l + [key]| == cap + 1;
      }
      SuffixOfConcat(e, l + [key], cap);
    }
  }

  lemma SuffixOfConcat(a: seq<string>, b: seq<string>, cap: nat)
    requires cap <= |b|
    ensures Newest(a + b, cap) == Newest(b, cap)
  {
    assert (a + b)[|a + b| - cap..] == b[|b| - cap..];
  }

  lemma OneDropped(keys: seq<string>, late: seq<string>, from: nat, key: string)
    requires Distinct(keys) && from <= |keys| && late == keys[from..] && key in late
    ensures |Filter(late, Without(key))| == |late| - 1
  {
    var k :| 0 <= k < |late| && late[k] == key;
    assert late == late[..k] + [key] + late[k + 1..];
    forall i, j | 0 <= i < j < |late| ensures late[i] != late[j] {
      assert late[i] == keys[from + i] && late[j] == keys[from + j];
    }
    DropOne(late[..k], key, late[k + 1..]);
  }

  /** With delete-then-put and a trim after each write, the cache holds exactly the `cap` most recently
      written keys, in the order of their last writes. */
  lemma {:induction false} CacheIsTheNewestWrites(writes: seq<string>, cap: nat)
    requires cap > 0
    ensures CacheAfter(writes, cap) == Newest(ByLastWrite(writes), cap)
  {
    if writes != [] {
      var front, key := writes[..|writes| - 1], writes[|writes| - 1];
      CacheIsTheNewestWrites(front, cap);
      ByLastWriteIsDistinct(front);
      PutOnNewest(ByLastWrite(front), key, cap);
      TrimKeepsNewest(Put(CacheAfter(front, cap), key), cap);
    }
  }
}
