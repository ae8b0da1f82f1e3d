/**
 The capped caches of apps/portal-web/public/sw.js: sweepTileCache (1420-1464), trimCache (1485-1505)
 and the delete-then-put writers (1687-1699, 1749-1768). A cache is its keys in insertion order; which
 URLs are style documents or pinned tiles are two predicates.
 */
module TileCache {
  import opened Filters
  import opened Prelude

  const RUNTIME_TILE_CAP: nat := 4000
  const TILE_WRITE_GRACE_MS: int := 21600000
  const TILE_SWEEP_MIN_INTERVAL_MS: int := 60000

  type Log = map<string, int>

  datatype Policy = Policy(isStyle: string -> bool, isPinned: string -> bool)

  datatype Tile = Tile(url: string, writtenAt: int)

  /** `writeTimes.get(url) || 0`. */
  function WrittenAt(log: Log, url: string): int {
    if url in log then log[url] else 0
  }

  function IsEvictable(p: Policy): string -> bool { (url: string) => !p.isStyle(url) && !p.isPinned(url) }
  function OutOfGrace(now: int): Tile -> bool { (t: Tile) => now - t.writtenAt >= TILE_WRITE_GRACE_MS }
  function NotIn(urls: seq<string>): string -> bool { (url: string) => url !in urls }

  function Tiles(urls: seq<string>, log: Log): (ts: seq<Tile>)
    ensures |ts| == |urls|
    ensures forall k :: 0 <= k < |urls| ==> ts[k] == Tile(urls[k], WrittenAt(log, urls[k]))
  {
    if urls == [] then [] else Tiles(urls[..|urls| - 1], log) + [Tile(urls[|urls| - 1], WrittenAt(log, urls[|urls| - 1]))]
  }

  function Urls(ts: seq<Tile>): (urls: seq<string>)
    ensures |urls| == |ts|
    ensures forall k :: 0 <= k < |ts| ==> urls[k] == ts[k].url
  {
    if ts == [] then [] else [ts[0].url] + Urls(ts[1..])
  }

  // ---------------------------------------------------------------- oldest first

  predicate Ascending(ts: seq<Tile>) {
    forall i, j :: 0 <= i < j < |ts| ==> ts[i].writtenAt <= ts[j].writtenAt
  }

  /** Into an ascending list, after its equals. */
  function Insert(ts: seq<Tile>, t: Tile): (r: seq<Tile>)
    ensures |r| == |ts| + 1
  {
    if ts == [] || t.writtenAt < ts[0].writtenAt then [t] + ts else [ts[0]] + Insert(ts[1..], t)
  }

  /** `.sort((a, b) => a.writtenAt - b.writtenAt)`, which is stable. */
  function Sorted(ts: seq<Tile>): (r: seq<Tile>)
    ensures |r| == |ts|
  {
    if ts == [] then [] else Insert(Sorted(ts[..|ts| - 1]), ts[|ts| - 1])
  }

  lemma {:induction false} InsertKeeps(ts: seq<Tile>, t: Tile)
    ensures multiset(Insert(ts, t)) == multiset(ts) + multiset{t}
  {
    if ts != [] && t.writtenAt >= ts[0].writtenAt {
      InsertKeeps(ts[1..], t);
      assert ts == [ts[0]] + ts[1..];
    }
  }

  lemma {:induction false} InsertAscends(ts: seq<Tile>, t: Tile)
    requires Ascending(ts)
    ensures Ascending(Insert(ts, t))
    ensures forall k :: 0 <= k < |Insert(ts, t)| ==> Insert(ts, t)[k].writtenAt >= t.writtenAt || (ts != [] && Insert(ts, t)[k].writtenAt >= ts[0].writtenAt)
  {
    if ts != [] && t.writtenAt >= ts[0].writtenAt {
      InsertAscends(ts[1..], t);
    }
  }

  lemma {:induction false} SortKeeps(ts: seq<Tile>)
    ensures multiset(Sorted(ts)) == multiset(ts)
  {
    hide Insert;
    if ts != [] {
      var front, last := ts[..|ts| - 1], ts[|ts| - 1];
      SortKeeps(front);
      InsertKeeps(Sorted(front), last);
      calc {
        multiset(Sorted(ts));
        multiset(Insert(Sorted(front), last));
        multiset(front) + multiset{last};
        multiset(front + [last]);
        { assert ts == front + [last]; }
        multiset(ts);
      }
    }
  }

  lemma {:induction false} SortAscends(ts: seq<Tile>)
    ensures Ascending(Sorted(ts))
  {
    if ts != [] {
      SortAscends(ts[..|ts| - 1]);
      InsertAscends(Sorted(ts[..|ts| - 1]), ts[|ts| - 1]);
    }
  }

  lemma SortHas(ts: seq<Tile>, t: Tile)
    ensures t in Sorted(ts) <==> t in ts
  {
    SortKeeps(ts);
    assert t in multiset(Sorted(ts)) <==> t in multiset(ts);
  }

  // ---------------------------------------------------------------- the sweep

  function Evictable(urls: seq<string>, log: Log, p: Policy): seq<Tile> {
    Tiles(Filter(urls, IsEvictable(p)), log)
  }

  /** What one sweep deletes. */
  function Candidates(urls: seq<string>, log: Log, p: Policy, now: int): seq<Tile> {
    var evictable := Evictable(urls, log, p);
    var overflow := |evictable| - RUNTIME_TILE_CAP;
    if |urls| <= RUNTIME_TILE_CAP || overflow <= 0 then []
    else
      var sorted := Sorted(Filter(evictable, OutOfGrace(now)));
      sorted[..Min(overflow, |sorted|)]
  }

  class TileStore {
    var urls: seq<string>
    var log: Log
    var lastSweepAt: int

    constructor ()
      ensures urls == [] && log == map[] && lastSweepAt == 0
    {
      urls, log, lastSweepAt := [], map[], 0;
    }

    /** The scan over the cache's keys. */
    method CollectEvictable(p: Policy) returns (evictable: seq<Tile>)
      ensures evictable == Evictable(urls, log, p)
    {
      evictable := [];
      for n := 0 to |urls|
        invariant evictable == Tiles(Filter(urls[..n], IsEvictable(p)), log)
      {
        assert urls[..n + 1] == urls[..n] + [urls[n]];
        FilterSnoc(urls[..n], urls[n], IsEvictable(p));
        ghost var kept := Filter(urls[..n], IsEvictable(p));
        if p.isStyle(urls[n]) || p.isPinned(urls[n]) {
          assert kept + [] == kept;
          continue;
        }
        assert (kept + [urls[n]])[..|kept|] == kept;
        evictable := evictable + [Tile(urls[n], WrittenAt(log, urls[n]))];
      }
      assert urls[..|urls|] == urls;
    }

    /** sweepTileCache. The throttle does not apply to a forced sweep. */
    method Sweep(force: bool, now: int, p: Policy)
      modifies this
      ensures !force && now - old(lastSweepAt) < 60000 ==>
                urls == old(urls) && log == old(log) && lastSweepAt == old(lastSweepAt)
      ensures force || now - old(lastSweepAt) >= 60000 ==>
                && lastSweepAt == now
                && urls == Filter(old(urls), NotIn(Urls(Candidates(old(urls), old(log), p, now))))
                && log == old(log) - (set t | t in Candidates(old(urls), old(log), p, now) :: t.url)
    {
      hide Filter, Sorted, Tiles;
      if !force && now - lastSweepAt < TILE_SWEEP_MIN_INTERVAL_MS {
        return;
      }
      lastSweepAt := now;
      ghost var gone := Candidates(urls, log, p, now);
      if |urls| <= RUNTIME_TILE_CAP {
        NothingGone(urls);
        return;
      }
      var evictable := CollectEvictable(p);
      var overflow := |evictable| - RUNTIME_TILE_CAP;
      if overflow <= 0 {
        NothingGone(urls);
        return;
      }
      var sorted := Sorted(Filter(evictable, OutOfGrace(now)));
      var candidates := sorted[..Min(overflow, |sorted|)];
      if |candidates| == 0 {
        NothingGone(urls);
        return;
      }
      urls := Filter(urls, NotIn(Urls(candidates)));
      log := log - (set t | t in candidates :: t.url);
    }
  }

  lemma NothingGone(urls: seq<string>)
    ensures Filter(urls, NotIn(Urls([]))) == urls
  {
    AllFiltered(urls, NotIn(Urls([])));
  }

  // ---------------------------------------------------------------- what a sweep never does

  predicate IsCandidate(url: string, urls: seq<string>, log: Log, p: Policy, now: int) {
    url in Urls(Candidates(urls, log, p, now))
  }

  /** A tile the sweep may take: neither a style document nor pinned, and written long enough ago. */
  predicate MayGo(url: string, urls: seq<string>, log: Log, p: Policy, now: int) {
    url in urls && !p.isStyle(url) && !p.isPinned(url) && now - WrittenAt(log, url) >= TILE_WRITE_GRACE_MS
  }

  lemma EvictableHas(urls: seq<string>, log: Log, p: Policy, t: Tile)
    ensures t in Evictable(urls, log, p) <==>
            t.url in urls && !p.isStyle(t.url) && !p.isPinned(t.url) && t.writtenAt == WrittenAt(log, t.url)
  {
    var kept := Filter(urls, IsEvictable(p));
    FilterHas(urls, IsEvictable(p), t.url);
    if t.url in kept && t.writtenAt == WrittenAt(log, t.url) {
      var k :| 0 <= k < |kept| && kept[k] == t.url;
      assert Tiles(kept, log)[k] == t;
    }
  }

  lemma OldHas(urls: seq<string>, log: Log, p: Policy, now: int, url: string)
    ensures Tile(url, WrittenAt(log, url)) in Sorted(Filter(Evictable(urls, log, p), OutOfGrace(now))) <==> MayGo(url, urls, log, p, now)
  {
    EvictableHas(urls, log, p, Tile(url, WrittenAt(log, url)));
    FilterHas(Evictable(urls, log, p), OutOfGrace(now), Tile(url, WrittenAt(log, url)));
    SortHas(Filter(Evictable(urls, log, p), OutOfGrace(now)), Tile(url, WrittenAt(log, url)));
  }

  lemma CandidateTile(urls: seq<string>, log: Log, p: Policy, now: int, t: Tile)
    requires t in Candidates(urls, log, p, now)
    ensures t.writtenAt == WrittenAt(log, t.url) && MayGo(t.url, urls, log, p, now)
  {
    hide Evictable;
    var oldTiles := Filter(Evictable(urls, log, p), OutOfGrace(now));
    assert t in Sorted(oldTiles);
    SortHas(oldTiles, t);
    FilterHas(Evictable(urls, log, p), OutOfGrace(now), t);
    EvictableHas(urls, log, p, t);
  }

  /** A style document, a pinned tile and a tile written within the grace period are never deleted. */
  lemma SweepSparesTheProtected(urls: seq<string>, log: Log, p: Policy, now: int, url: string)
    requires IsCandidate(url, urls, log, p, now)
    ensures MayGo(url, urls, log, p, now)
  {
    hide Candidates;
    var gone := Candidates(urls, log, p, now);
    var k :| 0 <= k < |Urls(gone)| && Urls(gone)[k] == url;
    CandidateTile(urls, log, p, now, gone[k]);
  }

  lemma TakenIsCandidate(urls: seq<string>, log: Log, p: Policy, now: int, j: nat)
    requires j < |Candidates(urls, log, p, now)|
    ensures IsCandidate(Candidates(urls, log, p, now)[j].url, urls, log, p, now)
  {
    assert Urls(Candidates(urls, log, p, now))[j] == Candidates(urls, log, p, now)[j].url;
  }

  /** Oldest writes go first: nothing that goes is younger than something that could have gone and stays. */
  lemma SweepTakesOldestFirst(urls: seq<string>, log: Log, p: Policy, now: int, gone: string, stays: string)
    requires IsCandidate(gone, urls, log, p, now)
    requires MayGo(stays, urls, log, p, now) && !IsCandidate(stays, urls, log, p, now)
    ensures WrittenAt(log, gone) <= WrittenAt(log, stays)
  {
    var sorted := Sorted(Filter(Evictable(urls, log, p), OutOfGrace(now)));
    var candidates := Candidates(urls, log, p, now);
    OldHas(urls, log, p, now, stays);
    SortAscends(Filter(Evictable(urls, log, p), OutOfGrace(now)));
    hide Evictable, Filter;
    var i :| 0 <= i < |Urls(candidates)| && Urls(candidates)[i] == gone;
    CandidateTile(urls, log, p, now, candidates[i]);
    var j :| 0 <= j < |sorted| && sorted[j] == Tile(stays, WrittenAt(log, stays));
    assert sorted[i] == candidates[i];
    if j < |candidates| {
      TakenIsCandidate(urls, log, p, now, j);
    }
  }

  // ---------------------------------------------------------------- what a sweep leaves

  predicate DistinctUrls(urls: seq<string>) {
    forall i, j :: 0 <= i < j < |urls| ==> urls[i] != urls[j]
  }

  lemma {:induction false} FilterDistinct(urls: seq<string>, p: string -> bool)
    requires DistinctUrls(urls)
    ensures DistinctUrls(Filter(urls, p))
  {
    var f := Filter(urls, p);
    forall i, j | 0 <= i < j < |f| ensures f[i] != f[j] {
      FilterKeepsOrder(urls, p, i, j);
    }
  }

  /** Taking n distinct members out leaves n fewer. */
  lemma {:induction false} FilterOut(urls: seq<string>, gone: seq<string>)
    requires DistinctUrls(urls) && DistinctUrls(gone) && forall g :: g in gone ==> g in urls
    ensures |Filter(urls, NotIn(gone))| == |urls| - |gone|
  {
    var left := Filter(urls, NotIn(gone));
    FilterDistinct(urls, NotIn(gone));
    forall u ensures u in left <==> u in urls && u !in gone {
      FilterHas(urls, NotIn(gone), u);
    }
    hide Filter;
    SizeOf(urls);
    SizeOf(gone);
    SizeOf(left);
    assert SetOf(left) == SetOf(urls) - SetOf(gone);
    assert SetOf(gone) <= SetOf(urls);
  }

  function SetOf(urls: seq<string>): set<string> {
    set u | u in urls
  }

  lemma {:induction false} SizeOf(urls: seq<string>)
    requires DistinctUrls(urls)
    ensures |SetOf(urls)| == |urls|
  {
    if urls != [] {
      var front, last := urls[..|urls| - 1], urls[|urls| - 1];
      SizeOf(front);
      assert urls == front + [last];
      assert SetOf(urls) == SetOf(front) + {last};
      assert last !in SetOf(front);
    }
  }

  predicate DistinctTiles(ts: seq<Tile>) {
    forall i, j :: 0 <= i < j < |ts| ==> ts[i] != ts[j]
  }

  lemma {:induction false} DistinctMeansOnce(ts: seq<Tile>, t: Tile)
    requires DistinctTiles(ts)
    ensures multiset(ts)[t] <= 1
  {
    if ts != [] {
      var front, last := ts[..|ts| - 1], ts[|ts| - 1];
      assert ts == front + [last];
      DistinctMeansOnce(front, t);
      assert last !in front;
    }
  }

  lemma {:induction false} OnceMeansDistinct(ts: seq<Tile>)
    requires forall t :: multiset(ts)[t] <= 1
    ensures DistinctTiles(ts)
  {
    if ts != [] {
      var front, last := ts[..|ts| - 1], ts[|ts| - 1];
      assert ts == front + [last];
      assert multiset(ts) == multiset(front) + multiset{last};
      forall t ensures multiset(front)[t] <= 1 {
        assert multiset(ts)[t] <= 1;
      }
      OnceMeansDistinct(front);
      assert multiset(ts)[last] <= 1;
      assert last !in multiset(front);
    }
  }

  /** Sorting distinct tiles keeps them distinct. */
  lemma SortedDistinct(ts: seq<Tile>)
    requires DistinctTiles(ts)
    ensures DistinctTiles(Sorted(ts))
  {
    SortKeeps(ts);
    forall t ensures multiset(Sorted(ts))[t] <= 1 {
      DistinctMeansOnce(ts, t);
    }
    OnceMeansDistinct(Sorted(ts));
  }

  lemma OldTilesDistinct(urls: seq<string>, log: Log, p: Policy, now: int)
    requires DistinctUrls(urls)
    ensures DistinctTiles(Filter(Evictable(urls, log, p), OutOfGrace(now)))
  {
    var evictable := Evictable(urls, log, p);
    FilterDistinct(urls, IsEvictable(p));
    var f := Filter(evictable, OutOfGrace(now));
    forall i, j | 0 <= i < j < |f| ensures f[i] != f[j] {
      FilterKeepsOrder(evictable, OutOfGrace(now), i, j);
    }
  }

  lemma CandidatesDistinct(urls: seq<string>, log: Log, p: Policy, now: int)
    requires DistinctUrls(urls)
    ensures DistinctUrls(Urls(Candidates(urls, log, p, now)))
  {
    var gone := Candidates(urls, log, p, now);
    OldTilesDistinct(urls, log, p, now);
    SortedDistinct(Filter(Evictable(urls, log, p), OutOfGrace(now)));
    hide Evictable, Filter;
    forall i, j | 0 <= i < j < |gone| ensures gone[i].url != gone[j].url {
      CandidateTile(urls, log, p, now, gone[i]);
      CandidateTile(urls, log, p, now, gone[j]);
      assert gone[i] != gone[j];
    }
  }

  function Left(urls: seq<string>, log: Log, p: Policy, now: int): seq<string> {
    Filter(urls, NotIn(Urls(Candidates(urls, log, p, now))))
  }

  /** How many evictable tiles a sweep leaves: those there were less those it took. */
  lemma EvictableLeft(urls: seq<string>, log: Log, p: Policy, now: int)
    requires DistinctUrls(urls)
    ensures |Filter(Left(urls, log, p, now), IsEvictable(p))| == |Filter(urls, IsEvictable(p))| - |Candidates(urls, log, p, now)|
  {
    var gone := Urls(Candidates(urls, log, p, now));
    var evictable := Filter(urls, IsEvictable(p));
    FiltersCommute(urls, NotIn(gone), IsEvictable(p));
    FilterDistinct(urls, IsEvictable(p));
    CandidatesDistinct(urls, log, p, now);
    forall g | g in gone ensures g in evictable {
      SweepSparesTheProtected(urls, log, p, now, g);
      FilterHas(urls, IsEvictable(p), g);
    }
    FilterOut(evictable, gone);
  }

  /** A sweep leaves at most the cap of evictable tiles, or else only tiles in their grace period; and
      it never goes below the cap. */
  lemma SweepStopsAtTheCap(urls: seq<string>, log: Log, p: Policy, now: int)
    requires DistinctUrls(urls)
    ensures |Filter(Left(urls, log, p, now), IsEvictable(p))| <= RUNTIME_TILE_CAP
            || forall url :: url in Left(urls, log, p, now) ==> !MayGo(url, urls, log, p, now)
    ensures Candidates(urls, log, p, now) != [] ==> |Filter(Left(urls, log, p, now), IsEvictable(p))| >= RUNTIME_TILE_CAP
  {
    EvictableLeft(urls, log, p, now);
    var gone := Candidates(urls, log, p, now);
    var sorted := Sorted(Filter(Evictable(urls, log, p), OutOfGrace(now)));
    assert |Evictable(urls, log, p)| == |Filter(urls, IsEvictable(p))|;
    if |Filter(Left(urls, log, p, now), IsEvictable(p))| > RUNTIME_TILE_CAP {
      assert gone == sorted;
      hide Candidates, Evictable;
      forall url | url in Left(urls, log, p, now) ensures !MayGo(url, urls, log, p, now) {
        FilterHas(urls, NotIn(Urls(gone)), url);
        OldHas(urls, log, p, now, url);
        if Tile(url, WrittenAt(log, url)) in sorted {
          ListedUrl(sorted, url, WrittenAt(log, url));
        }
      }
    }
  }

  lemma ListedUrl(ts: seq<Tile>, url: string, at: int)
    requires Tile(url, at) in ts
    ensures url in Urls(ts)
  {
    var k :| 0 <= k < |ts| && ts[k] == Tile(url, at);
    assert Urls(ts)[k] == url;
  }

  // ---------------------------------------------------------------- the limits

  /** A tile may go at six hours after it was written, one never recorded counting as written at the beginning. */
  lemma GraceMeans(urls: seq<string>, log: Log, p: Policy, now: int, url: string)
    ensures MayGo(url, urls, log, p, now) <==>
            && url in urls && !p.isStyle(url) && !p.isPinned(url)
            && now >= (if url in log then log[url] else 0) + 6 * 60 * 60 * 1000
  {
  }

  /** A sweep takes as many as may go, but no more than there are evictable ones above four thousand. */
  lemma SweepTakes(urls: seq<string>, log: Log, p: Policy, now: int)
    ensures var evictable, ready := |Filter(urls, IsEvictable(p))|, |Filter(Evictable(urls, log, p), OutOfGrace(now))|;
            |Candidates(urls, log, p, now)| == if evictable <= 4000 then 0 else if ready < evictable - 4000 then ready else evictable - 4000
  {
  }
}
