/**
 The pure rules of the offline feature queue in apps/portal-web/public/sw.js: the retry
 ladder, who may claim a row and when, which rows head their feature's chain, and what an
 HTTP status means for a row. Timestamps are integers (milliseconds); an absent or
 unparseable one is None.
 */
module QueueRules {
  import opened Prelude

  const CLAIM_STALE_MS := 2 * 60 * 1000
  const RETRY_BACKOFF_MS: seq<int> := [0, 5000, 15000, 60000, 300000, 900000]
  const LARGEST_BACKOFF_MS := 900000

  datatype Status = Pending | Syncing | Failed | Rejected | Synced

  datatype Op = Insert | Update | Delete | UnknownOp(name: string)

  /** The compound IndexedDB key `[dataCollectionId, id]`. */
  datatype Key = Key(collection: string, id: string)

  /** One answer; `pendingFile` says that it embeds a captured file not uploaded yet. */
  datatype Property = Property(value: string, pendingFile: bool)

  /** What an edit does to its feature. A delete carries no geometry and no properties. */
  datatype Edit = Edit(op: Op, geometry: Option<string>, properties: map<string, Property>)

  predicate EmbedsFile(edit: Edit) {
    exists name :: name in edit.properties && edit.properties[name].pendingFile
  }

  /** One queued edit. `feature` is the string `dataLayerId layerKey globalId` that keys its chain. */
  datatype Row = Row(
    key: Key,
    feature: string,
    owner: Option<string>,
    queuedAt: int,
    edit: Edit,
    status: Status,
    lastAttemptAt: Option<int>,
    retryCount: nat)

  function QueueRetryDelayMs(retryCount: nat): (delay: int)
    ensures 0 <= delay <= LARGEST_BACKOFF_MS
    ensures delay == 0 <==> retryCount == 0
  {
    RETRY_BACKOFF_MS[Min(retryCount, |RETRY_BACKOFF_MS| - 1)]
  }

  predicate IsClaimable(row: Row, now: int) {
    if row.status.Rejected? || row.status.Synced? then
      false
    else if row.status.Syncing? then
      row.lastAttemptAt.None? || now - row.lastAttemptAt.value >= CLAIM_STALE_MS
    else
      var delay := QueueRetryDelayMs(row.retryCount);
      delay == 0 || row.lastAttemptAt.None? || now - row.lastAttemptAt.value >= delay
  }

  predicate IsOwnedBy(row: Row, who: Option<string>) {
    row.owner.None? || (who.Some? && row.owner == who)
  }

  datatype Outcome = Done | Retry | Refuse

  function ReplayOutcomeForStatus(status: int, op: Op): Outcome {
    if 200 <= status < 300 then Done
    else if op.Delete? && status == 404 then Done
    else if 400 <= status < 500 then
      if status == 401 || status == 408 || status == 425 || status == 429 then Retry else Refuse
    else Retry
  }

  /** Waiting only helps: a claimable row stays claimable until somebody writes it. */
  lemma ClaimableIsMonotone(row: Row, t: int, u: int)
    requires t <= u && IsClaimable(row, t)
    ensures IsClaimable(row, u)
  {
    assert row.status.Syncing? || QueueRetryDelayMs(row.retryCount) <= LARGEST_BACKOFF_MS;
  }

  /** A row nobody touches becomes claimable within the largest backoff of its last attempt
      exactly when it is neither parked nor already synced. */
  lemma ClaimableWithinLargestBackoff(row: Row)
    ensures (row.status.Rejected? || row.status.Synced?) <==> forall now :: !IsClaimable(row, now)
    ensures !row.status.Rejected? && !row.status.Synced? && row.lastAttemptAt.Some? ==>
              forall now :: now >= row.lastAttemptAt.value + LARGEST_BACKOFF_MS ==> IsClaimable(row, now)
  {
    if !row.status.Rejected? && !row.status.Synced? {
      var last := if row.lastAttemptAt.Some? then row.lastAttemptAt.value else 0;
      assert IsClaimable(row, last + LARGEST_BACKOFF_MS);
    }
  }

  /** Everything about a row that no drain ever rewrites. */
  predicate SameEdit(a: Row, b: Row) {
    && a.key == b.key && a.feature == b.feature
    && a.owner == b.owner && a.queuedAt == b.queuedAt && a.edit == b.edit
  }

  /** `a` was captured before `b` on the same feature. */
  predicate Older(a: Row, b: Row) {
    a.feature == b.feature && a.queuedAt < b.queuedAt
  }

  // ---------------------------------------------------------------- chain heads

  /** Row `i` is the one `chainHeads` holds for its feature: oldest, first listed among ties. */
  ghost predicate IsOldestAt(rows: seq<Row>, i: nat)
    requires i < |rows|
  {
    forall j :: 0 <= j < |rows| && rows[j].feature == rows[i].feature ==>
      rows[i].queuedAt < rows[j].queuedAt || (rows[i].queuedAt == rows[j].queuedAt && i <= j)
  }

  ghost predicate IsHead(rows: seq<Row>, now: int, row: Row) {
    exists i :: 0 <= i < |rows| && rows[i] == row && IsOldestAt(rows, i) && IsClaimable(row, now)
  }

  predicate SortedByCapture(rows: seq<Row>) {
    forall i, j :: 0 <= i < j < |rows| ==> rows[i].queuedAt <= rows[j].queuedAt
  }

  predicate DistinctFeatures(rows: seq<Row>) {
    forall i, j :: 0 <= i < j < |rows| ==> rows[i].feature != rows[j].feature
  }

  /** The Map filled by the first loop of chainHeads: feature key to the index held for it. */
  ghost predicate HoldsOldest(rows: seq<Row>, n: nat, held: map<string, nat>)
    requires n <= |rows|
  {
    && (forall k :: 0 <= k < n ==> rows[k].feature in held)
    && (forall f :: f in held ==> held[f] < n && rows[held[f]].feature == f && IsOldestAt(rows[..n], held[f]))
  }

  /** Where the sort by capture time puts one more row. */
  method CapturePosition(sorted: seq<Row>, row: Row) returns (at: nat)
    requires SortedByCapture(sorted)
    ensures at <= |sorted|
    ensures SortedByCapture(sorted[..at] + [row] + sorted[at..])
  {
    at := |sorted|;
    while at > 0 && sorted[at - 1].queuedAt > row.queuedAt
      invariant at <= |sorted|
      invariant forall k :: at <= k < |sorted| ==> sorted[k].queuedAt > row.queuedAt
    {
      at := at - 1;
    }
  }

  lemma HeldInRange(rows: seq<Row>, n: nat, held: map<string, nat>)
    requires n <= |rows| && HoldsOldest(rows, n, held)
    ensures forall f :: f in held ==> held[f] < |rows|
  {
  }

  /** The first loop of chainHeads: the Map from feature key to the oldest row held for it. */
  method HoldOldest(rows: seq<Row>) returns (held: map<string, nat>)
    ensures HoldsOldest(rows, |rows|, held)
  {
    held := map[];
    assert HoldsOldest(rows, 0, held);
    hide HoldsOldest;
    for n := 0 to |rows|
      invariant HoldsOldest(rows, n, held)
    {
      var key := rows[n].feature;
      HeldInRange(rows, n, held);
      if key !in held || rows[n].queuedAt < rows[held[key]].queuedAt {
        HoldNewOldest(rows, n, held);
        held := held[key := n];
      } else {
        KeepOldest(rows, n, held);
      }
    }
  }

  ghost predicate HeldAndClaimable(rows: seq<Row>, held: map<string, nat>, fs: set<string>, now: int, r: Row)
    requires forall f :: f in held ==> held[f] < |rows|
  {
    r.feature in fs && r.feature in held && r == rows[held[r.feature]] && IsClaimable(r, now)
  }

  /** The claimable held rows, in capture order. */
  method ClaimableInOrder(rows: seq<Row>, held: map<string, nat>, now: int) returns (heads: seq<Row>)
    requires HoldsOldest(rows, |rows|, held)
    ensures forall r :: r in heads <==> HeldAndClaimable(rows, held, held.Keys, now, r)
    ensures SortedByCapture(heads) && DistinctFeatures(heads)
  {
    heads := [];
    var left := held.Keys;
    while left != {}
      invariant left <= held.Keys
      invariant forall r :: r in heads <==> HeldAndClaimable(rows, held, held.Keys - left, now, r)
      invariant SortedByCapture(heads) && DistinctFeatures(heads)
      decreases left
    {
      var f :| f in left;
      var row := rows[held[f]];
      ghost var was := left;
      left := left - {f};
      SelectOne(rows, held, was, f, now);
      if IsClaimable(row, now) {
        var at := CapturePosition(heads, row);
        InsertedOnce(heads, row, at);
        heads := heads[..at] + [row] + heads[at..];
      }
    }
  }

  lemma SelectOne(rows: seq<Row>, held: map<string, nat>, left: set<string>, f: string, now: int)
    requires HoldsOldest(rows, |rows|, held) && left <= held.Keys && f in left
    ensures forall r :: HeldAndClaimable(rows, held, held.Keys - (left - {f}), now, r) <==>
              HeldAndClaimable(rows, held, held.Keys - left, now, r) || (r == rows[held[f]] && IsClaimable(r, now))
    ensures forall r :: HeldAndClaimable(rows, held, held.Keys - left, now, r) ==> r.feature != f
    ensures rows[held[f]].feature == f
  {
  }

  /** chainHeads (sw.js:364-376): one row per feature, its oldest, and only if claimable now;
      in capture order. */
  method ChainHeads(rows: seq<Row>, now: int) returns (heads: seq<Row>)
    ensures forall r :: r in heads <==> IsHead(rows, now, r)
    ensures SortedByCapture(heads)
    ensures DistinctFeatures(heads)
  {
    var held := HoldOldest(rows);
    heads := ClaimableInOrder(rows, held, now);
    forall r
      ensures r in heads <==> IsHead(rows, now, r)
    {
      HeadIsHeld(rows, held, now, r);
    }
  }

  lemma HoldNewOldest(rows: seq<Row>, n: nat, held: map<string, nat>)
    requires n < |rows| && HoldsOldest(rows, n, held)
    requires rows[n].feature !in held || rows[n].queuedAt < rows[held[rows[n].feature]].queuedAt
    ensures HoldsOldest(rows, n + 1, held[rows[n].feature := n])
  {
    var next := held[rows[n].feature := n];
    forall f | f in next
      ensures next[f] < n + 1 && rows[next[f]].feature == f && IsOldestAt(rows[..n + 1], next[f])
    {
      if f != rows[n].feature {
        assert IsOldestAt(rows[..n], held[f]);
      } else {
        forall j | 0 <= j < n + 1 && rows[..n + 1][j].feature == f
          ensures rows[n].queuedAt < rows[j].queuedAt || (rows[n].queuedAt == rows[j].queuedAt && n <= j)
        {
          if j < n {
            assert f in held && IsOldestAt(rows[..n], held[f]);
            assert rows[..n][j].feature == f;
          }
        }
      }
    }
  }

  lemma KeepOldest(rows: seq<Row>, n: nat, held: map<string, nat>)
    requires n < |rows| && HoldsOldest(rows, n, held)
    requires rows[n].feature in held && rows[n].queuedAt >= rows[held[rows[n].feature]].queuedAt
    ensures HoldsOldest(rows, n + 1, held)
  {
    forall f | f in held
      ensures IsOldestAt(rows[..n + 1], held[f])
    {
      assert IsOldestAt(rows[..n], held[f]);
      forall j | 0 <= j < n + 1 && rows[..n + 1][j].feature == f
        ensures rows[held[f]].queuedAt < rows[j].queuedAt || (rows[held[f]].queuedAt == rows[j].queuedAt && held[f] <= j)
      {
        if j < n {
          assert rows[..n][j].feature == f;
        }
      }
    }
  }

  lemma InsertedOnce(before: seq<Row>, row: Row, at: nat)
    requires DistinctFeatures(before) && at <= |before|
    requires forall r :: r in before ==> r.feature != row.feature
    ensures DistinctFeatures(before[..at] + [row] + before[at..])
    ensures forall r :: r in before[..at] + [row] + before[at..] <==> r in before || r == row
  {
    var after := before[..at] + [row] + before[at..];
    forall i, j | 0 <= i < j < |after|
      ensures after[i].feature != after[j].feature
    {
      if i == at {
        assert after[j] == before[j - 1] && before[j - 1] in before;
      } else if j == at {
        assert after[i] == before[i] && before[i] in before;
      } else {
        assert after[i] == before[if i < at then i else i - 1];
        assert after[j] == before[if j < at then j else j - 1];
      }
    }
    InsertedMembers(before, row, at);
  }

  lemma InsertedMembers<T>(before: seq<T>, x: T, at: nat)
    requires at <= |before|
    ensures forall r :: r in before[..at] + [x] + before[at..] <==> r in before || r == x
  {
    assert before == before[..at] + before[at..];
  }

  lemma HeadIsHeld(rows: seq<Row>, held: map<string, nat>, now: int, r: Row)
    requires HoldsOldest(rows, |rows|, held)
    ensures IsHead(rows, now, r) <==>
            (r.feature in held && r == rows[held[r.feature]] && IsClaimable(r, now))
  {
    assert rows[..|rows|] == rows;
    if IsHead(rows, now, r) {
      var i :| 0 <= i < |rows| && rows[i] == r && IsOldestAt(rows, i) && IsClaimable(r, now);
      var h := held[r.feature];
      assert IsOldestAt(rows, h);
      assert i == h;
    }
  }
}
