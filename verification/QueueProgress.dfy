/**
 What repeated drains do to the queue: a drain removes a row only on a 'done' outcome, and
 against a server that accepts everything pass i removes exactly the i-th row of every chain.
 */
module QueueProgress {
  import opened Prelude
  import opened QueueRules
  import opened OfflineDrain

  predicate SameAt(a: Queue, b: Queue, k: Key) {
    (k in a <==> k in b) && (k in a ==> a[k] == b[k])
  }

  predicate DistinctKeys(todo: seq<Row>) {
    forall i, j :: 0 <= i < j < |todo| ==> todo[i].key != todo[j].key
  }

  /** A drain touches only the listed rows, and each one as if it were the only one listed. */
  lemma {:induction false} DrainAllAt(queue: Queue, todo: seq<Row>, who: Option<string>, server: Server, clock: Key -> int, k: Key)
    requires DistinctKeys(todo)
    ensures (forall i :: 0 <= i < |todo| ==> todo[i].key != k) ==>
              SameAt(DrainAll(queue, todo, who, server, clock), queue, k)
    ensures forall i :: 0 <= i < |todo| && todo[i].key == k ==>
              SameAt(DrainAll(queue, todo, who, server, clock), DrainOne(queue, todo[i], who, server, clock), k)
  {
    if todo != [] {
      var next := DrainOne(queue, todo[0], who, server, clock);
      DrainAllAt(next, todo[1..], who, server, clock, k);
      forall i | 0 <= i < |todo| && todo[i].key == k
        ensures SameAt(DrainAll(queue, todo, who, server, clock), DrainOne(queue, todo[i], who, server, clock), k)
      {
        if i > 0 {
          assert todo[1..][i - 1] == todo[i];
          assert SameAt(next, queue, k);
        } else {
          assert forall j :: 0 <= j < |todo[1..]| ==> todo[1..][j] == todo[j + 1];
        }
      }
    }
  }

  /** A row leaves the queue exactly when the drain claimed it and its replay ended 'done'. */
  lemma RemovedIffDone(queue: Queue, todo: seq<Row>, who: Option<string>, server: Server, clock: Key -> int, k: Key)
    requires DistinctKeys(todo) && k in queue
    ensures k !in DrainAll(queue, todo, who, server, clock) <==>
            exists i :: 0 <= i < |todo| && todo[i].key == k && CanClaim(queue[k], who, clock(k))
                        && ReplayFeatureRecord(todo[i], server).Finished?
  {
    DrainAllAt(queue, todo, who, server, clock, k);
    if exists i :: 0 <= i < |todo| && todo[i].key == k {
      var i :| 0 <= i < |todo| && todo[i].key == k;
      assert SameAt(DrainAll(queue, todo, who, server, clock), DrainOne(queue, todo[i], who, server, clock), k);
    }
  }

  lemma DrainOneKeepsEdit(queue: Queue, record: Row, who: Option<string>, server: Server, clock: Key -> int)
    requires record.key in queue && queue[record.key] == record
    ensures record.key in DrainOne(queue, record, who, server, clock) ==>
              SameEdit(record, DrainOne(queue, record, who, server, clock)[record.key])
  {
  }

  /** No drain forges an edit or the owner, feature and capture time it is filed under. */
  lemma DrainKeepsEdits(queue: Queue, todo: seq<Row>, who: Option<string>, server: Server, clock: Key -> int, k: Key)
    requires DistinctKeys(todo) && k in DrainAll(queue, todo, who, server, clock)
    requires forall i :: 0 <= i < |todo| ==> todo[i].key in queue && queue[todo[i].key] == todo[i]
    ensures k in queue && SameEdit(queue[k], DrainAll(queue, todo, who, server, clock)[k])
  {
    var after := DrainAll(queue, todo, who, server, clock);
    DrainAllAt(queue, todo, who, server, clock, k);
    if i :| 0 <= i < |todo| && todo[i].key == k {
      var record := todo[i];
      assert record in todo;
      DrainOneKeepsEdit(queue, record, who, server, clock);
      assert SameAt(after, DrainOne(queue, record, who, server, clock), k);
    }
  }

  // ---------------------------------------------------------------- what a drain costs a row

  /** The status that decides a replay: the dry run's unless that was accepted; None without an answer. */
  function DecidingStatus(r: Row, server: Server): Option<int> {
    var dryRun := server(r, true);
    var last := server(r, false);
    if !r.edit.op.Insert? && (dryRun.NetworkError? || !Accepted(dryRun.status, r.edit.op)) then StatusOf(dryRun) else StatusOf(last)
  }

  function StatusOf(reply: Reply): Option<int> {
    if reply.Answer? then Some(reply.status) else None
  }

  /** A delete of what is already gone is accepted. */
  predicate Accepted(status: int, op: Op) {
    200 <= status < 300 || (op.Delete? && status == 404)
  }

  /** A client error no waiting can cure. */
  predicate IsHopeless(status: int) {
    400 <= status < 500 && status !in {401, 408, 425, 429}
  }

  predicate RefusedForGood(r: Row, server: Server) {
    r.edit.op.UnknownOp?
    || (DecidingStatus(r, server).Some? && IsHopeless(DecidingStatus(r, server).value) && !Accepted(DecidingStatus(r, server).value, r.edit.op))
  }

  lemma TerminalIffRefusedForGood(r: Row, server: Server)
    ensures ReplayFeatureRecord(r, server) == Refused(true) <==> RefusedForGood(r, server)
    ensures ReplayFeatureRecord(r, server).Threw? <==> !r.edit.op.UnknownOp? && DecidingStatus(r, server).None?
  {
  }

  /** A row is parked exactly when the drain claimed it and the server, or this build, refuses it for good. */
  lemma ParkedIffRefusedForGood(queue: Queue, todo: seq<Row>, who: Option<string>, server: Server, clock: Key -> int, k: Key)
    requires DistinctKeys(todo) && k in queue && queue[k].key == k && !queue[k].status.Rejected?
    requires forall i :: 0 <= i < |todo| ==> todo[i].key in queue && queue[todo[i].key] == todo[i]
    ensures var after := DrainAll(queue, todo, who, server, clock);
            k in after && after[k].status.Rejected? <==>
              queue[k] in todo && CanClaim(queue[k], who, clock(k)) && RefusedForGood(queue[k], server)
  {
    hide ReplayFeatureRecord, RefusedForGood, CanClaim, DrainAll;
    DrainAllAt(queue, todo, who, server, clock, k);
    TerminalIffRefusedForGood(queue[k], server);
    if i :| 0 <= i < |todo| && todo[i].key == k {
      assert todo[i] in todo;
      assert SameAt(DrainAll(queue, todo, who, server, clock), DrainOne(queue, todo[i], who, server, clock), k);
    }
  }

  /** A conflict on an insert is a refusal for good: the row is parked, not taken as done. */
  lemma ConflictOnInsertParks(queue: Queue, todo: seq<Row>, who: Option<string>, server: Server, clock: Key -> int, k: Key)
    requires DistinctKeys(todo) && k in queue && queue[k].key == k && queue[k] in todo && CanClaim(queue[k], who, clock(k))
    requires forall i :: 0 <= i < |todo| ==> todo[i].key in queue && queue[todo[i].key] == todo[i]
    requires queue[k].edit.op.Insert? && server(queue[k], false) == Answer(409)
    ensures var after := DrainAll(queue, todo, who, server, clock);
            k in after && after[k].status.Rejected?
  {
    hide ReplayFeatureRecord, DrainAll;
    ParkedIffRefusedForGood(queue, todo, who, server, clock, k);
  }

  /** With no answer from the network a drain costs nothing: every row is still there with the retry
      count and the attempt time it had, so one that was waiting is as claimable as before. */
  lemma OutageIsFree(queue: Queue, todo: seq<Row>, who: Option<string>, server: Server, clock: Key -> int, k: Key, t: int)
    requires DistinctKeys(todo) && k in queue && !queue[k].edit.op.UnknownOp?
    requires forall i :: 0 <= i < |todo| ==> todo[i].key in queue && queue[todo[i].key] == todo[i]
    requires forall r, dryRun :: server(r, dryRun).NetworkError?
    ensures var after := DrainAll(queue, todo, who, server, clock);
            && k in after && SameEdit(queue[k], after[k])
            && after[k].retryCount == queue[k].retryCount && after[k].lastAttemptAt == queue[k].lastAttemptAt
            && (queue[k].status.Pending? || queue[k].status.Failed? ==> (IsClaimable(after[k], t) <==> IsClaimable(queue[k], t)))
  {
    DrainAllAt(queue, todo, who, server, clock, k);
    if i :| 0 <= i < |todo| && todo[i].key == k {
      assert todo[i] in todo;
      assert ReplayFeatureRecord(todo[i], server) == Threw;
      assert SameAt(DrainAll(queue, todo, who, server, clock), DrainOne(queue, todo[i], who, server, clock), k);
    }
  }

  // ---------------------------------------------------------------- one full pass

  ghost predicate AcceptsEverything(server: Server) {
    forall r, dryRun :: server(r, dryRun).Answer? && 200 <= server(r, dryRun).status < 300
  }

  /** Every row is visible to this identity, claimable, of a known operation, and needs no page. */
  predicate AllReady(queue: Queue, who: Option<string>, now: int, owesUpload: set<string>) {
    forall k :: k in queue ==>
      CanClaim(queue[k], who, now) && !LeftForThePage(queue[k], owesUpload) && !queue[k].edit.op.UnknownOp?
  }

  ghost predicate Oldest(queue: Queue, k: Key)
    requires k in queue
  {
    forall j :: j in queue && queue[j].feature == queue[k].feature ==> queue[k].queuedAt <= queue[j].queuedAt
  }

  /** Some row of the feature is in `before` and no longer in `after`. */
  ghost predicate TakesOneOff(before: Queue, after: Queue, feature: string) {
    exists j :: j in before && j !in after && before[j].feature == feature
  }

  /** `after` is `before` with exactly one oldest row taken off every feature's chain. */
  ghost predicate OnePass(before: Queue, after: Queue) {
    && (forall k :: k in after ==> k in before && before[k] == after[k])
    && (forall k :: k in before && k !in after ==> Oldest(before, k))
    && (forall k :: k in before ==> TakesOneOff(before, after, before[k].feature))
    && (forall j, k :: j in before && j !in after && k in before && k !in after && before[j].feature == before[k].feature ==> j == k)
  }

  lemma TodoIsTheHeads(queue: Queue, who: Option<string>, rows: seq<Row>, now: int, owesUpload: set<string>, todo: seq<Row>)
    requires ValidQueue(queue) && ListsOwned(queue, who, rows) && IsTodo(rows, now, owesUpload, todo)
    ensures DistinctKeys(todo)
    ensures forall n :: 0 <= n < |todo| ==> IsOldestOwned(queue, who, todo[n])
  {
    forall n | 0 <= n < |todo|
      ensures IsOldestOwned(queue, who, todo[n])
    {
      var r := todo[n];
      assert r in todo;
      var i :| 0 <= i < |rows| && rows[i] == r && IsOldestAt(rows, i) && IsClaimable(r, now);
      assert rows[i] in rows;
      forall k | k in queue && IsOwnedBy(queue[k], who) && queue[k].feature == r.feature
        ensures r.queuedAt <= queue[k].queuedAt
      {
        assert queue[k] in rows;
      }
    }
    forall i, j | 0 <= i < j < |todo|
      ensures todo[i].key != todo[j].key
    {
      assert todo[i] in todo && todo[j] in todo;
      assert todo[i].feature != todo[j].feature;
    }
  }

  lemma HeadOfEveryFeature(rows: seq<Row>, n: nat, f: string) returns (i: nat)
    requires n <= |rows| && exists k :: 0 <= k < n && rows[k].feature == f
    ensures i < n && rows[i].feature == f && IsOldestAt(rows[..n], i)
  {
    if exists k :: 0 <= k < n - 1 && rows[k].feature == f {
      i := HeadOfEveryFeature(rows, n - 1, f);
      assert forall j :: 0 <= j < n - 1 ==> rows[..n - 1][j] == rows[..n][j];
      if rows[n - 1].feature == f && rows[n - 1].queuedAt < rows[i].queuedAt {
        i := n - 1;
      }
    } else {
      i := n - 1;
    }
  }

  lemma AcceptedReplayFinishes(r: Row, server: Server)
    requires AcceptsEverything(server) && !r.edit.op.UnknownOp?
    ensures ReplayFeatureRecord(r, server).Finished?
  {
  }

  /** Against a server that accepts everything, one drain of a ready queue removes its work list. */
  lemma ReadyDrainRemovesTodo(queue: Queue, who: Option<string>, now: int, owesUpload: set<string>, todo: seq<Row>,
                              server: Server, clock: Key -> int, k: Key)
    requires DistinctKeys(todo) && forall i :: 0 <= i < |todo| ==> todo[i].key in queue && queue[todo[i].key] == todo[i]
    requires AcceptsEverything(server) && AllReady(queue, who, now, owesUpload)
    requires clock(k) >= now && k in queue && queue[k].key == k
    ensures k !in DrainAll(queue, todo, who, server, clock) <==> queue[k] in todo
    ensures k in DrainAll(queue, todo, who, server, clock) ==> DrainAll(queue, todo, who, server, clock)[k] == queue[k]
  {
    DrainAllAt(queue, todo, who, server, clock, k);
    if queue[k] in todo {
      var i :| 0 <= i < |todo| && todo[i] == queue[k];
      ClaimableIsMonotone(queue[k], now, clock(k));
      AcceptedReplayFinishes(queue[k], server);
      RemovedIffDone(queue, todo, who, server, clock, k);
    } else {
      forall i | 0 <= i < |todo|
        ensures todo[i].key != k
      {
      }
    }
  }

  lemma SomeHeadOfTheFeature(queue: Queue, who: Option<string>, rows: seq<Row>, now: int, k: Key) returns (h: Row)
    requires ListsOwned(queue, who, rows) && ValidQueue(queue)
    requires k in queue && forall j :: j in queue ==> CanClaim(queue[j], who, now)
    ensures IsHead(rows, now, h) && h.feature == queue[k].feature && h.key in queue && queue[h.key] == h
  {
    assert queue[k].key == k && queue[k] in rows;
    var n :| 0 <= n < |rows| && rows[n] == queue[k];
    var i := HeadOfEveryFeature(rows, |rows|, queue[k].feature);
    assert rows[..|rows|] == rows;
    assert rows[i] in rows;
    h := rows[i];
  }

  /** Against a server that accepts everything, one drain of a ready queue is one pass. */
  lemma DrainIsOnePass(queue: Queue, who: Option<string>, rows: seq<Row>, now: int, owesUpload: set<string>, todo: seq<Row>,
                       server: Server, clock: Key -> int)
    requires ValidQueue(queue) && ListsOwned(queue, who, rows) && IsTodo(rows, now, owesUpload, todo)
    requires AcceptsEverything(server) && AllReady(queue, who, now, owesUpload)
    requires forall k :: clock(k) >= now
    ensures OnePass(queue, DrainAll(queue, todo, who, server, clock))
  {
    var after := DrainAll(queue, todo, who, server, clock);
    TodoIsTheHeads(queue, who, rows, now, owesUpload, todo);
    forall k | k in queue
      ensures k !in after <==> queue[k] in todo
      ensures k in after ==> after[k] == queue[k]
    {
      ReadyDrainRemovesTodo(queue, who, now, owesUpload, todo, server, clock, k);
    }
    forall k | k in after
      ensures k in queue
    {
      DrainKeepsEdits(queue, todo, who, server, clock, k);
    }
    forall k | k in queue
      ensures TakesOneOff(queue, after, queue[k].feature)
    {
      var h := SomeHeadOfTheFeature(queue, who, rows, now, k);
      assert h in todo;
      assert h.key in queue && h.key !in after;
    }
    RemovingHeadsIsOnePass(queue, todo, after);
  }

  lemma RemovingHeadsIsOnePass(queue: Queue, todo: seq<Row>, after: Queue)
    requires ValidQueue(queue) && DistinctFeatures(todo)
    requires forall i :: 0 <= i < |todo| ==>
               todo[i].key in queue && forall k :: k in queue && queue[k].feature == todo[i].feature ==> todo[i].queuedAt <= queue[k].queuedAt
    requires forall k :: k in queue ==> (k !in after <==> queue[k] in todo) && (k in after ==> after[k] == queue[k])
    requires forall k :: k in after ==> k in queue
    requires forall k :: k in queue ==> TakesOneOff(queue, after, queue[k].feature)
    ensures OnePass(queue, after)
  {
    forall k | k in queue && k !in after
      ensures Oldest(queue, k)
    {
      var i :| 0 <= i < |todo| && todo[i] == queue[k];
    }
    forall j, k | j in queue && j !in after && k in queue && k !in after && queue[j].feature == queue[k].feature
      ensures j == k
    {
      var a :| 0 <= a < |todo| && todo[a] == queue[j];
      var b :| 0 <= b < |todo| && todo[b] == queue[k];
      assert a == b;
    }
  }

  // ---------------------------------------------------------------- many passes

  ghost function Chain(queue: Queue, f: string): set<Key> {
    set k | k in queue && queue[k].feature == f
  }

  ghost predicate Passes(qs: seq<Queue>) {
    |qs| > 0 && forall i :: 0 <= i < |qs| - 1 ==> OnePass(qs[i], qs[i + 1])
  }

  lemma PassShortensChains(before: Queue, after: Queue, f: string)
    requires OnePass(before, after)
    ensures |Chain(after, f)| == Max(|Chain(before, f)| - 1, 0)
  {
    var a, b := Chain(before, f), Chain(after, f);
    if a == {} {
      assert b == {};
    } else {
      var k :| k in a;
      var j :| j in before && j !in after && before[j].feature == before[k].feature;
      assert b == a - {j};
    }
  }

  lemma {:induction false} ChainAfterPasses(qs: seq<Queue>, f: string)
    requires Passes(qs)
    ensures |Chain(qs[|qs| - 1], f)| == Max(|Chain(qs[0], f)| - (|qs| - 1), 0)
  {
    if |qs| > 1 {
      PassShortensChains(qs[0], qs[1], f);
      ChainAfterPasses(qs[1..], f);
    }
  }

  /** As many passes as the longest chain empty the queue, and no fewer do. */
  lemma PassesEmptyTheQueue(qs: seq<Queue>)
    requires Passes(qs)
    ensures qs[|qs| - 1] == map[] <==> forall f :: |Chain(qs[0], f)| <= |qs| - 1
  {
    var last := qs[|qs| - 1];
    forall f
      ensures |Chain(qs[0], f)| <= |qs| - 1 <==> Chain(last, f) == {}
    {
      ChainAfterPasses(qs, f);
    }
    if k :| k in last {
      assert k in Chain(last, last[k].feature);
      assert !(|Chain(qs[0], last[k].feature)| <= |qs| - 1);
    } else {
      assert last == map[];
      assert forall f :: Chain(last, f) == {};
    }
  }

  ghost function OlderThan(queue: Queue, row: Row): set<Key> {
    set j | j in queue && Older(queue[j], row)
  }

  /** How many rows of its chain were captured before this one. */
  ghost function Rank(queue: Queue, k: Key): nat
    requires k in queue
  {
    |OlderThan(queue, queue[k])|
  }

  predicate DistinctCaptures(queue: Queue) {
    forall j, k :: j in queue && k in queue && j != k && queue[j].feature == queue[k].feature ==>
      queue[j].queuedAt != queue[k].queuedAt
  }

  lemma PassLowersRanks(before: Queue, after: Queue, k: Key)
    requires OnePass(before, after) && DistinctCaptures(before) && k in before
    ensures k in after <==> Rank(before, k) > 0
    ensures k in after ==> Rank(after, k) == Rank(before, k) - 1
  {
    assert TakesOneOff(before, after, before[k].feature);
    var j :| j in before && j !in after && before[j].feature == before[k].feature;
    FirstOfTheChain(before, after, j, k);
    var row := before[k];
    if k in after {
      ChainMinusOne(before, after, row, j);
    }
  }

  lemma ChainMinusOne(before: Queue, after: Queue, row: Row, j: Key)
    requires j in OlderThan(before, row) && j !in after
    requires forall i :: i in after ==> i in before && before[i] == after[i]
    requires forall i :: i in OlderThan(before, row) && i != j ==> i in after
    ensures |OlderThan(after, row)| == |OlderThan(before, row)| - 1
  {
    assert OlderThan(after, row) == OlderThan(before, row) - {j};
  }

  /** The row a pass takes off a chain is older than every other row of that chain. */
  lemma FirstOfTheChain(before: Queue, after: Queue, j: Key, k: Key)
    requires OnePass(before, after) && DistinctCaptures(before)
    requires j in before && j !in after && k in before && before[j].feature == before[k].feature
    ensures if k in after then j in OlderThan(before, before[k]) else j == k
    ensures k in after ==> forall i :: i in OlderThan(before, before[k]) && i != j ==> i in after
    ensures k !in after ==> OlderThan(before, before[k]) == {}
  {
    assert Oldest(before, j);
  }

  /** Pass i removes exactly the i-th row of every chain (counting from zero). */
  lemma {:induction false} PassRemovesTheIthRow(qs: seq<Queue>, k: Key)
    requires Passes(qs) && DistinctCaptures(qs[0]) && k in qs[0]
    ensures forall i :: 0 <= i < |qs| ==> (k in qs[i] <==> Rank(qs[0], k) >= i)
  {
    if |qs| > 1 {
      PassLowersRanks(qs[0], qs[1], k);
      if k in qs[1] {
        PassRemovesTheIthRow(qs[1..], k);
        forall i | 0 <= i < |qs|
          ensures k in qs[i] <==> Rank(qs[0], k) >= i
        {
          if i > 0 {
            assert qs[1..][i - 1] == qs[i];
          }
        }
      } else {
        forall i | 1 <= i < |qs|
          ensures k !in qs[i]
        {
          StaysRemoved(qs, i, k);
        }
      }
    }
  }

  lemma {:induction false} StaysRemoved(qs: seq<Queue>, i: nat, k: Key)
    requires Passes(qs) && 1 <= i < |qs| && k !in qs[1]
    ensures k !in qs[i]
    decreases i
  {
    if i > 1 {
      StaysRemoved(qs, i - 1, k);
      assert OnePass(qs[i - 1], qs[i - 1 + 1]);
    }
  }

  // ---------------------------------------------------------------- many drains

  /** One drain at time `now`, whatever order the rows are listed in and whenever each is claimed. */
  ghost predicate IsDrain(before: Queue, after: Queue, who: Option<string>, now: int, owesUpload: set<string>, server: Server) {
    exists rows, todo, clock: Key -> int ::
      && ListsOwned(before, who, rows) && IsTodo(rows, now, owesUpload, todo)
      && (forall k :: clock(k) >= now)
      && after == DrainAll(before, todo, who, server, clock)
  }

  /** Drains one after the other, at times that do not run backwards. */
  ghost predicate Drains(qs: seq<Queue>, times: seq<int>, who: Option<string>, owesUpload: set<string>, server: Server) {
    && |qs| > 0 && |times| == |qs| - 1
    && (forall i, j :: 0 <= i < j < |times| ==> times[i] <= times[j])
    && forall i :: 0 <= i < |times| ==> IsDrain(qs[i], qs[i + 1], who, times[i], owesUpload, server)
  }

  lemma DrainOfReadyIsOnePass(before: Queue, after: Queue, who: Option<string>, now: int, owesUpload: set<string>, server: Server)
    requires ValidQueue(before) && AllReady(before, who, now, owesUpload) && AcceptsEverything(server)
    requires IsDrain(before, after, who, now, owesUpload, server)
    ensures OnePass(before, after)
  {
    hide OnePass, AllReady, AcceptsEverything;
    var rows, todo, clock: Key -> int :|
      && ListsOwned(before, who, rows) && IsTodo(rows, now, owesUpload, todo)
      && (forall k :: clock(k) >= now)
      && after == DrainAll(before, todo, who, server, clock);
    DrainIsOnePass(before, who, rows, now, owesUpload, todo, server, clock);
  }

  /** A pass leaves rows as they were, and waiting only helps them. */
  lemma PassKeepsReady(before: Queue, after: Queue, who: Option<string>, now: int, later: int, owesUpload: set<string>)
    requires OnePass(before, after) && ValidQueue(before) && AllReady(before, who, now, owesUpload) && now <= later
    ensures ValidQueue(after) && AllReady(after, who, later, owesUpload)
  {
    forall k | k in after ensures CanClaim(after[k], who, later) {
      ClaimableIsMonotone(before[k], now, later);
    }
  }

  lemma {:induction false} DrainsArePasses(qs: seq<Queue>, times: seq<int>, who: Option<string>, owesUpload: set<string>, server: Server)
    requires Drains(qs, times, who, owesUpload, server) && AcceptsEverything(server)
    requires ValidQueue(qs[0]) && (times != [] ==> AllReady(qs[0], who, times[0], owesUpload))
    ensures Passes(qs)
    decreases |qs|
  {
    hide OnePass, AllReady, ValidQueue, IsDrain, AcceptsEverything;
    if |qs| > 1 {
      DrainOfReadyIsOnePass(qs[0], qs[1], who, times[0], owesUpload, server);
      var rest, later := qs[1..], times[1..];
      forall i | 0 <= i < |later| ensures IsDrain(rest[i], rest[i + 1], who, later[i], owesUpload, server) {
        assert IsDrain(qs[i + 1], qs[i + 1 + 1], who, times[i + 1], owesUpload, server);
      }
      PassKeepsReady(qs[0], qs[1], who, times[0], if later == [] then times[0] else later[0], owesUpload);
      DrainsArePasses(rest, later, who, owesUpload, server);
      forall i | 0 <= i < |qs| - 1 ensures OnePass(qs[i], qs[i + 1]) {
        if i > 0 {
          assert OnePass(rest[i - 1], rest[i - 1 + 1]);
        }
      }
    }
  }

  /** Against a server that accepts everything, n drains of a ready queue empty it exactly when no chain
      is longer than n, and drain i removes exactly the i-th row of every chain. */
  lemma DrainsEmptyTheQueue(qs: seq<Queue>, times: seq<int>, who: Option<string>, owesUpload: set<string>, server: Server)
    requires Drains(qs, times, who, owesUpload, server) && AcceptsEverything(server)
    requires ValidQueue(qs[0]) && (times != [] ==> AllReady(qs[0], who, times[0], owesUpload))
    ensures qs[|qs| - 1] == map[] <==> forall f :: |Chain(qs[0], f)| <= |times|
    ensures DistinctCaptures(qs[0]) ==> forall k, i :: k in qs[0] && 0 <= i < |qs| ==> (k in qs[i] <==> Rank(qs[0], k) >= i)
  {
    DrainsArePasses(qs, times, who, owesUpload, server);
    PassesEmptyTheQueue(qs);
    hide Passes, Chain, Drains;
    if DistinctCaptures(qs[0]) {
      forall k | k in qs[0] ensures forall i :: 0 <= i < |qs| ==> (k in qs[i] <==> Rank(qs[0], k) >= i) {
        PassRemovesTheIthRow(qs, k);
      }
    }
  }
}
