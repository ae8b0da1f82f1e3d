/**
 One background drain of the feature queue, apps/portal-web/public/sw.js:743-849 and 959-1049,
 run without interference: the interleaved protocol is in ReplayProtocol. The queue is a field
 the methods update in place, one IndexedDB transaction at a time. The server is an oracle that
 answers every fetch with a status or a network error.
 */
module OfflineDrain {
  import opened Prelude
  import opened QueueRules

  datatype Reply = Answer(status: int) | NetworkError

  /** What replayFeatureRecord returns, or Threw when fetch itself failed. */
  datatype Replay = Finished | Refused(terminal: bool) | Threw

  /** The answer to a fetch for a row; the flag says whether it is the checkOnly dry run. */
  type Server = (Row, bool) -> Reply

  type Queue = map<Key, Row>

  /** Every row is filed under its own key. */
  predicate ValidQueue(queue: Queue) {
    forall k :: k in queue ==> queue[k].key == k
  }

  function ResultOfReply(reply: Reply, op: Op): Replay {
    match reply
    case NetworkError => Threw
    case Answer(status) =>
      match ReplayOutcomeForStatus(status, op)
      case Done => Finished
      case Refuse => Refused(true)
      case Retry => Refused(false)
  }

  function ReplayFeatureRecord(r: Row, server: Server): Replay {
    match r.edit.op
    case Insert => ResultOfReply(server(r, false), r.edit.op)
    case UnknownOp(_) => Refused(true)
    case _ =>
      var dryRun := ResultOfReply(server(r, true), r.edit.op);
      if dryRun.Finished? then ResultOfReply(server(r, false), r.edit.op) else dryRun
  }

  // ------------------------------------------------ the transactions as functions

  predicate CanClaim(row: Row, who: Option<string>, now: int) {
    IsOwnedBy(row, who) && IsClaimable(row, now)
  }

  function Claimed(row: Row, stamp: int): Row {
    row.(status := Syncing, lastAttemptAt := Some(stamp))
  }

  /** Refusal bookkeeping: written over the claimed row, counting from the listed one. */
  function AfterRefusal(record: Row, claimed: Row, terminal: bool): Row {
    claimed.(status := if terminal then Rejected else Failed, retryCount := record.retryCount + 1)
  }

  /** A network failure puts back the row as it was listed, before the claim. */
  function AfterNetworkFailure(record: Row): Row {
    record.(status := if record.status.Failed? then Failed else Pending)
  }

  function AfterReplay(queue: Queue, record: Row, claimed: Row, result: Replay): Queue {
    match result
    case Finished => queue - {record.key}
    case Refused(terminal) => queue[record.key := AfterRefusal(record, claimed, terminal)]
    case Threw => queue[record.key := AfterNetworkFailure(record)]
  }

  /** Claim, replay and settle one listed record. */
  function DrainOne(queue: Queue, record: Row, who: Option<string>, server: Server, clock: Key -> int): Queue {
    var now := clock(record.key);
    if record.key !in queue || !CanClaim(queue[record.key], who, now) then
      queue
    else
      var claimed := Claimed(queue[record.key], now);
      AfterReplay(queue[record.key := claimed], record, claimed, ReplayFeatureRecord(record, server))
  }

  function DrainAll(queue: Queue, todo: seq<Row>, who: Option<string>, server: Server, clock: Key -> int): Queue
    decreases |todo|
  {
    if todo == [] then queue
    else DrainAll(DrainOne(queue, todo[0], who, server, clock), todo[1..], who, server, clock)
  }

  /** The rows are the queue's rows with this owner visible, each listed once. */
  ghost predicate ListsOwned(queue: Queue, who: Option<string>, rows: seq<Row>) {
    && (forall r :: r in rows <==> r.key in queue && queue[r.key] == r && IsOwnedBy(r, who))
    && (forall i, j :: 0 <= i < j < |rows| ==> rows[i].key != rows[j].key)
  }

  predicate LeftForThePage(r: Row, owesUpload: set<string>) {
    r.feature in owesUpload || EmbedsFile(r.edit)
  }

  /** The work list of one drain: the heads of the owned rows, minus what only the page can send. */
  ghost predicate IsTodo(rows: seq<Row>, now: int, owesUpload: set<string>, todo: seq<Row>) {
    && (forall r :: r in todo <==> IsHead(rows, now, r) && !LeftForThePage(r, owesUpload))
    && SortedByCapture(todo)
    && DistinctFeatures(todo)
  }

  /** `r` is in the queue, visible to `who`, and no row `who` sees on its feature is older. */
  ghost predicate IsOldestOwned(queue: Queue, who: Option<string>, r: Row) {
    && r.key in queue && queue[r.key] == r && IsOwnedBy(r, who)
    && forall k :: k in queue && IsOwnedBy(queue[k], who) && queue[k].feature == r.feature ==> r.queuedAt <= queue[k].queuedAt
  }

  /** A replay of some listed row was cut off by the network after its claim. */
  ghost predicate Interrupted(queue: Queue, todo: seq<Row>, who: Option<string>, server: Server, clock: Key -> int) {
    exists r :: r in todo && r.key in queue && CanClaim(queue[r.key], who, clock(r.key)) && ReplayFeatureRecord(r, server).Threw?
  }

  lemma DistinctWork(queue: Queue, rows: seq<Row>, heads: seq<Row>, work: seq<Row>)
    requires (forall r :: r in rows ==> r.key in queue && queue[r.key] == r)
    requires (forall r :: r in heads ==> r in rows) && (forall r :: r in work ==> r in heads)
    requires DistinctFeatures(work)
    ensures forall j :: 0 <= j < |work| ==> work[j].key in queue && queue[work[j].key] == work[j]
    ensures forall i, j :: 0 <= i < j < |work| ==> work[i].key != work[j].key
  {
    forall j | 0 <= j < |work| ensures work[j].key in queue && queue[work[j].key] == work[j] {
      assert work[j] in work;
    }
  }

  class OfflineDb {
    var queue: Queue
    var owesUpload: set<string>
    var identity: Option<string>

    /** claimRow: re-read the row and flip it inside one readwrite transaction. */
    method ClaimRow(key: Key, who: Option<string>, now: int) returns (claimed: Option<Row>)
      modifies this`queue
      ensures claimed.Some? <==> key in old(queue) && CanClaim(old(queue)[key], who, now)
      ensures claimed.Some? ==> claimed.value == Claimed(old(queue)[key], now)
      ensures queue == if claimed.Some? then old(queue)[key := claimed.value] else old(queue)
    {
      claimed := None;
      if key in queue && CanClaim(queue[key], who, now) {
        claimed := Some(Claimed(queue[key], now));
        queue := queue[key := claimed.value];
      }
    }

    /** idbGetAll filtered by owner; IndexedDB picks the order. */
    method ListOwned(who: Option<string>) returns (rows: seq<Row>)
      requires ValidQueue(queue)
      ensures ListsOwned(queue, who, rows)
    {
      rows := [];
      var left := queue.Keys;
      while left != {}
        invariant left <= queue.Keys
        invariant forall r :: r in rows <==> r.key in queue.Keys - left && queue[r.key] == r && IsOwnedBy(r, who)
        invariant forall i, j :: 0 <= i < j < |rows| ==> rows[i].key != rows[j].key
        decreases left
      {
        var k :| k in left;
        left := left - {k};
        if IsOwnedBy(queue[k], who) {
          forall i | 0 <= i < |rows|
            ensures rows[i].key != k
          {
            assert rows[i] in rows;
          }
          rows := rows + [queue[k]];
        }
      }
    }

    /** One round of the loop: claim, replay, write the result. */
    method DrainRecord(record: Row, who: Option<string>, server: Server, now: int) returns (threw: bool)
      modifies this`queue
      ensures queue == DrainOne(old(queue), record, who, server, _ => now)
      ensures threw <==> record.key in old(queue) && CanClaim(old(queue)[record.key], who, now) && ReplayFeatureRecord(record, server).Threw?
    {
      hide ReplayFeatureRecord, CanClaim;
      threw := false;
      var claimed := ClaimRow(record.key, who, now);
      if claimed.None? {
        return;
      }
      match ReplayFeatureRecord(record, server) {
        case Finished =>
          queue := queue - {record.key};
        case Refused(terminal) =>
          queue := queue[record.key := AfterRefusal(record, claimed.value, terminal)];
        case Threw =>
          queue := queue[record.key := AfterNetworkFailure(record)];
          threw := true;
      }
    }

    /** drainFeatureQueue: `retry` asks the browser to fire the sync again. */
    method DrainFeatureQueue(now: int, server: Server, clock: Key -> int)
      returns (retry: bool, ghost rows: seq<Row>, ghost todo: seq<Row>)
      requires ValidQueue(queue)
      modifies this`queue
      ensures ListsOwned(old(queue), identity, rows)
      ensures IsTodo(rows, now, owesUpload, todo)
      ensures queue == DrainAll(old(queue), todo, identity, server, clock)
      ensures retry <==> Interrupted(old(queue), todo, identity, server, clock)
    {
      var who := identity;
      var listed := ListOwned(who);
      rows := listed;
      var heads := ChainHeads(listed, now);
      var work := WithoutPageWork(heads, owesUpload);
      todo := work;
      retry := false;
      DistinctWork(queue, rows, heads, work);
      ghost var start := queue;
      for i := 0 to |work|
        invariant DrainAll(start, work, who, server, clock) == DrainAll(queue, work[i..], who, server, clock)
        invariant forall j :: i <= j < |work| ==> work[j].key in queue && queue[work[j].key] == start[work[j].key]
        invariant retry <==> Interrupted(start, work[..i], who, server, clock)
      {
        hide CanClaim, ReplayFeatureRecord, ListsOwned, IsTodo;
        ghost var before := queue;
        var threw := DrainRecord(work[i], who, server, clock(work[i].key));
        SameRound(before, work[i], who, server, clock);
        NextRound(before, work, i, who, server, clock);
        InterruptedNext(start, work, i, who, server, clock);
        retry := retry || threw;
      }
      assert work[..|work|] == work && work[|work|..] == [];
    }
  }

  lemma SameRound(queue: Queue, record: Row, who: Option<string>, server: Server, clock: Key -> int)
    ensures DrainOne(queue, record, who, server, _ => clock(record.key)) == DrainOne(queue, record, who, server, clock)
    ensures forall k :: k != record.key ==>
      (k in DrainOne(queue, record, who, server, clock) <==> k in queue)
      && (k in queue ==> DrainOne(queue, record, who, server, clock)[k] == queue[k])
  {
  }

  lemma NextRound(queue: Queue, work: seq<Row>, i: nat, who: Option<string>, server: Server, clock: Key -> int)
    requires i < |work|
    ensures DrainAll(queue, work[i..], who, server, clock)
         == DrainAll(DrainOne(queue, work[i], who, server, clock), work[i + 1..], who, server, clock)
  {
    assert work[i..][0] == work[i] && work[i..][1..] == work[i + 1..];
  }

  lemma InterruptedNext(queue: Queue, work: seq<Row>, i: nat, who: Option<string>, server: Server, clock: Key -> int)
    requires i < |work|
    ensures Interrupted(queue, work[..i + 1], who, server, clock) <==>
            Interrupted(queue, work[..i], who, server, clock)
            || (work[i].key in queue && CanClaim(queue[work[i].key], who, clock(work[i].key)) && ReplayFeatureRecord(work[i], server).Threw?)
  {
    hide CanClaim, ReplayFeatureRecord;
    assert work[..i + 1] == work[..i] + [work[i]];
  }

  /** Drop the rows only the in-app drain can send, keeping the order. */
  method WithoutPageWork(heads: seq<Row>, owesUpload: set<string>) returns (todo: seq<Row>)
    requires SortedByCapture(heads) && DistinctFeatures(heads)
    ensures forall r :: r in todo <==> r in heads && !LeftForThePage(r, owesUpload)
    ensures SortedByCapture(todo) && DistinctFeatures(todo)
  {
    todo := [];
    for i := 0 to |heads|
      invariant forall r :: r in todo <==> r in heads[..i] && !LeftForThePage(r, owesUpload)
      invariant SortedByCapture(todo) && DistinctFeatures(todo)
      invariant forall r :: r in todo ==> exists k :: 0 <= k < i && heads[k] == r
    {
      if !LeftForThePage(heads[i], owesUpload) {
        forall k | 0 <= k < |todo|
          ensures todo[k].queuedAt <= heads[i].queuedAt && todo[k].feature != heads[i].feature
        {
          assert todo[k] in todo;
        }
        todo := todo + [heads[i]];
      }
      assert heads[..i + 1] == heads[..i] + [heads[i]];
    }
    assert heads[..|heads|] == heads;
  }
}
