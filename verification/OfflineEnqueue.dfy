/**
 Queueing an edit: enqueueEdit of apps/portal-web/src/lib/offline-store.ts:1017-1176, one readwrite
 transaction that folds the edit into what the feature still has waiting. The fresh operation id and the
 clock are parameters; the photographs dropped after an annihilation are not modelled.
 */
module OfflineEnqueue {
  import opened Prelude
  import opened QueueRules
  import opened QueueFold
  import opened OfflineDrain

  datatype Input = Input(collection: string, feature: string, edit: Edit, owner: string)

  datatype Outcome = Queued(record: Row) | Folded(record: Row, replaced: nat) | Gone(replaced: nat)

  /** isFoldable: waiting, and this account's or nobody's. A row in flight or parked is left alone. */
  predicate IsFoldable(row: Row, owner: string) {
    (row.status.Pending? || row.status.Failed?) && IsOwnedBy(row, Some(owner))
  }

  predicate MayFold(row: Row, input: Input) {
    row.key.collection == input.collection && row.feature == input.feature && IsFoldable(row, input.owner)
  }

  function FreshRow(input: Input, id: string, now: int): Row {
    Row(Key(input.collection, id), input.feature, Some(input.owner), now, input.edit, Pending, None, 0)
  }

  /** The row an edit was folded into: its key and capture time stay, its failures are forgotten. */
  function Refiled(keep: Row, owner: string, edit: Edit): Row {
    keep.(owner := Some(owner), edit := edit, status := Pending, lastAttemptAt := None, retryCount := 0)
  }

  function EditsOf(rows: seq<Row>): (edits: seq<Edit>)
    ensures |edits| == |rows| && forall i :: 0 <= i < |rows| ==> edits[i] == rows[i].edit
  {
    seq(|rows|, i requires 0 <= i < |rows| => rows[i].edit)
  }

  predicate DistinctRows(rows: seq<Row>) {
    forall i, j :: 0 <= i < j < |rows| ==> rows[i].key != rows[j].key
  }

  /** The foldable rows of the feature, oldest first. */
  ghost predicate IsWaiting(queue: Queue, input: Input, waiting: seq<Row>) {
    && (forall r :: r in waiting <==> r.key in queue && queue[r.key] == r && MayFold(r, input))
    && SortedByCapture(waiting) && DistinctRows(waiting)
  }

  function KeysOf(rows: seq<Row>): set<Key> {
    set r | r in rows :: r.key
  }

  function Enqueued(queue: Queue, waiting: seq<Row>, input: Input, id: string, now: int): (Queue, Outcome) {
    if waiting == [] then
      var record := FreshRow(input, id, now);
      (queue[record.key := record], Queued(record))
    else
      match FoldChain(EditsOf(waiting) + [input.edit])
      case Annihilated => (queue - KeysOf(waiting), Gone(|waiting|))
      case Replace(edit) =>
        var record := Refiled(waiting[0], input.owner, edit);
        ((queue - KeysOf(waiting[1..]))[record.key := record], Folded(record, |waiting|))
  }

  lemma InsertedRow(before: seq<Row>, row: Row, at: nat)
    requires DistinctRows(before) && at <= |before| && forall r :: r in before ==> r.key != row.key
    ensures DistinctRows(before[..at] + [row] + before[at..])
    ensures forall r :: r in before[..at] + [row] + before[at..] <==> r in before || r == row
  {
    var after := before[..at] + [row] + before[at..];
    forall i, j | 0 <= i < j < |after| ensures after[i].key != after[j].key {
      if i == at {
        assert after[j] == before[j - 1] && before[j - 1] in before;
      } else if j == at {
        assert after[i] == before[i] && before[i] in before;
      } else {
        assert after[i] == before[if i < at then i else i - 1];
        assert after[j] == before[if j < at then j else j - 1];
      }
    }
    InsertedMembers(before, row, at);
  }

  class OfflineStore {
    var queue: Queue

    /** The scan of the deployment's rows, narrowed to the feature, filtered and sorted. */
    method Waiting(input: Input) returns (waiting: seq<Row>)
      requires ValidQueue(queue)
      ensures IsWaiting(queue, input, waiting)
    {
      waiting := [];
      var left := queue.Keys;
      while left != {}
        invariant left <= queue.Keys
        invariant forall r :: r in waiting <==> r.key in queue.Keys - left && queue[r.key] == r && MayFold(r, input)
        invariant SortedByCapture(waiting) && DistinctRows(waiting)
        decreases left
      {
        var k :| k in left;
        var row := queue[k];
        ghost var was := left;
        left := left - {k};
        if MayFold(row, input) {
          var at := CapturePosition(waiting, row);
          InsertedRow(waiting, row, at);
          waiting := waiting[..at] + [row] + waiting[at..];
        }
      }
    }

    /** enqueueEdit: a fresh row when nothing waits, else the oldest waiting row takes the folded chain and
        the others go, all of them when the chain cancels out. */
    method EnqueueEdit(input: Input, id: string, now: int) returns (outcome: Outcome, ghost waiting: seq<Row>)
      requires ValidQueue(queue)
      modifies this
      ensures IsWaiting(old(queue), input, waiting)
      ensures (queue, outcome) == Enqueued(old(queue), waiting, input, id, now)
    {
      var foldable := Waiting(input);
      waiting := foldable;
      hide IsWaiting, FoldOnto;
      if foldable == [] {
        var record := FreshRow(input, id, now);
        queue := queue[record.key := record];
        return Queued(record), waiting;
      }
      var folded := FoldQueuedChain(EditsOf(foldable) + [input.edit]);
      var keep := foldable[0];
      queue := queue - KeysOf(foldable[1..]);
      match folded {
        case Annihilated =>
          KeysOfCons(foldable);
          assert queue - {keep.key} == old(queue) - KeysOf(foldable);
          queue := queue - {keep.key};
          outcome := Gone(|foldable|);
        case Replace(edit) =>
          var record := Refiled(keep, input.owner, edit);
          queue := queue[record.key := record];
          outcome := Folded(record, |foldable|);
      }
    }
  }

  lemma KeysOfCons(rows: seq<Row>)
    requires rows != []
    ensures KeysOf(rows) == KeysOf(rows[1..]) + {rows[0].key}
  {
    assert rows == [rows[0]] + rows[1..];
  }

  // ---------------------------------------------------------------- one waiting row per feature

  predicate WaitTogether(queue: Queue, j: Key, k: Key, owner: string) {
    && j in queue && k in queue && j.collection == k.collection && queue[j].feature == queue[k].feature
    && IsFoldable(queue[j], owner) && IsFoldable(queue[k], owner)
  }

  /** No feature of a deployment has two rows waiting for one account. */
  ghost predicate FoldedUp(queue: Queue) {
    forall j, k, owner :: WaitTogether(queue, j, k, owner) ==> j == k
  }

  lemma WaitingKeys(queue: Queue, waiting: seq<Row>, input: Input, k: Key)
    requires ValidQueue(queue) && IsWaiting(queue, input, waiting)
    ensures k in KeysOf(waiting) <==> k in queue && MayFold(queue[k], input)
  {
    if k in queue && MayFold(queue[k], input) {
      assert queue[k] in waiting;
    }
  }

  /** After an edit only its own row waits for this account on the feature; every other row that is left
      is as it was. */
  lemma AfterEnqueue(queue: Queue, waiting: seq<Row>, input: Input, id: string, now: int, k: Key)
    requires ValidQueue(queue) && IsWaiting(queue, input, waiting) && Key(input.collection, id) !in queue
    requires k in Enqueued(queue, waiting, input, id, now).0
    ensures var own := if waiting == [] then Key(input.collection, id) else waiting[0].key;
            var after := Enqueued(queue, waiting, input, id, now).0;
            && (k == own ==> after[k].key == k && MayFold(after[k], input) && after[k].owner == Some(input.owner))
            && (k != own ==> k in queue && after[k] == queue[k] && !MayFold(queue[k], input))
  {
    WaitingKeys(queue, waiting, input, k);
    if waiting != [] {
      assert waiting[0] in waiting;
      KeysOfCons(waiting);
    }
    hide FoldChain, IsWaiting;
  }

  /** The row an edit waits in has never failed and can be claimed at once; its place in the chain is the enqueue's
      time, or that of the oldest edit it was folded into. */
  lemma EnqueuedRowIsFresh(queue: Queue, waiting: seq<Row>, input: Input, id: string, now: int, later: int)
    requires ValidQueue(queue) && IsWaiting(queue, input, waiting)
    ensures var own := if waiting == [] then Key(input.collection, id) else waiting[0].key;
            var after := Enqueued(queue, waiting, input, id, now).0;
            own in after ==>
              && after[own].status == Pending && after[own].retryCount == 0 && after[own].lastAttemptAt == None
              && IsClaimable(after[own], later)
              && after[own].queuedAt == (if waiting == [] then now else waiting[0].queuedAt)
              && (waiting == [] ==> after[own].edit == input.edit && after[own].feature == input.feature)
  {
    if waiting != [] {
      assert waiting[0] in waiting;
      KeysOfCons(waiting);
    }
    hide FoldChain, IsWaiting;
  }

  /** What folding maintains, and restores in one edit where an older build left several. */
  lemma EnqueueFoldsUp(queue: Queue, waiting: seq<Row>, input: Input, id: string, now: int)
    requires ValidQueue(queue) && IsWaiting(queue, input, waiting) && Key(input.collection, id) !in queue
    ensures var after := Enqueued(queue, waiting, input, id, now).0;
            && ValidQueue(after)
            && (forall j, k :: j in after && k in after && MayFold(after[j], input) && MayFold(after[k], input) ==> j == k)
            && (FoldedUp(queue) ==> FoldedUp(after))
  {
    var after := Enqueued(queue, waiting, input, id, now).0;
    var own := if waiting == [] then Key(input.collection, id) else waiting[0].key;
    hide Enqueued, IsWaiting;
    forall k | k in after
      ensures k == own ==> after[k].key == k && MayFold(after[k], input) && after[k].owner == Some(input.owner)
      ensures k != own ==> k in queue && after[k] == queue[k] && !MayFold(queue[k], input)
    {
      AfterEnqueue(queue, waiting, input, id, now, k);
    }
    if FoldedUp(queue) {
      forall j, k, owner | WaitTogether(after, j, k, owner) ensures j == k {
        assert j != own && k != own ==> WaitTogether(queue, j, k, owner);
      }
    }
  }
}
