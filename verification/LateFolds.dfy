/**
 Folding into a row that a drain has already listed. Both drains (apps/portal-web/public/sw.js:998-1043 and
 apps/portal-web/src/lib/offline-sync.ts:219-343) send the row as they listed it and write or delete by its
 key, while enqueueEdit (apps/portal-web/src/lib/offline-store.ts:1038-1155) may have folded a newer edit
 into it before the claim. Here: what such a fold loses, exactly when, and that nothing else does.
 */
module LateFolds {
  import opened Prelude
  import opened QueueRules
  import opened OfflineDrain
  import opened OfflineEnqueue
  import opened ReplayProtocol
  import QueueFold

  /** The row carries what its user last made of it. */
  ghost predicate IsLatest(s: State, row: Row) {
    VersionsOf(s, row.key) != [] && SameEdit(row, Last(VersionsOf(s, row.key)))
  }

  /** What the server was sent last under this key. */
  function LastSent(log: seq<Sent>, k: Key): (row: Option<Row>)
    ensures row.Some? ==> row.value.key == k
  {
    if log == [] then None
    else if log[|log| - 1].row.key == k then Some(log[|log| - 1].row)
    else LastSent(log[..|log| - 1], k)
  }

  /** The server was sent the latest version, and nothing else after it. */
  ghost predicate Delivered(s: State, k: Key) {
    LastSent(s.log, k).Some? && IsLatest(s, LastSent(s.log, k).value)
  }

  ghost predicate IsDone(s: State, k: Key) {
    k in s.fates && s.fates[k].DoneAndDeleted?
  }

  lemma LastSentOf(log: seq<Sent>, sent: Sent, k: Key)
    ensures LastSent(log + [sent], k) == if sent.row.key == k then Some(sent.row) else LastSent(log, k)
  {
    assert (log + [sent])[..|log|] == log;
  }

  // ---------------------------------------------------------------- how a drain works through its list

  ghost predicate FlightOk(s: State, drain: Drain, f: Flight) {
    && drain.todo != [] && drain.todo[0] == f.record
    && (f.applied ==> LastSent(s.log, f.record.key) == Some(f.record))
  }

  /** Each drain flies the first row of its list, each row of it once, and an applied one is what the server
      saw last of it. */
  ghost predicate Orderly(s: State) {
    && (forall d :: d in s.drains ==> DistinctRows(s.drains[d].todo))
    && (forall d :: InFlight(s, d) ==> FlightOk(s, s.drains[d], FlightOf(s, d)))
  }

  /** One drain's entry is rewritten, nothing is sent. */
  lemma OneDrainStaysOrderly(s: State, t: State, d: nat)
    requires Orderly(s) && t.log == s.log && d in t.drains && t.drains == s.drains[d := t.drains[d]]
    requires DistinctRows(t.drains[d].todo)
    requires InFlight(t, d) ==> FlightOk(s, t.drains[d], FlightOf(t, d))
    ensures Orderly(t)
  {
    hide DistinctRows;
    forall e | InFlight(t, e) ensures FlightOk(t, t.drains[e], FlightOf(t, e)) {
      assert e != d ==> InFlight(s, e) && FlightOk(s, s.drains[e], FlightOf(s, e));
    }
  }

  lemma StepKeepsOrderly(s: State, step: Step)
    requires Inv(s) && Orderly(s) && Enabled(s, step)
    ensures Orderly(Take(s, step))
  {
    var t := Take(s, step);
    hide AllFoldable, IsOldestOwned, MayClaim, FlightOk, DistinctRows;
    match step
    case Begin(d, _, _, _, _) => OneDrainStaysOrderly(s, t, d);
    case Claim(d, stamp) => ClaimKeepsOrderly(s, d, stamp);
    case ServerApplies(d) => AppliesKeepsOrderly(s, d);
    case Settle(d, _) => LandingKeepsOrderly(s, t, d);
    case WriteFails(d) => LandingKeepsOrderly(s, t, d);
    case Crash(d) => CrashKeepsOrderly(s, d);
    case RequestLost(d) => OneDrainStaysOrderly(s, t, d);
    case _ => IdleKeepsOrderly(s, t);
  }

  lemma IdleKeepsOrderly(s: State, t: State)
    requires Orderly(s) && t.drains == s.drains && t.log == s.log
    ensures Orderly(t)
  {
    forall d | InFlight(t, d) ensures FlightOk(t, t.drains[d], FlightOf(t, d)) {
      assert FlightOk(s, s.drains[d], FlightOf(s, d));
    }
  }

  lemma LandingKeepsOrderly(s: State, t: State, d: nat)
    requires Orderly(s) && d in s.drains && t.log == s.log && t.drains == s.drains[d := Landed(s.drains[d])]
    ensures Orderly(t)
  {
    assert DistinctRows(t.drains[d].todo);
    OneDrainStaysOrderly(s, t, d);
  }

  lemma ClaimKeepsOrderly(s: State, d: nat, stamp: int)
    requires Orderly(s) && Enabled(s, Claim(d, stamp))
    ensures Orderly(TakeClaim(s, d, stamp))
  {
    hide MayClaim;
    var t := TakeClaim(s, d, stamp);
    assert DistinctRows(s.drains[d].todo);
    OneDrainStaysOrderly(s, t, d);
  }

  lemma CrashKeepsOrderly(s: State, d: nat)
    requires Orderly(s) && Working(s, d)
    ensures Orderly(Take(s, Crash(d)))
  {
    assert InFlight(s, d) ==> FlightOk(s, s.drains[d], FlightOf(s, d));
    OneDrainStaysOrderly(s, Take(s, Crash(d)), d);
  }

  lemma AppliesKeepsOrderly(s: State, d: nat)
    requires Exclusive(s) && Orderly(s) && InFlight(s, d)
    ensures Orderly(Take(s, ServerApplies(d)))
  {
    var t := Take(s, ServerApplies(d));
    forall e | InFlight(t, e) ensures FlightOk(t, t.drains[e], FlightOf(t, e)) {
      assert FlightOk(s, s.drains[e], FlightOf(s, e));
      LastSentOf(s.log, Sent(FlightOf(s, d).record, s.drains[d].who), FlightOf(s, e).record.key);
    }
  }

  // ---------------------------------------------------------------- one flight

  /** An applied edit whose row is then deleted was the user's last word exactly when the row the drain had
      listed still was; and a deleted row is never sent again. */
  lemma DoneLosesTheEditIff(s: State, d: nat)
    requires Inv(s) && Orderly(s) && Enabled(s, Settle(d, Finished))
    ensures var t := Take(s, Settle(d, Finished));
            var k := FlightOf(s, d).record.key;
            && k !in t.queue && IsDone(t, k)
            && (Delivered(t, k) <==> IsLatest(s, FlightOf(s, d).record))
  {
    var t := Take(s, Settle(d, Finished));
    var k := FlightOf(s, d).record.key;
    assert FlightOk(s, s.drains[d], FlightOf(s, d));
    assert VersionsOf(t, k) == VersionsOf(s, k);
    hide Inv, Orderly, VersionsOf, SameEdit;
  }

  /** What is written back when nothing was sent: the listed row after an outage, and the page writes it after
      a refusal too; the worker's refusal keeps what the claim found. */
  lemma WriteBackRevertsIff(s: State, d: nat, result: Replay)
    requires Inv(s) && Enabled(s, Settle(d, result)) && !result.Finished?
    ensures var t := Take(s, Settle(d, result));
            var f := FlightOf(s, d);
            var row := if result.Threw? || s.drains[d].page.Some? then f.record else f.claimed;
            && f.record.key in t.queue
            && (IsLatest(t, t.queue[f.record.key]) <==> IsLatest(s, row))
  {
    assert Held(s, FlightOf(s, d));
    assert FiledRow(s, FlightOf(s, d).record);
  }

  // ---------------------------------------------------------------- what is lost, and only that

  /** A working drain of the folding account has the row on its list and lists something else. */
  ghost predicate IsLateFold(s: State, owner: string, keep: Key, edit: Edit) {
    exists d, r :: Working(s, d) && s.drains[d].who == Some(owner) && r in s.drains[d].todo && r.key == keep
                   && !(r.edit == edit && r.owner == Some(owner))
  }

  /** Whatever a result write may put back is the latest version. */
  ghost predicate FliesLatest(s: State, k: Key) {
    forall d :: InFlight(s, d) && FlightOf(s, d).record.key == k ==>
      FlightOf(s, d).claimed.key == k && IsLatest(s, FlightOf(s, d).record) && IsLatest(s, FlightOf(s, d).claimed)
  }

  ghost predicate MaySeeLatest(s: State, who: Option<string>, k: Key) {
    VersionsOf(s, k) != [] && IsOwnedBy(Last(VersionsOf(s, k)), who)
  }

  /** Every working drain that may see the row's latest version lists that. */
  ghost predicate ListsLatest(s: State, k: Key) {
    forall d, r :: Working(s, d) && MaySeeLatest(s, s.drains[d].who, k) && r in s.drains[d].todo && r.key == k ==> IsLatest(s, r)
  }

  /** Whatever may still be sent under this key is its latest version. */
  ghost predicate UpToDate(s: State, k: Key) {
    && (k in s.queue ==> s.queue[k].key == k && IsLatest(s, s.queue[k]))
    && FliesLatest(s, k) && ListsLatest(s, k)
    && (IsDone(s, k) ==> Delivered(s, k))
  }

  lemma LatestStays(s: State, t: State, k: Key)
    requires VersionsOf(t, k) == VersionsOf(s, k)
    ensures forall r: Row :: r.key == k ==> (IsLatest(t, r) <==> IsLatest(s, r))
    ensures LastSent(t.log, k) == LastSent(s.log, k) ==> (Delivered(t, k) <==> Delivered(s, k))
  {
  }

  lemma SameVersionIsLatest(s: State, a: Row, b: Row)
    requires IsLatest(s, a) && SameEdit(a, b)
    ensures IsLatest(s, b)
    ensures forall who :: IsOwnedBy(b, who) <==> IsOwnedBy(a, who)
  {
  }

  lemma BothLatest(s: State, a: Row, b: Row)
    requires IsLatest(s, a) && IsLatest(s, b) && a.key == b.key
    ensures SameEdit(a, b)
  {
  }

  /** What a step must leave alone about a key. */
  ghost predicate LeavesKey(s: State, t: State, k: Key) {
    && VersionsOf(t, k) == VersionsOf(s, k)
    && (k in t.queue ==> (k in s.queue && SameEdit(s.queue[k], t.queue[k])) || (t.queue[k].key == k && IsLatest(s, t.queue[k])))
    && (forall d :: d in t.drains && d in s.drains ==> t.drains[d].who == s.drains[d].who)
  }

  ghost predicate FliesNothingNew(s: State, t: State, k: Key) {
    forall d :: InFlight(t, d) && FlightOf(t, d).record.key == k ==>
      InFlight(s, d) && FlightOf(s, d).record == FlightOf(t, d).record && FlightOf(s, d).claimed == FlightOf(t, d).claimed
  }

  ghost predicate ListsNothingNew(s: State, t: State, k: Key) {
    forall d, r :: Working(t, d) && r in t.drains[d].todo && r.key == k ==> Working(s, d) && r in s.drains[d].todo
  }

  lemma FlightsStayLatest(s: State, t: State, k: Key)
    requires FliesLatest(s, k) && LeavesKey(s, t, k) && FliesNothingNew(s, t, k)
    ensures FliesLatest(t, k)
  {
    LatestStays(s, t, k);
    hide IsLatest;
  }

  lemma ListsStayLatest(s: State, t: State, k: Key)
    requires ListsLatest(s, k) && LeavesKey(s, t, k) && ListsNothingNew(s, t, k)
    ensures ListsLatest(t, k)
  {
    LatestStays(s, t, k);
    hide IsLatest, IsOwnedBy;
  }

  lemma QueuedStaysLatest(s: State, t: State, k: Key)
    requires LeavesKey(s, t, k) && (k in s.queue ==> s.queue[k].key == k && IsLatest(s, s.queue[k]))
    ensures k in t.queue ==> t.queue[k].key == k && IsLatest(t, t.queue[k])
  {
    LatestStays(s, t, k);
    if k in t.queue && k in s.queue && SameEdit(s.queue[k], t.queue[k]) {
      SameVersionIsLatest(s, s.queue[k], t.queue[k]);
    }
  }

  /** To see the queued row is to see the latest version, when they are the same. */
  lemma SightOfLatest(s: State, who: Option<string>, k: Key)
    requires k in s.queue && s.queue[k].key == k && IsLatest(s, s.queue[k])
    ensures MaySeeLatest(s, who, k) <==> IsOwnedBy(s.queue[k], who)
  {
  }

  /** The key's row and its versions are left alone, and no drain takes it up anew. */
  lemma StaysUpToDate(s: State, t: State, k: Key)
    requires UpToDate(s, k) && LeavesKey(s, t, k) && FliesNothingNew(s, t, k) && ListsNothingNew(s, t, k)
    requires LastSent(t.log, k) == LastSent(s.log, k)
    requires IsDone(t, k) ==> IsDone(s, k)
    ensures UpToDate(t, k)
  {
    LatestStays(s, t, k);
    QueuedStaysLatest(s, t, k);
    FlightsStayLatest(s, t, k);
    ListsStayLatest(s, t, k);
  }

  lemma UnknownKeyIsUnused(s: State, k: Key)
    requires Inv(s) && k !in s.ever
    ensures forall d :: InFlight(s, d) ==> FlightOf(s, d).record.key != k
    ensures forall d, r :: d in s.drains && r in s.drains[d].todo ==> r.key != k
  {
    forall d | InFlight(s, d) ensures FlightOf(s, d).record.key != k {
      assert Held(s, FlightOf(s, d));
    }
    forall d, r | d in s.drains && r in s.drains[d].todo ensures r.key != k {
      assert Known(s, s.drains[d].who, r);
    }
  }

  lemma EnqueuedIsUpToDate(s: State, row: Row)
    requires Inv(s) && Enabled(s, Enqueue(row))
    ensures UpToDate(Take(s, Enqueue(row)), row.key)
  {
    var t := Take(s, Enqueue(row));
    UnknownKeyIsUnused(s, row.key);
    assert IsLatest(t, row);
    hide Inv;
    assert FliesLatest(t, row.key) && ListsLatest(t, row.key);
  }

  lemma WaitingRowIsNotFlown(s: State, k: Key)
    requires DrainsOk(s) && k in s.queue && !s.queue[k].status.Syncing?
    ensures forall d :: InFlight(s, d) ==> FlightOf(s, d).record.key != k
  {
    forall d | InFlight(s, d) ensures FlightOf(s, d).record.key != k {
      assert Held(s, FlightOf(s, d));
    }
  }

  lemma ListedIsFiled(s: State, keep: Key)
    requires Inv(s) && keep in s.queue
    ensures s.queue[keep].key == keep && FiledRow(s, s.queue[keep])
    ensures forall d, r :: d in s.drains && r in s.drains[d].todo ==> FiledRow(s, r)
  {
    forall d, r | d in s.drains && r in s.drains[d].todo ensures FiledRow(s, r) {
      assert Known(s, s.drains[d].who, r);
    }
  }

  /** After a fold a listed row is the newest version exactly when it carries the folded edit. */
  lemma NewestAfterFold(s: State, owner: string, keep: Key, gone: set<Key>, edit: Edit, r: Row)
    requires Enabled(s, Fold(owner, keep, gone, edit)) && r.key == keep
    requires s.queue[keep].key == keep && FiledRow(s, s.queue[keep]) && FiledRow(s, r)
    ensures IsLatest(TakeFold(s, owner, keep, gone, edit), r) <==> r.edit == edit && r.owner == Some(owner)
  {
    hide IsVersion, IsFoldable;
    var t := TakeFold(s, owner, keep, gone, edit);
    assert Last(VersionsOf(t, keep)) == Refiled(s.queue[keep], owner, edit);
  }

  lemma FoldedRowIsLatest(s: State, owner: string, keep: Key, gone: set<Key>, edit: Edit)
    requires Filed(s) && Enabled(s, Fold(owner, keep, gone, edit))
    ensures var t := TakeFold(s, owner, keep, gone, edit);
            && t.queue[keep].key == keep && IsLatest(t, t.queue[keep])
            && VersionsOf(t, keep) != [] && Last(VersionsOf(t, keep)).owner == Some(owner)
            && !IsDone(t, keep)
  {
    var t := TakeFold(s, owner, keep, gone, edit);
    assert s.queue[keep].key == keep && keep !in t.fates;
    hide Filed;
    assert Last(VersionsOf(t, keep)) == t.queue[keep];
  }

  lemma FoldedRowIsNotFlown(s: State, owner: string, keep: Key, gone: set<Key>, edit: Edit)
    requires DrainsOk(s) && Enabled(s, Fold(owner, keep, gone, edit))
    ensures FliesLatest(TakeFold(s, owner, keep, gone, edit), keep)
  {
    WaitingRowIsNotFlown(s, keep);
    hide IsLatest, DrainsOk;
  }

  /** A fold makes the row's newest version, and what it leaves behind is the drains of the account that list
      another one. */
  lemma FoldedIsUpToDateIff(s: State, owner: string, keep: Key, gone: set<Key>, edit: Edit)
    requires Inv(s) && Enabled(s, Fold(owner, keep, gone, edit))
    ensures UpToDate(Take(s, Fold(owner, keep, gone, edit)), keep) <==> !IsLateFold(s, owner, keep, edit)
  {
    hide IsLateFold, IsFoldable, FliesLatest, ListsLatest, IsLatest, Refiled, FiledRow, Filed, DrainsOk, Exclusive, LogOk, IsDone;
    var t := TakeFold(s, owner, keep, gone, edit);
    ListedIsFiled(s, keep);
    forall r | FiledRow(s, r) && r.key == keep ensures IsLatest(t, r) <==> r.edit == edit && r.owner == Some(owner) {
      NewestAfterFold(s, owner, keep, gone, edit, r);
    }
    FoldedRowIsLatest(s, owner, keep, gone, edit);
    FoldedRowIsNotFlown(s, owner, keep, gone, edit);
    FoldedListsIff(s, t, owner, keep, edit);
  }

  lemma FoldedListsIff(s: State, t: State, owner: string, keep: Key, edit: Edit)
    requires t.drains == s.drains && VersionsOf(t, keep) != [] && Last(VersionsOf(t, keep)).owner == Some(owner)
    requires forall d, r :: Working(s, d) && r in s.drains[d].todo && r.key == keep ==> (IsLatest(t, r) <==> r.edit == edit && r.owner == Some(owner))
    ensures ListsLatest(t, keep) <==> !IsLateFold(s, owner, keep, edit)
  {
    hide IsLatest, VersionsOf;
    if IsLateFold(s, owner, keep, edit) {
      var d, r :| Working(s, d) && s.drains[d].who == Some(owner) && r in s.drains[d].todo && r.key == keep
                  && !(r.edit == edit && r.owner == Some(owner));
      assert Working(t, d) && MaySeeLatest(t, t.drains[d].who, keep) && r in t.drains[d].todo;
    }
  }

  lemma BeginKeepsUpToDate(s: State, d: nat, who: Option<string>, page: Option<string>, force: bool, todo: seq<Row>, k: Key)
    requires UpToDate(s, k) && Enabled(s, Begin(d, who, page, force, todo))
    ensures UpToDate(Take(s, Begin(d, who, page, force, todo)), k)
  {
    hide IsLatest, DistinctRows;
    var t := Take(s, Begin(d, who, page, force, todo));
    LatestStays(s, t, k);
    FlightsStayLatest(s, t, k);
  }

  lemma ClaimFliesLatest(s: State, d: nat, stamp: int, k: Key)
    requires UpToDate(s, k) && Enabled(s, Claim(d, stamp))
    ensures FliesLatest(Take(s, Claim(d, stamp)), k)
  {
    hide IsClaimable, IsLatest, ListsLatest;
    var t := TakeClaim(s, d, stamp);
    var r := s.drains[d].todo[0];
    LatestStays(s, t, k);
    if r.key == k && k in s.queue && IsOwnedBy(s.queue[k], s.drains[d].who) {
      SightOfLatest(s, s.drains[d].who, k);
      ListedIsLatest(s, d, r);
      SameVersionIsLatest(s, s.queue[k], Claimed(s.queue[k], stamp));
    }
    hide IsOwnedBy, SameEdit, MaySeeLatest;
    forall e | InFlight(t, e) && FlightOf(t, e).record.key == k
      ensures FlightOf(t, e).claimed.key == k && IsLatest(t, FlightOf(t, e).record) && IsLatest(t, FlightOf(t, e).claimed)
    {
      assert e != d ==> InFlight(s, e) && FlightOf(s, e) == FlightOf(t, e);
    }
  }

  lemma ListedIsLatest(s: State, d: nat, r: Row)
    requires ListsLatest(s, r.key) && Working(s, d) && r in s.drains[d].todo && MaySeeLatest(s, s.drains[d].who, r.key)
    ensures IsLatest(s, r)
  {
  }

  /** One drain's entry is rewritten without listing more. */
  lemma OneDrainListsNothingNew(s: State, t: State, d: nat, k: Key)
    requires d in s.drains && d in t.drains && t.drains == s.drains[d := t.drains[d]]
    requires t.drains[d].who == s.drains[d].who && t.drains[d].alive == s.drains[d].alive
    requires t.drains[d].todo == s.drains[d].todo || t.drains[d] == Landed(s.drains[d])
    ensures ListsNothingNew(s, t, k)
    ensures forall e :: e in t.drains ==> e in s.drains && t.drains[e].who == s.drains[e].who
  {
  }

  lemma ClaimLeaves(s: State, d: nat, stamp: int, k: Key)
    requires Enabled(s, Claim(d, stamp))
    ensures var t := TakeClaim(s, d, stamp);
            LeavesKey(s, t, k) && ListsNothingNew(s, t, k) && t.log == s.log && t.fates == s.fates
  {
    hide MayClaim, ListsNothingNew;
    OneDrainListsNothingNew(s, TakeClaim(s, d, stamp), d, k);
    hide Landed;
  }

  lemma ClaimKeepsUpToDate(s: State, d: nat, stamp: int, k: Key)
    requires UpToDate(s, k) && Enabled(s, Claim(d, stamp))
    ensures UpToDate(Take(s, Claim(d, stamp)), k)
  {
    ClaimFliesLatest(s, d, stamp, k);
    ClaimLeaves(s, d, stamp, k);
    hide IsLatest, FliesLatest, ListsLatest, ListsNothingNew, TakeClaim;
    var t := TakeClaim(s, d, stamp);
    LatestStays(s, t, k);
    QueuedStaysLatest(s, t, k);
    ListsStayLatest(s, t, k);
  }

  lemma FinishedIsDelivered(s: State, d: nat)
    requires Exclusive(s) && Orderly(s) && Enabled(s, Settle(d, Finished)) && UpToDate(s, FlightOf(s, d).record.key)
    ensures UpToDate(Take(s, Settle(d, Finished)), FlightOf(s, d).record.key)
  {
    var t := TakeSettle(s, d, Finished);
    var k := FlightOf(s, d).record.key;
    assert FlightOk(s, s.drains[d], FlightOf(s, d));
    LatestStays(s, t, k);
    hide IsLatest;
    ListsStayLatest(s, t, k);
    hide ListsLatest;
    forall e | InFlight(t, e) ensures FlightOf(t, e).record.key != k {
      assert e != d && InFlight(s, e);
    }
  }

  lemma WrittenBackIsLatest(s: State, drain: Drain, f: Flight, result: Replay)
    requires f.claimed.key == f.record.key && IsLatest(s, f.record) && IsLatest(s, f.claimed) && !result.Finished?
    ensures var queue, k := AfterResult(s.queue, drain, f, result, s.now), f.record.key;
            k in queue && queue[k].key == k && IsLatest(s, queue[k])
  {
    var row := AfterResult(s.queue, drain, f, result, s.now)[f.record.key];
    assert SameEdit(f.record, row) || SameEdit(f.claimed, row);
  }

  lemma WrittenBackIsUpToDate(s: State, d: nat, result: Replay, k: Key)
    requires UpToDate(s, k) && Enabled(s, Settle(d, result))
    requires FlightOf(s, d).record.key == k ==> !result.Finished?
    ensures UpToDate(TakeSettle(s, d, result), k)
  {
    var t := TakeSettle(s, d, result);
    if FlightOf(s, d).record.key == k {
      WrittenBackIsLatest(s, s.drains[d], FlightOf(s, d), result);
    }
    hide IsLatest, FliesLatest, ListsLatest, SameEdit;
    StaysUpToDate(s, t, k);
  }

  lemma SettleKeepsUpToDate(s: State, d: nat, result: Replay, k: Key)
    requires Inv(s) && Orderly(s) && UpToDate(s, k) && Enabled(s, Settle(d, result))
    ensures UpToDate(Take(s, Settle(d, result)), k)
  {
    if FlightOf(s, d).record.key == k && result.Finished? {
      FinishedIsDelivered(s, d);
    } else {
      WrittenBackIsUpToDate(s, d, result, k);
    }
  }

  lemma FlownHasNoFate(s: State, d: nat)
    requires Inv(s) && InFlight(s, d)
    ensures FlightOf(s, d).record.key in s.fates ==> s.fates[FlightOf(s, d).record.key].RemovedFromDevice?
  {
    assert Held(s, FlightOf(s, d));
  }

  lemma AppliesKeepsUpToDate(s: State, d: nat, k: Key)
    requires Inv(s) && UpToDate(s, k) && Enabled(s, ServerApplies(d))
    ensures UpToDate(Take(s, ServerApplies(d)), k)
  {
    hide Inv, IsLatest, FliesLatest, ListsLatest, LastSent;
    var t := Take(s, ServerApplies(d));
    FlownHasNoFate(s, d);
    LastSentOf(s.log, Sent(FlightOf(s, d).record, s.drains[d].who), k);
    LatestStays(s, t, k);
    QueuedStaysLatest(s, t, k);
    FlightsStayLatest(s, t, k);
    ListsStayLatest(s, t, k);
  }

  lemma QueueingKeepsUpToDate(s: State, step: Step, k: Key)
    requires UpToDate(s, k) && Enabled(s, step) && s.queue.Keys !! s.fates.Keys
    requires (step.Enqueue? && step.row.key != k) || (step.Fold? && step.keep != k) || step.Annihilate?
    ensures UpToDate(Take(s, step), k)
  {
    hide IsLatest, FliesLatest, ListsLatest, IsFoldable, Refiled;
    StaysUpToDate(s, Take(s, step), k);
  }

  lemma ForgettingKeepsUpToDate(s: State, step: Step, k: Key)
    requires UpToDate(s, k) && Enabled(s, step)
    requires step.WriteFails? || step.Crash? || step.RequestLost? || step.Tick? || step.UserDiscards? || step.UserRetries? || step.Remove?
    ensures UpToDate(Take(s, step), k)
  {
    hide IsLatest, FliesLatest, ListsLatest;
    StaysUpToDate(s, Take(s, step), k);
  }

  lemma StepKeepsUpToDate(s: State, step: Step, k: Key)
    requires Inv(s) && Orderly(s) && Enabled(s, step) && UpToDate(s, k)
    requires step.Fold? && step.keep == k ==> !IsLateFold(s, step.owner, k, step.edit)
    ensures UpToDate(Take(s, step), k)
  {
    assert s.queue.Keys !! s.fates.Keys;
    hide Inv, Orderly, UpToDate, IsLateFold, Enabled, Take;
    match step
    case Enqueue(row) => if row.key == k { EnqueuedIsUpToDate(s, row); } else { QueueingKeepsUpToDate(s, step, k); }
    case Fold(owner, keep, gone, edit) =>
      if keep == k { FoldedIsUpToDateIff(s, owner, keep, gone, edit); } else { QueueingKeepsUpToDate(s, step, k); }
    case Annihilate(_, _) => QueueingKeepsUpToDate(s, step, k);
    case Begin(d, who, page, force, todo) => BeginKeepsUpToDate(s, d, who, page, force, todo, k);
    case Claim(d, stamp) => ClaimKeepsUpToDate(s, d, stamp, k);
    case ServerApplies(d) => AppliesKeepsUpToDate(s, d, k);
    case Settle(d, result) => SettleKeepsUpToDate(s, d, result, k);
    case _ => ForgettingKeepsUpToDate(s, step, k);
  }

  // ---------------------------------------------------------------- whole runs

  lemma {:induction false} RunIsOrderly(s: State, steps: seq<Step>)
    requires Inv(s) && Orderly(s) && ValidRun(s, steps)
    ensures Inv(EndOf(s, steps)) && Orderly(EndOf(s, steps))
    decreases |steps|
  {
    if steps != [] {
      StepKeepsInv(s, steps[0]);
      StepKeepsOrderly(s, steps[0]);
      RunIsOrderly(Take(s, steps[0]), steps[1..]);
    }
  }

  /** Nothing more is folded into the row. */
  predicate LeavesVersion(steps: seq<Step>, k: Key) {
    forall i :: 0 <= i < |steps| && steps[i].Fold? ==> steps[i].keep != k
  }

  lemma {:induction false} RunStaysUpToDate(s: State, steps: seq<Step>, k: Key)
    requires Inv(s) && Orderly(s) && ValidRun(s, steps) && LeavesVersion(steps, k) && UpToDate(s, k)
    ensures UpToDate(EndOf(s, steps), k)
    decreases |steps|
  {
    if steps != [] {
      hide Inv, Orderly, UpToDate, Enabled;
      assert Enabled(s, steps[0]);
      StepKeepsInv(s, steps[0]);
      StepKeepsOrderly(s, steps[0]);
      StepKeepsUpToDate(s, steps[0], k);
      RunStaysUpToDate(Take(s, steps[0]), steps[1..], k);
    }
  }

  /** The row can be deleted as done with something else than its latest version on the server, although
      nothing more is folded into it. */
  ghost predicate CanLose(s: State, k: Key) {
    exists steps :: ValidRun(s, steps) && LeavesVersion(steps, k) && IsDone(EndOf(s, steps), k) && !Delivered(EndOf(s, steps), k)
  }

  lemma CanLoseLater(s: State, step: Step, k: Key)
    requires Enabled(s, step) && !step.Fold? && CanLose(Take(s, step), k)
    ensures CanLose(s, k)
  {
    var rest :| ValidRun(Take(s, step), rest) && LeavesVersion(rest, k)
                && IsDone(EndOf(Take(s, step), rest), k) && !Delivered(EndOf(Take(s, step), rest), k);
    hide Enabled, Take, IsDone, Delivered;
    var steps := [step] + rest;
    assert steps[0] == step && steps[1..] == rest;
    assert ValidRun(s, steps) && EndOf(s, steps) == EndOf(Take(s, step), rest);
    forall i | 0 <= i < |steps| && steps[i].Fold? ensures steps[i].keep != k {
      assert i > 0 ==> steps[i] == rest[i - 1];
    }
  }

  /** The drain will come to `r`, which is not what the waiting row under its key says now. */
  ghost predicate Doomed(s: State, d: nat, r: Row) {
    && Working(s, d) && r in s.drains[d].todo && !IsLatest(s, r)
    && r.key in s.queue && IsOwnedBy(s.queue[r.key], s.drains[d].who)
    && s.queue[r.key].status.Pending? && s.queue[r.key].retryCount == 0
  }

  lemma DoomedIsClaimed(s: State, d: nat, r: Row)
    requires Doomed(s, d, r) && s.drains[d].flight.None? && s.drains[d].todo[0] == r
    ensures Enabled(s, Claim(d, s.now))
    ensures var t := Take(s, Claim(d, s.now));
            Working(t, d) && InFlight(t, d) && FlightOf(t, d).record == r && !IsLatest(t, r)
  {
    var t := TakeClaim(s, d, s.now);
    LatestStays(s, t, r.key);
    hide IsLatest, SameEdit;
  }

  lemma AppliedIsLost(s: State, d: nat)
    requires Inv(s) && Orderly(s) && Enabled(s, Settle(d, Finished)) && !IsLatest(s, FlightOf(s, d).record)
    ensures CanLose(s, FlightOf(s, d).record.key)
  {
    DoneLosesTheEditIff(s, d);
    var done := Take(s, Settle(d, Finished));
    var k := FlightOf(s, d).record.key;
    hide Inv, Orderly, IsLatest, Take, Delivered, IsDone;
    assert ValidRun(done, []) && EndOf(done, []) == done && LeavesVersion([], k);
    CanLoseLater(s, Settle(d, Finished), k);
  }

  lemma ArrivalIsEnabled(s: State, d: nat)
    requires Working(s, d) && InFlight(s, d)
    ensures var t := Take(s, ServerApplies(d));
            && Enabled(s, ServerApplies(d)) && Enabled(t, Settle(d, Finished)) && FlightOf(t, d).record == FlightOf(s, d).record
            && (IsLatest(t, FlightOf(t, d).record) <==> IsLatest(s, FlightOf(s, d).record))
  {
    LatestStays(s, Take(s, ServerApplies(d)), FlightOf(s, d).record.key);
    hide IsLatest;
  }

  lemma FlownIsLost(s: State, d: nat)
    requires Inv(s) && Orderly(s) && Working(s, d) && InFlight(s, d) && !IsLatest(s, FlightOf(s, d).record)
    ensures CanLose(s, FlightOf(s, d).record.key)
  {
    hide Inv, Orderly, CanLose, IsLatest, Enabled, Take, Working;
    ArrivalIsEnabled(s, d);
    StepKeepsInv(s, ServerApplies(d));
    StepKeepsOrderly(s, ServerApplies(d));
    AppliedIsLost(Take(s, ServerApplies(d)), d);
    CanLoseLater(s, ServerApplies(d), FlightOf(s, d).record.key);
  }

  lemma {:induction false} DoomedIsLost(s: State, d: nat, r: Row)
    requires Inv(s) && Orderly(s) && Doomed(s, d, r)
    ensures CanLose(s, r.key)
    decreases |s.drains[d].todo|, if s.drains[d].flight.Some? then 0 else 1
  {
    var drain := s.drains[d];
    HeadOrLater(s, d, r);
    hide Inv, Orderly, IsLatest, Doomed, CanLose;
    if InFlight(s, d) {
      DoomedMovesOn(s, d, r);
      StepKeepsInv(s, WriteFails(d));
      StepKeepsOrderly(s, WriteFails(d));
      DoomedIsLost(Take(s, WriteFails(d)), d, r);
      CanLoseLater(s, WriteFails(d), r.key);
    } else if drain.todo[0] == r {
      DoomedIsClaimed(s, d, r);
      StepKeepsInv(s, Claim(d, s.now));
      StepKeepsOrderly(s, Claim(d, s.now));
      FlownIsLost(Take(s, Claim(d, s.now)), d);
      CanLoseLater(s, Claim(d, s.now), r.key);
    } else {
      DoomedWaits(s, d, r);
      StepKeepsInv(s, Claim(d, s.now));
      StepKeepsOrderly(s, Claim(d, s.now));
      DoomedIsLost(Take(s, Claim(d, s.now)), d, r);
      CanLoseLater(s, Claim(d, s.now), r.key);
    }
  }

  /** The doomed row heads the drain's list, or comes later and shares its key with no head. */
  lemma HeadOrLater(s: State, d: nat, r: Row)
    requires Inv(s) && Orderly(s) && Doomed(s, d, r)
    ensures var todo := s.drains[d].todo;
            && todo != []
            && (todo[0] != r ==> todo[0].key != r.key && r in todo[1..])
            && (InFlight(s, d) ==> todo[0] != r)
  {
    var todo := s.drains[d].todo;
    assert todo == [todo[0]] + todo[1..];
    assert DistinctRows(todo);
    if InFlight(s, d) {
      assert FlightOk(s, s.drains[d], FlightOf(s, d)) && Held(s, FlightOf(s, d));
    }
  }

  lemma DoomedMovesOn(s: State, d: nat, r: Row)
    requires Doomed(s, d, r) && InFlight(s, d) && r in s.drains[d].todo[1..]
    ensures Enabled(s, WriteFails(d))
    ensures var t := Take(s, WriteFails(d)); Doomed(t, d, r) && |t.drains[d].todo| < |s.drains[d].todo|
  {
    var t := s.(drains := s.drains[d := Landed(s.drains[d])]);
    assert Take(s, WriteFails(d)) == t;
    LatestStays(s, t, r.key);
    hide IsLatest;
  }

  lemma DoomedWaits(s: State, d: nat, r: Row)
    requires Doomed(s, d, r) && !InFlight(s, d)
    requires s.drains[d].todo[0].key != r.key && r in s.drains[d].todo[1..]
    ensures Enabled(s, Claim(d, s.now))
    ensures var t := TakeClaim(s, d, s.now);
            && Doomed(t, d, r)
            && (|t.drains[d].todo| < |s.drains[d].todo| || (t.drains[d].todo == s.drains[d].todo && InFlight(t, d)))
  {
    assert Enabled(s, Claim(d, s.now));
    LatestStays(s, TakeClaim(s, d, s.now), r.key);
    hide IsLatest, MayClaim;
  }

  /** The exact danger of folding into a listed row. From any state a device can reach: after the fold the row
      can end deleted as done without its latest version on the server exactly when a working drain of the
      account has the row listed with another edit. */
  lemma LateFoldIff(start: State, before: seq<Step>, owner: string, keep: Key, gone: set<Key>, edit: Edit)
    requires Initial(start) && ValidRun(start, before) && Enabled(EndOf(start, before), Fold(owner, keep, gone, edit))
    ensures var s := EndOf(start, before);
            CanLose(Take(s, Fold(owner, keep, gone, edit)), keep) <==> IsLateFold(s, owner, keep, edit)
  {
    RunIsOrderly(start, before);
    var s := EndOf(start, before);
    var fold := Fold(owner, keep, gone, edit);
    var t := Take(s, fold);
    FoldedIsUpToDateIff(s, owner, keep, gone, edit);
    StepKeepsInv(s, fold);
    StepKeepsOrderly(s, fold);
    if IsLateFold(s, owner, keep, edit) {
      var d, r := LateFoldDooms(s, owner, keep, gone, edit);
      DoomedIsLost(t, d, r);
    } else if CanLose(t, keep) {
      var steps :| ValidRun(t, steps) && LeavesVersion(steps, keep) && IsDone(EndOf(t, steps), keep) && !Delivered(EndOf(t, steps), keep);
      RunStaysUpToDate(t, steps, keep);
    }
  }

  lemma LateFoldDooms(s: State, owner: string, keep: Key, gone: set<Key>, edit: Edit) returns (d: nat, r: Row)
    requires Inv(s) && Enabled(s, Fold(owner, keep, gone, edit)) && IsLateFold(s, owner, keep, edit)
    ensures r.key == keep && Doomed(Take(s, Fold(owner, keep, gone, edit)), d, r)
  {
    var t := TakeFold(s, owner, keep, gone, edit);
    d, r :| Working(s, d) && s.drains[d].who == Some(owner) && r in s.drains[d].todo && r.key == keep
            && !(r.edit == edit && r.owner == Some(owner));
    ListedIsFiled(s, keep);
    NewestAfterFold(s, owner, keep, gone, edit, r);
    hide Inv, IsLatest;
  }

  /** A row nothing was ever folded into is never deleted as done before what was queued reached the server. */
  lemma UnfoldedIsDelivered(start: State, steps: seq<Step>, k: Key)
    requires Initial(start) && ValidRun(start, steps) && LeavesVersion(steps, k)
    requires IsDone(EndOf(start, steps), k)
    ensures Delivered(EndOf(start, steps), k)
  {
    assert UpToDate(start, k);
    RunStaysUpToDate(start, steps, k);
  }

  // ---------------------------------------------------------------- enqueueEdit is a step

  /** What enqueueEdit does to the queue is one step, for a new operation id and a clock that has moved on. */
  lemma EnqueueIsAStep(s: State, waiting: seq<Row>, input: Input, id: string, now: int) returns (step: Step)
    requires Filed(s) && IsWaiting(s.queue, input, waiting) && Key(input.collection, id) !in s.ever
    requires forall k :: k in s.ever && s.ever[k].feature == input.feature ==> s.ever[k].queuedAt < now
    ensures step.Enqueue? || step.Fold? || step.Annihilate?
    ensures Enabled(s, step) && Take(s, step).queue == Enqueued(s.queue, waiting, input, id, now).0
  {
    hide QueueFold.FoldChain;
    if waiting == [] {
      return Enqueue(FreshRow(input, id, now));
    }
    match QueueFold.FoldChain(EditsOf(waiting) + [input.edit]) {
      case Annihilated => step := Annihilate(input.owner, KeysOf(waiting));
      case Replace(edit) =>
        step := Fold(input.owner, waiting[0].key, KeysOf(waiting[1..]), edit);
        FoldIsAStep(s, waiting, input, edit);
    }
  }

  lemma FoldIsAStep(s: State, waiting: seq<Row>, input: Input, edit: Edit)
    requires IsWaiting(s.queue, input, waiting) && waiting != []
    ensures var keep, gone := waiting[0], KeysOf(waiting[1..]);
            && Enabled(s, Fold(input.owner, keep.key, gone, edit))
            && Take(s, Fold(input.owner, keep.key, gone, edit)).queue == (s.queue - gone)[keep.key := Refiled(keep, input.owner, edit)]
  {
    assert waiting[0] in waiting && waiting == [waiting[0]] + waiting[1..];
    hide IsFoldable, Refiled, SortedByCapture;
  }

  // ---------------------------------------------------------------- two runs that lose something

  /** A worker lists the row, a new edit is folded into it, the worker sends what it listed. */
  function LateFoldRun(row: Row, owner: string, edit: Edit, now: int): seq<Step> {
    [Enqueue(row)] + ([Begin(0, Some(owner), None, false, [row])] + ([Fold(owner, row.key, {}, edit)] +
    ([Claim(0, now)] + ([ServerApplies(0)] + ([Settle(0, Finished)] + [])))))
  }

  /** Fold into the only queued row. */
  lemma FoldOnlyRow(s: State, row: Row, owner: string, edit: Edit)
    requires s.queue == map[row.key := row] && s.versions == map[row.key := [row]] && s.fates == map[] && IsFresh(row, owner)
    ensures Enabled(s, Fold(owner, row.key, {}, edit))
    ensures Take(s, Fold(owner, row.key, {}, edit)) ==
            s.(queue := map[row.key := Refiled(row, owner, edit)], versions := map[row.key := [row, Refiled(row, owner, edit)]])
  {
    var t := TakeFold(s, owner, row.key, {}, edit);
    assert t.queue == map[row.key := Refiled(row, owner, edit)];
    assert VersionsOf(s, row.key) + [Refiled(row, owner, edit)] == [row, Refiled(row, owner, edit)];
    assert t.versions == map[row.key := [row, Refiled(row, owner, edit)]];
    assert t.fates == map[];
  }

  /** The only drain, alone with the only queued row, sends what it listed and deletes the row. */
  lemma OnlyDrainFinishes(s: State, row: Row, listed: Row, who: Option<string>)
    requires s.queue == map[row.key := row] && s.fates == map[] && s.log == []
    requires listed.key == row.key && row.owner == who && who.Some? && row.status.Pending? && row.retryCount == 0
    requires s.drains == map[0 := Drain(who, None, false, [listed], None, true)]
    ensures var steps := [Claim(0, s.now)] + ([ServerApplies(0)] + ([Settle(0, Finished)] + []));
            && ValidRun(s, steps)
            && EndOf(s, steps) == s.(queue := map[], fates := map[row.key := DoneAndDeleted], log := [Sent(listed, who)],
                                     drains := map[0 := Drain(who, None, false, [], None, true)])
  {
    var claimed := Claimed(row, s.now);
    var flown := Drain(who, None, false, [listed], Some(Flight(listed, claimed, s.now, false)), true);
    var s1 := s.(queue := map[row.key := claimed], drains := map[0 := flown]);
    var s2 := s1.(drains := map[0 := flown.(flight := Some(flown.flight.value.(applied := true)))], log := [Sent(listed, who)]);
    var s3 := s2.(queue := map[], fates := map[row.key := DoneAndDeleted], drains := map[0 := Landed(flown)]);
    assert Landed(flown) == Drain(who, None, false, [], None, true);
    assert Enabled(s, Claim(0, s.now)) && MayClaim(row, s.drains[0], s.now);
    assert Take(s, Claim(0, s.now)) == s1;
    assert Take(s1, ServerApplies(0)) == s2;
    assert Take(s2, Settle(0, Finished)) == s3;
    FirstStep(s2, Settle(0, Finished), []);
    FirstStep(s1, ServerApplies(0), [Settle(0, Finished)] + []);
    FirstStep(s, Claim(0, s.now), [ServerApplies(0)] + ([Settle(0, Finished)] + []));
  }

  lemma LateFoldLosesTheEdit(s: State, row: Row, owner: string, edit: Edit)
    requires Initial(s) && IsFresh(row, owner) && edit != row.edit
    ensures ValidRun(s, LateFoldRun(row, owner, edit, s.now))
    ensures var t := EndOf(s, LateFoldRun(row, owner, edit, s.now));
            && t.queue == map[] && IsDone(t, row.key)
            && t.log == [Sent(row, Some(owner))]
            && VersionsOf(t, row.key) == [row, Refiled(row, owner, edit)] && !Delivered(t, row.key)
  {
    var k, who, folded := row.key, Some(owner), Refiled(row, owner, edit);
    var s1 := s.(queue := map[k := row], ever := map[k := row], versions := map[k := [row]]);
    var s2 := s1.(drains := map[0 := Drain(who, None, false, [row], None, true)]);
    var s3 := s2.(queue := map[k := folded], versions := map[k := [row, folded]]);
    var rest := [Claim(0, s.now)] + ([ServerApplies(0)] + ([Settle(0, Finished)] + []));
    assert Take(s, Enqueue(row)) == s1 && Take(s1, Begin(0, who, None, false, [row])) == s2;
    FoldOnlyRow(s2, row, owner, edit);
    OnlyDrainFinishes(s3, folded, row, who);
    FirstStep(s2, Fold(owner, k, {}, edit), rest);
    FirstStep(s1, Begin(0, who, None, false, [row]), [Fold(owner, k, {}, edit)] + rest);
    FirstStep(s, Enqueue(row), [Begin(0, who, None, false, [row])] + ([Fold(owner, k, {}, edit)] + rest));
    var t := EndOf(s3, rest);
    assert VersionsOf(t, k) == [row, folded];
    assert t.log[..0] == [] && LastSent(t.log, k) == Some(row);
  }

  /** The server applies a capture, the answer is lost, and the user deletes the capture. */
  function LostAnswerRun(row: Row, owner: string, now: int): seq<Step> {
    [Enqueue(row)] + ([Begin(0, Some(owner), None, false, [row])] + ([Claim(0, now)] + ([ServerApplies(0)] +
    ([Settle(0, Threw)] + ([Annihilate(owner, {row.key})] + [])))))
  }

  lemma OnlyDrainIsCutOff(s: State, row: Row, who: Option<string>, rest: seq<Step>)
    requires s.queue == map[row.key := row] && s.fates == map[] && s.log == []
    requires row.owner == who && who.Some? && row.status.Pending? && row.retryCount == 0
    requires s.drains == map[0 := Drain(who, None, false, [row], None, true)]
    requires ValidRun(s.(log := [Sent(row, who)], drains := map[0 := Drain(who, None, false, [], None, true)]), rest)
    ensures var steps := [Claim(0, s.now)] + ([ServerApplies(0)] + ([Settle(0, Threw)] + rest));
            && ValidRun(s, steps)
            && EndOf(s, steps) == EndOf(s.(log := [Sent(row, who)], drains := map[0 := Drain(who, None, false, [], None, true)]), rest)
  {
    var claimed := Claimed(row, s.now);
    var flown := Drain(who, None, false, [row], Some(Flight(row, claimed, s.now, false)), true);
    var s1 := s.(queue := map[row.key := claimed], drains := map[0 := flown]);
    var s2 := s1.(drains := map[0 := flown.(flight := Some(flown.flight.value.(applied := true)))], log := [Sent(row, who)]);
    var s3 := s2.(queue := map[row.key := row], drains := map[0 := Landed(flown)]);
    assert Landed(flown) == Drain(who, None, false, [], None, true);
    assert Enabled(s, Claim(0, s.now)) && MayClaim(row, s.drains[0], s.now);
    assert Take(s, Claim(0, s.now)) == s1;
    assert Take(s1, ServerApplies(0)) == s2;
    assert Take(s2, Settle(0, Threw)) == s3;
    FirstStep(s2, Settle(0, Threw), rest);
    FirstStep(s1, ServerApplies(0), [Settle(0, Threw)] + rest);
    FirstStep(s, Claim(0, s.now), [ServerApplies(0)] + ([Settle(0, Threw)] + rest));
  }

  function EditsSent(log: seq<Sent>): (edits: seq<Edit>)
    ensures |edits| == |log| && forall i :: 0 <= i < |log| ==> edits[i] == log[i].row.edit
  {
    seq(|log|, i requires 0 <= i < |log| => log[i].row.edit)
  }

  /** Nothing is queued any more, and the server keeps a feature that its user has deleted. */
  lemma SentCaptureOutlivesItsDeletion(s: State, row: Row, owner: string, delete: Edit)
    requires Initial(s) && IsFresh(row, owner) && row.edit.op.Insert? && delete.op.Delete?
    ensures QueueFold.FoldChain([row.edit, delete]).Annihilated?
    ensures ValidRun(s, LostAnswerRun(row, owner, s.now))
    ensures var t := EndOf(s, LostAnswerRun(row, owner, s.now));
            && t.queue == map[] && EditsSent(t.log) == [row.edit]
            && QueueFold.ApplyAll(EditsSent(t.log), None).Some? && QueueFold.ApplyAll([row.edit, delete], None).None?
  {
    var k, who := row.key, Some(owner);
    var s1 := s.(queue := map[k := row], ever := map[k := row], versions := map[k := [row]]);
    var s2 := s1.(drains := map[0 := Drain(who, None, false, [row], None, true)]);
    var s3 := s2.(log := [Sent(row, who)], drains := map[0 := Drain(who, None, false, [], None, true)]);
    var last := [Annihilate(owner, {k})] + [];
    assert Take(s, Enqueue(row)) == s1 && Take(s1, Begin(0, who, None, false, [row])) == s2;
    FirstStep(s3, Annihilate(owner, {k}), []);
    OnlyDrainIsCutOff(s2, row, who, last);
    var rest := [Claim(0, s.now)] + ([ServerApplies(0)] + ([Settle(0, Threw)] + last));
    FirstStep(s1, Begin(0, who, None, false, [row]), rest);
    FirstStep(s, Enqueue(row), [Begin(0, who, None, false, [row])] + rest);
    assert [row.edit, delete][1..] == [delete];
    assert QueueFold.ApplyAll([delete], QueueFold.Apply(row.edit, None)) == None;
  }
}
