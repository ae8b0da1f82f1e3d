/**
 What a refused replay costs a queued row, and how long it then waits: the retry ladder and the bookkeeping of
 apps/portal-web/public/sw.js:296-334 and 1015-1043, and of the page's drain
 (apps/portal-web/src/lib/offline-sync.ts:264-335).
 */
module QueueCosts {
  import opened Prelude
  import opened QueueRules
  import opened OfflineDrain
  import opened QueueProgress
  import ReplayProtocol

  // ---------------------------------------------------------------- who may be claimed when

  /** The wait after the n-th refusal, in milliseconds. */
  function Ladder(n: nat): nat {
    match n
    case 0 => 0
    case 1 => 5_000
    case 2 => 15_000
    case 3 => 60_000
    case 4 => 300_000
    case _ => 900_000
  }

  /** A waiting row is claimable once its wait is over, one in flight once its claim is two minutes old, a parked or
      synced one never; without a stamp there is nothing to wait for. */
  lemma ClaimableMeans(row: Row, now: int)
    ensures row.status in {Pending, Failed} ==>
              (IsClaimable(row, now) <==>
               row.retryCount == 0 || row.lastAttemptAt.None? || now >= row.lastAttemptAt.value + Ladder(row.retryCount))
    ensures row.status == Syncing ==>
              (IsClaimable(row, now) <==> row.lastAttemptAt.None? || now >= row.lastAttemptAt.value + 120_000)
    ensures row.status in {Rejected, Synced} ==> !IsClaimable(row, now)
  {
    assert QueueRetryDelayMs(row.retryCount) == Ladder(row.retryCount);
  }

  /** A row is everybody's without an owner, and its owner's with one. */
  lemma OwnershipMeans(row: Row, who: Option<string>)
    ensures row.owner.None? ==> IsOwnedBy(row, who)
    ensures row.owner.Some? ==> (IsOwnedBy(row, who) <==> who == row.owner)
  {
  }

  // ---------------------------------------------------------------- one refusal

  /** The server answered, and neither accepted the edit nor refused it for good. */
  predicate IsTransientRefusal(r: Row, server: Server) {
    !r.edit.op.UnknownOp? && DecidingStatus(r, server).Some?
    && !Accepted(DecidingStatus(r, server).value, r.edit.op) && !IsHopeless(DecidingStatus(r, server).value)
  }

  /** The drain lists the row as it is stored, and may claim it. */
  predicate Attempts(queue: Queue, todo: seq<Row>, who: Option<string>, clock: Key -> int, k: Key) {
    && DistinctKeys(todo) && (forall i :: 0 <= i < |todo| ==> todo[i].key in queue && queue[todo[i].key] == todo[i])
    && k in queue && queue[k].key == k && queue[k] in todo && CanClaim(queue[k], who, clock(k))
  }

  lemma RefusalMeans(r: Row, server: Server)
    ensures ReplayFeatureRecord(r, server) == Refused(false) <==> IsTransientRefusal(r, server)
    ensures ReplayFeatureRecord(r, server) == Finished <==>
              !r.edit.op.UnknownOp? && DecidingStatus(r, server).Some? && Accepted(DecidingStatus(r, server).value, r.edit.op)
  {
  }

  /** A refusal costs one retry and restarts the wait at the claim; the edit and its filing stay. A transient one
      leaves the row waiting, one for good parks it. */
  lemma RefusalCosts(queue: Queue, todo: seq<Row>, who: Option<string>, server: Server, clock: Key -> int, k: Key)
    requires Attempts(queue, todo, who, clock, k)
    requires IsTransientRefusal(queue[k], server) || RefusedForGood(queue[k], server)
    ensures var row, after := queue[k], DrainAll(queue, todo, who, server, clock);
            var status := if RefusedForGood(row, server) then Rejected else Failed;
            k in after && after[k] == Row(k, row.feature, row.owner, row.queuedAt, row.edit, status, Some(clock(k)), row.retryCount + 1)
  {
    var i :| 0 <= i < |todo| && todo[i] == queue[k];
    DrainAllAt(queue, todo, who, server, clock, k);
    RefusalMeans(queue[k], server);
    TerminalIffRefusedForGood(queue[k], server);
    hide ReplayFeatureRecord, RefusedForGood, IsTransientRefusal, DrainAll, CanClaim;
    RefusedRound(queue, queue[k], who, server, clock);
  }

  lemma RefusedRound(queue: Queue, row: Row, who: Option<string>, server: Server, clock: Key -> int)
    requires row.key in queue && queue[row.key] == row && CanClaim(row, who, clock(row.key)) && ReplayFeatureRecord(row, server).Refused?
    ensures var after, terminal := DrainOne(queue, row, who, server, clock), ReplayFeatureRecord(row, server).terminal;
            row.key in after &&
            after[row.key] == Row(row.key, row.feature, row.owner, row.queuedAt, row.edit, if terminal then Rejected else Failed,
                                  Some(clock(row.key)), row.retryCount + 1)
  {
    hide ReplayFeatureRecord, CanClaim;
  }

  /** A row the drain lists and may not claim, and a row it does not list, stay as they are. */
  lemma UnclaimedRowsStay(queue: Queue, todo: seq<Row>, who: Option<string>, server: Server, clock: Key -> int, k: Key)
    requires DistinctKeys(todo) && k in queue
    requires (exists i :: 0 <= i < |todo| && todo[i].key == k) ==> !CanClaim(queue[k], who, clock(k))
    ensures var after := DrainAll(queue, todo, who, server, clock); k in after && after[k] == queue[k]
  {
    DrainAllAt(queue, todo, who, server, clock, k);
    if i :| 0 <= i < |todo| && todo[i].key == k {
      assert SameAt(DrainAll(queue, todo, who, server, clock), DrainOne(queue, todo[i], who, server, clock), k);
    }
  }

  // ---------------------------------------------------------------- refusal after refusal

  /** One drain that claimed the row at that time and had it refused for now. */
  ghost predicate RefusedOnce(before: Queue, after: Queue, k: Key, at: int) {
    exists todo, who, server, clock: Key -> int ::
      Attempts(before, todo, who, clock, k) && IsTransientRefusal(before[k], server) && clock(k) == at
      && after == DrainAll(before, todo, who, server, clock)
  }

  ghost predicate RefusedEachTime(qs: seq<Queue>, k: Key, times: seq<int>) {
    |qs| == |times| + 1 && forall i :: 0 <= i < |times| ==> RefusedOnce(qs[i], qs[i + 1], k, times[i])
  }

  lemma RefusedOnceCosts(before: Queue, after: Queue, k: Key, at: int)
    requires RefusedOnce(before, after, k, at)
    ensures k in before && k in after && before[k].key == k
    ensures after[k] == before[k].(status := Failed, lastAttemptAt := Some(at), retryCount := before[k].retryCount + 1)
  {
    var todo, who, server, clock: Key -> int :|
      Attempts(before, todo, who, clock, k) && IsTransientRefusal(before[k], server) && clock(k) == at
      && after == DrainAll(before, todo, who, server, clock);
    RefusalCosts(before, todo, who, server, clock, k);
    TransientIsNotForGood(before[k], server);
    hide RefusedForGood, IsTransientRefusal, DrainAll, Attempts;
  }

  lemma TransientIsNotForGood(r: Row, server: Server)
    requires IsTransientRefusal(r, server)
    ensures !RefusedForGood(r, server)
  {
  }

  lemma {:induction false} RefusalsAddUp(qs: seq<Queue>, k: Key, times: seq<int>)
    requires RefusedEachTime(qs, k, times) && times != []
    ensures k in qs[0] && k in qs[|times|]
    ensures qs[|times|][k] == qs[0][k].(status := Failed, lastAttemptAt := Some(times[|times| - 1]), retryCount := qs[0][k].retryCount + |times|)
    decreases |times|
  {
    var n := |times| - 1;
    RefusedOnceCosts(qs[n], qs[n + 1], k, times[n]);
    if n > 0 {
      var before, earlier := qs[..n + 1], times[..n];
      forall i | 0 <= i < n ensures RefusedOnce(before[i], before[i + 1], k, earlier[i]) {
        assert RefusedOnce(qs[i], qs[i + 1], k, times[i]);
      }
      hide RefusedOnce;
      RefusalsAddUp(before, k, earlier);
    }
  }

  /** After n transient refusals in a row, by whatever drains, a row that was fresh waits for exactly the n-th step of
      the ladder, counted from the last attempt. */
  lemma WaitAfterRefusals(qs: seq<Queue>, k: Key, times: seq<int>, now: int)
    requires RefusedEachTime(qs, k, times) && times != []
    ensures k in qs[0] && k in qs[|times|]
    ensures IsClaimable(qs[|times|][k], now) <==> now >= times[|times| - 1] + Ladder(qs[0][k].retryCount + |times|)
  {
    RefusalsAddUp(qs, k, times);
    ClaimableMeans(qs[|times|][k], now);
  }

  // ---------------------------------------------------------------- the page

  /** The page counts from the row it listed and stamps the end of the attempt; otherwise its refusals cost the same. */
  lemma PageRefusalCosts(s: ReplayProtocol.State, d: nat, terminal: bool, now: int)
    requires ReplayProtocol.Enabled(s, ReplayProtocol.Settle(d, Refused(terminal))) && s.drains[d].page.Some?
    ensures var row, after := ReplayProtocol.FlightOf(s, d).record, ReplayProtocol.Take(s, ReplayProtocol.Settle(d, Refused(terminal))).queue;
            && row.key in after
            && after[row.key] == Row(row.key, row.feature, row.owner, row.queuedAt, row.edit, if terminal then Rejected else Failed,
                                     Some(s.now), row.retryCount + 1)
            && (!terminal ==> (IsClaimable(after[row.key], now) <==> now >= s.now + Ladder(row.retryCount + 1)))
  {
    var row := ReplayProtocol.FlightOf(s, d).record;
    ClaimableMeans(Row(row.key, row.feature, row.owner, row.queuedAt, row.edit, if terminal then Rejected else Failed, Some(s.now), row.retryCount + 1), now);
  }

  /** The worker writes over what it claimed and counts from what it listed. */
  lemma WorkerRefusalCosts(s: ReplayProtocol.State, d: nat, terminal: bool)
    requires ReplayProtocol.Enabled(s, ReplayProtocol.Settle(d, Refused(terminal))) && s.drains[d].page.None?
    ensures var f, after := ReplayProtocol.FlightOf(s, d), ReplayProtocol.Take(s, ReplayProtocol.Settle(d, Refused(terminal))).queue;
            && f.record.key in after
            && after[f.record.key] == Row(f.claimed.key, f.claimed.feature, f.claimed.owner, f.claimed.queuedAt, f.claimed.edit,
                                          if terminal then Rejected else Failed, f.claimed.lastAttemptAt, f.record.retryCount + 1)
  {
  }

  /** An outage puts the listed row back as it was, failed if it was failed and else pending. */
  lemma OutageRestores(s: ReplayProtocol.State, d: nat)
    requires ReplayProtocol.Enabled(s, ReplayProtocol.Settle(d, Threw))
    ensures var row, after := ReplayProtocol.FlightOf(s, d).record, ReplayProtocol.Take(s, ReplayProtocol.Settle(d, Threw)).queue;
            && row.key in after
            && after[row.key] == Row(row.key, row.feature, row.owner, row.queuedAt, row.edit, if row.status == Failed then Failed else Pending,
                                     row.lastAttemptAt, row.retryCount)
  {
  }

  /** Left for the page: features that owe a file, and edits that hold one not uploaded yet. */
  lemma LeftForThePageMeans(r: Row, owesUpload: set<string>)
    ensures !LeftForThePage(r, owesUpload) <==>
            r.feature !in owesUpload && forall name :: name in r.edit.properties ==> !r.edit.properties[name].pendingFile
  {
  }

  /** "Sync now" skips the wait of a row that waits, and nothing else: not the owner, not another drain's claim, not a
      parking. */
  lemma ForceMeans(row: Row, drain: ReplayProtocol.Drain, now: int)
    ensures !drain.force || row.status !in {Pending, Failed} ==>
              (ReplayProtocol.MayClaim(row, drain, now) <==> IsOwnedBy(row, drain.who) && IsClaimable(row, now))
    ensures drain.force && row.status in {Pending, Failed} ==> (ReplayProtocol.MayClaim(row, drain, now) <==> IsOwnedBy(row, drain.who))
  {
  }
}
