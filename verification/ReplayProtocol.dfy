/**
 Several drains over one persistent queue (apps/portal-web/public/sw.js:614-628, 743-760, 959-1049 and
 apps/portal-web/src/lib/offline-sync.ts:219-343) while edits are queued and folded
 (apps/portal-web/src/lib/offline-store.ts:1038-1155) and removed from the device (580-597, 745-755).
 A step is one IndexedDB transaction, one arrival at the server, one crash, one page action or the passing
 of time. Requests outlive the worker that sent them: after a crash the server may still apply the edit.
 The timing hypothesis is the guard of Tick and Claim: a replay, its arrival at the server and its result
 write all happen less than CLAIM_STALE_MS after the claim's stamp. A drain sends the row as it was listed,
 not as it was claimed. A worker lists the whole queue, a page the rows of its own deployment only.
 */
module ReplayProtocol {
  import opened Prelude
  import opened QueueRules
  import opened OfflineDrain
  import opened OfflineEnqueue
  import QueueProgress

  datatype Fate = DoneAndDeleted | DiscardedByUser | FoldedAway | RemovedFromDevice

  /** A claimed row whose result is not written yet. */
  datatype Flight = Flight(record: Row, claimed: Row, stamp: int, applied: bool)

  /** One drain: a worker instance, or that of the page of a deployment (`force` when a person pressed
      "Sync now"). */
  datatype Drain = Drain(who: Option<string>, page: Option<string>, force: bool, todo: seq<Row>, flight: Option<Flight>, alive: bool)

  /** One edit reaching the server, and the identity it was sent under. */
  datatype Sent = Sent(row: Row, who: Option<string>)

  /** `ever` files each row as it was first queued, `versions` what its user made of it since, oldest
      first, and `fates` what became of the rows that left. */
  datatype State = State(
    now: int,
    queue: Queue,
    ever: map<Key, Row>,
    versions: map<Key, seq<Row>>,
    fates: map<Key, Fate>,
    drains: map<nat, Drain>,
    log: seq<Sent>)

  datatype Step =
    | Enqueue(row: Row)
    | Fold(owner: string, keep: Key, gone: set<Key>, edit: Edit)
    | Annihilate(owner: string, gone: set<Key>)
    | Begin(drain: nat, who: Option<string>, page: Option<string>, force: bool, todo: seq<Row>)
    | Claim(drain: nat, stamp: int)
    | ServerApplies(drain: nat)
    | Settle(drain: nat, result: Replay)
    | WriteFails(drain: nat)
    | Crash(drain: nat)
    | RequestLost(drain: nat)
    | Tick(time: int)
    | UserDiscards(key: Key)
    | UserRetries(key: Key)
    | Remove(keys: set<Key>)

  predicate MayClaim(row: Row, drain: Drain, now: int) {
    IsOwnedBy(row, drain.who) && (IsClaimable(row, now) || (drain.force && (row.status.Pending? || row.status.Failed?)))
  }

  predicate InFlight(s: State, d: nat) {
    d in s.drains && s.drains[d].flight.Some?
  }

  function FlightOf(s: State, d: nat): Flight
    requires InFlight(s, d)
  {
    s.drains[d].flight.value
  }

  predicate Working(s: State, d: nat) {
    d in s.drains && s.drains[d].alive
  }

  /** Rows an edit of this account may be folded into, or cancelled out with. */
  predicate AllFoldable(queue: Queue, owner: string, keys: set<Key>) {
    forall k :: k in keys ==> k in queue && IsFoldable(queue[k], owner)
  }

  predicate InScope(page: Option<string>, k: Key) {
    page.None? || k.collection == page.value
  }

  /** A row that heads its feature's chain in what the drain lists. */
  ghost predicate IsOldestListed(queue: Queue, who: Option<string>, page: Option<string>, r: Row) {
    && r.key in queue && queue[r.key] == r && IsOwnedBy(r, who) && InScope(page, r.key)
    && forall k :: k in queue && InScope(page, k) && IsOwnedBy(queue[k], who) && queue[k].feature == r.feature ==>
         r.queuedAt <= queue[k].queuedAt
  }

  /** Enqueue also stands for the rows of older builds, which did not fold and did not record an owner. Rows
      are removed whatever their status: all of a deployment's, or all of other accounts'. */
  ghost predicate Enabled(s: State, step: Step) {
    match step
    case Enqueue(row) =>
      && row.key !in s.ever && row.status.Pending?
      && forall k :: k in s.ever && s.ever[k].feature == row.feature ==> s.ever[k].queuedAt < row.queuedAt
    case Fold(owner, keep, gone, _) => AllFoldable(s.queue, owner, gone + {keep}) && keep !in gone
    case Annihilate(owner, gone) => AllFoldable(s.queue, owner, gone)
    case Begin(d, who, page, force, todo) =>
      && d !in s.drains && (force ==> page.Some?)
      && DistinctRows(todo) && forall i :: 0 <= i < |todo| ==> IsOldestListed(s.queue, who, page, todo[i])
    case Claim(d, stamp) =>
      Working(s, d) && s.drains[d].flight.None? && s.drains[d].todo != [] && stamp <= s.now < stamp + CLAIM_STALE_MS
    case ServerApplies(d) => InFlight(s, d)
    case Settle(d, result) => Working(s, d) && InFlight(s, d) && (result.Finished? ==> FlightOf(s, d).applied)
    case WriteFails(d) => Working(s, d) && InFlight(s, d)
    case Crash(d) => Working(s, d)
    case RequestLost(d) => InFlight(s, d) && !s.drains[d].alive
    case Tick(time) => time > s.now && forall d :: InFlight(s, d) ==> time < FlightOf(s, d).stamp + CLAIM_STALE_MS
    case UserDiscards(k) => k in s.queue && s.queue[k].status.Rejected?
    case UserRetries(k) => k in s.queue && s.queue[k].status.Rejected?
    case Remove(keys) => keys <= s.queue.Keys
  }

  ghost function Take(s: State, step: Step): State
    requires Enabled(s, step)
  {
    match step
    case Enqueue(row) =>
      s.(queue := s.queue[row.key := row], ever := s.ever[row.key := row], versions := s.versions[row.key := [row]])
    case Fold(owner, keep, gone, edit) => TakeFold(s, owner, keep, gone, edit)
    case Annihilate(owner, gone) => s.(queue := s.queue - gone, fates := WithFates(s.fates, gone, FoldedAway))
    case Begin(d, who, page, force, todo) => s.(drains := s.drains[d := Drain(who, page, force, todo, None, true)])
    case Claim(d, stamp) => TakeClaim(s, d, stamp)
    case ServerApplies(d) =>
      var drain := s.drains[d];
      var f := FlightOf(s, d);
      s.(log := s.log + [Sent(f.record, drain.who)],
         drains := s.drains[d := drain.(flight := Some(f.(applied := true)))])
    case Settle(d, result) => TakeSettle(s, d, result)
    case WriteFails(d) => s.(drains := s.drains[d := Landed(s.drains[d])])
    case Crash(d) => s.(drains := s.drains[d := s.drains[d].(alive := false)])
    case RequestLost(d) => s.(drains := s.drains[d := s.drains[d].(flight := None)])
    case Tick(time) => s.(now := time)
    case UserDiscards(k) => s.(queue := s.queue - {k}, fates := s.fates[k := DiscardedByUser])
    case UserRetries(k) => s.(queue := s.queue[k := s.queue[k].(status := Pending)])
    case Remove(keys) => s.(queue := s.queue - keys, fates := WithFates(s.fates, keys, RemovedFromDevice))
  }

  function WithFates(fates: map<Key, Fate>, keys: set<Key>, fate: Fate): map<Key, Fate> {
    map k | k in fates.Keys + keys :: if k in keys then fate else fates[k]
  }

  function Last(rows: seq<Row>): Row
    requires rows != []
  {
    rows[|rows| - 1]
  }

  function VersionsOf(s: State, k: Key): seq<Row> {
    if k in s.versions then s.versions[k] else []
  }

  ghost function TakeFold(s: State, owner: string, keep: Key, gone: set<Key>, edit: Edit): State
    requires Enabled(s, Fold(owner, keep, gone, edit))
  {
    var record := Refiled(s.queue[keep], owner, edit);
    s.(queue := (s.queue - gone)[keep := record],
       versions := s.versions[keep := VersionsOf(s, keep) + [record]],
       fates := WithFates(s.fates, gone, FoldedAway))
  }

  /** The drain moves on to its next listed row. */
  function Landed(drain: Drain): Drain {
    drain.(flight := None, todo := if drain.todo == [] then [] else drain.todo[1..])
  }

  ghost function TakeClaim(s: State, d: nat, stamp: int): State
    requires Enabled(s, Claim(d, stamp))
  {
    var drain := s.drains[d];
    var record := drain.todo[0];
    if record.key in s.queue && MayClaim(s.queue[record.key], drain, s.now) then
      var claimed := Claimed(s.queue[record.key], stamp);
      s.(queue := s.queue[record.key := claimed],
         drains := s.drains[d := drain.(flight := Some(Flight(record, claimed, stamp, false)))])
    else
      s.(drains := s.drains[d := Landed(drain)])
  }

  /** The page writes a refusal over the listed row, where the worker writes it over the claimed one. */
  function AfterPageRefusal(record: Row, terminal: bool, now: int): Row {
    record.(status := if terminal then Rejected else Failed, retryCount := record.retryCount + 1, lastAttemptAt := Some(now))
  }

  function AfterResult(queue: Queue, drain: Drain, f: Flight, result: Replay, now: int): Queue {
    if drain.page.Some? && result.Refused? then queue[f.record.key := AfterPageRefusal(f.record, result.terminal, now)]
    else AfterReplay(queue, f.record, f.claimed, result)
  }

  /** A row that is written back is in the queue again, even if it was removed in the meantime. */
  ghost function TakeSettle(s: State, d: nat, result: Replay): State
    requires Enabled(s, Settle(d, result))
  {
    var f := FlightOf(s, d);
    s.(queue := AfterResult(s.queue, s.drains[d], f, result, s.now),
       fates := if result.Finished? then s.fates[f.record.key := DoneAndDeleted] else s.fates - {f.record.key},
       drains := s.drains[d := Landed(s.drains[d])])
  }

  // ---------------------------------------------------------------- runs

  predicate Initial(s: State) {
    s.queue == map[] && s.ever == map[] && s.versions == map[] && s.fates == map[] && s.drains == map[] && s.log == []
  }

  ghost predicate ValidRun(s: State, steps: seq<Step>)
    decreases |steps|
  {
    steps == [] || (Enabled(s, steps[0]) && ValidRun(Take(s, steps[0]), steps[1..]))
  }

  ghost function EndOf(s: State, steps: seq<Step>): State
    requires ValidRun(s, steps)
    decreases |steps|
  {
    if steps == [] then s else EndOf(Take(s, steps[0]), steps[1..])
  }

  /** A row just queued by this account. */
  predicate IsFresh(row: Row, owner: string) {
    row.owner == Some(owner) && row.status.Pending? && row.retryCount == 0
  }

  lemma FirstStep(s: State, step: Step, rest: seq<Step>)
    requires Enabled(s, step) && ValidRun(Take(s, step), rest)
    ensures ValidRun(s, [step] + rest) && EndOf(s, [step] + rest) == EndOf(Take(s, step), rest)
  {
    hide Enabled, Take;
    assert ([step] + rest)[1..] == rest;
  }

  // ---------------------------------------------------------------- the invariant

  /** What never changes about a queued row, whatever is folded into it. */
  predicate SameFiling(a: Row, b: Row) {
    a.key == b.key && a.feature == b.feature && a.queuedAt == b.queuedAt
  }

  /** The row carries an edit its user queued under this key, and the owner it had then. */
  ghost predicate IsVersion(vs: seq<Row>, row: Row) {
    exists i :: 0 <= i < |vs| && SameEdit(row, vs[i])
  }

  ghost predicate FiledRow(s: State, row: Row) {
    row.key in s.ever && SameFiling(row, s.ever[row.key]) && IsVersion(VersionsOf(s, row.key), row)
  }

  ghost predicate Filed(s: State) {
    && s.ever.Keys == s.queue.Keys + s.fates.Keys
    && s.queue.Keys !! s.fates.Keys
    && s.versions.Keys == s.ever.Keys
    && (forall k :: k in s.ever ==> s.ever[k].key == k && s.versions[k] != [])
    && (forall k :: k in s.queue ==> s.queue[k].key == k && FiledRow(s, s.queue[k]))
  }

  ghost predicate Known(s: State, who: Option<string>, row: Row) {
    FiledRow(s, row) && IsOwnedBy(row, who)
  }

  ghost predicate WasSent(s: State, k: Key) {
    exists i :: 0 <= i < |s.log| && s.log[i].row.key == k
  }

  /** A row in flight is held: filed as syncing under this claim's stamp, and not yet stale, unless it was
      removed from the device. */
  ghost predicate Held(s: State, f: Flight) {
    && f.claimed.key == f.record.key && FiledRow(s, f.claimed)
    && f.claimed.status.Syncing? && f.claimed.lastAttemptAt == Some(f.stamp)
    && s.now < f.stamp + CLAIM_STALE_MS
    && (f.record.key in s.queue ==> s.queue[f.record.key] == f.claimed)
    && (f.record.key in s.fates ==> s.fates[f.record.key].RemovedFromDevice?)
    && (f.applied ==> WasSent(s, f.record.key))
  }

  ghost predicate Exclusive(s: State) {
    forall d, e :: InFlight(s, d) && InFlight(s, e) && d != e ==> FlightOf(s, d).record.key != FlightOf(s, e).record.key
  }

  ghost predicate DrainsOk(s: State) {
    && (forall d :: InFlight(s, d) ==> Held(s, FlightOf(s, d)) && Known(s, s.drains[d].who, FlightOf(s, d).record))
    && (forall d, r :: d in s.drains && r in s.drains[d].todo ==> Known(s, s.drains[d].who, r))
  }

  ghost predicate LogOk(s: State) {
    && (forall i :: 0 <= i < |s.log| ==> Known(s, s.log[i].who, s.log[i].row))
    && (forall k :: k in s.fates && s.fates[k].DoneAndDeleted? ==> WasSent(s, k))
  }

  ghost predicate Inv(s: State) {
    Filed(s) && Exclusive(s) && DrainsOk(s) && LogOk(s)
  }

  /** No edit is forgotten. */
  ghost predicate Grows(s: State, t: State) {
    s.ever == t.ever && s.log <= t.log && forall k :: VersionsOf(s, k) <= VersionsOf(t, k)
  }

  lemma VersionStays(vs: seq<Row>, more: seq<Row>, row: Row)
    requires vs <= more && IsVersion(vs, row)
    ensures IsVersion(more, row)
  {
    var i :| 0 <= i < |vs| && SameEdit(row, vs[i]);
    assert more[i] == vs[i];
  }

  lemma SameVersion(vs: seq<Row>, a: Row, b: Row)
    requires IsVersion(vs, a) && SameEdit(a, b)
    ensures IsVersion(vs, b)
  {
    var i :| 0 <= i < |vs| && SameEdit(a, vs[i]);
    assert SameEdit(b, vs[i]);
  }

  lemma RowStaysFiled(s: State, t: State, row: Row)
    requires FiledRow(s, row)
    requires row.key in t.ever && t.ever[row.key] == s.ever[row.key] && VersionsOf(s, row.key) <= VersionsOf(t, row.key)
    ensures FiledRow(t, row)
  {
    VersionStays(VersionsOf(s, row.key), VersionsOf(t, row.key), row);
  }

  /** The latest version of a row is its own. */
  lemma NewestIsFiled(t: State, row: Row)
    requires row.key in t.ever && SameFiling(row, t.ever[row.key])
    requires VersionsOf(t, row.key) != [] && Last(VersionsOf(t, row.key)) == row
    ensures FiledRow(t, row)
  {
    var vs := VersionsOf(t, row.key);
    assert SameEdit(row, vs[|vs| - 1]);
  }

  lemma GrowthKeepsFacts(s: State, t: State)
    requires Grows(s, t)
    ensures forall who, r :: Known(s, who, r) ==> Known(t, who, r)
    ensures forall k :: WasSent(s, k) ==> WasSent(t, k)
  {
    forall who, r | Known(s, who, r) ensures Known(t, who, r) {
      RowStaysFiled(s, t, r);
    }
    forall k | WasSent(s, k)
      ensures WasSent(t, k)
    {
      var i :| 0 <= i < |s.log| && s.log[i].row.key == k;
      assert t.log[i].row.key == k;
    }
  }

  lemma LogStays(s: State, t: State)
    requires LogOk(s) && Grows(s, t) && s.log == t.log
    requires forall k :: k in t.fates && t.fates[k].DoneAndDeleted? ==> (k in s.fates && s.fates[k].DoneAndDeleted?) || WasSent(s, k)
    ensures LogOk(t)
  {
    GrowthKeepsFacts(s, t);
  }

  lemma HeldStays(s: State, t: State, f: Flight)
    requires Grows(s, t) && Held(s, f) && Untouched(s, t, f)
    ensures Held(t, f)
  {
    RowStaysFiled(s, t, f.claimed);
    if WasSent(s, f.record.key) {
      var i :| 0 <= i < |s.log| && s.log[i].row.key == f.record.key;
      assert t.log[i].row.key == f.record.key;
    }
  }

  /** What the drains hold survives a step that leaves their flights' rows alone. */
  lemma DrainsStay(s: State, t: State)
    requires DrainsOk(s) && Exclusive(s) && Grows(s, t)
    requires forall d :: d in t.drains ==> d in s.drains && Inherits(t.drains[d], s.drains[d])
    requires forall d :: InFlight(t, d) ==> Untouched(s, t, FlightOf(t, d))
    ensures DrainsOk(t) && Exclusive(t)
  {
    GrowthKeepsFacts(s, t);
    hide Held, Known, Untouched, Grows, WasSent;
    forall d | InFlight(t, d)
      ensures Held(t, FlightOf(t, d)) && Known(t, t.drains[d].who, FlightOf(t, d).record)
    {
      assert InFlight(s, d) && FlightOf(s, d) == FlightOf(t, d);
      HeldStays(s, t, FlightOf(t, d));
    }
    forall d, e | InFlight(t, d) && InFlight(t, e) && d != e
      ensures FlightOf(t, d).record.key != FlightOf(t, e).record.key
    {
      assert InFlight(s, d) && InFlight(s, e);
    }
  }

  /** A drain that has listed nothing new and claimed nothing new. */
  predicate Inherits(after: Drain, before: Drain) {
    && after.who == before.who
    && (after.flight.None? || after.flight == before.flight)
    && (forall r :: r in after.todo ==> r in before.todo)
  }

  lemma LandedInherits(drain: Drain)
    ensures Inherits(Landed(drain), drain)
  {
  }

  /** Flights other than a settled one keep their rows when only that row's entry is rewritten. */
  lemma OthersUntouched(s: State, t: State, k: Key)
    requires DrainsOk(s)
    requires forall j :: j != k && j in t.queue ==> j in s.queue && t.queue[j] == s.queue[j]
    requires forall j :: j != k && j in t.fates ==> j in s.fates && t.fates[j] == s.fates[j]
    requires s.now == t.now
    ensures forall d :: InFlight(s, d) && FlightOf(s, d).record.key != k ==> Untouched(s, t, FlightOf(s, d))
  {
    forall d | InFlight(s, d)
      ensures s.now < FlightOf(s, d).stamp + CLAIM_STALE_MS
    {
      assert Held(s, FlightOf(s, d));
    }
  }

  /** Nobody else wrote the row in flight; it may have been removed. */
  ghost predicate Untouched(s: State, t: State, f: Flight) {
    var k := f.record.key;
    && (k in t.queue ==> k in s.queue && t.queue[k] == s.queue[k])
    && (k in t.fates ==> t.fates[k].RemovedFromDevice? || (k in s.fates && t.fates[k] == s.fates[k]))
    && t.now < f.stamp + CLAIM_STALE_MS
  }

  lemma StepEnqueue(s: State, row: Row)
    requires Inv(s) && Enabled(s, Enqueue(row))
    ensures Inv(Take(s, Enqueue(row)))
  {
    var t := Take(s, Enqueue(row));
    EnqueueKeepsFiled(s, row);
    assert forall k :: WasSent(s, k) ==> WasSent(t, k);
    KnownStaysKnown(s, row);
    EnqueueKeepsDrains(s, row);
    EnqueueKeepsLog(s, row);
  }

  lemma EnqueueKeepsFiled(s: State, row: Row)
    requires Filed(s) && Enabled(s, Enqueue(row))
    ensures Filed(Take(s, Enqueue(row)))
  {
    hide FiledRow;
    var t := Take(s, Enqueue(row));
    NewestIsFiled(t, row);
    forall k | k in t.queue ensures t.queue[k].key == k && FiledRow(t, t.queue[k]) {
      if k != row.key {
        RowStaysFiled(s, t, s.queue[k]);
      }
    }
  }

  lemma EnqueueKeepsLog(s: State, row: Row)
    requires LogOk(s) && Enabled(s, Enqueue(row))
    requires forall who, r :: Known(s, who, r) ==> Known(Take(s, Enqueue(row)), who, r)
    requires forall k :: WasSent(s, k) ==> WasSent(Take(s, Enqueue(row)), k)
    ensures LogOk(Take(s, Enqueue(row)))
  {
  }

  lemma EnqueueKeepsDrains(s: State, row: Row)
    requires DrainsOk(s) && Exclusive(s) && Enabled(s, Enqueue(row))
    requires forall who, r :: Known(s, who, r) ==> Known(Take(s, Enqueue(row)), who, r)
    requires forall k :: WasSent(s, k) ==> WasSent(Take(s, Enqueue(row)), k)
    ensures DrainsOk(Take(s, Enqueue(row))) && Exclusive(Take(s, Enqueue(row)))
  {
    var t := Take(s, Enqueue(row));
    forall d | InFlight(t, d)
      ensures Held(t, FlightOf(t, d))
    {
      assert InFlight(s, d) && Held(s, FlightOf(s, d));
      RowStaysFiled(s, t, FlightOf(s, d).claimed);
    }
  }

  lemma KnownStaysKnown(s: State, row: Row)
    requires Enabled(s, Enqueue(row))
    ensures forall who, r :: Known(s, who, r) ==> Known(Take(s, Enqueue(row)), who, r)
  {
    var t := Take(s, Enqueue(row));
    forall who, r | Known(s, who, r) ensures Known(t, who, r) {
      RowStaysFiled(s, t, r);
    }
  }

  lemma StepBegin(s: State, d: nat, who: Option<string>, page: Option<string>, force: bool, todo: seq<Row>)
    requires Inv(s) && Enabled(s, Begin(d, who, page, force, todo))
    ensures Inv(Take(s, Begin(d, who, page, force, todo)))
  {
    LogStays(s, Take(s, Begin(d, who, page, force, todo)));
    FilingStays(s, Take(s, Begin(d, who, page, force, todo)));
    forall r | r in todo ensures Known(s, who, r) {
      assert FiledRow(s, s.queue[r.key]);
    }
    BeginKeepsDrains(s, d, who, page, force, todo);
  }

  lemma BeginKeepsDrains(s: State, d: nat, who: Option<string>, page: Option<string>, force: bool, todo: seq<Row>)
    requires DrainsOk(s) && Exclusive(s) && Enabled(s, Begin(d, who, page, force, todo))
    requires forall r :: r in todo ==> Known(s, who, r)
    ensures var t := Take(s, Begin(d, who, page, force, todo)); DrainsOk(t) && Exclusive(t)
  {
    hide IsOldestListed, DistinctRows, Known;
    var t := Take(s, Begin(d, who, page, force, todo));
    GrowthKeepsFacts(s, t);
    forall e | InFlight(t, e)
      ensures Held(t, FlightOf(t, e))
    {
      assert InFlight(s, e) && Held(s, FlightOf(s, e));
      RowStaysFiled(s, t, FlightOf(s, e).claimed);
    }
  }

  lemma StepClaim(s: State, d: nat, stamp: int)
    requires Inv(s) && Enabled(s, Claim(d, stamp))
    ensures Inv(Take(s, Claim(d, stamp)))
  {
    var record := s.drains[d].todo[0];
    ClaimKeepsFiled(s, d, stamp);
    if record.key in s.queue && MayClaim(s.queue[record.key], s.drains[d], s.now) {
      ClaimKeepsDrains(s, d, stamp);
    } else {
      SkippedClaimKeepsDrains(s, d, stamp);
    }
  }

  lemma ClaimedIsFiled(s: State, k: Key, stamp: int)
    requires Filed(s) && k in s.queue
    ensures k in s.ever && k !in s.fates && Claimed(s.queue[k], stamp).key == k && FiledRow(s, Claimed(s.queue[k], stamp))
  {
    SameFiledRow(s, s.queue[k], Claimed(s.queue[k], stamp));
  }

  lemma ClaimKeepsFiled(s: State, d: nat, stamp: int)
    requires Filed(s) && LogOk(s) && Enabled(s, Claim(d, stamp))
    ensures Filed(TakeClaim(s, d, stamp)) && LogOk(TakeClaim(s, d, stamp))
  {
    hide MayClaim, Claimed, Filed, LogOk, FiledRow;
    var t := TakeClaim(s, d, stamp);
    var record := s.drains[d].todo[0];
    assert forall k :: VersionsOf(t, k) == VersionsOf(s, k);
    LogStays(s, t);
    if record.key in s.queue && MayClaim(s.queue[record.key], s.drains[d], s.now) {
      ClaimedIsFiled(s, record.key, stamp);
      RewriteKeepsFiled(s, t, record.key);
    } else {
      FilingStays(s, t);
    }
  }

  lemma SameFiledRow(s: State, a: Row, b: Row)
    requires FiledRow(s, a) && SameEdit(a, b)
    ensures FiledRow(s, b)
  {
    SameVersion(VersionsOf(s, a.key), a, b);
  }

  /** Writing a version of a row under its key. */
  lemma RewriteKeepsFiled(s: State, t: State, k: Key)
    requires Filed(s) && k in s.ever && t.ever == s.ever && t.versions == s.versions && t.fates.Keys == s.fates.Keys - {k}
    requires t.queue.Keys == s.queue.Keys + {k} && forall j :: j in s.queue && j != k ==> t.queue[j] == s.queue[j]
    requires t.queue[k].key == k && FiledRow(s, t.queue[k])
    ensures Filed(t)
  {
    hide FiledRow;
    forall j | j in t.queue ensures t.queue[j].key == j && FiledRow(t, t.queue[j]) {
      RowStaysFiled(s, t, t.queue[j]);
    }
  }

  lemma SkippedClaimKeepsDrains(s: State, d: nat, stamp: int)
    requires DrainsOk(s) && Exclusive(s) && Enabled(s, Claim(d, stamp))
    requires TakeClaim(s, d, stamp) == s.(drains := s.drains[d := Landed(s.drains[d])])
    ensures DrainsOk(TakeClaim(s, d, stamp)) && Exclusive(TakeClaim(s, d, stamp))
  {
    var t := TakeClaim(s, d, stamp);
    LandedInherits(s.drains[d]);
    forall e | InFlight(t, e)
      ensures Untouched(s, t, FlightOf(t, e))
    {
      assert InFlight(s, e) && Held(s, FlightOf(s, e));
    }
    DrainsStay(s, t);
  }

  lemma NewFlightIsHeld(s: State, d: nat, stamp: int)
    requires Filed(s) && Enabled(s, Claim(d, stamp))
    requires s.drains[d].todo[0].key in s.queue && MayClaim(s.queue[s.drains[d].todo[0].key], s.drains[d], s.now)
    ensures Held(TakeClaim(s, d, stamp), FlightOf(TakeClaim(s, d, stamp), d))
  {
    var k := s.drains[d].todo[0].key;
    ClaimedIsFiled(s, k, stamp);
    ClaimedIsSyncing(s.queue[k], stamp);
    hide MayClaim, Filed, Claimed;
    RowStaysFiled(s, TakeClaim(s, d, stamp), Claimed(s.queue[k], stamp));
  }

  lemma NewFlightKeepsDrains(s: State, t: State, d: nat)
    requires DrainsOk(s) && Exclusive(s) && Grows(s, t)
    requires d in s.drains && s.drains[d].flight.None? && d in t.drains && t.drains == s.drains[d := t.drains[d]]
    requires InFlight(t, d) && t.drains[d] == s.drains[d].(flight := t.drains[d].flight)
    requires Held(t, FlightOf(t, d)) && Known(s, s.drains[d].who, FlightOf(t, d).record)
    requires forall e :: InFlight(s, e) ==> FlightOf(s, e).record.key != FlightOf(t, d).record.key && Untouched(s, t, FlightOf(s, e))
    ensures DrainsOk(t) && Exclusive(t)
  {
    GrowthKeepsFacts(s, t);
    hide Known, Held, Untouched, Grows, WasSent;
    forall e | InFlight(t, e)
      ensures Held(t, FlightOf(t, e)) && Known(t, t.drains[e].who, FlightOf(t, e).record)
    {
      if e != d {
        assert InFlight(s, e) && FlightOf(s, e) == FlightOf(t, e);
        HeldStays(s, t, FlightOf(s, e));
      }
    }
    assert forall e :: InFlight(t, e) && e != d ==> InFlight(s, e) && FlightOf(s, e) == FlightOf(t, e);
  }

  lemma ClaimKeepsDrains(s: State, d: nat, stamp: int)
    requires Filed(s) && DrainsOk(s) && Exclusive(s) && Enabled(s, Claim(d, stamp))
    requires s.drains[d].todo[0].key in s.queue && MayClaim(s.queue[s.drains[d].todo[0].key], s.drains[d], s.now)
    ensures DrainsOk(TakeClaim(s, d, stamp)) && Exclusive(TakeClaim(s, d, stamp))
  {
    hide Known, MayClaim, Claimed, Held, Exclusive, Filed, Untouched, DrainsOk, IsOwnedBy, Grows, WasSent;
    ClaimLeavesOthers(s, d, stamp);
    NewFlightIsHeld(s, d, stamp);
    ClaimGrows(s, d, stamp);
    NewFlightKeepsDrains(s, TakeClaim(s, d, stamp), d);
  }

  lemma ClaimGrows(s: State, d: nat, stamp: int)
    requires DrainsOk(s) && Enabled(s, Claim(d, stamp))
    ensures Grows(s, TakeClaim(s, d, stamp)) && Known(s, s.drains[d].who, s.drains[d].todo[0])
  {
    hide Known, MayClaim, Claimed, Held;
  }

  lemma ClaimLeavesOthers(s: State, d: nat, stamp: int)
    requires DrainsOk(s) && Enabled(s, Claim(d, stamp))
    requires s.drains[d].todo[0].key in s.queue && MayClaim(s.queue[s.drains[d].todo[0].key], s.drains[d], s.now)
    ensures forall e :: InFlight(s, e) ==>
              FlightOf(s, e).record.key != s.drains[d].todo[0].key && Untouched(s, TakeClaim(s, d, stamp), FlightOf(s, e))
  {
    var k := s.drains[d].todo[0].key;
    ClaimedRowWasFree(s, s.drains[d], k);
    hide MayClaim, Claimed;
    OthersUntouched(s, TakeClaim(s, d, stamp), k);
  }

  lemma ClaimedIsSyncing(row: Row, stamp: int)
    ensures Claimed(row, stamp).status.Syncing? && Claimed(row, stamp).lastAttemptAt == Some(stamp) && Claimed(row, stamp).key == row.key
  {
  }

  /** Two claimants, one row: while a claim is fresh nobody else's claim succeeds. */
  lemma ClaimedRowWasFree(s: State, drain: Drain, k: Key)
    requires DrainsOk(s) && k in s.queue && MayClaim(s.queue[k], drain, s.now)
    ensures forall e :: InFlight(s, e) ==> FlightOf(s, e).record.key != k
  {
    forall e | InFlight(s, e)
      ensures FlightOf(s, e).record.key != k
    {
      assert Held(s, FlightOf(s, e));
    }
  }

  lemma StepServerApplies(s: State, d: nat)
    requires Inv(s) && Enabled(s, ServerApplies(d))
    ensures Inv(Take(s, ServerApplies(d)))
  {
    FilingStays(s, Take(s, ServerApplies(d)));
    ApplyingKeepsLog(s, d);
    ApplyingKeepsDrains(s, d);
  }

  lemma ApplyingKeepsLog(s: State, d: nat)
    requires LogOk(s) && InFlight(s, d) && Known(s, s.drains[d].who, FlightOf(s, d).record)
    ensures LogOk(Take(s, ServerApplies(d)))
  {
    hide Known, WasSent;
    var t := Take(s, ServerApplies(d));
    GrowthKeepsFacts(s, t);
    assert t.log[..|s.log|] == s.log && t.log[|s.log|] == Sent(FlightOf(s, d).record, s.drains[d].who);
  }

  lemma ApplyingKeepsDrains(s: State, d: nat)
    requires DrainsOk(s) && Exclusive(s) && InFlight(s, d)
    ensures DrainsOk(Take(s, ServerApplies(d))) && Exclusive(Take(s, ServerApplies(d)))
  {
    hide Known;
    var t := Take(s, ServerApplies(d));
    GrowthKeepsFacts(s, t);
    assert t.log[|s.log|].row == FlightOf(s, d).record;
    forall e | InFlight(t, e)
      ensures Held(t, FlightOf(t, e)) && Known(t, t.drains[e].who, FlightOf(t, e).record)
    {
      assert InFlight(s, e) && Held(s, FlightOf(s, e));
      RowStaysFiled(s, t, FlightOf(s, e).claimed);
    }
  }

  lemma StepSettle(s: State, d: nat, result: Replay)
    requires Inv(s) && Enabled(s, Settle(d, result))
    ensures Inv(Take(s, Settle(d, result)))
  {
    var t := Take(s, Settle(d, result));
    var f := FlightOf(s, d);
    assert Held(s, f) && Known(s, s.drains[d].who, f.record);
    SettledIsFiled(s, d, result);
    LogStays(s, t);
    SettleKeepsDrains(s, d, result);
  }

  lemma SettleKeepsDrains(s: State, d: nat, result: Replay)
    requires DrainsOk(s) && Exclusive(s) && Enabled(s, Settle(d, result))
    ensures DrainsOk(TakeSettle(s, d, result)) && Exclusive(TakeSettle(s, d, result))
  {
    var t := TakeSettle(s, d, result);
    LandedInherits(s.drains[d]);
    OthersUntouched(s, t, FlightOf(s, d).record.key);
    forall e | InFlight(t, e)
      ensures Untouched(s, t, FlightOf(t, e))
    {
      assert InFlight(s, e) && e != d;
    }
    DrainsStay(s, t);
  }

  lemma SettledIsFiled(s: State, d: nat, result: Replay)
    requires Filed(s) && Enabled(s, Settle(d, result))
    requires Held(s, FlightOf(s, d)) && FiledRow(s, FlightOf(s, d).record)
    ensures Filed(TakeSettle(s, d, result))
  {
    var t, f := TakeSettle(s, d, result), FlightOf(s, d);
    var k := f.record.key;
    if result.Finished? {
      FinishedIsFiled(s, d);
    } else {
      WrittenBackIsFiled(s, s.drains[d], f, result);
      hide FiledRow, AfterResult;
      RewriteKeepsFiled(s, t, k);
    }
  }

  lemma FinishedIsFiled(s: State, d: nat)
    requires Filed(s) && Enabled(s, Settle(d, Finished)) && FlightOf(s, d).record.key in s.ever
    ensures Filed(TakeSettle(s, d, Finished))
  {
    hide FiledRow;
    var t := TakeSettle(s, d, Finished);
    forall j | j in t.queue ensures t.queue[j].key == j && FiledRow(t, t.queue[j]) {
      RowStaysFiled(s, t, s.queue[j]);
    }
  }

  /** What a result write that is no deletion puts back: the listed row, or the claimed one. */
  lemma WrittenBackIsFiled(s: State, drain: Drain, f: Flight, result: Replay)
    requires Filed(s) && !result.Finished? && FiledRow(s, f.claimed) && FiledRow(s, f.record) && f.claimed.key == f.record.key
    ensures var queue, k := AfterResult(s.queue, drain, f, result, s.now), f.record.key;
            && k in s.ever && queue.Keys == s.queue.Keys + {k} && (forall j :: j in s.queue && j != k ==> queue[j] == s.queue[j])
            && queue[k].key == k && FiledRow(s, queue[k])
  {
    var row := AfterResult(s.queue, drain, f, result, s.now)[f.record.key];
    assert SameEdit(f.record, row) || SameEdit(f.claimed, row);
    hide Filed;
    if SameEdit(f.record, row) {
      SameFiledRow(s, f.record, row);
    } else {
      SameFiledRow(s, f.claimed, row);
    }
  }

  /** The remaining steps of a drain only forget work or a request. */
  lemma StepForgets(s: State, step: Step)
    requires Inv(s) && Enabled(s, step)
    requires step.WriteFails? || step.Crash? || step.RequestLost? || step.Tick?
    ensures Inv(Take(s, step))
  {
    LogStays(s, Take(s, step));
    FilingStays(s, Take(s, step));
    ForgettingKeepsDrains(s, step);
  }

  lemma FilingStays(s: State, t: State)
    requires Filed(s) && t.queue == s.queue && t.ever == s.ever && t.versions == s.versions && t.fates == s.fates
    ensures Filed(t)
  {
    forall j | j in t.queue ensures t.queue[j].key == j && FiledRow(t, t.queue[j]) {
      assert FiledRow(s, s.queue[j]);
    }
  }

  lemma ForgettingKeepsDrains(s: State, step: Step)
    requires DrainsOk(s) && Exclusive(s) && Enabled(s, step)
    requires step.WriteFails? || step.Crash? || step.RequestLost? || step.Tick?
    ensures DrainsOk(Take(s, step)) && Exclusive(Take(s, step))
  {
    var t := Take(s, step);
    if step.WriteFails? {
      LandedInherits(s.drains[step.drain]);
    }
    forall e | InFlight(t, e)
      ensures Untouched(s, t, FlightOf(t, e))
    {
      assert InFlight(s, e) && Held(s, FlightOf(s, e));
    }
    DrainsStay(s, t);
  }

  lemma RetriedIsFiled(s: State, k: Key)
    requires Filed(s) && k in s.queue
    ensures Filed(s.(queue := s.queue[k := s.queue[k].(status := Pending)]))
  {
    var t := s.(queue := s.queue[k := s.queue[k].(status := Pending)]);
    SameFiledRow(s, s.queue[k], t.queue[k]);
    hide FiledRow;
    RewriteKeepsFiled(s, t, k);
  }

  lemma StepUserRetries(s: State, k: Key)
    requires Inv(s) && Enabled(s, UserRetries(k))
    ensures Inv(Take(s, UserRetries(k)))
  {
    hide Known, Filed, DrainsOk, Exclusive;
    var t := Take(s, UserRetries(k));
    RetriedIsFiled(s, k);
    LogStays(s, t);
    IdleRowsKeepDrains(s, t, {k});
  }

  lemma StepUserDiscards(s: State, k: Key)
    requires Inv(s) && Enabled(s, UserDiscards(k))
    ensures Inv(Take(s, UserDiscards(k)))
  {
    hide Known, FiledRow, DrainsOk, Exclusive;
    var t := Take(s, UserDiscards(k));
    ShorterQueueIsFiled(s, t);
    LogStays(s, t);
    IdleRowsKeepDrains(s, t, {k});
  }

  /** Rows that leave the queue are given a fate. */
  lemma ShorterQueueIsFiled(s: State, t: State)
    requires Filed(s) && t.ever == s.ever && t.versions == s.versions
    requires t.queue.Keys <= s.queue.Keys && forall k :: k in t.queue ==> t.queue[k] == s.queue[k]
    requires t.fates.Keys == s.fates.Keys + (s.queue.Keys - t.queue.Keys)
    ensures Filed(t)
  {
    forall j | j in t.queue ensures t.queue[j].key == j && FiledRow(t, t.queue[j]) {
      assert FiledRow(s, s.queue[j]);
    }
  }

  /** Page actions and folds touch rows that wait or are parked, and such a row is never in flight. */
  lemma IdleRowsKeepDrains(s: State, t: State, keys: set<Key>)
    requires DrainsOk(s) && Exclusive(s) && Grows(s, t) && t.drains == s.drains && t.now == s.now
    requires forall k :: k in keys ==> k in s.queue && !s.queue[k].status.Syncing?
    requires forall k :: k in t.queue && k !in keys ==> k in s.queue && t.queue[k] == s.queue[k]
    requires forall k :: k in t.fates && k !in keys ==> k in s.fates && t.fates[k] == s.fates[k]
    ensures DrainsOk(t) && Exclusive(t)
  {
    forall e | InFlight(t, e)
      ensures Untouched(s, t, FlightOf(t, e))
    {
      assert InFlight(s, e) && Held(s, FlightOf(s, e));
    }
    DrainsStay(s, t);
  }

  lemma FoldGrows(s: State, owner: string, keep: Key, gone: set<Key>, edit: Edit)
    requires Enabled(s, Fold(owner, keep, gone, edit))
    ensures Grows(s, Take(s, Fold(owner, keep, gone, edit)))
  {
    var t := TakeFold(s, owner, keep, gone, edit);
    assert forall k :: VersionsOf(s, k) <= VersionsOf(t, k);
  }

  lemma StepFold(s: State, owner: string, keep: Key, gone: set<Key>, edit: Edit)
    requires Inv(s) && Enabled(s, Fold(owner, keep, gone, edit))
    ensures Inv(Take(s, Fold(owner, keep, gone, edit)))
  {
    hide Filed, Grows, Refiled, DrainsOk, Exclusive;
    var t := TakeFold(s, owner, keep, gone, edit);
    FoldGrows(s, owner, keep, gone, edit);
    FoldKeepsFiled(s, owner, keep, gone, edit);
    hide LogOk;
    LogStays(s, t);
    IdleRowsKeepDrains(s, t, gone + {keep});
  }

  lemma RefiledKeepsFiling(s: State, row: Row, owner: string, edit: Edit)
    requires FiledRow(s, row)
    ensures var record := Refiled(row, owner, edit);
            record.key == row.key && row.key in s.ever && SameFiling(record, s.ever[row.key])
  {
  }

  lemma FoldedRowIsFiled(s: State, owner: string, keep: Key, gone: set<Key>, edit: Edit, j: Key)
    requires Filed(s) && Enabled(s, Fold(owner, keep, gone, edit)) && j in TakeFold(s, owner, keep, gone, edit).queue
    ensures var t := TakeFold(s, owner, keep, gone, edit); t.queue[j].key == j && FiledRow(t, t.queue[j])
  {
    hide FiledRow, SameFiling, IsFoldable, Refiled;
    var t := TakeFold(s, owner, keep, gone, edit);
    if j == keep {
      RefiledKeepsFiling(s, s.queue[keep], owner, edit);
      NewestIsFiled(t, t.queue[keep]);
    } else {
      RowStaysFiled(s, t, s.queue[j]);
    }
  }

  lemma FoldKeepsFiled(s: State, owner: string, keep: Key, gone: set<Key>, edit: Edit)
    requires Filed(s) && Enabled(s, Fold(owner, keep, gone, edit))
    ensures Filed(Take(s, Fold(owner, keep, gone, edit)))
  {
    hide FiledRow, Refiled;
    var t := TakeFold(s, owner, keep, gone, edit);
    forall j | j in t.queue ensures t.queue[j].key == j && FiledRow(t, t.queue[j]) {
      FoldedRowIsFiled(s, owner, keep, gone, edit, j);
    }
  }

  lemma StepAnnihilate(s: State, owner: string, gone: set<Key>)
    requires Inv(s) && Enabled(s, Annihilate(owner, gone))
    ensures Inv(Take(s, Annihilate(owner, gone)))
  {
    hide Known, FiledRow, DrainsOk, Exclusive;
    var t := Take(s, Annihilate(owner, gone));
    ShorterQueueIsFiled(s, t);
    LogStays(s, t);
    IdleRowsKeepDrains(s, t, gone);
  }

  lemma StepRemove(s: State, keys: set<Key>)
    requires Inv(s) && Enabled(s, Remove(keys))
    ensures Inv(Take(s, Remove(keys)))
  {
    hide Known, FiledRow;
    var t := Take(s, Remove(keys));
    RemovalLeavesFlights(s, keys);
    ShorterQueueIsFiled(s, t);
    hide Filed, Untouched;
    LogStays(s, t);
    DrainsStay(s, t);
  }

  lemma RemovalLeavesFlights(s: State, keys: set<Key>)
    requires DrainsOk(s) && Enabled(s, Remove(keys))
    ensures forall e :: InFlight(s, e) ==> Untouched(s, Take(s, Remove(keys)), FlightOf(s, e))
  {
    forall e | InFlight(s, e) ensures s.now < FlightOf(s, e).stamp + CLAIM_STALE_MS {
      assert Held(s, FlightOf(s, e));
    }
  }

  lemma StepKeepsInv(s: State, step: Step)
    requires Inv(s) && Enabled(s, step)
    ensures Inv(Take(s, step))
  {
    match step
    case Enqueue(row) => StepEnqueue(s, row);
    case Fold(owner, keep, gone, edit) => StepFold(s, owner, keep, gone, edit);
    case Annihilate(owner, gone) => StepAnnihilate(s, owner, gone);
    case Begin(d, who, page, force, todo) => StepBegin(s, d, who, page, force, todo);
    case Claim(d, stamp) => StepClaim(s, d, stamp);
    case ServerApplies(d) => StepServerApplies(s, d);
    case Settle(d, result) => StepSettle(s, d, result);
    case UserDiscards(k) => StepUserDiscards(s, k);
    case UserRetries(k) => StepUserRetries(s, k);
    case Remove(keys) => StepRemove(s, keys);
    case _ => StepForgets(s, step);
  }

  lemma {:induction false} RunKeepsInv(s: State, steps: seq<Step>)
    requires Inv(s) && ValidRun(s, steps)
    ensures Inv(EndOf(s, steps))
    decreases |steps|
  {
    if steps != [] {
      StepKeepsInv(s, steps[0]);
      RunKeepsInv(Take(s, steps[0]), steps[1..]);
    }
  }

  // ---------------------------------------------------------------- safety of every run

  /** After any interleaving of drains, folds, crashes, retries, removals and page actions: no row is in flight
      in two drains. */
  lemma RunsAreExclusive(s: State, steps: seq<Step>, d: nat, e: nat)
    requires Initial(s) && ValidRun(s, steps)
    requires var t := EndOf(s, steps);
             InFlight(t, d) && InFlight(t, e) && FlightOf(t, d).record.key == FlightOf(t, e).record.key
    ensures d == e
  {
    RunKeepsInv(s, steps);
  }

  /** The steps that end a flight: its result write, a failed one, and the loss of a request nobody waits for. */
  predicate EndsFlight(step: Step, d: nat) {
    (step.Settle? || step.WriteFails? || step.RequestLost?) && step.drain == d
  }

  predicate Removes(step: Step, k: Key) {
    step.Remove? && k in step.keys
  }

  lemma WaitingRowsAreNotFlown(s: State, d: nat)
    requires Filed(s) && DrainsOk(s) && InFlight(s, d)
    ensures var k := FlightOf(s, d).record.key;
            k in s.ever && (k in s.queue ==> s.queue[k].status.Syncing?)
  {
    assert Held(s, FlightOf(s, d));
  }

  lemma FlightStays(s: State, step: Step, d: nat)
    requires Inv(s) && Enabled(s, step) && InFlight(s, d) && !EndsFlight(step, d)
    ensures var t, k := Take(s, step), FlightOf(s, d).record.key;
            && InFlight(t, d) && FlightOf(t, d).record == FlightOf(s, d).record && FlightOf(t, d).claimed == FlightOf(s, d).claimed
            && (k in t.queue <==> k in s.queue && !Removes(step, k))
  {
    WaitingRowsAreNotFlown(s, d);
    assert step.Settle? ==> FlightOf(s, step.drain).record.key != FlightOf(s, d).record.key;
    hide Inv;
    FlightGoesOn(s, step, d);
    RowStaysQueued(s, step, FlightOf(s, d).record.key);
  }

  lemma FlightGoesOn(s: State, step: Step, d: nat)
    requires Enabled(s, step) && InFlight(s, d) && !EndsFlight(step, d)
    ensures var t := Take(s, step);
            InFlight(t, d) && FlightOf(t, d).record == FlightOf(s, d).record && FlightOf(t, d).claimed == FlightOf(s, d).claimed
  {
    hide MayClaim, AfterResult, Refiled, DistinctRows, IsOldestListed, AllFoldable;
  }

  lemma RowStaysQueued(s: State, step: Step, k: Key)
    requires Enabled(s, step) && k in s.ever && (k in s.queue ==> s.queue[k].status.Syncing?)
    requires step.Settle? ==> FlightOf(s, step.drain).record.key != k
    ensures k in Take(s, step).queue <==> k in s.queue && !Removes(step, k)
  {
    hide MayClaim, Refiled, DistinctRows, IsOldestListed;
  }

  /** A result write does not look at the stored row. For a row that was in the queue while in flight, it finds
      the row its own claim left there exactly when the row was not removed from the device since; then it
      overwrites nobody's work, else it brings the row back. */
  lemma ResultWritesHitTheirClaimIff(s: State, steps: seq<Step>, d: nat)
    requires Inv(s) && ValidRun(s, steps) && InFlight(s, d) && FlightOf(s, d).record.key in s.queue
    requires forall i :: 0 <= i < |steps| ==> !EndsFlight(steps[i], d)
    ensures var t, f := EndOf(s, steps), FlightOf(s, d);
            && InFlight(t, d) && FlightOf(t, d).record == f.record && FlightOf(t, d).claimed == f.claimed
            && (f.record.key in t.queue && t.queue[f.record.key] == f.claimed <==>
                NoneRemoves(steps, f.record.key))
  {
    HeldUnlessRemoved(s, steps, d);
    var t, f := EndOf(s, steps), FlightOf(s, d);
    RunKeepsInv(s, steps);
    assert Held(t, FlightOf(t, d));
  }

  predicate NoneRemoves(steps: seq<Step>, k: Key) {
    forall i :: 0 <= i < |steps| ==> !Removes(steps[i], k)
  }

  lemma NoneRemovesFirst(steps: seq<Step>, k: Key)
    requires steps != []
    ensures NoneRemoves(steps, k) <==> !Removes(steps[0], k) && NoneRemoves(steps[1..], k)
  {
    assert steps == [steps[0]] + steps[1..];
    hide Removes;
  }

  lemma {:induction false} HeldUnlessRemoved(s: State, steps: seq<Step>, d: nat)
    requires Inv(s) && ValidRun(s, steps) && InFlight(s, d)
    requires forall i :: 0 <= i < |steps| ==> !EndsFlight(steps[i], d)
    ensures var t, f := EndOf(s, steps), FlightOf(s, d);
            && InFlight(t, d) && FlightOf(t, d).record == f.record && FlightOf(t, d).claimed == f.claimed
            && (f.record.key in t.queue <==> f.record.key in s.queue && NoneRemoves(steps, f.record.key))
    decreases |steps|
  {
    if steps != [] {
      hide Inv, Enabled, Take, Removes, EndsFlight, NoneRemoves;
      FlightStays(s, steps[0], d);
      StepKeepsInv(s, steps[0]);
      HeldUnlessRemoved(Take(s, steps[0]), steps[1..], d);
      NoneRemovesFirst(steps, FlightOf(s, d).record.key);
    }
  }

  // ---------------------------------------------------------------- the steps are the drain's

  /** What drainFeatureQueue lists is what Begin may start with. */
  lemma ListedWorkEnablesBegin(s: State, d: nat, who: Option<string>, rows: seq<Row>, owesUpload: set<string>, todo: seq<Row>)
    requires Filed(s) && d !in s.drains
    requires ListsOwned(s.queue, who, rows) && IsTodo(rows, s.now, owesUpload, todo)
    ensures Enabled(s, Begin(d, who, None, false, todo))
  {
    assert ValidQueue(s.queue) by {
      forall k | k in s.queue ensures s.queue[k].key == k { assert FiledRow(s, s.queue[k]); }
    }
    QueueProgress.TodoIsTheHeads(s.queue, who, rows, s.now, owesUpload, todo);
  }

  /** The account's rows of one deployment, each once: what a page lists. */
  ghost predicate ListsDeployment(queue: Queue, who: Option<string>, deployment: string, rows: seq<Row>) {
    DistinctRows(rows) &&
    forall r :: r in rows <==> r.key in queue && queue[r.key] == r && IsOwnedBy(r, who) && r.key.collection == deployment
  }

  /** The heads of what a page lists are what its Begin may start with. */
  lemma PageListEnablesBegin(s: State, d: nat, who: Option<string>, deployment: string, force: bool, rows: seq<Row>, todo: seq<Row>)
    requires Filed(s) && d !in s.drains && ListsDeployment(s.queue, who, deployment, rows)
    requires DistinctRows(todo) && forall r :: r in todo ==> exists i :: 0 <= i < |rows| && rows[i] == r && IsOldestAt(rows, i)
    ensures Enabled(s, Begin(d, who, Some(deployment), force, todo))
  {
    forall r | r in todo ensures IsOldestListed(s.queue, who, Some(deployment), r) {
      var i :| 0 <= i < |rows| && rows[i] == r && IsOldestAt(rows, i);
      forall k | k in s.queue && k.collection == deployment && IsOwnedBy(s.queue[k], who) && s.queue[k].feature == r.feature
        ensures r.queuedAt <= s.queue[k].queuedAt
      {
        assert s.queue[k].key == k && s.queue[k] in rows;
      }
    }
  }

  /** Left alone, the protocol's claim, arrival and result write are one round of the drain loop. */
  lemma UndisturbedRoundIsDrainOne(s: State, d: nat, server: Server, clock: Key -> int)
    requires Enabled(s, Claim(d, s.now)) && s.drains[d].page.None? && !s.drains[d].force
    requires clock(s.drains[d].todo[0].key) == s.now
    ensures var record := s.drains[d].todo[0];
            var who := s.drains[d].who;
            var claimed := Take(s, Claim(d, s.now));
            if InFlight(claimed, d) then
              var arrived := Take(claimed, ServerApplies(d));
              && Enabled(arrived, Settle(d, ReplayFeatureRecord(record, server)))
              && Take(arrived, Settle(d, ReplayFeatureRecord(record, server))).queue == DrainOne(s.queue, record, who, server, clock)
            else
              claimed.queue == DrainOne(s.queue, record, who, server, clock)
  {
  }

  // ---------------------------------------------------------------- why the hypotheses are there

  /** One replay that outlives its claim window is enough: another drain then flies the same row. */
  lemma MissedDeadlineLosesExclusion(s: State, d: nat, e: nat, stamp: int)
    requires InFlight(s, d) && d != e && Enabled(s, Claim(e, stamp))
    requires var f := FlightOf(s, d);
             && f.record.key in s.queue && s.queue[f.record.key] == f.claimed && IsOwnedBy(f.claimed, s.drains[e].who)
             && f.claimed.status.Syncing? && f.claimed.lastAttemptAt == Some(f.stamp)
             && s.drains[e].todo[0].key == f.record.key
    ensures var f := FlightOf(s, d);
            var t := Take(s, Claim(e, stamp));
            s.now >= f.stamp + CLAIM_STALE_MS <==>
              InFlight(t, d) && InFlight(t, e) && FlightOf(t, d).record.key == FlightOf(t, e).record.key
  {
  }

  /** Chains are per identity: a row can be a head although somebody else's older edit of the same
      feature is still queued. */
  lemma OrderIsPerIdentity()
    ensures exists queue: Queue, who, a, b ::
              a in queue && b in queue && Older(queue[a], queue[b]) && IsOldestOwned(queue, who, queue[b])
  {
    var a, b := Key("c", "1"), Key("c", "2");
    var first := Row(a, "f", Some("ann"), 1, Edit(Insert, None, map[]), Pending, None, 0);
    var second := Row(b, "f", Some("bob"), 2, Edit(Update, None, map[]), Pending, None, 0);
    var queue: Queue := map[a := first, b := second];
    assert Older(queue[a], queue[b]) && IsOldestOwned(queue, Some("bob"), queue[b]);
  }
}
