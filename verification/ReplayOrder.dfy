/**
 The order in which the rows of a feature are sent (apps/portal-web/public/sw.js:355-376). Workers list the
 whole queue, so theirs is capture order. A page lists its own deployment
 (apps/portal-web/src/lib/offline-store.ts:1196-1216) although a feature's chain may span deployments, and a
 row removed while in flight can come back or arrive late: here is when either breaks the order, and that
 nothing else does.
 */
module ReplayOrder {
  import opened Prelude
  import opened QueueRules
  import opened OfflineDrain
  import opened OfflineEnqueue
  import opened ReplayProtocol

  /** `who` could see the row whenever it looked: every version of it was theirs or nobody's. */
  ghost predicate Sees(s: State, who: Option<string>, k: Key) {
    forall i :: 0 <= i < |VersionsOf(s, k)| ==> IsOwnedBy(VersionsOf(s, k)[i], who)
  }

  /** Every older row of the same feature that `who` always sees has left the queue. */
  ghost predicate Cleared(s: State, who: Option<string>, row: Row) {
    forall k :: k in s.ever && Older(s.ever[k], row) && Sees(s, who, k) ==> k in s.fates
  }

  /** An older row of the feature, which `who` always sees, is queued where the drain does not look. */
  ghost predicate OlderElsewhere(s: State, who: Option<string>, page: Option<string>, row: Row) {
    exists k :: k in s.queue && !InScope(page, k) && Older(s.queue[k], row) && Sees(s, who, k)
  }

  lemma QueuedSight(s: State, who: Option<string>, k: Key)
    requires Filed(s) && k in s.queue
    ensures SameFiling(s.queue[k], s.ever[k])
    ensures Sees(s, who, k) ==> IsOwnedBy(s.queue[k], who)
  {
    assert FiledRow(s, s.queue[k]);
    var i :| 0 <= i < |VersionsOf(s, k)| && SameEdit(s.queue[k], VersionsOf(s, k)[i]);
  }

  /** A listed head is cleared exactly when no older row of its feature is queued under another deployment
      than the one the drain lists; for a worker, always. */
  lemma ListedIsClearedIff(s: State, who: Option<string>, page: Option<string>, r: Row)
    requires Filed(s) && IsOldestListed(s.queue, who, page, r)
    ensures Cleared(s, who, r) <==> !OlderElsewhere(s, who, page, r)
    ensures page.None? ==> Cleared(s, who, r)
  {
    forall k | k in s.queue ensures SameFiling(s.queue[k], s.ever[k]) && (Sees(s, who, k) ==> IsOwnedBy(s.queue[k], who)) {
      QueuedSight(s, who, k);
    }
    hide Sees, FiledRow, IsOwnedBy;
  }

  // ---------------------------------------------------------------- the invariant of orderly runs

  ghost predicate SentInOrder(s: State) {
    forall i, j :: 0 <= i < j < |s.log| && s.log[i].who == s.log[j].who && s.log[i].row.feature == s.log[j].row.feature
                   && Sees(s, s.log[j].who, s.log[j].row.key) ==>
      s.log[i].row.queuedAt <= s.log[j].row.queuedAt
  }

  ghost predicate FlightsQueued(s: State) {
    forall d :: InFlight(s, d) ==> FlightOf(s, d).record.key in s.queue
  }

  ghost predicate WorkCleared(s: State) {
    && (forall d :: InFlight(s, d) ==> Cleared(s, s.drains[d].who, FlightOf(s, d).record))
    && (forall d, r :: d in s.drains && r in s.drains[d].todo ==> Cleared(s, s.drains[d].who, r))
    && (forall i :: 0 <= i < |s.log| ==> Cleared(s, s.log[i].who, s.log[i].row))
  }

  ghost predicate InOrder(s: State) {
    FlightsQueued(s) && WorkCleared(s) && SentInOrder(s)
  }

  /** No page passes over an older row of another deployment, and no row is removed while it is in flight. */
  ghost predicate KeepsOrder(s: State, step: Step) {
    match step
    case Begin(_, who, page, _, todo) => forall r :: r in todo ==> !OlderElsewhere(s, who, page, r)
    case Remove(keys) => SparesFlights(s, keys)
    case _ => true
  }

  ghost predicate SparesFlights(s: State, keys: set<Key>) {
    forall d :: InFlight(s, d) ==> FlightOf(s, d).record.key !in keys
  }

  /** Then nothing that left the queue comes back. */
  ghost predicate LeavesForGood(s: State, t: State) {
    Grows(s, t) && s.fates.Keys <= t.fates.Keys
  }

  lemma ClearedStays(s: State, t: State)
    requires LeavesForGood(s, t)
    ensures forall who, k :: Sees(t, who, k) ==> Sees(s, who, k)
    ensures forall who, r :: Cleared(s, who, r) ==> Cleared(t, who, r)
  {
    forall who, k | Sees(t, who, k) ensures Sees(s, who, k) {
      assert VersionsOf(s, k) <= VersionsOf(t, k);
    }
  }

  /** Drains take up only what they had listed. */
  ghost predicate TakesUpNothing(s: State, t: State) {
    forall d :: d in t.drains ==>
      && d in s.drains && t.drains[d].who == s.drains[d].who
      && (forall r :: r in t.drains[d].todo ==> r in s.drains[d].todo)
      && (InFlight(t, d) ==> FlightOf(t, d).record in s.drains[d].todo || (InFlight(s, d) && FlightOf(t, d).record == FlightOf(s, d).record))
  }

  lemma WorkStaysCleared(s: State, t: State)
    requires WorkCleared(s) && LeavesForGood(s, t) && TakesUpNothing(s, t) && t.log == s.log
    ensures WorkCleared(t)
  {
    ClearedStays(s, t);
    hide Cleared, LeavesForGood;
  }

  lemma OrderStays(s: State, t: State)
    requires SentInOrder(s) && LeavesForGood(s, t) && t.log == s.log
    ensures SentInOrder(t)
  {
    ClearedStays(s, t);
  }

  lemma StepTakesUpNothing(s: State, step: Step)
    requires Enabled(s, step) && !step.Begin?
    ensures TakesUpNothing(s, Take(s, step))
  {
    hide MayClaim, AfterResult, AllFoldable, Refiled;
  }

  lemma SettledLeavesForGood(s: State, d: nat, result: Replay)
    requires Enabled(s, Settle(d, result)) && FlightOf(s, d).record.key !in s.fates
    ensures LeavesForGood(s, Take(s, Settle(d, result)))
  {
    var t := TakeSettle(s, d, result);
    assert t.versions == s.versions && forall k :: VersionsOf(s, k) == VersionsOf(t, k);
  }

  lemma OthersLeaveForGood(s: State, step: Step)
    requires Enabled(s, step) && !step.Enqueue? && !step.Settle? && !step.Fold?
    ensures LeavesForGood(s, Take(s, step))
  {
    hide MayClaim, IsOldestListed;
    assert Take(s, step).versions == s.versions && forall k :: VersionsOf(s, k) == VersionsOf(Take(s, step), k);
  }

  lemma StepLeavesForGood(s: State, step: Step)
    requires Filed(s) && FlightsQueued(s) && Enabled(s, step) && !step.Enqueue?
    ensures LeavesForGood(s, Take(s, step))
  {
    if step.Fold? {
      FoldGrows(s, step.owner, step.keep, step.gone, step.edit);
    } else if step.Settle? {
      assert FlightOf(s, step.drain).record.key !in s.fates;
      hide Filed;
      SettledLeavesForGood(s, step.drain, step.result);
    } else {
      OthersLeaveForGood(s, step);
    }
  }

  lemma StepKeepsFlightsQueued(s: State, step: Step)
    requires Inv(s) && FlightsQueued(s) && Enabled(s, step) && KeepsOrder(s, step)
    ensures FlightsQueued(Take(s, step))
  {
    var t := Take(s, step);
    forall d | InFlight(t, d) ensures FlightOf(t, d).record.key in t.queue {
      FlownRowIsQueued(s, step, d);
    }
  }

  lemma NewFlightIsQueued(s: State, step: Step, d: nat)
    requires Enabled(s, step) && !InFlight(s, d) && InFlight(Take(s, step), d)
    ensures FlightOf(Take(s, step), d).record.key in Take(s, step).queue
  {
    hide MayClaim, AfterResult, Refiled, IsOldestListed, AllFoldable;
    assert step.Claim? && step.drain == d;
  }

  lemma FlightWasNotEnded(s: State, step: Step, d: nat)
    requires Enabled(s, step) && EndsFlight(step, d)
    ensures !InFlight(Take(s, step), d)
  {
  }

  lemma FlownRowIsQueued(s: State, step: Step, d: nat)
    requires Inv(s) && FlightsQueued(s) && Enabled(s, step) && (step.Remove? ==> SparesFlights(s, step.keys))
    requires InFlight(Take(s, step), d)
    ensures FlightOf(Take(s, step), d).record.key in Take(s, step).queue
  {
    hide Inv, Enabled, Take;
    if InFlight(s, d) {
      if EndsFlight(step, d) {
        FlightWasNotEnded(s, step, d);
      }
      FlightStays(s, step, d);
    } else {
      NewFlightIsQueued(s, step, d);
    }
  }

  lemma EnqueueKeepsCleared(s: State, row: Row)
    requires Filed(s) && Enabled(s, Enqueue(row))
    ensures forall who, k :: k in s.ever && Sees(Take(s, Enqueue(row)), who, k) ==> Sees(s, who, k)
    ensures forall who, r :: FiledRow(s, r) && Cleared(s, who, r) ==> Cleared(Take(s, Enqueue(row)), who, r)
  {
    var t := Take(s, Enqueue(row));
    assert forall k :: k in s.ever ==> VersionsOf(t, k) == VersionsOf(s, k);
    forall who, r | FiledRow(s, r) && Cleared(s, who, r) ensures Cleared(t, who, r) {
      forall k | k in t.ever && Older(t.ever[k], r) && Sees(t, who, k) ensures k in t.fates {
        assert k != row.key && Sees(s, who, k);
      }
    }
  }

  lemma EnqueueKeepsOrder(s: State, row: Row)
    requires Inv(s) && WorkCleared(s) && SentInOrder(s) && Enabled(s, Enqueue(row))
    ensures WorkCleared(Take(s, Enqueue(row))) && SentInOrder(Take(s, Enqueue(row)))
  {
    EnqueueKeepsCleared(s, row);
    EnqueueKeepsWork(s, row);
    hide Inv, WorkCleared, Enabled;
    assert forall who, k :: k in s.ever && Sees(Take(s, Enqueue(row)), who, k) ==> Sees(s, who, k);
    EnqueueKeepsLog(s, row);
  }

  lemma EnqueueKeepsLog(s: State, row: Row)
    requires Inv(s) && SentInOrder(s) && Enabled(s, Enqueue(row))
    requires forall who, k :: k in s.ever && Sees(Take(s, Enqueue(row)), who, k) ==> Sees(s, who, k)
    ensures SentInOrder(Take(s, Enqueue(row)))
  {
    hide Filed, DrainsOk, Sees;
    assert forall i :: 0 <= i < |s.log| ==> Known(s, s.log[i].who, s.log[i].row);
  }

  lemma EnqueueKeepsWork(s: State, row: Row)
    requires Inv(s) && WorkCleared(s) && Enabled(s, Enqueue(row))
    requires forall who, r :: FiledRow(s, r) && Cleared(s, who, r) ==> Cleared(Take(s, Enqueue(row)), who, r)
    ensures WorkCleared(Take(s, Enqueue(row)))
  {
    hide Filed, Held, Cleared, Sees, FiledRow;
    assert forall i :: 0 <= i < |s.log| ==> Known(s, s.log[i].who, s.log[i].row);
  }

  lemma BeginKeepsCleared(s: State, d: nat, who: Option<string>, page: Option<string>, force: bool, todo: seq<Row>)
    requires Filed(s) && WorkCleared(s) && Enabled(s, Begin(d, who, page, force, todo)) && KeepsOrder(s, Begin(d, who, page, force, todo))
    ensures WorkCleared(Take(s, Begin(d, who, page, force, todo)))
  {
    forall r | r in todo ensures Cleared(s, who, r) {
      ListedIsClearedIff(s, who, page, r);
    }
    var drain := Drain(who, page, force, todo, None, true);
    assert Take(s, Begin(d, who, page, force, todo)) == s.(drains := s.drains[d := drain]);
    hide Filed, Enabled, Take, Cleared;
    NewDrainKeepsCleared(s, d, drain);
  }

  lemma NewDrainKeepsCleared(s: State, d: nat, drain: Drain)
    requires WorkCleared(s) && drain.flight.None? && forall r :: r in drain.todo ==> Cleared(s, drain.who, r)
    ensures WorkCleared(s.(drains := s.drains[d := drain]))
  {
    var t := s.(drains := s.drains[d := drain]);
    ClearedStays(s, t);
    hide Cleared;
    assert forall e :: InFlight(t, e) ==> e != d && InFlight(s, e) && FlightOf(t, e) == FlightOf(s, e);
  }

  /** While a row is queued nothing younger of its feature was sent under an identity that always sees it: the
      older row would have had to leave the queue before the younger one was listed. */
  lemma SentWhileQueued(s: State, sent: Sent)
    requires Filed(s) && WorkCleared(s) && LogOk(s) && Known(s, sent.who, sent.row)
    requires sent.row.key in s.queue && Sees(s, sent.who, sent.row.key)
    ensures forall i :: 0 <= i < |s.log| && s.log[i].who == sent.who && s.log[i].row.feature == sent.row.feature ==>
              s.log[i].row.queuedAt <= sent.row.queuedAt
  {
    forall i | 0 <= i < |s.log| && s.log[i].who == sent.who && s.log[i].row.feature == sent.row.feature
      ensures s.log[i].row.queuedAt <= sent.row.queuedAt
    {
      assert Cleared(s, sent.who, s.log[i].row);
      assert SameFiling(sent.row, s.ever[sent.row.key]);
    }
  }

  lemma AppendKeepsOrder(s: State, t: State, sent: Sent)
    requires WorkCleared(s) && SentInOrder(s) && LeavesForGood(s, t) && t.log == s.log + [sent]
    requires forall k :: VersionsOf(s, k) == VersionsOf(t, k)
    requires Cleared(s, sent.who, sent.row)
    requires Sees(s, sent.who, sent.row.key) ==>
               forall i :: 0 <= i < |s.log| && s.log[i].who == sent.who && s.log[i].row.feature == sent.row.feature ==>
                 s.log[i].row.queuedAt <= sent.row.queuedAt
    requires TakesUpNothing(s, t)
    ensures WorkCleared(t) && SentInOrder(t)
  {
    WorkStaysCleared(s, t.(log := s.log));
    ClearedStays(s, t);
    hide Cleared, Sees, LeavesForGood, TakesUpNothing;
  }

  lemma AppliesKeepsOrder(s: State, d: nat)
    requires Inv(s) && InOrder(s) && Enabled(s, ServerApplies(d))
    ensures WorkCleared(Take(s, ServerApplies(d))) && SentInOrder(Take(s, ServerApplies(d)))
  {
    var t, sent := Take(s, ServerApplies(d)), Sent(FlightOf(s, d).record, s.drains[d].who);
    assert Known(s, sent.who, sent.row);
    ArrivalShape(s, d);
    hide Enabled, Take, Known, Cleared, Sees;
    if Sees(s, sent.who, sent.row.key) {
      SentWhileQueued(s, sent);
    }
    hide Inv, FlightsQueued;
    AppendKeepsOrder(s, t, sent);
  }

  lemma ArrivalShape(s: State, d: nat)
    requires InFlight(s, d)
    ensures var t := Take(s, ServerApplies(d));
            && t.log == s.log + [Sent(FlightOf(s, d).record, s.drains[d].who)]
            && (forall k :: VersionsOf(s, k) == VersionsOf(t, k)) && LeavesForGood(s, t) && TakesUpNothing(s, t)
  {
  }

  lemma StepKeepsInOrder(s: State, step: Step)
    requires Inv(s) && InOrder(s) && Enabled(s, step) && KeepsOrder(s, step)
    ensures InOrder(Take(s, step))
  {
    StepKeepsFlightsQueued(s, step);
    if step.Enqueue? {
      EnqueueKeepsOrder(s, step.row);
    } else if step.ServerApplies? {
      AppliesKeepsOrder(s, step.drain);
    } else {
      StepLeavesForGood(s, step);
      hide FlightsQueued, LeavesForGood, SentInOrder, WorkCleared;
      LogUnchanged(s, step);
      OrderStays(s, Take(s, step));
      if step.Begin? {
        BeginKeepsCleared(s, step.drain, step.who, step.page, step.force, step.todo);
      } else {
        StepTakesUpNothing(s, step);
        WorkStaysCleared(s, Take(s, step));
      }
    }
  }

  lemma LogUnchanged(s: State, step: Step)
    requires Enabled(s, step) && !step.ServerApplies?
    ensures Take(s, step).log == s.log
  {
  }

  ghost predicate OrderedRun(s: State, steps: seq<Step>)
    requires ValidRun(s, steps)
    decreases |steps|
  {
    steps == [] || (KeepsOrder(s, steps[0]) && OrderedRun(Take(s, steps[0]), steps[1..]))
  }

  lemma {:induction false} RunKeepsInOrder(s: State, steps: seq<Step>)
    requires Inv(s) && InOrder(s) && ValidRun(s, steps) && OrderedRun(s, steps)
    ensures Inv(EndOf(s, steps)) && InOrder(EndOf(s, steps))
    decreases |steps|
  {
    if steps != [] {
      hide Inv, InOrder, Enabled, KeepsOrder;
      StepKeepsInv(s, steps[0]);
      StepKeepsInOrder(s, steps[0]);
      RunKeepsInOrder(Take(s, steps[0]), steps[1..]);
    }
  }

  /** In a run without those two, a row is in flight only after every older row of its feature that its
      identity always sees has left the queue for good, and the rows of a feature are sent in capture order. */
  lemma RunsAreInOrder(s: State, steps: seq<Step>)
    requires Initial(s) && ValidRun(s, steps) && OrderedRun(s, steps)
    ensures var t := EndOf(s, steps);
            && SentInOrder(t)
            && (forall d, k :: InFlight(t, d) && k in t.ever && Older(t.ever[k], FlightOf(t, d).record) && Sees(t, t.drains[d].who, k) ==>
                  k !in t.queue && k in t.fates)
  {
    RunKeepsInOrder(s, steps);
  }

  /** Runs of workers alone that remove nothing in flight are such runs. */
  lemma WorkersKeepOrder(s: State, step: Step)
    requires Enabled(s, step) && (step.Begin? ==> step.page.None?) && (step.Remove? ==> SparesFlights(s, step.keys))
    ensures KeepsOrder(s, step)
  {
  }

  // ---------------------------------------------------------------- a page that passes over another deployment

  /** What reached the server last overtook an older row of its feature that `who` always sees and that is
      still queued. */
  ghost predicate Overtakes(s: State, who: Option<string>, row: Row) {
    && s.log != [] && s.log[|s.log| - 1] == Sent(row, who)
    && exists k :: k in s.queue && Older(s.queue[k], row) && Sees(s, who, k)
  }

  ghost predicate SparingRun(s: State, steps: seq<Step>)
    requires ValidRun(s, steps)
    decreases |steps|
  {
    steps == [] || ((steps[0].Remove? ==> SparesFlights(s, steps[0].keys)) && SparingRun(Take(s, steps[0]), steps[1..]))
  }

  ghost predicate CanOvertake(s: State, who: Option<string>, row: Row) {
    exists steps :: ValidRun(s, steps) && SparingRun(s, steps) && Overtakes(EndOf(s, steps), who, row)
  }

  lemma CanOvertakeLater(s: State, step: Step, who: Option<string>, row: Row)
    requires Enabled(s, step) && !step.Remove? && CanOvertake(Take(s, step), who, row)
    ensures CanOvertake(s, who, row)
  {
    var rest :| ValidRun(Take(s, step), rest) && SparingRun(Take(s, step), rest) && Overtakes(EndOf(Take(s, step), rest), who, row);
    FirstStep(s, step, rest);
    hide Enabled, Take, Overtakes;
    assert ([step] + rest)[1..] == rest;
    assert SparingRun(s, [step] + rest);
  }

  lemma {:induction false} SparingRunKeepsCleared(s: State, steps: seq<Step>, who: Option<string>, row: Row)
    requires Inv(s) && FlightsQueued(s) && ValidRun(s, steps) && SparingRun(s, steps) && FiledRow(s, row) && Cleared(s, who, row)
    ensures Inv(EndOf(s, steps)) && Cleared(EndOf(s, steps), who, row)
    decreases |steps|
  {
    if steps != [] {
      var step := steps[0];
      ClearedStep(s, step, who, row);
      StepKeepsInv(s, step);
      hide Inv, Enabled, Cleared, FlightsQueued;
      SparingRunKeepsCleared(Take(s, step), steps[1..], who, row);
    }
  }

  lemma ClearedStep(s: State, step: Step, who: Option<string>, row: Row)
    requires Inv(s) && FlightsQueued(s) && Enabled(s, step) && (step.Remove? ==> SparesFlights(s, step.keys))
    requires FiledRow(s, row) && Cleared(s, who, row)
    ensures FlightsQueued(Take(s, step)) && FiledRow(Take(s, step), row) && Cleared(Take(s, step), who, row)
  {
    SparingKeepsFlightsQueued(s, step);
    if step.Enqueue? {
      EnqueueKeepsCleared(s, step.row);
      hide Cleared;
      RowStaysFiled(s, Take(s, step), row);
    } else {
      StepLeavesForGood(s, step);
      hide Enabled, Inv, Cleared;
      ClearedStays(s, Take(s, step));
      RowStaysFiled(s, Take(s, step), row);
    }
  }

  lemma SparingKeepsFlightsQueued(s: State, step: Step)
    requires Inv(s) && FlightsQueued(s) && Enabled(s, step) && (step.Remove? ==> SparesFlights(s, step.keys))
    ensures FlightsQueued(Take(s, step))
  {
    forall d | InFlight(Take(s, step), d) ensures FlightOf(Take(s, step), d).record.key in Take(s, step).queue {
      FlownRowIsQueued(s, step, d);
    }
  }

  /** The drain will come to `r`, which waits, while an older row that `who` sees is queued under a key that is
      not on its list. */
  ghost predicate WillOvertake(s: State, d: nat, who: Option<string>, r: Row, older: Key) {
    && Working(s, d) && s.drains[d].who == who && r in s.drains[d].todo && (forall x :: x in s.drains[d].todo ==> x.key != older)
    && DistinctRows(s.drains[d].todo) && (InFlight(s, d) ==> s.drains[d].todo != [] && s.drains[d].todo[0] == FlightOf(s, d).record)
    && r.key in s.queue && MayClaim(s.queue[r.key], s.drains[d], s.now)
    && older in s.queue && Older(s.queue[older], r) && Sees(s, who, older)
  }

  lemma {:induction false} WillOvertakeDoes(s: State, d: nat, who: Option<string>, r: Row, older: Key)
    requires Inv(s) && WillOvertake(s, d, who, r, older)
    ensures CanOvertake(s, who, r)
    decreases |s.drains[d].todo|, if s.drains[d].flight.Some? then 0 else 1
  {
    var drain := s.drains[d];
    ClaimableIsNotFlown(s, d, r);
    hide Inv, WillOvertake, CanOvertake;
    if InFlight(s, d) {
      OvertakerMovesOn(s, d, who, r, older);
      StepKeepsInv(s, WriteFails(d));
      WillOvertakeDoes(Take(s, WriteFails(d)), d, who, r, older);
      CanOvertakeLater(s, WriteFails(d), who, r);
    } else {
      if drain.todo[0] == r {
        OvertakerIsClaimed(s, d, who, r, older);
        OvertakerSends(Take(s, Claim(d, s.now)), d, who, r, older);
      } else {
        OvertakerWaits(s, d, who, r, older);
        StepKeepsInv(s, Claim(d, s.now));
        WillOvertakeDoes(Take(s, Claim(d, s.now)), d, who, r, older);
      }
      CanOvertakeLater(s, Claim(d, s.now), who, r);
    }
  }

  lemma ClaimableIsNotFlown(s: State, d: nat, r: Row)
    requires DrainsOk(s) && Working(s, d) && r in s.drains[d].todo && r.key in s.queue && MayClaim(s.queue[r.key], s.drains[d], s.now)
    requires InFlight(s, d) ==> s.drains[d].todo != [] && s.drains[d].todo[0] == FlightOf(s, d).record
    ensures InFlight(s, d) ==> s.drains[d].todo[0] != r
    ensures s.drains[d].todo != [] && (s.drains[d].todo[0] != r ==> r in s.drains[d].todo[1..])
  {
    ClaimedRowWasFree(s, s.drains[d], r.key);
    var todo := s.drains[d].todo;
    assert todo == [todo[0]] + todo[1..];
  }

  lemma OvertakerMovesOn(s: State, d: nat, who: Option<string>, r: Row, older: Key)
    requires WillOvertake(s, d, who, r, older) && InFlight(s, d) && r in s.drains[d].todo[1..]
    ensures Enabled(s, WriteFails(d))
    ensures var t := Take(s, WriteFails(d)); WillOvertake(t, d, who, r, older) && |t.drains[d].todo| < |s.drains[d].todo|
  {
    hide IsClaimable, Sees;
    var t := Take(s, WriteFails(d));
    assert Sees(t, who, older) by { SameSight(s, t); }
  }

  lemma SameSight(s: State, t: State)
    requires s.versions == t.versions
    ensures forall who, k :: Sees(s, who, k) <==> Sees(t, who, k)
  {
    assert forall k :: VersionsOf(s, k) == VersionsOf(t, k);
  }

  lemma OvertakerIsClaimed(s: State, d: nat, who: Option<string>, r: Row, older: Key)
    requires WillOvertake(s, d, who, r, older) && !InFlight(s, d) && s.drains[d].todo[0] == r
    ensures Enabled(s, Claim(d, s.now))
    ensures var t := Take(s, Claim(d, s.now));
            InFlight(t, d) && FlightOf(t, d).record == r && t.drains[d].who == who
            && older in t.queue && t.queue[older] == s.queue[older] && Sees(t, who, older)
  {
    SameSight(s, TakeClaim(s, d, s.now));
    hide MayClaim, Sees, Claimed;
  }

  lemma OvertakerWaits(s: State, d: nat, who: Option<string>, r: Row, older: Key)
    requires WillOvertake(s, d, who, r, older) && !InFlight(s, d) && s.drains[d].todo[0] != r && r in s.drains[d].todo[1..]
    ensures Enabled(s, Claim(d, s.now))
    ensures var t := Take(s, Claim(d, s.now));
            && WillOvertake(t, d, who, r, older)
            && (|t.drains[d].todo| < |s.drains[d].todo| || (t.drains[d].todo == s.drains[d].todo && InFlight(t, d)))
  {
    var t := TakeClaim(s, d, s.now);
    var before, after := s.drains[d], t.drains[d];
    ClaimTouchesTheHead(s, d);
    SameSight(s, t);
    assert before.todo == [before.todo[0]] + before.todo[1..];
    assert before.todo[0].key != r.key && before.todo[0].key != older;
    assert DistinctRows(before.todo[1..]);
    hide IsClaimable, Sees, TakeClaim;
  }

  lemma ClaimTouchesTheHead(s: State, d: nat)
    requires Enabled(s, Claim(d, s.now))
    ensures var t, head := TakeClaim(s, d, s.now), s.drains[d].todo[0].key;
            && t.versions == s.versions && t.now == s.now && d in t.drains
            && (forall k :: k != head ==> (k in t.queue <==> k in s.queue) && (k in s.queue ==> t.queue[k] == s.queue[k]))
            && (var before, after := s.drains[d], t.drains[d];
                || after == before.(todo := before.todo[1..])
                || (after.flight.Some? && after.flight.value.record == before.todo[0] && after == before.(flight := after.flight)))
  {
    hide MayClaim;
  }

  lemma OvertakerSends(s: State, d: nat, who: Option<string>, r: Row, older: Key)
    requires InFlight(s, d) && FlightOf(s, d).record == r && s.drains[d].who == who
    requires older in s.queue && Older(s.queue[older], r) && Sees(s, who, older)
    ensures CanOvertake(s, who, r)
  {
    var t := Take(s, ServerApplies(d));
    SameSight(s, t);
    assert ValidRun(t, []) && SparingRun(t, []) && EndOf(t, []) == t;
    assert Overtakes(t, who, r);
    CanOvertakeLater(s, ServerApplies(d), who, r);
  }

  lemma {:induction false} SparingRunKeepsFlightsQueued(s: State, steps: seq<Step>)
    requires Inv(s) && FlightsQueued(s) && ValidRun(s, steps) && SparingRun(s, steps)
    ensures Inv(EndOf(s, steps)) && FlightsQueued(EndOf(s, steps))
    decreases |steps|
  {
    if steps != [] {
      SparingKeepsFlightsQueued(s, steps[0]);
      StepKeepsInv(s, steps[0]);
      hide Inv, Enabled, FlightsQueued;
      SparingRunKeepsFlightsQueued(Take(s, steps[0]), steps[1..]);
    }
  }

  /** The exact danger of listing one deployment. Where no row is removed in flight: a row that a drain lists
      and may claim can reach the server past an older row of its feature that the identity always sees and
      that is still queued, exactly when such a row is queued outside what the drain lists. */
  lemma OvertakingIff(start: State, before: seq<Step>, d: nat, who: Option<string>, page: Option<string>, force: bool, todo: seq<Row>, r: Row)
    requires Initial(start) && ValidRun(start, before) && SparingRun(start, before)
    requires Enabled(EndOf(start, before), Begin(d, who, page, force, todo))
    requires r in todo && MayClaim(r, Drain(who, page, force, todo, None, true), EndOf(start, before).now)
    ensures var s := EndOf(start, before);
            CanOvertake(Take(s, Begin(d, who, page, force, todo)), who, r) <==> OlderElsewhere(s, who, page, r)
  {
    SparingRunKeepsFlightsQueued(start, before);
    var s := EndOf(start, before);
    hide Inv, FlightsQueued, Enabled, Take, MayClaim, OlderElsewhere, CanOvertake;
    if OlderElsewhere(s, who, page, r) {
      ElsewhereIsOvertaken(s, d, who, page, force, todo, r);
    } else {
      NothingOvertakes(s, d, who, page, force, todo, r);
    }
  }

  lemma BeginLists(s: State, d: nat, who: Option<string>, page: Option<string>, force: bool, todo: seq<Row>, r: Row, elsewhere: Key)
    requires Enabled(s, Begin(d, who, page, force, todo)) && r in todo && !InScope(page, elsewhere)
    ensures Take(s, Begin(d, who, page, force, todo)) == s.(drains := s.drains[d := Drain(who, page, force, todo, None, true)])
    ensures r.key in s.queue && s.queue[r.key] == r && DistinctRows(todo) && forall x :: x in todo ==> x.key != elsewhere
  {
  }

  lemma ElsewhereIsOvertaken(s: State, d: nat, who: Option<string>, page: Option<string>, force: bool, todo: seq<Row>, r: Row)
    requires Inv(s) && Enabled(s, Begin(d, who, page, force, todo)) && OlderElsewhere(s, who, page, r)
    requires r in todo && MayClaim(r, Drain(who, page, force, todo, None, true), s.now)
    ensures CanOvertake(Take(s, Begin(d, who, page, force, todo)), who, r)
  {
    var older :| older in s.queue && !InScope(page, older) && Older(s.queue[older], r) && Sees(s, who, older);
    var t := s.(drains := s.drains[d := Drain(who, page, force, todo, None, true)]);
    hide Inv, Sees, MayClaim, Enabled, Take, DistinctRows, CanOvertake;
    BeginLists(s, d, who, page, force, todo, r, older);
    StepKeepsInv(s, Begin(d, who, page, force, todo));
    BegunWillOvertake(s, d, Drain(who, page, force, todo, None, true), r, older);
    hide WillOvertake, OlderElsewhere;
    WillOvertakeDoes(t, d, who, r, older);
  }

  lemma BegunWillOvertake(s: State, d: nat, drain: Drain, r: Row, older: Key)
    requires drain.alive && drain.flight.None? && DistinctRows(drain.todo) && r in drain.todo && forall x :: x in drain.todo ==> x.key != older
    requires r.key in s.queue && MayClaim(s.queue[r.key], drain, s.now)
    requires older in s.queue && Older(s.queue[older], r) && Sees(s, drain.who, older)
    ensures WillOvertake(s.(drains := s.drains[d := drain]), d, drain.who, r, older)
  {
    SameSight(s, s.(drains := s.drains[d := drain]));
    hide Sees, MayClaim, DistinctRows;
  }

  lemma NothingOvertakes(s: State, d: nat, who: Option<string>, page: Option<string>, force: bool, todo: seq<Row>, r: Row)
    requires Inv(s) && FlightsQueued(s) && Enabled(s, Begin(d, who, page, force, todo)) && r in todo
    requires !OlderElsewhere(s, who, page, r)
    ensures !CanOvertake(Take(s, Begin(d, who, page, force, todo)), who, r)
  {
    var begin := Begin(d, who, page, force, todo);
    var t := Take(s, begin);
    ListedIsClearedIff(s, who, page, r);
    assert FiledRow(s, s.queue[r.key]);
    StepKeepsInv(s, begin);
    ClearedStep(s, begin, who, r);
    hide Inv, Enabled, Take, Cleared, FlightsQueued;
    forall steps | ValidRun(t, steps) && SparingRun(t, steps) ensures !Overtakes(EndOf(t, steps), who, r) {
      SparingRunKeepsCleared(t, steps, who, r);
      ClearedIsNotOvertaken(EndOf(t, steps), who, r);
    }
  }

  lemma ClearedIsNotOvertaken(s: State, who: Option<string>, r: Row)
    requires Filed(s) && Cleared(s, who, r)
    ensures !Overtakes(s, who, r)
  {
    forall k | k in s.queue && Older(s.queue[k], r) ensures !Sees(s, who, k) {
      QueuedSight(s, who, k);
    }
  }

  // ---------------------------------------------------------------- the inputs

  /** Alone with a fresh row, a drain claims it and the server applies it. */
  lemma AloneSends(s: State, d: nat, row: Row, owner: string, rest: seq<Step>)
    requires d in s.drains && row.key in s.queue && s.queue[row.key] == row && IsFresh(row, owner)
    requires s.drains[d] == Drain(Some(owner), s.drains[d].page, false, [row], None, true)
    requires var f := Flight(row, Claimed(row, s.now), s.now, true);
             ValidRun(s.(queue := s.queue[row.key := f.claimed], log := s.log + [Sent(row, Some(owner))],
                         drains := s.drains[d := s.drains[d].(flight := Some(f))]), rest)
    ensures var steps, f := [Claim(d, s.now)] + ([ServerApplies(d)] + rest), Flight(row, Claimed(row, s.now), s.now, true);
            ValidRun(s, steps) &&
            EndOf(s, steps) == EndOf(s.(queue := s.queue[row.key := f.claimed], log := s.log + [Sent(row, Some(owner))],
                                        drains := s.drains[d := s.drains[d].(flight := Some(f))]), rest)
  {
    var f := Flight(row, Claimed(row, s.now), s.now, true);
    var s1 := s.(queue := s.queue[row.key := f.claimed], drains := s.drains[d := s.drains[d].(flight := Some(f.(applied := false)))]);
    var s2 := s1.(log := s.log + [Sent(row, Some(owner))], drains := s.drains[d := s.drains[d].(flight := Some(f))]);
    assert MayClaim(row, s.drains[d], s.now) && Take(s, Claim(d, s.now)) == s1;
    assert s1.drains[d := s.drains[d].(flight := Some(f))] == s2.drains;
    assert Take(s1, ServerApplies(d)) == s2;
    FirstStep(s1, ServerApplies(d), rest);
    FirstStep(s, Claim(d, s.now), [ServerApplies(d)] + rest);
  }

  /** The same feature is edited in deployment A, then in B; the page of B drains. */
  function TwoDeployments(a: Row, b: Row, owner: string, now: int): seq<Step> {
    [Enqueue(a)] + ([Enqueue(b)] + ([Begin(0, Some(owner), Some(b.key.collection), false, [b])] +
    ([Claim(0, now)] + ([ServerApplies(0)] + ([Settle(0, Finished)] + WorkerSends(a, owner, now))))))
  }

  /** Later the worker gets to A's row. */
  function WorkerSends(a: Row, owner: string, now: int): seq<Step> {
    [Begin(1, Some(owner), None, false, [a])] + ([Claim(1, now)] + ([ServerApplies(1)] + []))
  }

  lemma PageSendsPastAnotherDeployment(s: State, a: Row, b: Row, owner: string)
    requires Initial(s) && IsFresh(a, owner) && IsFresh(b, owner) && Older(a, b) && a.key.collection != b.key.collection
    ensures ValidRun(s, TwoDeployments(a, b, owner, s.now))
    ensures EndOf(s, TwoDeployments(a, b, owner, s.now)).log == [Sent(b, Some(owner)), Sent(a, Some(owner))]
  {
    var who, page := Some(owner), Some(b.key.collection);
    var s1 := s.(queue := map[a.key := a], ever := map[a.key := a], versions := map[a.key := [a]]);
    var s2 := s.(queue := map[a.key := a, b.key := b], ever := map[a.key := a, b.key := b], versions := map[a.key := [a], b.key := [b]]);
    var s3 := s2.(drains := map[0 := Drain(who, page, false, [b], None, true)]);
    var rest := [Claim(0, s.now)] + ([ServerApplies(0)] + ([Settle(0, Finished)] + WorkerSends(a, owner, s.now)));
    assert Take(s, Enqueue(a)) == s1 && Take(s1, Enqueue(b)) == s2;
    assert Take(s2, Begin(0, who, page, false, [b])) == s3;
    PageThenWorker(s3, a, b, owner);
    FirstStep(s2, Begin(0, who, page, false, [b]), rest);
    FirstStep(s1, Enqueue(b), [Begin(0, who, page, false, [b])] + rest);
    FirstStep(s, Enqueue(a), [Enqueue(b)] + ([Begin(0, who, page, false, [b])] + rest));
  }

  lemma PageThenWorker(s: State, a: Row, b: Row, owner: string)
    requires IsFresh(a, owner) && IsFresh(b, owner) && a.key != b.key && s.log == [] && s.queue == map[a.key := a, b.key := b]
    requires s.drains.Keys == {0} && s.drains[0] == Drain(Some(owner), s.drains[0].page, false, [b], None, true)
    ensures var steps := [Claim(0, s.now)] + ([ServerApplies(0)] + ([Settle(0, Finished)] + WorkerSends(a, owner, s.now)));
            ValidRun(s, steps) && EndOf(s, steps).log == [Sent(b, Some(owner)), Sent(a, Some(owner))]
  {
    var f := Flight(b, Claimed(b, s.now), s.now, true);
    var t := s.(queue := s.queue[b.key := f.claimed], log := s.log + [Sent(b, Some(owner))], drains := s.drains[0 := s.drains[0].(flight := Some(f))]);
    WorkerSendsTheRest(t, a, b, owner);
    AloneSends(s, 0, b, owner, [Settle(0, Finished)] + WorkerSends(a, owner, s.now));
  }

  lemma WorkerSendsTheRest(s: State, a: Row, b: Row, owner: string)
    requires IsFresh(a, owner) && a.key != b.key && s.log == [Sent(b, Some(owner))]
    requires InFlight(s, 0) && s.drains.Keys == {0} && Working(s, 0) && FlightOf(s, 0).record == b && FlightOf(s, 0).applied
    requires s.queue.Keys == {a.key, b.key} && s.queue[a.key] == a
    ensures var steps := [Settle(0, Finished)] + WorkerSends(a, owner, s.now);
            ValidRun(s, steps) && EndOf(s, steps).log == [Sent(b, Some(owner)), Sent(a, Some(owner))]
  {
    var s1 := Take(s, Settle(0, Finished));
    var begin := Begin(1, Some(owner), None, false, [a]);
    assert s1.queue == map[a.key := a];
    var s2 := Take(s1, begin);
    AloneSends(s2, 1, a, owner, []);
    FirstStep(s1, begin, [Claim(1, s.now)] + ([ServerApplies(1)] + []));
    FirstStep(s, Settle(0, Finished), WorkerSends(a, owner, s.now));
  }

  /** A row is claimed, its deployment is removed from the device, and the network fails: the row is back. */
  function RemovedInFlight(row: Row, owner: string, now: int): seq<Step> {
    [Enqueue(row)] + ([Begin(0, Some(owner), None, false, [row])] + ([Claim(0, now)] + ([Remove({row.key})] + ([Settle(0, Threw)] + []))))
  }

  lemma RemovedThenRestored(s: State, row: Row, owner: string)
    requires IsFresh(row, owner) && s.queue == map[row.key := Claimed(row, s.now)]
    requires s.drains == map[0 := Drain(Some(owner), None, false, [row], Some(Flight(row, Claimed(row, s.now), s.now, false)), true)]
    ensures var steps := [Remove({row.key})] + ([Settle(0, Threw)] + []);
            ValidRun(s, steps) && EndOf(s, steps).queue == map[row.key := row]
  {
    var s1 := Take(s, Remove({row.key}));
    assert s1.queue == map[];
    var s2 := Take(s1, Settle(0, Threw));
    assert s2.queue == map[row.key := row];
    FirstStep(s1, Settle(0, Threw), []);
    FirstStep(s, Remove({row.key}), [Settle(0, Threw)] + []);
  }

  lemma RemovedRowComesBack(s: State, row: Row, owner: string)
    requires Initial(s) && IsFresh(row, owner)
    ensures ValidRun(s, RemovedInFlight(row, owner, s.now))
    ensures EndOf(s, RemovedInFlight(row, owner, s.now)).queue == map[row.key := row]
  {
    var k, who := row.key, Some(owner);
    var drain := Drain(who, None, false, [row], None, true);
    var flown := drain.(flight := Some(Flight(row, Claimed(row, s.now), s.now, false)));
    var s1 := s.(queue := map[k := row], ever := map[k := row], versions := map[k := [row]]);
    var s2 := s1.(drains := map[0 := drain]);
    var s3 := s2.(queue := map[k := Claimed(row, s.now)], drains := map[0 := flown]);
    assert Take(s, Enqueue(row)) == s1 && Take(s1, Begin(0, who, None, false, [row])) == s2;
    assert MayClaim(row, drain, s.now) && Take(s2, Claim(0, s.now)) == s3;
    RemovedThenRestored(s3, row, owner);
    FirstStep(s2, Claim(0, s.now), [Remove({k})] + ([Settle(0, Threw)] + []));
    FirstStep(s1, Begin(0, who, None, false, [row]), [Claim(0, s.now)] + ([Remove({k})] + ([Settle(0, Threw)] + [])));
    FirstStep(s, Enqueue(row), [Begin(0, who, None, false, [row])] + ([Claim(0, s.now)] + ([Remove({k})] + ([Settle(0, Threw)] + []))));
  }
}
