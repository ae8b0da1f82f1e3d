/**
 The job rows of the point-cloud worker: tools/pointcloud-worker/runner.py:22-47, 427-455, 554-686,
 1650-1669, 1879-1895 and 3294-3361. The portal's cancel button, its reclaim sweep and its analysis
 bridge (apps/portal-api/src/analysis) write the same rows and are steps too. Times are seconds.
 */
module PointCloudJobs {
  import opened Prelude

  datatype JobState = Queued | Running | Ingest | Importing | CancelRequested | Cancelled | Failed | Done

  datatype Job = Job(state: JobState, created: int, started: Option<int>, heartbeat: Option<int>, progress: nat, error: string)

  const STALE_AFTER: int := 600

  predicate InFlight(job: Job) {
    job.state.Running? || job.state.CancelRequested?
  }

  /** COALESCE(heartbeat_at, started_at, created_at). */
  function LastSeen(job: Job): int {
    if job.heartbeat.Some? then job.heartbeat.value else if job.started.Some? then job.started.value else job.created
  }

  predicate IsFresh(job: Job, now: int) {
    LastSeen(job) > now - STALE_AFTER
  }

  // ---------------------------------------------------------------- the row updates

  function ClaimedRow(job: Job, now: int): Job {
    job.(state := Running, started := Some(now), heartbeat := Some(now), progress := 1)
  }

  function BeatenRow(job: Job, now: int, pct: Option<nat>): Job {
    job.(heartbeat := Some(now), progress := if pct.Some? then pct.value else job.progress)
  }

  /** The handoff UPDATE is guarded on 'running'. */
  function HandedOffRow(job: Job): Job {
    if job.state.Running? then job.(state := Ingest, progress := 80) else job
  }

  /** mark_cancelled is guarded on the states the worker owns. */
  function CancelledRow(job: Job): Job {
    if InFlight(job) then job.(state := Cancelled) else job
  }

  /** finish_job has no guard. */
  function FinishedRow(job: Job, error: Option<string>): Job {
    if error.None? then job.(state := Done, progress := 100)
    else job.(state := Failed, error := error.value[..Min(2000, |error.value|)])
  }

  /** reclaimStaleJobs: a requested cancel is granted, anything else in flight has failed. */
  function ReclaimedRow(job: Job): Job {
    if job.state.CancelRequested? then job.(state := Cancelled)
    else job.(state := Failed, error := "worker stopped responding")
  }

  predicate IsReclaimable(job: Job, now: int) {
    InFlight(job) && LastSeen(job) < now - STALE_AFTER
  }

  predicate IsNextQueued(jobs: seq<Job>, j: nat) {
    && j < |jobs| && jobs[j].state.Queued?
    && forall i :: 0 <= i < |jobs| && jobs[i].state.Queued? ==> jobs[j].created <= jobs[i].created
  }

  /** The analysis_job table; a job's id is its index. */
  class JobTable {
    var jobs: seq<Job>

    constructor ()
      ensures jobs == []
    {
      jobs := [];
    }

    /** claim_job: the oldest queued row, if any, becomes running in the same transaction. */
    method ClaimJob(now: int) returns (claimed: Option<nat>)
      modifies this
      ensures claimed.None? ==> jobs == old(jobs) && forall i :: 0 <= i < |jobs| ==> !jobs[i].state.Queued?
      ensures claimed.Some? ==> IsNextQueued(old(jobs), claimed.value)
                                && jobs == old(jobs)[claimed.value := ClaimedRow(old(jobs)[claimed.value], now)]
    {
      claimed := None;
      for i := 0 to |jobs|
        invariant jobs == old(jobs)
        invariant claimed.None? ==> forall k :: 0 <= k < i ==> !jobs[k].state.Queued?
        invariant claimed.Some? ==> claimed.value < i && jobs[claimed.value].state.Queued?
        invariant claimed.Some? ==> forall k :: 0 <= k < i && jobs[k].state.Queued? ==> jobs[claimed.value].created <= jobs[k].created
      {
        if jobs[i].state.Queued? && (claimed.None? || jobs[i].created < jobs[claimed.value].created) {
          claimed := Some(i);
        }
      }
      if claimed.Some? {
        jobs := jobs[claimed.value := ClaimedRow(jobs[claimed.value], now)];
      }
    }

    /** set_progress; true stands for raising JobCancelled. */
    method SetProgress(j: nat, pct: Option<nat>, now: int) returns (cancelled: bool)
      modifies this
      ensures |jobs| == |old(jobs)| && forall i :: 0 <= i < |jobs| ==> jobs[i] == if i == j then BeatenRow(old(jobs)[j], now, pct) else old(jobs)[i]
      ensures cancelled <==> j < |jobs| && old(jobs)[j].state.CancelRequested?
    {
      cancelled := false;
      if j < |jobs| {
        var job := jobs[j].(heartbeat := Some(now));
        if pct.Some? {
          job := job.(progress := pct.value);
        }
        jobs := jobs[j := job];
        cancelled := job.state.CancelRequested?;
      }
    }

    /** The guarded handoff of the vector kinds; false stands for raising JobCancelled. */
    method HandOff(j: nat) returns (flipped: bool)
      requires j < |jobs|
      modifies this
      ensures jobs == old(jobs)[j := HandedOffRow(old(jobs)[j])]
      ensures flipped <==> jobs[j].state.Ingest? && !old(jobs)[j].state.Ingest?
    {
      flipped := false;
      if jobs[j].state.Running? {
        jobs := jobs[j := jobs[j].(state := Ingest, progress := 80)];
        flipped := true;
      }
    }

    method MarkCancelled(j: nat)
      requires j < |jobs|
      modifies this
      ensures jobs == old(jobs)[j := CancelledRow(old(jobs)[j])]
    {
      if jobs[j].state in {Running, CancelRequested} {
        jobs := jobs[j := jobs[j].(state := Cancelled)];
      }
    }

    method FinishJob(j: nat, error: Option<string>)
      requires j < |jobs|
      modifies this
      ensures jobs == old(jobs)[j := FinishedRow(old(jobs)[j], error)]
      ensures jobs[j].state == if error.None? then Done else Failed
      ensures error.Some? ==> jobs[j].error <= error.value && |jobs[j].error| == Min(2000, |error.value|)
    {
      if error.None? {
        jobs := jobs[j := jobs[j].(state := Done, progress := 100)];
      } else {
        jobs := jobs[j := jobs[j].(state := Failed, error := error.value[..Min(2000, |error.value|)])];
      }
    }
  }

  // ---------------------------------------------------------------- the protocol

  /** A worker between two transactions. `Stopping` has seen the cancel and will mark it. */
  datatype Worker = Idle | Working(job: nat) | Stopping(job: nat)

  datatype State = State(jobs: seq<Job>, workers: seq<Worker>, now: int, claims: seq<nat>)

  datatype Step =
    | Create
    | UserCancel(j: nat)
    | Claim(w: nat, j: nat)
    | Beat(w: nat, pct: Option<nat>)
    | HandOff(w: nat)
    | MarkCancelled(w: nat)
    | Finish(w: nat, error: Option<string>)
    | Crash(w: nat)
    | Sweep(j: nat)
    | BridgeTakes(j: nat)
    | BridgeSettles(j: nat, ok: bool)
    | Wait(seconds: nat)

  predicate IsWorking(s: State, w: nat) {
    w < |s.workers| && s.workers[w].Working? && s.workers[w].job < |s.jobs|
  }

  /** SKIP LOCKED lets a worker take any queued row whose older ones are being claimed, so the
      protocol allows any. */
  predicate Enabled(s: State, step: Step) {
    match step
    case Create => true
    case UserCancel(j) => j < |s.jobs|
    case Claim(w, j) => w < |s.workers| && s.workers[w].Idle? && j < |s.jobs| && j < |s.claims| && s.jobs[j].state.Queued?
    case Beat(w, _) => IsWorking(s, w)
    case HandOff(w) => IsWorking(s, w)
    case MarkCancelled(w) => w < |s.workers| && s.workers[w].Stopping? && s.workers[w].job < |s.jobs|
    case Finish(w, _) => IsWorking(s, w)
    case Crash(w) => w < |s.workers|
    case Sweep(j) => j < |s.jobs| && IsReclaimable(s.jobs[j], s.now)
    case BridgeTakes(j) => j < |s.jobs| && s.jobs[j].state.Ingest?
    case BridgeSettles(j, _) => j < |s.jobs| && (s.jobs[j].state.Ingest? || s.jobs[j].state.Importing?)
    case Wait(_) => true
  }

  function WithJob(s: State, j: nat, job: Job): State
    requires j < |s.jobs|
  {
    s.(jobs := s.jobs[j := job])
  }

  function WithWorker(s: State, w: nat, worker: Worker): State
    requires w < |s.workers|
  {
    s.(workers := s.workers[w := worker])
  }

  function UserCancelled(job: Job): Job {
    if job.state.Queued? then job.(state := Cancelled)
    else if job.state.Running? then job.(state := CancelRequested)
    else job
  }

  function Take(s: State, step: Step): State
    requires Enabled(s, step)
  {
    match step
    case Create => s.(jobs := s.jobs + [Job(Queued, s.now, None, None, 0, "")], claims := s.claims + [0])
    case UserCancel(j) => WithJob(s, j, UserCancelled(s.jobs[j]))
    case Claim(w, j) =>
      WithWorker(WithJob(s, j, ClaimedRow(s.jobs[j], s.now)), w, Working(j)).(claims := s.claims[j := s.claims[j] + 1])
    case Beat(w, pct) =>
      var j := s.workers[w].job;
      var beaten := WithJob(s, j, BeatenRow(s.jobs[j], s.now, pct));
      if s.jobs[j].state.CancelRequested? then WithWorker(beaten, w, Stopping(j)) else beaten
    case HandOff(w) =>
      var j := s.workers[w].job;
      WithWorker(WithJob(s, j, HandedOffRow(s.jobs[j])), w, if s.jobs[j].state.Running? then Idle else Stopping(j))
    case MarkCancelled(w) =>
      var j := s.workers[w].job;
      WithWorker(WithJob(s, j, CancelledRow(s.jobs[j])), w, Idle)
    case Finish(w, error) =>
      var j := s.workers[w].job;
      WithWorker(WithJob(s, j, FinishedRow(s.jobs[j], error)), w, Idle)
    case Crash(w) => WithWorker(s, w, Idle)
    case Sweep(j) => WithJob(s, j, ReclaimedRow(s.jobs[j]))
    case BridgeTakes(j) => WithJob(s, j, s.jobs[j].(state := Importing))
    case BridgeSettles(j, ok) => WithJob(s, j, s.jobs[j].(state := if ok then Done else Failed))
    case Wait(seconds) => s.(now := s.now + seconds)
  }

  predicate Holds(worker: Worker, j: nat) {
    !worker.Idle? && worker.job == j
  }

  predicate IsHeld(s: State, j: nat) {
    exists w :: 0 <= w < |s.workers| && Holds(s.workers[w], j)
  }

  /** What the sweep may have made of a held row. */
  predicate Settled(job: Job) {
    job.state.Failed? || job.state.Cancelled?
  }

  /** What every reachable state satisfies: a job has at most one holder, a held job is in flight or
      was settled by the sweep, and the claim count tells a waiting job from a claimed one. */
  predicate Inv(s: State) {
    && |s.claims| == |s.jobs|
    && (forall w :: 0 <= w < |s.workers| && !s.workers[w].Idle? ==>
          s.workers[w].job < |s.jobs| && (InFlight(s.jobs[s.workers[w].job]) || Settled(s.jobs[s.workers[w].job])))
    && (forall v, w :: 0 <= v < w < |s.workers| && !s.workers[v].Idle? && !s.workers[w].Idle? ==> s.workers[v].job != s.workers[w].job)
    && (forall j :: 0 <= j < |s.jobs| ==> s.claims[j] <= 1 && (s.jobs[j].state.Queued? ==> s.claims[j] == 0))
  }

  lemma InvInitially(workers: nat, now: int)
    ensures Inv(State([], seq(workers, _ => Idle), now, []))
  {
  }

  lemma HolderIsUnique(s: State, v: nat, w: nat)
    requires Inv(s) && v < |s.workers| && w < |s.workers| && v != w && !s.workers[v].Idle? && !s.workers[w].Idle?
    ensures s.workers[v].job != s.workers[w].job
  {
    if w < v {
      assert s.workers[w].job != s.workers[v].job;
    }
  }

  lemma ClaimKeepsInv(s: State, w: nat, j: nat)
    requires Inv(s) && Enabled(s, Claim(w, j))
    ensures Inv(Take(s, Claim(w, j)))
  {
    var t := Take(s, Claim(w, j));
    forall v | 0 <= v < |s.workers| && !s.workers[v].Idle? ensures s.workers[v].job != j {
    }
    assert forall i :: 0 <= i < |s.jobs| && i != j ==> t.jobs[i] == s.jobs[i] && t.claims[i] == s.claims[i];
  }

  /** The steps in which the holder of a job writes its row. */
  lemma HolderKeepsInv(s: State, step: Step)
    requires Inv(s) && Enabled(s, step) && (step.Beat? || step.HandOff? || step.MarkCancelled? || step.Finish?)
    ensures Inv(Take(s, step))
  {
    var j, t := s.workers[step.w].job, Take(s, step);
    assert t.claims == s.claims && |t.jobs| == |s.jobs| && |t.workers| == |s.workers|;
    assert forall i :: 0 <= i < |s.jobs| && i != j ==> t.jobs[i] == s.jobs[i];
    assert forall v :: 0 <= v < |s.workers| && v != step.w ==> t.workers[v] == s.workers[v];
    forall v | 0 <= v < |s.workers| && v != step.w && !s.workers[v].Idle? ensures s.workers[v].job != j {
      HolderIsUnique(s, v, step.w);
    }
    assert t.workers[step.w].Idle? || t.workers[step.w].job == j;
    assert !t.jobs[j].state.Queued?;
  }

  lemma StepKeepsInv(s: State, step: Step)
    requires Inv(s) && Enabled(s, step)
    ensures Inv(Take(s, step))
  {
    if step.Claim? {
      ClaimKeepsInv(s, step.w, step.j);
    } else if step.Beat? || step.HandOff? || step.MarkCancelled? || step.Finish? {
      HolderKeepsInv(s, step);
    } else if !step.Create? && !step.Crash? && !step.Wait? {
      assert forall i :: 0 <= i < |s.jobs| && i != step.j ==> Take(s, step).jobs[i] == s.jobs[i];
    }
  }

  // ---------------------------------------------------------------- runs

  predicate ValidRun(s: State, steps: seq<Step>)
    decreases steps
  {
    steps == [] || (Enabled(s, steps[0]) && ValidRun(Take(s, steps[0]), steps[1..]))
  }

  function EndOf(s: State, steps: seq<Step>): State
    requires ValidRun(s, steps)
    decreases steps
  {
    if steps == [] then s else EndOf(Take(s, steps[0]), steps[1..])
  }

  lemma {:induction false} RunKeepsInv(s: State, steps: seq<Step>)
    requires Inv(s) && ValidRun(s, steps)
    ensures Inv(EndOf(s, steps)) && |s.jobs| <= |EndOf(s, steps).jobs|
    decreases steps
  {
    if steps != [] {
      StepKeepsInv(s, steps[0]);
      hide Inv, Enabled;
      RowsStay(s, steps[0]);
      RunKeepsInv(Take(s, steps[0]), steps[1..]);
    }
  }

  lemma RowsStay(s: State, step: Step)
    requires Enabled(s, step)
    ensures |s.jobs| <= |Take(s, step).jobs|
  {
  }

  /** Whatever workers, users and the sweep do, in any interleaving, no job is claimed twice. */
  lemma ClaimedAtMostOnce(workers: nat, now: int, steps: seq<Step>, j: nat)
    requires ValidRun(State([], seq(workers, _ => Idle), now, []), steps)
    requires j < |EndOf(State([], seq(workers, _ => Idle), now, []), steps).claims|
    ensures EndOf(State([], seq(workers, _ => Idle), now, []), steps).claims[j] <= 1
  {
    InvInitially(workers, now);
    RunKeepsInv(State([], seq(workers, _ => Idle), now, []), steps);
  }

  // ---------------------------------------------------------------- what one step can do to a row

  /** The only moves a row can make. */
  predicate Moves(from: JobState, to: JobState) {
    match to
    case Queued => false
    case Running => from.Queued?
    case CancelRequested => from.Running?
    case Cancelled => from.Queued? || from.Running? || from.CancelRequested?
    case Ingest => from.Running?
    case Importing => from.Ingest?
    case Failed => !from.Queued? && !from.Done?
    case Done => !from.Queued? && !from.Done?
  }

  predicate IsTerminal(state: JobState) {
    state.Cancelled? || state.Failed? || state.Done?
  }

  /** A step moves a row only along these lines, nobody holds a row that was handed off, and a terminal
      row is left only by the unguarded finish of a worker still at it. */
  lemma StepMoves(s: State, step: Step, j: nat)
    requires Inv(s) && Enabled(s, step) && j < |s.jobs|
    ensures Take(s, step).jobs[j].state != s.jobs[j].state ==> Moves(s.jobs[j].state, Take(s, step).jobs[j].state)
    ensures s.jobs[j].state.Ingest? || s.jobs[j].state.Importing? ==> !IsHeld(s, j)
    ensures IsTerminal(s.jobs[j].state) && Take(s, step).jobs[j].state != s.jobs[j].state ==>
              step.Finish? && s.workers[step.w] == Working(j)
  {
  }

  /** A row enters 'ingest' only directly from 'running', and through the guarded handoff of the one
      worker that holds it. */
  lemma IngestOnlyFromRunning(s: State, step: Step, j: nat)
    requires Inv(s) && Enabled(s, step) && j < |s.jobs|
    requires Take(s, step).jobs[j].state.Ingest? && !s.jobs[j].state.Ingest?
    ensures s.jobs[j].state.Running? && step.HandOff? && Holds(s.workers[step.w], j) && !IsHeld(Take(s, step), j)
  {
    forall v | 0 <= v < |s.workers| && v != step.w && !s.workers[v].Idle? ensures s.workers[v].job != j {
      HolderIsUnique(s, v, step.w);
    }
  }

  /** Some worker is still at work on the job, unaware that its row was settled. */
  predicate WorkedOn(s: State, j: nat) {
    exists w :: 0 <= w < |s.workers| && s.workers[w] == Working(j)
  }

  /** No run from here moves the row. */
  ghost predicate IsFinal(s: State, j: nat)
    requires j < |s.jobs|
  {
    forall steps :: ValidRun(s, steps) ==> j < |EndOf(s, steps).jobs| && EndOf(s, steps).jobs[j].state == s.jobs[j].state
  }

  lemma SettledStep(s: State, step: Step, j: nat)
    requires Inv(s) && Enabled(s, step) && j < |s.jobs| && IsTerminal(s.jobs[j].state) && !WorkedOn(s, j)
    ensures j < |Take(s, step).jobs| && Take(s, step).jobs[j].state == s.jobs[j].state && !WorkedOn(Take(s, step), j)
  {
    forall w | 0 <= w < |s.workers| ensures s.workers[w] != Working(j) {
    }
  }

  lemma {:induction false} SettledStays(s: State, steps: seq<Step>, j: nat)
    requires Inv(s) && ValidRun(s, steps) && j < |s.jobs| && IsTerminal(s.jobs[j].state) && !WorkedOn(s, j)
    ensures j < |EndOf(s, steps).jobs| && EndOf(s, steps).jobs[j].state == s.jobs[j].state
    decreases steps
  {
    if steps != [] {
      StepKeepsInv(s, steps[0]);
      SettledStep(s, steps[0], j);
      hide Inv, Enabled, Take, WorkedOn;
      SettledStays(Take(s, steps[0]), steps[1..], j);
    }
  }

  lemma DoneIsNotHeld(s: State, j: nat)
    requires Inv(s) && j < |s.jobs| && s.jobs[j].state.Done?
    ensures !IsHeld(s, j)
  {
  }

  lemma FinishingMovesTheRow(s: State, w: nat)
    requires IsWorking(s, w) && Settled(s.jobs[s.workers[w].job])
    ensures ValidRun(s, [Finish(w, None)]) && |EndOf(s, [Finish(w, None)]).jobs| == |s.jobs|
    ensures EndOf(s, [Finish(w, None)]).jobs[s.workers[w].job].state.Done?
  {
    assert [Finish(w, None)][1..] == [];
  }

  /** A terminal state is final exactly when nobody is at work on the job: 'done' always, 'failed' and
      'cancelled' unless the sweep wrote them under a worker that has not noticed. */
  lemma TerminalIsFinalIff(s: State, j: nat)
    requires Inv(s) && j < |s.jobs| && IsTerminal(s.jobs[j].state)
    ensures IsFinal(s, j) <==> !WorkedOn(s, j)
    ensures s.jobs[j].state.Done? ==> IsFinal(s, j)
  {
    hide Take, Enabled;
    if s.jobs[j].state.Done? {
      DoneIsNotHeld(s, j);
    }
    if w :| 0 <= w < |s.workers| && s.workers[w] == Working(j) {
      FinishingMovesTheRow(s, w);
    } else {
      forall steps | ValidRun(s, steps)
        ensures j < |EndOf(s, steps).jobs| && EndOf(s, steps).jobs[j].state == s.jobs[j].state
      {
        SettledStays(s, steps, j);
      }
    }
  }

  /** A failed row, by the sweep or otherwise, never becomes 'ingest' or 'cancelled': all that can
      still happen to it is its worker's own verdict. */
  lemma {:induction false} FailedStaysSettled(s: State, steps: seq<Step>, j: nat)
    requires Inv(s) && ValidRun(s, steps) && j < |s.jobs| && s.jobs[j].state.Failed?
    ensures j < |EndOf(s, steps).jobs|
    ensures EndOf(s, steps).jobs[j].state.Failed? || EndOf(s, steps).jobs[j].state.Done?
    decreases steps
  {
    if steps != [] {
      StepKeepsInv(s, steps[0]);
      FailedStep(s, steps[0], j);
      var t := Take(s, steps[0]);
      if t.jobs[j].state.Done? {
        DoneIsNotHeld(t, j);
        SettledStays(t, steps[1..], j);
      } else {
        FailedStaysSettled(t, steps[1..], j);
      }
    }
  }

  lemma FailedStep(s: State, step: Step, j: nat)
    requires Inv(s) && Enabled(s, step) && j < |s.jobs| && s.jobs[j].state.Failed?
    ensures j < |Take(s, step).jobs| && (Take(s, step).jobs[j].state.Failed? || Take(s, step).jobs[j].state.Done?)
  {
  }

  /** Whenever the sweep may settle a job under its worker, that worker's unguarded finish can then
      turn the 'failed', or the granted 'cancelled', into 'done'. */
  lemma SweptJobCanBecomeDone(s: State, w: nat)
    requires IsWorking(s, w) && Enabled(s, Sweep(s.workers[w].job))
    ensures var j, swept := s.workers[w].job, Take(s, Sweep(s.workers[w].job));
            && swept.jobs[j].state == (if s.jobs[j].state.CancelRequested? then Cancelled else Failed)
            && Enabled(swept, Finish(w, None)) && Take(swept, Finish(w, None)).jobs[j].state.Done?
  {
  }

  /** A job whose user cancelled it, swept after its worker was silent for 601 seconds. */
  function SweptCancel(now: int): State {
    var job := ClaimedRow(Job(Queued, now, None, None, 0, ""), now);
    State([job.(state := Cancelled)], [Working(0)], now + 601, [1])
  }

  lemma FiveSteps(now: int)
    ensures var s := State([], [Idle], now, []);
            && Enabled(s, Create) && Enabled(Take(s, Create), Claim(0, 0))
            && var claimed := Take(Take(s, Create), Claim(0, 0));
               && Enabled(claimed, UserCancel(0))
               && var asked := Take(Take(claimed, UserCancel(0)), Wait(601));
                  Enabled(asked, Sweep(0)) && Take(asked, Sweep(0)) == SweptCancel(now)
  {
  }

  lemma RunStep(s: State, step: Step, rest: seq<Step>, run: seq<Step>)
    requires Enabled(s, step) && ValidRun(Take(s, step), rest) && run == [step] + rest
    ensures ValidRun(s, run) && EndOf(s, run) == EndOf(Take(s, step), rest)
  {
    assert run[1..] == rest;
  }

  /** From a fresh table: a job is claimed, its user cancels, and the sweep finds it silent. */
  lemma SweptCancelIsReachable(now: int)
    ensures var s, steps := State([], [Idle], now, []), [Create, Claim(0, 0), UserCancel(0), Wait(601), Sweep(0)];
            ValidRun(s, steps) && EndOf(s, steps) == SweptCancel(now)
  {
    FiveSteps(now);
    var s := State([], [Idle], now, []);
    hide Take, Enabled, SweptCancel;
    var s1 := Take(s, Create);
    var s2 := Take(s1, Claim(0, 0));
    var s3 := Take(s2, UserCancel(0));
    WaitIsEnabled(s3, 601);
    var s4 := Take(s3, Wait(601));
    RunStep(s4, Sweep(0), [], [Sweep(0)]);
    RunStep(s3, Wait(601), [Sweep(0)], [Wait(601), Sweep(0)]);
    RunStep(s2, UserCancel(0), [Wait(601), Sweep(0)], [UserCancel(0), Wait(601), Sweep(0)]);
    RunStep(s1, Claim(0, 0), [UserCancel(0), Wait(601), Sweep(0)], [Claim(0, 0), UserCancel(0), Wait(601), Sweep(0)]);
    RunStep(s, Create, [Claim(0, 0), UserCancel(0), Wait(601), Sweep(0)], [Create, Claim(0, 0), UserCancel(0), Wait(601), Sweep(0)]);
  }

  lemma WaitIsEnabled(s: State, seconds: nat)
    ensures Enabled(s, Wait(seconds))
  {
  }

  /** The row is 'cancelled' and its worker still at work: the next beat does not stop it, and its finish
      makes the row 'done'. */
  lemma CancelledCanBecomeDone(now: int)
    ensures SweptCancel(now).jobs[0].state.Cancelled? && WorkedOn(SweptCancel(now), 0)
    ensures var s := SweptCancel(now);
            && Enabled(s, Beat(0, None)) && Enabled(Take(s, Beat(0, None)), Finish(0, None))
            && Take(Take(s, Beat(0, None)), Finish(0, None)).jobs[0].state.Done?
  {
    assert SweptCancel(now).workers[0] == Working(0);
  }

  // ---------------------------------------------------------------- workers that keep beating

  /** Every held job was heard from within the window. */
  predicate Prompt(s: State) {
    forall w :: 0 <= w < |s.workers| && !s.workers[w].Idle? && s.workers[w].job < |s.jobs| && InFlight(s.jobs[s.workers[w].job]) ==>
      IsFresh(s.jobs[s.workers[w].job], s.now)
  }

  predicate PromptRun(s: State, steps: seq<Step>)
    requires ValidRun(s, steps)
    decreases steps
  {
    Prompt(s) && (steps != [] ==> PromptRun(Take(s, steps[0]), steps[1..]))
  }

  predicate HeldAreInFlight(s: State) {
    forall w :: 0 <= w < |s.workers| && !s.workers[w].Idle? && s.workers[w].job < |s.jobs| ==> InFlight(s.jobs[s.workers[w].job])
  }

  lemma PromptStep(s: State, step: Step)
    requires Inv(s) && Enabled(s, step) && Prompt(s) && HeldAreInFlight(s)
    ensures HeldAreInFlight(Take(s, step))
  {
    if step.MarkCancelled? || step.Finish? || step.HandOff? {
      forall v | 0 <= v < |s.workers| && v != step.w && !s.workers[v].Idle? ensures s.workers[v].job != s.workers[step.w].job {
        HolderIsUnique(s, v, step.w);
      }
    }
  }

  /** While workers beat in time the sweep never settles a job under its worker. */
  lemma {:induction false} PromptWorkersAreNeverSwept(s: State, steps: seq<Step>)
    requires Inv(s) && ValidRun(s, steps) && PromptRun(s, steps) && HeldAreInFlight(s)
    ensures HeldAreInFlight(EndOf(s, steps))
    decreases steps
  {
    if steps != [] {
      StepKeepsInv(s, steps[0]);
      PromptStep(s, steps[0]);
      hide Inv, Enabled, Take, HeldAreInFlight, Prompt;
      PromptWorkersAreNeverSwept(Take(s, steps[0]), steps[1..]);
    }
  }

  /** So in a run from an empty table in which they do, every terminal state is final. */
  lemma PromptTerminalIsFinal(workers: nat, now: int, steps: seq<Step>, j: nat)
    requires var s := State([], seq(workers, _ => Idle), now, []);
             && ValidRun(s, steps) && PromptRun(s, steps)
             && j < |EndOf(s, steps).jobs| && IsTerminal(EndOf(s, steps).jobs[j].state)
    ensures IsFinal(EndOf(State([], seq(workers, _ => Idle), now, []), steps), j)
  {
    var s := State([], seq(workers, _ => Idle), now, []);
    var t := EndOf(s, steps);
    InvInitially(workers, now);
    RunKeepsInv(s, steps);
    PromptWorkersAreNeverSwept(s, steps);
    TerminalIsFinalIff(t, j);
  }

  // ---------------------------------------------------------------- the scratch sweep

  /** A directory under SCRATCH. `job` is None when the name's id part does not name a job. */
  datatype Dir = Dir(ours: bool, hasId: bool, parses: bool, job: nat)

  /** The SELECT of reclaim_abandoned_scratch. */
  predicate IsAlive(jobs: seq<Job>, j: nat, now: int) {
    j < |jobs| && InFlight(jobs[j]) && IsFresh(jobs[j], now)
  }

  predicate Abandoned(dir: Dir, jobs: seq<Job>, now: int) {
    dir.ours && dir.hasId && dir.parses && !IsAlive(jobs, dir.job, now)
  }

  /** `removable` says whether rmtree succeeds. Exactly the abandoned directories it can remove go. */
  method ReclaimAbandonedScratch(dirs: seq<Dir>, jobs: seq<Job>, now: int, removable: Dir -> bool)
    returns (left: seq<Dir>, removed: nat)
    ensures forall d :: d in left <==> d in dirs && !(Abandoned(d, jobs, now) && removable(d))
    ensures removed + |left| == |dirs|
  {
    left, removed := [], 0;
    for n := 0 to |dirs|
      invariant forall d :: d in left <==> d in dirs[..n] && !(Abandoned(d, jobs, now) && removable(d))
      invariant removed + |left| == n
    {
      var dir := dirs[n];
      assert dirs[..n + 1] == dirs[..n] + [dir];
      if !dir.ours || !dir.hasId || !dir.parses || IsAlive(jobs, dir.job, now) || !removable(dir) {
        left := left + [dir];
      } else {
        removed := removed + 1;
      }
    }
    assert dirs[..|dirs|] == dirs;
  }

  /** In every state of a prompt run, no sweep by any worker takes the directory of a job that some
      worker holds. */
  lemma HeldScratchSurvives(s: State, dir: Dir, w: nat)
    requires Inv(s) && Prompt(s) && HeldAreInFlight(s)
    requires w < |s.workers| && Holds(s.workers[w], dir.job)
    ensures !Abandoned(dir, s.jobs, s.now)
  {
  }
}
