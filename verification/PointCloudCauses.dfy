/**
 Why a job row is in the state it is in, and what its columns then say (tools/pointcloud-worker/runner.py:22-47,
 427-455, 619-688, 1650-1669 and apps/portal-api/src/analysis/analysis-bridge.worker.ts:97-335).
 */
module PointCloudCauses {
  import opened Prelude
  import opened PointCloudJobs

  predicate WorksOn(s: State, w: nat, j: nat) {
    w < |s.workers| && s.workers[w] == Working(j)
  }

  /** The steps that report success on a job. */
  predicate Succeeds(s: State, step: Step, j: nat) {
    (step.Finish? && step.error.None? && WorksOn(s, step.w, j)) || step == BridgeSettles(j, true)
  }

  /** The steps that report that a job failed. */
  predicate Fails(s: State, step: Step, j: nat) {
    || (step.Finish? && step.error.Some? && WorksOn(s, step.w, j))
    || (step == Sweep(j) && j < |s.jobs| && !s.jobs[j].state.CancelRequested?)
    || step == BridgeSettles(j, false)
  }

  predicate Cancels(s: State, step: Step, j: nat) {
    j < |s.jobs| &&
    ((step == UserCancel(j) && s.jobs[j].state.Queued?)
     || (step.MarkCancelled? && step.w < |s.workers| && s.workers[step.w] == Stopping(j) && s.jobs[j].state in {Running, CancelRequested})
     || (step == Sweep(j) && s.jobs[j].state.CancelRequested?))
  }

  predicate Enters(s: State, step: Step, j: nat, state: JobState)
    requires Enabled(s, step)
  {
    j < |Take(s, step).jobs| && Take(s, step).jobs[j].state == state && (j < |s.jobs| ==> s.jobs[j].state != state)
  }

  lemma DoneHasCause(s: State, step: Step, j: nat)
    requires Inv(s) && Enabled(s, step) && j < |s.jobs|
    ensures Enters(s, step, j, Done) <==> Succeeds(s, step, j)
  {
    if step.Finish? {
      HeldRowIsNotDone(s, step.w);
    }
    hide Inv;
  }

  lemma FailureHasCause(s: State, step: Step, j: nat)
    requires Enabled(s, step) && j < |s.jobs|
    ensures Enters(s, step, j, Failed) <==> Fails(s, step, j) && !s.jobs[j].state.Failed?
  {
  }

  lemma CancellationHasCause(s: State, step: Step, j: nat)
    requires Enabled(s, step) && j < |s.jobs|
    ensures Enters(s, step, j, Cancelled) <==> Cancels(s, step, j)
  {
  }

  /** Which step moves a row into a state in which it is settled: each has its causes, and each cause its effect. */
  lemma SettledStatesHaveCauses(s: State, step: Step, j: nat)
    requires Inv(s) && Enabled(s, step) && j < |s.jobs|
    ensures Enters(s, step, j, Done) <==> Succeeds(s, step, j)
    ensures Enters(s, step, j, Failed) <==> Fails(s, step, j) && !s.jobs[j].state.Failed?
    ensures Enters(s, step, j, Cancelled) <==> Cancels(s, step, j)
  {
    hide *;
    DoneHasCause(s, step, j);
    FailureHasCause(s, step, j);
    CancellationHasCause(s, step, j);
  }

  lemma HeldRowIsNotDone(s: State, w: nat)
    requires Inv(s) && IsWorking(s, w)
    ensures s.jobs[s.workers[w].job].state !in {Done, Queued}
  {
    assert IsHeld(s, s.workers[w].job);
  }

  /** And into the others. */
  lemma LiveStatesHaveCauses(s: State, step: Step, j: nat)
    requires Enabled(s, step) && j < |s.jobs|
    ensures Enters(s, step, j, Running) <==> step.Claim? && step.j == j
    ensures Enters(s, step, j, CancelRequested) <==> step == UserCancel(j) && s.jobs[j].state.Running?
    ensures Enters(s, step, j, Ingest) <==> step.HandOff? && WorksOn(s, step.w, j) && s.jobs[j].state.Running?
    ensures Enters(s, step, j, Importing) <==> step == BridgeTakes(j)
    ensures !Enters(s, step, j, Queued)
  {
    hide *;
    RunningHasCause(s, step, j);
    IngestHasCause(s, step, j);
  }

  lemma RunningHasCause(s: State, step: Step, j: nat)
    requires Enabled(s, step) && j < |s.jobs|
    ensures Enters(s, step, j, Running) <==> step.Claim? && step.j == j
    ensures Enters(s, step, j, CancelRequested) <==> step == UserCancel(j) && s.jobs[j].state.Running?
  {
  }

  lemma IngestHasCause(s: State, step: Step, j: nat)
    requires Enabled(s, step) && j < |s.jobs|
    ensures Enters(s, step, j, Ingest) <==> step.HandOff? && WorksOn(s, step.w, j) && s.jobs[j].state.Running?
    ensures Enters(s, step, j, Importing) <==> step == BridgeTakes(j)
    ensures !Enters(s, step, j, Queued)
  {
  }

  /** A new row waits. */
  lemma NewRowsWait(s: State)
    ensures var t := Take(s, Create);
            |t.jobs| == |s.jobs| + 1 && t.jobs[..|s.jobs|] == s.jobs
            && t.jobs[|s.jobs|] == Job(Queued, s.now, None, None, 0, "")
  {
  }

  /** The first 2000 characters. */
  predicate IsExcerpt(stored: string, message: string) {
    if |message| <= 2000 then stored == message else |stored| == 2000 && stored <= message
  }

  /** What the steps of the worker that holds a job write. */
  lemma WorkerWrites(s: State, w: nat, j: nat, pct: Option<nat>, message: string)
    requires WorksOn(s, w, j) && j < |s.jobs|
    ensures var done, job := Take(s, Finish(w, None)).jobs[j], s.jobs[j];
            done == Job(Done, job.created, job.started, job.heartbeat, 100, job.error)
    ensures var failed, job := Take(s, Finish(w, Some(message))).jobs[j], s.jobs[j];
            && failed.state.Failed? && IsExcerpt(failed.error, message)
            && failed == Job(Failed, job.created, job.started, job.heartbeat, job.progress, failed.error)
    ensures var beaten, job := Take(s, Beat(w, pct)).jobs[j], s.jobs[j];
            && beaten.heartbeat == Some(s.now) && (pct.Some? ==> beaten.progress == pct.value) && (pct.None? ==> beaten.progress == job.progress)
            && beaten == Job(job.state, job.created, job.started, beaten.heartbeat, beaten.progress, job.error)
    ensures s.jobs[j].state.Running? ==>
              var job := s.jobs[j];
              Take(s, HandOff(w)).jobs[j] == Job(Ingest, job.created, job.started, job.heartbeat, 80, job.error)
    ensures !s.jobs[j].state.Running? ==> Take(s, HandOff(w)).jobs[j] == s.jobs[j]
  {
  }

  /** What the steps of others write. */
  lemma OthersWrite(s: State, w: nat, j: nat)
    requires j < |s.jobs|
    ensures Enabled(s, Claim(w, j)) ==>
              var job, claimed := s.jobs[j], Take(s, Claim(w, j)).jobs[j];
              claimed == Job(Running, job.created, Some(s.now), Some(s.now), 1, job.error) && Take(s, Claim(w, j)).workers[w] == Working(j)
    ensures Enabled(s, Sweep(j)) ==>
              var job, swept := s.jobs[j], Take(s, Sweep(j)).jobs[j];
              swept == if job.state.CancelRequested? then job.(state := Cancelled) else job.(state := Failed, error := "worker stopped responding")
    ensures Enabled(s, BridgeTakes(j)) ==> Take(s, BridgeTakes(j)).jobs[j] == s.jobs[j].(state := Importing)
    ensures Enabled(s, UserCancel(j)) && s.jobs[j].state !in {Queued, Running} ==> Take(s, UserCancel(j)).jobs[j] == s.jobs[j]
  {
  }

  /** The sweep may take a row exactly when it is in flight and its last sign of life, its last beat, else its
      start, else its creation, is more than ten minutes old. */
  lemma SweptIff(s: State, j: nat)
    ensures Enabled(s, Sweep(j)) <==>
            && j < |s.jobs| && s.jobs[j].state in {Running, CancelRequested}
            && (match s.jobs[j].heartbeat
                case Some(beat) => s.now - beat > 600
                case None => s.now - (if s.jobs[j].started.Some? then s.jobs[j].started.value else s.jobs[j].created) > 600)
  {
  }

  /** A worker whose job was asked to stop notices at its next beat, and lets go of the job when it marks it. */
  lemma WorkersFollow(s: State, w: nat, j: nat, pct: Option<nat>, error: Option<string>)
    requires w < |s.workers| && j < |s.jobs|
    ensures s.workers[w] == Working(j) ==>
              && Take(s, Beat(w, pct)).workers[w] == (if s.jobs[j].state.CancelRequested? then Stopping(j) else Working(j))
              && Take(s, HandOff(w)).workers[w] == (if s.jobs[j].state.Running? then Idle else Stopping(j))
              && Take(s, Finish(w, error)).workers[w].Idle?
    ensures s.workers[w] == Stopping(j) ==> Take(s, MarkCancelled(w)).workers[w].Idle?
    ensures Take(s, Crash(w)).workers[w].Idle? && Take(s, Crash(w)).jobs == s.jobs
  {
  }

  // ---------------------------------------------------------------- over runs

  ghost predicate Succeeded(s: State, steps: seq<Step>, j: nat)
    requires ValidRun(s, steps)
    decreases steps
  {
    steps != [] && (Succeeds(s, steps[0], j) || Succeeded(Take(s, steps[0]), steps[1..], j))
  }

  ghost predicate HadFailed(s: State, steps: seq<Step>, j: nat)
    requires ValidRun(s, steps)
    decreases steps
  {
    steps != [] && (Fails(s, steps[0], j) || HadFailed(Take(s, steps[0]), steps[1..], j))
  }

  predicate IsNow(s: State, j: nat, state: JobState) {
    j < |s.jobs| && s.jobs[j].state == state
  }

  lemma {:induction false} ReachedByCause(s: State, steps: seq<Step>, j: nat)
    requires Inv(s) && ValidRun(s, steps)
    ensures IsNow(EndOf(s, steps), j, Done) && !IsNow(s, j, Done) ==> Succeeded(s, steps, j)
    ensures IsNow(EndOf(s, steps), j, Failed) && !IsNow(s, j, Failed) ==> HadFailed(s, steps, j)
    decreases steps
  {
    if steps != [] {
      var t := Take(s, steps[0]);
      StepKeepsInv(s, steps[0]);
      ReachedByCause(t, steps[1..], j);
      if j < |s.jobs| {
        SettledStatesHaveCauses(s, steps[0], j);
      } else if j < |t.jobs| {
        NewRowsAreQueued(s, steps[0], j);
      }
      hide Inv, Succeeds, Fails;
    }
  }

  lemma NewRowsAreQueued(s: State, step: Step, j: nat)
    requires Enabled(s, step) && j >= |s.jobs| && j < |Take(s, step).jobs|
    ensures Take(s, step).jobs[j].state.Queued?
  {
  }

  /** Whatever workers, users, sweep and bridge do from an empty table: a done row had a successful finish or
      settlement, and a failed one a finish with an error, a sweep or a failed settlement. */
  lemma SettledRowsWereSettled(workers: nat, now: int, steps: seq<Step>, j: nat)
    requires ValidRun(State([], seq(workers, _ => Idle), now, []), steps)
    ensures var s := State([], seq(workers, _ => Idle), now, []);
            && (IsNow(EndOf(s, steps), j, Done) ==> Succeeded(s, steps, j))
            && (IsNow(EndOf(s, steps), j, Failed) ==> HadFailed(s, steps, j))
  {
    InvInitially(workers, now);
    ReachedByCause(State([], seq(workers, _ => Idle), now, []), steps, j);
  }

  /** A worker's scratch is spared for ten minutes after the last sign of life. */
  lemma FreshMeans(job: Job, now: int)
    ensures IsFresh(job, now) <==>
            match job.heartbeat
            case Some(beat) => now < beat + 600
            case None => now < (if job.started.Some? then job.started.value else job.created) + 600
  {
  }
}
