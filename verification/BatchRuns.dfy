/** Passes of the batch scheduler inside runs of the whole job system: what BatchProgress asks of the rows
    between two passes holds in every run with one tick at a time and no early retries. */
module BatchRuns {
  import opened Wrappers
  import opened JobModel
  import opened JobSystem
  import G = GeminiBatch
  import C = CodeSteps
  import P = BatchProgress
  import T = BatchTermination

  /** Clocks do not run back, and batches have names. */
  ghost predicate Orderly(events: seq<Event>) {
    && (forall i, k :: 0 <= i < k < |events| ==> events[i].at <= events[k].at)
    && (forall i :: 0 <= i < |events| ==> Named(events[i].step))
  }

  ghost predicate Named(step: Step) {
    step.Batching? && step.batching.SubmitAnswers? ==>
      forall j :: j in step.batching.names ==> step.batching.names[j] != ""
  }

  predicate NotWaitingYet(job: Job) {
    job.status == JobStatus.Pending ==> !WaitingStage(job.stage)
  }

  /** A row that a step has just put into a waiting stage. */
  predicate Entered(job: Job, now: Time) {
    job.stageAt == Some(now) && (job.stage == Some(Submitted) ==> job.batchName.Some? && job.batchName.value != "")
  }

  // ---- one step, one row ----

  lemma WorkRow(db: Db, worker: Worker, step: WorkerStep, now: Time, j: JobId)
    requires CanWork(db, worker, step) && j in db.jobs
    ensures j in WorkDb(db, worker, step, now).jobs
    ensures var job := WorkDb(db, worker, step, now).jobs[j];
      Waiting(job) ==> job == db.jobs[j] || (job.stage == Some(Prepared) && job.stageAt == Some(now))
  {
    hide RecomputeDocument, RecomputeBatch;
  }

  lemma TickRow(db: Db, tick: Tick, step: TickStep, now: Time, j: JobId)
    requires CanTick(db, tick, step) && j in db.jobs
    requires step.SubmitAnswers? ==> forall k :: k in step.names ==> step.names[k] != ""
    ensures j in TickDb(db, tick, step, now).jobs
    ensures var job := TickDb(db, tick, step, now).jobs[j]; Waiting(job) ==> job == db.jobs[j] || Entered(job, now)
  {
    hide RecomputeDocument, RecomputeBatch;
  }

  lemma DeliverRow(db: Db, k: JobId, now: Time, j: JobId)
    requires k in db.jobs && (j in db.jobs ==> NotWaitingYet(db.jobs[j]))
    requires db.jobs[k].status == JobStatus.Pending
    ensures var jobs := StartJob(db, k, now).jobs;
      j in jobs && Waiting(jobs[j]) ==> j in db.jobs && jobs[j] == db.jobs[j]
  {
  }

  lemma RequestRow(s: System, e: Event, j: JobId)
    requires Can(s, e.step) && !e.step.Work? && !e.step.Batching?
    requires j in s.db.jobs ==> NotWaitingYet(s.db.jobs[j])
    ensures var jobs := NextDb(s, e.step, e.at).jobs;
      j in jobs && Waiting(jobs[j]) ==> j in s.db.jobs && jobs[j] == s.db.jobs[j]
  {
    hide RecomputeDocument, RecomputeBatch, RecomputeDocuments, RecomputeForJobs, WorkDb, TickDb, WriteAndRecompute,
      HasJobs, StartJob, NotWaitingYet, CanWork, CanTick;
    match e.step
    case Deliver(w, k) =>
      if k in s.db.jobs && s.db.jobs[k].status == JobStatus.Pending {
        DeliverRow(s.db, k, e.at, j);
      }
    case RetrySubmitRaised(k) =>
      WritesOneRow(s.db, k, MarkFailed(s.db.jobs[k], "INTERNAL_PROCESSING_ERROR", e.at), e.at);
    case Retry(k) => WritesOneRow(s.db, k, MarkPendingForRetry(s.db.jobs[k]), e.at);
    case Upload(d, b, ids) => hide InterruptedJobs, StaleJobs, ActiveJobs, Lists;
    case _ =>
  }

  /** A row that waits after a step waited before it as it is, or has just been prepared, claimed or
      submitted; outside the ticks only the first two can be. */
  lemma StepRow(s: System, e: Event, j: JobId)
    requires Can(s, e.step) && Named(e.step) && (j in s.db.jobs ==> NotWaitingYet(s.db.jobs[j]))
    requires j in Next(s, e).db.jobs && Waiting(Next(s, e).db.jobs[j])
    ensures j in s.db.jobs
    ensures Next(s, e).db.jobs[j] == s.db.jobs[j] || Entered(Next(s, e).db.jobs[j], e.at)
    ensures !e.step.Batching? ==>
              Next(s, e).db.jobs[j] == s.db.jobs[j] || Next(s, e).db.jobs[j].stage == Some(Prepared)
  {
    hide WorkDb, TickDb, CanWork, CanTick, NextWorkers, NextTicks, NextEpochs, NextRetrying;
    match e.step
    case Work(w, work) =>
      StepKeepsRows(s, e);
      WorkRow(s.db, s.workers[w], work, e.at, j);
    case Batching(t, batching) =>
      StepKeepsRows(s, e);
      TickRow(s.db, s.ticks[t], batching, e.at, j);
    case _ =>
      RequestRow(s, e, j);
  }

  // ---- over runs ----

  ghost predicate RowsReached(jobs: map<JobId, Job>, now: Option<Time>) {
    forall j :: j in jobs && Waiting(jobs[j]) ==>
      P.RowSound(jobs[j]) && now.Some? && jobs[j].stageAt.value <= now.value
  }

  function LastTime(events: seq<Event>, k: nat): Option<Time>
    requires k <= |events|
  {
    if k == 0 then None else Some(events[k - 1].at)
  }

  lemma NotWaitingInRuns(run: seq<System>, events: seq<Event>, k: nat)
    requires IsRun(run, events) && Init(run[0]) && T.Disciplined(run, events) && k < |run|
    ensures forall j :: j in run[k].db.jobs ==> NotWaitingYet(run[k].db.jobs[j])
  {
    hide Next, Can;
    T.OrderOverRuns(run, events, k);
    forall j | j in run[k].db.jobs ensures NotWaitingYet(run[k].db.jobs[j]) {
      assert T.Steady(run[k], j);
    }
  }

  /** Every waiting row has the time it entered its stage, no later than the last step, and a SUBMITTED
      one the name of its batch. */
  lemma {:induction false} RowsOverRuns(run: seq<System>, events: seq<Event>, k: nat)
    requires IsRun(run, events) && Init(run[0]) && T.Disciplined(run, events) && Orderly(events) && k < |run|
    ensures RowsReached(run[k].db.jobs, LastTime(events, k))
  {
    hide Next, Can, T.Disciplined, Named, NotWaitingYet;
    if k > 0 {
      RowsOverRuns(run, events, k - 1);
      NotWaitingInRuns(run, events, k - 1);
      var s, e := run[k - 1], events[k - 1];
      forall j | j in run[k].db.jobs && Waiting(run[k].db.jobs[j])
        ensures P.RowSound(run[k].db.jobs[j]) && run[k].db.jobs[j].stageAt.value <= e.at
      {
        StepRow(s, e, j);
      }
    }
  }

  /** A pass that went from one point of a run to another, what it was answered, and whether it ran to its
      end. */
  datatype PassAt = PassAt(start: nat, end: nat, round: P.Round, complete: bool)

  /** There are such passes: from any point of a run where a tick is idle, its own steps make one, for
      every choice and every answer. */
  lemma PassIsRun(run: seq<System>, events: seq<Event>, t: nat, round: P.Round, limits: P.Limits)
    returns (run': seq<System>, events': seq<Event>)
    requires |run| == |events| + 1 && C.Stands(run, events, t, Idle, run[|events|].db.jobs)
    requires P.Advances(round.clock) && P.Answers(round.commands)
    requires round.enabled ==>
      G.OldestFirst(G.Recovered(run[|events|].db.jobs, round.clock), round.chosen, limits.maxJobs)
    ensures |run'| == |events'| + 1 && C.Stands(run', events', t, Idle, run'[|events'|].db.jobs)
    ensures run <= run' && events <= events'
    ensures C.Only(events', |events|, t, round.clock.recovering, round.clock.collecting)
    ensures P.Ticks(run[|events|].db.jobs, run'[|events'|].db.jobs, round, limits)
  {
    hide C.Only, G.OldestFirst, G.Recovered, G.AfterTick;
    run', events' := C.TickIsRun(run, events, t, P.SettingsOf(round, limits), round.chosen, round.commands, round.clock);
  }

  lemma CutPassIsRun(run: seq<System>, events: seq<Event>, t: nat, round: P.Round, limits: P.Limits,
                     after: map<JobId, Job>)
    returns (run': seq<System>, events': seq<Event>)
    requires |run| == |events| + 1 && C.Stands(run, events, t, Idle, run[|events|].db.jobs)
    requires P.Cut(run[|events|].db.jobs, after, round, limits)
    ensures |run'| == |events'| + 1 && IsRun(run', events') && run'[|events'|].db.jobs == after
    ensures run <= run' && events <= events'
    ensures C.Only(events', |events|, t, round.clock.recovering, round.clock.collecting)
  {
    hide C.Only, C.Stands, IsRun, G.EndedEarly;
    run', events' :=
      C.CutShortIsRun(run, events, t, P.SettingsOf(round, limits), round.chosen, round.commands, round.clock, after);
  }

  ghost predicate OutsideTicks(events: seq<Event>, start: nat, end: nat, after: Time)
    requires end <= |events|
  {
    forall i :: start <= i < end ==> !events[i].step.Batching? && after < events[i].at
  }

  function RowsAt(run: seq<System>, pass: PassAt): P.Pass
    requires pass.start <= pass.end < |run|
  {
    P.Pass(run[pass.start].db.jobs, pass.round, run[pass.end].db.jobs, pass.complete)
  }

  /** Passes, one after the other: each does to the rows what GeminiBatch.Tick does, and between two of them
      everything else may go on. */
  ghost predicate Passes(run: seq<System>, events: seq<Event>, passes: seq<PassAt>, limits: P.Limits)
    requires |run| == |events| + 1
  {
    && (forall i :: 0 <= i < |passes| ==>
          && passes[i].start <= passes[i].end < |run|
          && P.Happens(RowsAt(run, passes[i]), limits)
          && forall now :: LastTime(events, passes[i].start) == Some(now) ==> now <= passes[i].round.clock.recovering)
    && (forall i :: 0 < i < |passes| ==>
          && passes[i - 1].end <= passes[i].start
          && passes[i - 1].round.clock.collecting < passes[i].round.clock.recovering
          && OutsideTicks(events, passes[i - 1].end, passes[i].start, passes[i - 1].round.clock.collecting))
  }

  ghost function RowsOf(run: seq<System>, passes: seq<PassAt>): seq<P.Pass>
    requires forall i :: 0 <= i < |passes| ==> passes[i].start <= passes[i].end < |run|
  {
    seq(|passes|, i requires 0 <= i < |passes| => RowsAt(run, passes[i]))
  }

  lemma {:induction false} BetweenPasses(run: seq<System>, events: seq<Event>, start: nat, end: nat, tickEnd: Time)
    requires IsRun(run, events) && Init(run[0]) && T.Disciplined(run, events) && Orderly(events)
    requires start <= end < |run| && OutsideTicks(events, start, end, tickEnd)
    ensures P.Between(run[start].db.jobs, run[end].db.jobs, tickEnd)
    decreases end
  {
    hide Next, Can, T.Disciplined, Named, NotWaitingYet;
    if start < end {
      BetweenPasses(run, events, start, end - 1, tickEnd);
      NotWaitingInRuns(run, events, end - 1);
      forall j | j in run[end].db.jobs && Waiting(run[end].db.jobs[j])
        ensures var job := run[end].db.jobs[j];
          || (j in run[start].db.jobs && job == run[start].db.jobs[j])
          || (job.stage == Some(Prepared) && job.stageAt.Some? && tickEnd < job.stageAt.value)
      {
        StepRow(run[end - 1], events[end - 1], j);
      }
    }
  }

  /** The passes of a run are passes as BatchProgress takes them. */
  lemma AreBatchRun(run: seq<System>, events: seq<Event>, passes: seq<PassAt>, limits: P.Limits)
    requires |run| == |events| + 1 && IsRun(run, events) && Init(run[0]) && T.Disciplined(run, events) && Orderly(events)
    requires Passes(run, events, passes, limits)
    ensures P.IsBatchRun(RowsOf(run, passes), limits)
  {
    hide IsRun, Init, T.Disciplined, Orderly, P.Happens, P.Between, P.Sound, P.AllReached, OutsideTicks, LastTime;
    var rows := RowsOf(run, passes);
    forall i | 0 <= i < |passes|
      ensures P.Sound(rows[i].before) && P.AllReached(rows[i].before, rows[i].round.clock.recovering)
    {
      RowsOverRuns(run, events, passes[i].start);
      SoundAndReached(run[passes[i].start].db.jobs, LastTime(events, passes[i].start), passes[i].round.clock.recovering);
    }
    forall i | 0 < i < |passes|
      ensures P.Between(rows[i - 1].after, rows[i].before, rows[i - 1].round.clock.collecting)
    {
      BetweenPasses(run, events, passes[i - 1].end, passes[i].start, passes[i - 1].round.clock.collecting);
    }
  }

  lemma SoundAndReached(jobs: map<JobId, Job>, last: Option<Time>, now: Time)
    requires RowsReached(jobs, last) && (last.Some? ==> last.value <= now)
    ensures P.Sound(jobs) && P.AllReached(jobs, now)
  {
  }

  /** Progress in runs: a job that nothing but the passes touches stays in the waiting stages for at most
      as many complete passes as BatchProgress.LeavesBatchMode says, whatever passes are cut short. */
  lemma LeavesBatchMode(run: seq<System>, events: seq<Event>, passes: seq<PassAt>, limits: P.Limits, j: JobId,
                        start: nat, end: nat)
    requires |run| == |events| + 1 && IsRun(run, events) && Init(run[0]) && T.Disciplined(run, events) && Orderly(events)
    requires Passes(run, events, passes, limits) && limits.maxJobs > 0
    requires start < end <= |passes| && P.KeepsWaiting(RowsOf(run, passes), j, start, end)
    ensures var jobs, n := run[passes[start].start].db.jobs, P.Completed(RowsOf(run, passes), start, end);
      && j in jobs && Waiting(jobs[j])
      && if jobs[j].stage == Some(Prepared)
         then n <= |P.Ahead(jobs, j)| / limits.maxJobs + 1 + P.Larger(G.STUCK_STEP_AFTER, limits.fallbackAfter)
         else && jobs[j].stageAt.Some?
              && (n > 0 ==>
                    n <= jobs[j].stageAt.value + 1 - passes[start].round.clock.recovering
                         + (if jobs[j].stage == Some(Submitted) then limits.fallbackAfter else G.STUCK_STEP_AFTER))
  {
    hide IsRun, Init, T.Disciplined, Orderly, P.Happens, P.Completed, OutsideTicks, P.IsBatchRun, P.Ahead, P.KeepsWaiting;
    AreBatchRun(run, events, passes, limits);
    P.LeavesBatchMode(RowsOf(run, passes), limits, j, start, end);
    assert P.KeepsWaiting(RowsOf(run, passes), j, start, end);
    WaitsFirst(RowsOf(run, passes), j, start, end);
  }

  lemma WaitsFirst(rows: seq<P.Pass>, j: JobId, start: nat, end: nat)
    requires start < end <= |rows| && P.KeepsWaiting(rows, j, start, end)
    ensures j in rows[start].before && Waiting(rows[start].before[j])
  {
  }
}
