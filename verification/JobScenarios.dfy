/** Short runs that show what the completion, claim and termination theorems need: a submit that does
    not raise behind a task it delivered, ticks that do not overlap, and no retry of a job that a worker is
    still preparing or a tick is still submitting. */
module JobScenarios {
  import opened Wrappers
  import opened JobModel
  import opened JobSystem
  import BatchTermination

  ghost predicate Reaches(run: seq<System>, events: seq<Event>) {
    |run| == |events| + 1 && IsRun(run, events) && Init(run[0])
  }

  /** No retry, and no submit that raises. */
  ghost predicate Quiet(events: seq<Event>) {
    forall i :: 0 <= i < |events| ==> Calm(events[i].step)
  }

  predicate Calm(step: Step) {
    !step.Retry? && !step.RetrySubmitRaised? && !step.SubmitRaised?
  }

  /** Job 0 is the only row, and this is how the row, the workers and the ticks stand. */
  ghost predicate At(s: System, status: JobStatus, stage: Option<Stage>, workers: map<nat, Worker>, ticks: map<nat, Tick>) {
    && s.db.jobs.Keys == {0} && s.db.jobs[0].status == status && s.db.jobs[0].stage == stage
    && s.db.jobs[0].batch == Some(0)
    && s.workers == workers && s.ticks == ticks
  }

  /** Where each move takes a row. */
  predicate LeadsTo(move: Move, a: Job, status: JobStatus, stage: Option<Stage>) {
    match move
    case Keep => status == a.status && stage == a.stage
    case Start => status == JobStatus.Processing && stage == a.stage
    case SavePrepared => status == a.status && stage == Some(Prepared)
    case Claim(_, target) => status == a.status && stage == Some(target)
    case SaveSubmitted => status == a.status && stage == Some(Submitted)
    case GoLive => a.status == JobStatus.Processing && status == JobStatus.Pending && stage == Some(Sync)
    case Stop => status == JobStatus.Cancelled && stage == a.stage
    case Again => status == JobStatus.Pending && stage == None
    case Done => status == JobStatus.Completed && stage == a.stage
    case Fail => status == JobStatus.Failed && stage == a.stage
    case Overwrite => status == JobStatus.Failed && stage == a.stage
  }

  lemma Arrives(move: Move, a: Job, b: Job, status: JobStatus, stage: Option<Stage>)
    requires Moves(move, a, b) && LeadsTo(move, a, status, stage)
    ensures b.status == status && b.stage == stage && b.batch == a.batch
  {
  }

  /** One more step, at time 0. */
  lemma Then(run: seq<System>, events: seq<Event>, step: Step, status: JobStatus, stage: Option<Stage>)
    returns (run': seq<System>, events': seq<Event>)
    requires Reaches(run, events) && |run| == |events| + 1
    requires run[|events|].db.jobs.Keys == {0} && run[|events|].db.jobs[0].batch == Some(0)
    requires Can(run[|events|], step) && !step.Upload?
    requires LeadsTo(MoveOf(run[|events|], step, 0), run[|events|].db.jobs[0], status, stage)
    ensures Reaches(run', events') && |run'| == |events'| + 1 && |events'| == |events| + 1 && run <= run'
    ensures events' == events + [Event(0, step)]
    ensures Quiet(events) && Calm(step) ==> Quiet(events')
    ensures At(run'[|events'|], status, stage, NextWorkers(run[|events|], step), NextTicks(run[|events|], step))
    ensures run'[|events'|].epochs == NextEpochs(run[|events|], step)
    ensures run'[|events'|].retrying == NextRetrying(run[|events|], step)
    ensures run'[|events'|].db.imports[0]
         == run[|events|].db.imports[0] + if MoveOf(run[|events|], step, 0) == Done then 1 else 0
  {
    hide NextDb, NextWorkers, NextTicks, NextEpochs, NextRetrying, MoveOf, Can, Moves;
    var s, e := run[|events|], Event(0, step);
    StepMoves(s, e, 0);
    StepKeepsRows(s, e);
    Arrives(MoveOf(s, step, 0), s.db.jobs[0], Next(s, e).db.jobs[0], status, stage);
    run', events' := run + [Next(s, e)], events + [e];
  }

  /** Job 0 of document 0 of batch 0 has just been uploaded. */
  lemma UploadedJob() returns (run: seq<System>, events: seq<Event>)
    ensures Reaches(run, events) && |run| == |events| + 1 && Quiet(events)
    ensures At(run[|events|], JobStatus.Pending, None, map[], map[]) && run[|events|].retrying == multiset{}
    ensures run[|events|].epochs == map[0 := Epoch(0, 0, 0, 0)] && run[|events|].db.imports[0] == 0
  {
    var s0 := System(Db(map[], map[], map[], multiset{}), map[], map[], map[], multiset{});
    var e0 := Event(0, Upload(0, 0, {0}));
    assert StatusesOf(s0.db.jobs, 0) == {} && 0 in e0.step.ids;
    hide StatusesOf, NewJob;
    var s1 := Next(s0, e0);
    assert s1.db.jobs == map[0 := NewJob(0, 0)];
    NewRow();
    run, events := [s0, s1], [e0];
  }

  lemma NewRow()
    ensures NewJob(0, 0).status == JobStatus.Pending && NewJob(0, 0).stage == None && NewJob(0, 0).batch == Some(0)
  {
  }

  /** Worker 0 has claimed it. */
  lemma StartedJob() returns (run: seq<System>, events: seq<Event>)
    ensures Reaches(run, events) && |run| == |events| + 1 && Quiet(events)
    ensures At(run[|events|], JobStatus.Processing, None, map[0 := Running(0, None)], map[])
    ensures run[|events|].retrying == multiset{}
    ensures run[|events|].epochs == map[0 := Epoch(0, 0, 0, 0)] && run[|events|].db.imports[0] == 0
  {
    hide NextDb, Reaches, Quiet;
    run, events := UploadedJob();
    run, events := Then(run, events, Deliver(0, 0), JobStatus.Processing, None);
    assert run[|events|].workers == map[0 := Started(0, None)] && run[|events|].epochs == map[0 := Epoch(0, 0, 0, 0)];
    run, events := Then(run, events, Work(0, RecomputeStarted), JobStatus.Processing, None);
    assert run[|events|].workers == map[0 := Running(0, None)] && run[|events|].ticks == map[];
  }

  // ---- a submit that raises although it delivered its task ----

  /** The first run failed and the job has been retried; the retry's submit has not returned yet. */
  lemma RetryingJob() returns (run: seq<System>, events: seq<Event>)
    ensures Reaches(run, events) && |run| == |events| + 1
    ensures At(run[|events|], JobStatus.Pending, None, map[], map[])
    ensures run[|events|].retrying == multiset{0} && run[|events|].db.imports[0] == 0
  {
    hide NextDb, NextEpochs, Reaches, Quiet;
    run, events := StartedJob();
    assert run[|events|].retrying == multiset{};
    run, events := Then(run, events, Work(0, FailRun("OCR_PROCESS_TIMEOUT")), JobStatus.Failed, None);
    assert run[|events|].workers == map[] && run[|events|].ticks == map[];
    run, events := Then(run, events, Retry(0), JobStatus.Pending, None);
  }

  lemma RetriedAndStarted() returns (run: seq<System>, events: seq<Event>)
    ensures Reaches(run, events) && |run| == |events| + 1
    ensures At(run[|events|], JobStatus.Processing, None, map[1 := Running(0, None)], map[])
    ensures run[|events|].retrying == multiset{0} && run[|events|].db.imports[0] == 0
  {
    hide NextDb, NextEpochs, Reaches, Quiet;
    run, events := RetryingJob();
    run, events := Then(run, events, Deliver(1, 0), JobStatus.Processing, None);
    assert run[|events|].workers == map[1 := Started(0, None)] && run[|events|].ticks == map[];
    run, events := Then(run, events, Work(1, RecomputeStarted), JobStatus.Processing, None);
    assert run[|events|].workers == map[1 := Running(0, None)] && run[|events|].ticks == map[];
  }

  /** The retry's submit raises after a worker has taken the job and completed it: the write that
      answers it marks the COMPLETED job FAILED, its records imported. */
  lemma CompletionOverwritten() returns (run: seq<System>, events: seq<Event>)
    ensures Reaches(run, events) && |run| == |events| + 1 > 1
    ensures var s, s' := run[|events| - 1], run[|events|];
      && 0 in s.db.jobs && s.db.jobs[0].status == JobStatus.Completed
      && 0 in s'.db.jobs && s'.db.jobs[0].status == JobStatus.Failed && s'.db.imports[0] == 1
  {
    hide NextDb, NextEpochs, Reaches, Quiet;
    run, events := RetriedAndStarted();
    run, events := Then(run, events, Work(1, Complete("result.xlsx")), JobStatus.Completed, None);
    run, events := Then(run, events, RetrySubmitRaised(0), JobStatus.Failed, None);
  }

  // ---- overlapping ticks ----

  lemma PreparedJob() returns (run: seq<System>, events: seq<Event>)
    ensures Reaches(run, events) && |run| == |events| + 1 && Quiet(events)
    ensures At(run[|events|], JobStatus.Processing, Some(Prepared), map[], map[])
    ensures run[|events|].epochs == map[0 := Epoch(1, 0, 0, 0)]
  {
    hide NextDb, Reaches, Quiet;
    run, events := StartedJob();
    run, events := Then(run, events, Work(0, Prepare), JobStatus.Processing, Some(Prepared));
    assert run[|events|].workers == map[] && run[|events|].ticks == map[];
  }

  lemma SubmittingJob() returns (run: seq<System>, events: seq<Event>)
    ensures Reaches(run, events) && |run| == |events| + 1 && Quiet(events)
    ensures At(run[|events|], JobStatus.Processing, Some(Stage.Submitting), map[], map[0 := Tick.Submitting({0})])
    ensures run[|events|].epochs == map[0 := Epoch(1, 1, 0, 0)]
  {
    hide NextDb, Reaches, Quiet;
    run, events := PreparedJob();
    run, events := Then(run, events, TickStarts(0), JobStatus.Processing, Some(Prepared));
    assert run[|events|].ticks == map[0 := Idle] && run[|events|].epochs == map[0 := Epoch(1, 0, 0, 0)];
    run, events := Then(run, events, Batching(0, ClaimPrepared({0})), JobStatus.Processing, Some(Stage.Submitting));
    assert run[|events|].ticks == map[0 := Tick.Submitting({0})];
  }

  lemma StuckJob() returns (run: seq<System>, events: seq<Event>)
    ensures Reaches(run, events) && |run| == |events| + 1 && Quiet(events)
    ensures At(run[|events|], JobStatus.Pending, Some(Sync), map[], map[0 := Tick.Submitting({0}), 1 := Idle])
  {
    hide NextDb, NextEpochs, Reaches, Quiet;
    run, events := SubmittingJob();
    run, events := Then(run, events, TickStarts(1), JobStatus.Processing, Some(Stage.Submitting));
    run, events := Then(run, events, Batching(1, SelectStuck({0})), JobStatus.Processing, Some(Stage.Submitting));
    assert At(run[|events|], JobStatus.Processing, Some(Stage.Submitting), map[],
              map[0 := Tick.Submitting({0}), 1 := FallingBack({0})]);
    run, events := Then(run, events, Batching(1, FallBackSelected), JobStatus.Pending, Some(Sync));
  }

  /** Ticks that overlap can send a job back: while one is still submitting, another takes the job for
      stuck and puts it on the live run; when the first fails, the job leaves that run for the queue
      again, and its rank goes up. */
  lemma OverlappingTicksRaiseRank() returns (run: seq<System>, events: seq<Event>)
    ensures Reaches(run, events) && |run| == |events| + 1 > 1 && Quiet(events)
    ensures var s, s' := run[|events| - 1], run[|events|];
      0 in s.db.jobs && 0 in s'.db.jobs && BatchTermination.Rank(s.db.jobs[0]) < BatchTermination.Rank(s'.db.jobs[0])
  {
    hide NextDb, NextEpochs, Reaches, Quiet;
    run, events := StuckJob();
    run, events := Then(run, events, Deliver(1, 0), JobStatus.Processing, Some(Sync));
    ghost var n := |events|;
    assert run[n].ticks == map[0 := Tick.Submitting({0}), 1 := Idle];
    run, events := Then(run, events, Batching(0, SubmitFails), JobStatus.Pending, Some(Sync));
  }

  // ---- an early retry ----

  lemma RetriedJob() returns (run: seq<System>, events: seq<Event>)
    ensures Reaches(run, events) && |run| == |events| + 1
    ensures At(run[|events|], JobStatus.Pending, None, map[0 := Running(0, None)], map[])
    ensures run[|events|].epochs == map[0 := Epoch(0, 0, 0, 0)]
  {
    hide NextDb, Reaches, Quiet;
    run, events := StartedJob();
    assert ActiveJobs(run[|events|].db.jobs, 0) == {0};
    run, events := Then(run, events, StopBatch(0, [0]), JobStatus.Cancelled, None);
    assert run[|events|].workers == map[0 := Running(0, None)] && run[|events|].ticks == map[];
    run, events := Then(run, events, Retry(0), JobStatus.Pending, None);
  }

  lemma PreparedAgain() returns (run: seq<System>, events: seq<Event>)
    ensures Reaches(run, events) && |run| == |events| + 1
    ensures At(run[|events|], JobStatus.Processing, Some(Prepared), map[0 := Running(0, None)], map[])
    ensures run[|events|].epochs == map[0 := Epoch(1, 0, 0, 0)]
  {
    hide NextDb, Reaches, Quiet;
    run, events := RetriedJob();
    run, events := Then(run, events, Deliver(1, 0), JobStatus.Processing, None);
    assert run[|events|].workers == map[0 := Running(0, None), 1 := Started(0, None)];
    run, events := Then(run, events, Work(1, RecomputeStarted), JobStatus.Processing, None);
    assert run[|events|].workers == map[0 := Running(0, None), 1 := Running(0, None)];
    run, events := Then(run, events, Work(1, Prepare), JobStatus.Processing, Some(Prepared));
    assert run[|events|].workers == map[0 := Running(0, None)] && run[|events|].ticks == map[];
  }

  lemma ClaimedOnce() returns (run: seq<System>, events: seq<Event>)
    ensures Reaches(run, events) && |run| == |events| + 1
    ensures At(run[|events|], JobStatus.Processing, Some(Stage.Submitting), map[0 := Running(0, None)],
               map[0 := Tick.Submitting({0})])
    ensures run[|events|].epochs == map[0 := Epoch(1, 1, 0, 0)]
  {
    hide NextDb, Reaches, Quiet;
    run, events := PreparedAgain();
    run, events := Then(run, events, TickStarts(0), JobStatus.Processing, Some(Prepared));
    assert run[|events|].ticks == map[0 := Idle] && run[|events|].epochs == map[0 := Epoch(1, 0, 0, 0)];
    run, events := Then(run, events, Batching(0, ClaimPrepared({0})), JobStatus.Processing, Some(Stage.Submitting));
    assert run[|events|].ticks == map[0 := Tick.Submitting({0})];
  }

  lemma SubmittedOnce() returns (run: seq<System>, events: seq<Event>)
    ensures Reaches(run, events) && |run| == |events| + 1
    ensures At(run[|events|], JobStatus.Processing, Some(Prepared), map[], map[0 := Idle])
    ensures run[|events|].epochs == map[0 := Epoch(2, 1, 1, 0)]
  {
    hide NextDb, Reaches, Quiet;
    run, events := ClaimedOnce();
    run, events := Then(run, events, Batching(0, SubmitAnswers(map[0 := "a"])), JobStatus.Processing, Some(Submitted));
    assert run[|events|].ticks == map[0 := Idle] && run[|events|].epochs == map[0 := Epoch(1, 1, 1, 0)];
    run, events := Then(run, events, Work(0, Prepare), JobStatus.Processing, Some(Prepared));
    assert run[|events|].ticks == map[0 := Idle] && run[|events|].workers == map[];
  }

  /** A retry while the stopped run is still inside its job: that run saves its prepared request over
      the SUBMITTED job, which the next tick submits a second time. */
  lemma EarlyRetrySubmitsTwice() returns (run: seq<System>, events: seq<Event>)
    ensures Reaches(run, events) && |run| == |events| + 1
    ensures 0 in run[|events|].epochs && run[|events|].epochs[0].prepared == 2 && run[|events|].epochs[0].listed == 2
  {
    hide NextDb, Reaches, Quiet;
    run, events := SubmittedOnce();
    run, events := Then(run, events, Batching(0, TickDies), JobStatus.Processing, Some(Prepared));
    assert run[|events|].ticks == map[] && run[|events|].epochs == map[0 := Epoch(2, 1, 1, 0)];
    run, events := Then(run, events, TickStarts(1), JobStatus.Processing, Some(Prepared));
    assert run[|events|].ticks == map[1 := Idle] && run[|events|].epochs == map[0 := Epoch(2, 1, 1, 0)];
    run, events := Then(run, events, Batching(1, ClaimPrepared({0})), JobStatus.Processing, Some(Stage.Submitting));
  }

  lemma RetriedWhileSubmitting() returns (run: seq<System>, events: seq<Event>)
    ensures Reaches(run, events) && |run| == |events| + 1
    ensures At(run[|events|], JobStatus.Pending, None, map[], map[0 := Tick.Submitting({0})])
    ensures run[|events|].epochs == map[0 := Epoch(0, 0, 0, 0)]
  {
    hide NextDb, Reaches, Quiet;
    run, events := SubmittingJob();
    assert ActiveJobs(run[|events|].db.jobs, 0) == {0};
    run, events := Then(run, events, StopBatch(0, [0]), JobStatus.Cancelled, Some(Stage.Submitting));
    assert run[|events|].workers == map[] && run[|events|].ticks == map[0 := Tick.Submitting({0})];
    run, events := Then(run, events, Retry(0), JobStatus.Pending, None);
  }

  /** A retry while a tick is still submitting the stopped job: the answer marks the retried job SUBMITTED
      although it has not been in a submit since, and has not even been started. */
  lemma EarlyRetryMarksUnsubmitted() returns (run: seq<System>, events: seq<Event>)
    ensures Reaches(run, events) && |run| == |events| + 1
    ensures At(run[|events|], JobStatus.Pending, Some(Submitted), map[], map[0 := Idle])
    ensures run[|events|].epochs == map[0 := Epoch(0, 0, 1, 0)]
  {
    hide NextDb, Reaches, Quiet;
    run, events := RetriedWhileSubmitting();
    run, events := Then(run, events, Batching(0, SubmitAnswers(map[0 := "a"])), JobStatus.Pending, Some(Submitted));
    assert run[|events|].ticks == map[0 := Idle] && run[|events|].epochs == map[0 := Epoch(0, 0, 1, 0)];
  }
}
