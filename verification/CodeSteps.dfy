/** The code as steps of the job system: what the store's methods commit, transaction by transaction, is
    what the interleaved steps do, so the theorems about runs are about this code. A pass of the scheduler
    becomes the stretch of a run that its transactions make. */
module CodeSteps {
  import opened Wrappers
  import M = JobModel
  import opened JobModel
  import S = JobSystem
  import Store = JobStore
  import G = GeminiBatch

  // ---- a delivered task ----

  /** The two transactions that open a PENDING job's run are a delivery and its first recompute. */
  lemma StartIsSteps(db: Db, j: JobId, now: Time)
    requires j in db.jobs && db.jobs[j].status == JobStatus.Pending
    ensures S.CanWork(StartJob(db, j, now), S.Started(j, db.jobs[j].stage), S.RecomputeStarted)
    ensures Store.Started(db, j, now)
         == S.WorkDb(StartJob(db, j, now), S.Started(j, db.jobs[j].stage), S.RecomputeStarted, now)
  {
  }

  /** The step that a PROCESSING job's run ends with. */
  function LastStep(run: Store.RunResult, importRaises: bool): S.WorkerStep {
    match run
    case RunCompleted(output) => if importRaises then S.FailRun("INTERNAL_PROCESSING_ERROR") else S.Complete(output)
    case RunCancelled => S.StopRun
    case RunFailed(code) => S.FailRun(code)
    case RunRaised => S.FailRun("INTERNAL_PROCESSING_ERROR")
  }

  lemma RunIsStep(db: Db, j: JobId, seen: Option<Stage>, run: Store.RunResult, importRaises: bool, now: Time)
    requires j in db.jobs && db.jobs[j].status == JobStatus.Processing
    ensures S.CanWork(db, S.Running(j, seen), LastStep(run, importRaises))
    ensures Store.AfterRun(db, j, run, importRaises, now)
         == S.WorkDb(db, S.Running(j, seen), LastStep(run, importRaises), now)
  {
    hide RecomputeDocument, RecomputeBatch;
  }

  lemma OneMore(run: seq<S.System>, events: seq<S.Event>, step: S.Step, now: Time)
    returns (run': seq<S.System>, events': seq<S.Event>)
    requires |run| == |events| + 1 && S.IsRun(run, events) && S.Can(run[|events|], step)
    ensures |run'| == |events'| + 1 && S.IsRun(run', events') && run <= run' && events <= events'
    ensures run'[|events'|] == S.Next(run[|events|], S.Event(now, step))
  {
    hide S.Can, S.Next;
    run', events' := run + [S.Next(run[|events|], S.Event(now, step))], events + [S.Event(now, step)];
  }

  /** Worker `w` is where it is said to be, over these rows. */
  predicate Works(s: S.System, w: nat, worker: S.Worker, db: Db) {
    w in s.workers && s.workers[w] == worker && s.db == db
  }

  lemma DeliverStep(s: S.System, w: nat, j: JobId, now: Time)
    requires w !in s.workers && j in s.db.jobs
    ensures var step := S.Deliver(w, j);
      && S.Can(s, step)
      && match s.db.jobs[j].status
         case Pending =>
           Works(S.Next(s, S.Event(now, step)), w, S.Started(j, s.db.jobs[j].stage), StartJob(s.db, j, now))
         case Cancelled =>
           S.Next(s, S.Event(now, step)).db == s.db && w !in S.Next(s, S.Event(now, step)).workers
         case _ => Works(S.Next(s, S.Event(now, step)), w, S.Failing(j), s.db)
    ensures S.Can(s, S.DeliverFails(w, j))
    ensures Works(S.Next(s, S.Event(now, S.DeliverFails(w, j))), w, S.Failing(j), s.db)
  {
    hide S.NextEpochs;
  }

  lemma WorkStep(s: S.System, w: nat, worker: S.Worker, db: Db, work: S.WorkerStep, now: Time)
    requires Works(s, w, worker, db) && S.CanWork(db, worker, work)
    ensures S.Can(s, S.Work(w, work))
    ensures var s' := S.Next(s, S.Event(now, S.Work(w, work)));
      && s'.db == S.WorkDb(db, worker, work, now)
      && match S.WorkerAfter(worker, work)
         case Some(after) => Works(s', w, after, s'.db)
         case None => w !in s'.workers
  {
    hide S.NextEpochs, S.WorkDb, S.CanWork;
  }

  lemma FailingStep(db: Db, j: JobId, now: Time)
    requires j in db.jobs
    ensures var work := S.FailRun("INTERNAL_PROCESSING_ERROR");
      && S.CanWork(db, S.Failing(j), work) && S.WorkerAfter(S.Failing(j), work) == None
      && S.WorkDb(db, S.Failing(j), work, now)
         == if Active(db.jobs[j].status) then FailJob(db, j, "INTERNAL_PROCESSING_ERROR", now) else db
  {
  }

  /** The steps of a live run or of its preparation, once the job has been started. */
  lemma EndsRun(db: Db, j: JobId, stage: Option<Stage>, prepared: bool, run: Store.RunResult, importRaises: bool, now: Time)
    returns (work: S.WorkerStep)
    requires j in db.jobs && db.jobs[j].status == JobStatus.Processing
    ensures S.CanWork(db, S.Running(j, stage), work) && S.WorkerAfter(S.Running(j, stage), work) == None
    ensures S.WorkDb(db, S.Running(j, stage), work, now)
         == if prepared && stage == None then db.(jobs := db.jobs[j := SetStage(db.jobs[j], Prepared, now)])
            else Store.AfterRun(db, j, run, importRaises, now)
  {
    hide RecomputeDocument, RecomputeBatch;
    if prepared && stage == None {
      work := S.Prepare;
    } else {
      work := LastStep(run, importRaises);
      RunIsStep(db, j, stage, run, importRaises, now);
    }
  }

  /** A delivered task is a stretch of a run: from any state, its transactions as steps of one worker end
      with the rows that the code ends with, whatever the job's state is and however the task goes. */
  lemma TaskIsRun(run: seq<S.System>, events: seq<S.Event>, w: nat, j: JobId, claimRaises: bool, prepared: bool,
                  result: Store.RunResult, importRaises: bool, now: Time)
    returns (run': seq<S.System>, events': seq<S.Event>)
    requires |run| == |events| + 1 && S.IsRun(run, events) && w !in run[|events|].workers
    ensures |run'| == |events'| + 1 && S.IsRun(run', events') && run <= run' && events <= events'
    ensures run'[|events'|].db
         == Store.Processed(run[|events|].db, j, claimRaises, prepared, result, importRaises, now)
    ensures w !in run'[|events'|].workers
  {
    hide S.IsRun, S.Can, S.Next, S.CanWork, S.WorkDb, Works, Store.AfterRun, FailJob, StartJob, RecomputeFor;
    var db := run[|events|].db;
    run', events' := run, events;
    if j in db.jobs {
      DeliverStep(run[|events|], w, j, now);
      if claimRaises || db.jobs[j].status in {JobStatus.Processing, JobStatus.Completed, JobStatus.Failed} {
        run', events' := OneMore(run, events, if claimRaises then S.DeliverFails(w, j) else S.Deliver(w, j), now);
        FailingStep(db, j, now);
        WorkStep(run'[|events'|], w, S.Failing(j), db, S.FailRun("INTERNAL_PROCESSING_ERROR"), now);
        run', events' := OneMore(run', events', S.Work(w, S.FailRun("INTERNAL_PROCESSING_ERROR")), now);
      } else if db.jobs[j].status == JobStatus.Pending {
        run', events' := PendingTaskIsRun(run, events, w, j, prepared, result, importRaises, now);
      } else {
        run', events' := OneMore(run, events, S.Deliver(w, j), now);
      }
    }
  }

  lemma PendingTaskIsRun(run: seq<S.System>, events: seq<S.Event>, w: nat, j: JobId, prepared: bool,
                         result: Store.RunResult, importRaises: bool, now: Time)
    returns (run': seq<S.System>, events': seq<S.Event>)
    requires |run| == |events| + 1 && S.IsRun(run, events) && w !in run[|events|].workers
    requires j in run[|events|].db.jobs && run[|events|].db.jobs[j].status == JobStatus.Pending
    ensures |run'| == |events'| + 1 && S.IsRun(run', events') && run <= run' && events <= events'
    ensures run'[|events'|].db == Store.Processed(run[|events|].db, j, false, prepared, result, importRaises, now)
    ensures w !in run'[|events'|].workers
  {
    hide S.IsRun, S.Can, S.Next, S.CanWork, S.WorkDb, Works, Store.AfterRun, StartJob, RecomputeFor;
    var db := run[|events|].db;
    var stage := db.jobs[j].stage;
    DeliverStep(run[|events|], w, j, now);
    run', events' := OneMore(run, events, S.Deliver(w, j), now);
    StartIsSteps(db, j, now);
    WorkStep(run'[|events'|], w, S.Started(j, stage), StartJob(db, j, now), S.RecomputeStarted, now);
    run', events' := OneMore(run', events', S.Work(w, S.RecomputeStarted), now);
    var started := Store.Started(db, j, now);
    var work := EndsRun(started, j, stage, prepared, result, importRaises, now);
    WorkStep(run'[|events'|], w, S.Running(j, stage), started, work, now);
    run', events' := OneMore(run', events', S.Work(w, work), now);
  }

  // ---- a pass ----

  /** Where a run has got to, as far as tick `t` can see. */
  ghost predicate Stands(run: seq<S.System>, events: seq<S.Event>, t: nat, tick: S.Tick, jobs: map<JobId, Job>) {
    && |run| == |events| + 1 && S.IsRun(run, events)
    && var s := run[|events|]; t in s.ticks && s.ticks[t] == tick && s.db.jobs == jobs
  }

  /** Since `start` only steps of tick `t`, at times in order, none before `low` or after `high`. */
  ghost predicate Only(events: seq<S.Event>, start: nat, t: nat, low: Time, high: Time) {
    && start <= |events| && low <= high
    && (forall i :: start <= i < |events| ==>
          events[i].step.Batching? && events[i].step.t == t && low <= events[i].at <= high)
    && (forall i, k :: start <= i < k < |events| ==> events[i].at <= events[k].at)
  }

  /** One more step of the tick. */
  lemma Then(run: seq<S.System>, events: seq<S.Event>, start: nat, t: nat, tick: S.Tick, jobs: map<JobId, Job>,
             step: S.TickStep, low: Time, high: Time, now: Time, tick': S.Tick, jobs': map<JobId, Job>)
    returns (run': seq<S.System>, events': seq<S.Event>)
    requires Stands(run, events, t, tick, jobs) && Only(events, start, t, low, high) && high <= now
    requires forall db: Db :: db.jobs == jobs ==>
      S.CanTick(db, tick, step) && S.TickDb(db, tick, step, now).jobs == jobs'
    requires S.TickAfter(tick, step) == Some(tick')
    ensures Stands(run', events', t, tick', jobs') && Only(events', start, t, low, now)
    ensures run <= run' && events <= events'
  {
    hide S.CanTick, S.TickDb, S.TickAfter, S.NextEpochs;
    var s, e := run[|events|], S.Event(now, S.Batching(t, step));
    assert S.CanTick(s.db, tick, step) && S.TickDb(s.db, tick, step, now).jobs == jobs';
    run', events' := run + [S.Next(s, e)], events + [e];
  }

  lemma Rest(events: seq<S.Event>, start: nat, t: nat, low: Time, high: Time, now: Time)
    requires Only(events, start, t, low, high) && high <= now
    ensures Only(events, start, t, low, now)
  {
  }

  function PutBack(jobs: map<JobId, Job>, ids: set<JobId>, now: Time): map<JobId, Job> {
    Update(jobs, ids, job => FallBack(job, now))
  }

  lemma SelectStep(jobs: map<JobId, Job>, step: S.TickStep, now: Time)
    requires step.SelectStuck? ==> step.ids <= G.Stuck(jobs, now - G.STUCK_STEP_AFTER)
    requires step.SelectLeftover? ==> step.ids <= G.InStage(jobs, Prepared)
    requires step.SelectSubmitted? ==> step.ids <= G.InStage(jobs, Submitted)
    requires step.SelectStuck? || step.SelectLeftover? || step.SelectSubmitted?
    ensures forall db: Db :: db.jobs == jobs ==>
      S.CanTick(db, S.Idle, step) && S.TickDb(db, S.Idle, step, now).jobs == jobs
  {
  }

  lemma FallBackStep(jobs: map<JobId, Job>, ids: set<JobId>, now: Time)
    ensures forall db: Db :: db.jobs == jobs ==>
      && S.CanTick(db, S.FallingBack(ids), S.FallBackSelected)
      && S.TickDb(db, S.FallingBack(ids), S.FallBackSelected, now).jobs == PutBack(jobs, ids, now)
    ensures forall db: Db :: db.jobs == jobs ==>
      && S.CanTick(db, S.Collected(ids), S.GiveUpBatch)
      && S.TickDb(db, S.Collected(ids), S.GiveUpBatch, now).jobs == PutBack(jobs, ids, now)
    ensures forall db: Db :: db.jobs == jobs ==>
      && S.CanTick(db, S.Collected(ids), S.CollectEnds)
      && S.TickDb(db, S.Collected(ids), S.CollectEnds, now).jobs == jobs
  {
    hide FallBack;
  }

  lemma RecoverRun(run: seq<S.System>, events: seq<S.Event>, start: nat, t: nat, jobs: map<JobId, Job>, clock: G.Clock)
    returns (run': seq<S.System>, events': seq<S.Event>)
    requires Stands(run, events, t, S.Idle, jobs) && Only(events, start, t, clock.recovering, clock.recovering)
    ensures Stands(run', events', t, S.Idle, G.Recovered(jobs, clock))
    ensures Only(events', start, t, clock.recovering, clock.recovering) && run <= run' && events <= events'
  {
    hide Stands, Only, FallBack, G.Stuck;
    var now := clock.recovering;
    var ids := G.Stuck(jobs, now - G.STUCK_STEP_AFTER);
    SelectStep(jobs, S.SelectStuck(ids), now);
    run', events' :=
      Then(run, events, start, t, S.Idle, jobs, S.SelectStuck(ids), now, now, now, S.FallingBack(ids), jobs);
    FallBackStep(jobs, ids, now);
    run', events' := Then(run', events', start, t, S.FallingBack(ids), jobs, S.FallBackSelected, now, now, now, S.Idle,
                          PutBack(jobs, ids, now));
  }

  lemma LeftoverRun(run: seq<S.System>, events: seq<S.Event>, start: nat, t: nat, jobs: map<JobId, Job>,
                    settings: G.Settings, chosen: seq<JobId>, commands: G.Commands, clock: G.Clock)
    returns (run': seq<S.System>, events': seq<S.Event>)
    requires !settings.enabled && clock.recovering <= clock.claiming
    requires Stands(run, events, t, S.Idle, jobs) && Only(events, start, t, clock.recovering, clock.recovering)
    ensures Stands(run', events', t, S.Idle, G.AfterSubmit(jobs, settings, chosen, commands, clock))
    ensures Only(events', start, t, clock.recovering, clock.claiming) && run <= run' && events <= events'
  {
    hide Stands, Only, FallBack;
    var low, now, ids := clock.recovering, clock.claiming, G.InStage(jobs, Prepared);
    SelectStep(jobs, S.SelectLeftover(ids), now);
    run', events' :=
      Then(run, events, start, t, S.Idle, jobs, S.SelectLeftover(ids), low, low, now, S.FallingBack(ids), jobs);
    FallBackStep(jobs, ids, now);
    run', events' := Then(run', events', start, t, S.FallingBack(ids), jobs, S.FallBackSelected, low, now, now, S.Idle,
                          PutBack(jobs, ids, now));
    assert G.AfterSubmit(jobs, settings, chosen, commands, clock) == PutBack(jobs, ids, now);
  }

  function ClaimedRows(jobs: map<JobId, Job>, ids: set<JobId>, now: Time): map<JobId, Job> {
    Update(jobs, ids, job => SetStage(job, Stage.Submitting, now))
  }

  lemma ClaimStep(jobs: map<JobId, Job>, ids: set<JobId>, now: Time)
    requires ids <= G.InStage(jobs, Prepared)
    ensures forall db: Db :: db.jobs == jobs ==>
      && S.CanTick(db, S.Idle, S.ClaimPrepared(ids))
      && S.TickDb(db, S.Idle, S.ClaimPrepared(ids), now).jobs == ClaimedRows(jobs, ids, now)
  {
  }

  function SubmittedRows(jobs: map<JobId, Job>, names: map<JobId, string>, now: Time): map<JobId, Job> {
    map j | j in jobs :: if j in names then SetSubmitted(jobs[j], names[j], now) else jobs[j]
  }

  lemma AnswerStep(jobs: map<JobId, Job>, ids: set<JobId>, names: map<JobId, string>, now: Time)
    ensures names.Keys <= ids ==> forall db: Db :: db.jobs == jobs ==>
      && S.CanTick(db, S.Tick.Submitting(ids), S.SubmitAnswers(names))
      && S.TickDb(db, S.Tick.Submitting(ids), S.SubmitAnswers(names), now).jobs == SubmittedRows(jobs, names, now)
    ensures forall db: Db :: db.jobs == jobs ==>
      && S.CanTick(db, S.Tick.Submitting(ids), S.SubmitFails)
      && S.TickDb(db, S.Tick.Submitting(ids), S.SubmitFails, now).jobs == PutBack(jobs, ids, now)
  {
    hide FallBack;
  }

  lemma SubmitRun(run: seq<S.System>, events: seq<S.Event>, start: nat, t: nat, jobs: map<JobId, Job>,
                  settings: G.Settings, chosen: seq<JobId>, commands: G.Commands, clock: G.Clock)
    returns (run': seq<S.System>, events': seq<S.Event>)
    requires settings.enabled && G.AnswersItems(commands) && G.OldestFirst(jobs, chosen, settings.maxJobs)
    requires clock.recovering <= clock.claiming <= clock.submitting
    requires Stands(run, events, t, S.Idle, jobs) && Only(events, start, t, clock.recovering, clock.recovering)
    ensures Stands(run', events', t, S.Idle, G.AfterSubmit(jobs, settings, chosen, commands, clock))
    ensures Only(events', start, t, clock.recovering, clock.submitting) && run <= run' && events <= events'
  {
    hide Stands, Only, FallBack;
    var low, ids := clock.recovering, set j | j in chosen;
    var claimed := ClaimedRows(jobs, ids, clock.claiming);
    ClaimStep(jobs, ids, clock.claiming);
    run', events' := Then(run, events, start, t, S.Idle, jobs, S.ClaimPrepared(ids), low, low, clock.claiming,
                          S.Tick.Submitting(ids), claimed);
    var after := G.AfterSubmit(jobs, settings, chosen, commands, clock);
    var now := clock.submitting;
    match commands.submit(chosen)
    case Some(names) =>
      assert names.Keys <= ids;
      AnswerStep(claimed, ids, names, now);
      run', events' := Then(run', events', start, t, S.Tick.Submitting(ids), claimed, S.SubmitAnswers(names), low,
                            clock.claiming, now, S.Idle, SubmittedRows(claimed, names, now));
      assert after == SubmittedRows(claimed, names, now);
    case None =>
      AnswerStep(claimed, ids, map[], now);
      run', events' := Then(run', events', start, t, S.Tick.Submitting(ids), claimed, S.SubmitFails, low,
                            clock.claiming, now, S.Idle, PutBack(claimed, ids, now));
      assert after == PutBack(claimed, ids, now);
  }

  // ---- collecting ----

  function FinishedRows(jobs: map<JobId, Job>, ids: set<JobId>, finish: JobId -> G.FinishAnswer, now: Time)
    : map<JobId, Job>
  {
    map j | j in jobs :: if j in ids then G.FinishedRow(jobs[j], finish(j), now) else jobs[j]
  }

  lemma FinishStep(jobs: map<JobId, Job>, ids: set<JobId>, j: JobId, answer: G.FinishAnswer, now: Time)
    requires j in ids && j in jobs && CanClaim(jobs[j], Submitted)
    ensures var claimed := jobs[j := SetStage(jobs[j], Stage.Finishing, now)];
      var step := if answer.Output? then S.FinishCompletes(answer.path) else S.FinishFails;
      && (forall db: Db :: db.jobs == jobs ==>
            && S.CanTick(db, S.Collected(ids), S.ClaimFinish(j))
            && S.TickDb(db, S.Collected(ids), S.ClaimFinish(j), now).jobs == claimed)
      && (forall db: Db :: db.jobs == claimed ==>
            && S.CanTick(db, S.Tick.Finishing(j, ids - {j}), step)
            && S.TickDb(db, S.Tick.Finishing(j, ids - {j}), step, now).jobs
               == jobs[j := G.FinishedRow(jobs[j], answer, now)])
  {
    hide RecomputeDocument, RecomputeBatch;
  }

  lemma {:induction false} FinishRun(run: seq<S.System>, events: seq<S.Event>, start: nat, t: nat, jobs: map<JobId, Job>,
                                     ids: set<JobId>, finish: JobId -> G.FinishAnswer, low: Time, high: Time, now: Time)
    returns (run': seq<S.System>, events': seq<S.Event>)
    requires Stands(run, events, t, S.Collected(ids), jobs) && Only(events, start, t, low, high) && high <= now
    requires forall j :: j in ids ==> j in jobs && CanClaim(jobs[j], Submitted)
    ensures Stands(run', events', t, S.Collected({}), FinishedRows(jobs, ids, finish, now))
    ensures Only(events', start, t, low, now) && run <= run' && events <= events'
    decreases |ids|
  {
    hide Stands, Only, G.FinishedRow, CanClaim, S.CanTick, S.TickDb;
    if ids == {} {
      Rest(events, start, t, low, high, now);
      run', events' := run, events;
      assert FinishedRows(jobs, ids, finish, now) == jobs;
    } else {
      var j :| j in ids;
      FinishStep(jobs, ids, j, finish(j), now);
      var claimed := jobs[j := SetStage(jobs[j], Stage.Finishing, now)];
      var finished := jobs[j := G.FinishedRow(jobs[j], finish(j), now)];
      var step := if finish(j).Output? then S.FinishCompletes(finish(j).path) else S.FinishFails;
      var tick := S.Tick.Finishing(j, ids - {j});
      run', events' := Then(run, events, start, t, S.Collected(ids), jobs, S.ClaimFinish(j), low, high, now, tick, claimed);
      run', events' :=
        Then(run', events', start, t, tick, claimed, step, low, now, now, S.Collected(ids - {j}), finished);
      run', events' := FinishRun(run', events', start, t, finished, ids - {j}, finish, low, now, now);
      assert FinishedRows(finished, ids - {j}, finish, now) == FinishedRows(jobs, ids, finish, now);
    }
  }

  /** The rows after one batch has been looked at, as far as the loop came: `done` are the rows it came to. */
  ghost function CollectedOne(jobs: map<JobId, Job>, name: string, done: set<JobId>, settings: G.Settings,
                              commands: G.Commands, clock: G.Clock): map<JobId, Job>
  {
    map j | j in jobs ::
      if G.InBatch(jobs[j], name) && j in done then G.CollectedRow(jobs, j, settings, commands, clock) else jobs[j]
  }

  lemma CollectOneRun(run: seq<S.System>, events: seq<S.Event>, start: nat, t: nat, jobs: map<JobId, Job>, name: string,
                      done: set<JobId>, settings: G.Settings, commands: G.Commands, clock: G.Clock, low: Time, high: Time)
    returns (run': seq<S.System>, events': seq<S.Event>)
    requires Stands(run, events, t, S.Idle, jobs) && Only(events, start, t, low, high) && high <= clock.collecting
    requires name != ""
    ensures Stands(run', events', t, S.Idle, CollectedOne(jobs, name, done, settings, commands, clock))
    ensures Only(events', start, t, low, clock.collecting) && run <= run' && events <= events'
  {
    hide Stands, Only, FallBack, G.FinishedRow;
    var now := clock.collecting;
    var ids := set j | j in jobs && G.InBatch(jobs[j], name) && j in done;
    SelectStep(jobs, S.SelectSubmitted(ids), now);
    run', events' :=
      Then(run, events, start, t, S.Idle, jobs, S.SelectSubmitted(ids), low, high, now, S.Collected(ids), jobs);
    var after := CollectedOne(jobs, name, done, settings, commands, clock);
    FallBackStep(jobs, ids, now);
    var answer := commands.collect(name);
    if answer.Ended? && answer.succeeded {
      var finished := FinishedRows(jobs, ids, commands.finish, now);
      run', events' := FinishRun(run', events', start, t, jobs, ids, commands.finish, low, now, now);
      FallBackStep(finished, {}, now);
      run', events' :=
        Then(run', events', start, t, S.Collected({}), finished, S.CollectEnds, low, now, now, S.Idle, finished);
      assert after == finished;
    } else if answer.Ended? || (answer.NotDone? && G.TooOld(jobs, name, now - settings.fallbackAfter)) {
      run', events' := Then(run', events', start, t, S.Collected(ids), jobs, S.GiveUpBatch, low, now, now, S.Idle,
                            PutBack(jobs, ids, now));
      assert after == PutBack(jobs, ids, now);
    } else {
      run', events' :=
        Then(run', events', start, t, S.Collected(ids), jobs, S.CollectEnds, low, now, now, S.Idle, jobs);
      assert after == jobs;
    }
  }

  /** The rows when the batches in `left` have not been looked at yet. */
  ghost function CollectedBut(jobs: map<JobId, Job>, left: set<string>, done: set<JobId>, settings: G.Settings,
                              commands: G.Commands, clock: G.Clock): map<JobId, Job>
  {
    map j | j in jobs ::
      if G.Collectable(jobs[j]) && jobs[j].batchName.value !in left && j in done
      then G.CollectedRow(jobs, j, settings, commands, clock)
      else jobs[j]
  }

  lemma OneBatchLess(jobs: map<JobId, Job>, name: string, left: set<string>, done: set<JobId>, settings: G.Settings,
                     commands: G.Commands, clock: G.Clock)
    requires name in left && name != ""
    ensures CollectedOne(CollectedBut(jobs, left, done, settings, commands, clock), name, done, settings, commands, clock)
         == CollectedBut(jobs, left - {name}, done, settings, commands, clock)
  {
    hide G.CollectedRow;
    var mid := CollectedBut(jobs, left, done, settings, commands, clock);
    assert left - {name} + {name} == left;
    G.SameBatch(jobs, mid, name, left - {name}, settings, commands, clock);
  }

  lemma {:induction false} CollectRun(run: seq<S.System>, events: seq<S.Event>, start: nat, t: nat, jobs: map<JobId, Job>,
                                      left: set<string>, done: set<JobId>, settings: G.Settings, commands: G.Commands,
                                      clock: G.Clock, low: Time, high: Time)
    returns (run': seq<S.System>, events': seq<S.Event>)
    requires Stands(run, events, t, S.Idle, CollectedBut(jobs, left, done, settings, commands, clock)) && "" !in left
    requires Only(events, start, t, low, high) && high <= clock.collecting
    ensures Stands(run', events', t, S.Idle, CollectedBut(jobs, {}, done, settings, commands, clock))
    ensures Only(events', start, t, low, clock.collecting) && run <= run' && events <= events'
    decreases |left|
  {
    hide Stands, Only, CollectedBut, CollectedOne;
    if left == {} {
      Rest(events, start, t, low, high, clock.collecting);
      run', events' := run, events;
    } else {
      var name :| name in left;
      var mid := CollectedBut(jobs, left, done, settings, commands, clock);
      run', events' := CollectOneRun(run, events, start, t, mid, name, done, settings, commands, clock, low, high);
      OneBatchLess(jobs, name, left, done, settings, commands, clock);
      run', events' := CollectRun(run', events', start, t, jobs, left - {name}, done, settings, commands, clock, low,
                                  clock.collecting);
    }
  }

  lemma NothingCollected(jobs: map<JobId, Job>, done: set<JobId>, settings: G.Settings, commands: G.Commands,
                         clock: G.Clock)
    ensures CollectedBut(jobs, G.BatchNames(jobs), done, settings, commands, clock) == jobs
  {
    hide G.CollectedRow;
    G.NamesOf(jobs);
  }

  lemma AllCollected(jobs: map<JobId, Job>, settings: G.Settings, commands: G.Commands, clock: G.Clock)
    ensures CollectedBut(jobs, {}, jobs.Keys, settings, commands, clock) == G.AfterCollect(jobs, settings, commands, clock)
  {
    hide G.CollectedRow;
    forall j | j in jobs && !G.Collectable(jobs[j])
      ensures G.CollectedRow(jobs, j, settings, commands, clock) == jobs[j]
    {
      G.NotCollected(jobs, j, settings, commands, clock);
    }
  }

  lemma PartCollected(jobs: map<JobId, Job>, jobs': map<JobId, Job>, settings: G.Settings, commands: G.Commands,
                      clock: G.Clock)
    returns (done: set<JobId>)
    requires G.PartlyCollected(jobs, jobs', settings, commands, clock)
    ensures CollectedBut(jobs, {}, done, settings, commands, clock) == jobs'
  {
    hide G.CollectedRow;
    done := set j | j in jobs && jobs'[j] == G.CollectedRow(jobs, j, settings, commands, clock);
    forall j | j in jobs && !G.Collectable(jobs[j])
      ensures G.CollectedRow(jobs, j, settings, commands, clock) == jobs[j]
    {
      G.NotCollected(jobs, j, settings, commands, clock);
    }
  }

  lemma AdvanceRun(run: seq<S.System>, events: seq<S.Event>, start: nat, t: nat, jobs: map<JobId, Job>,
                   settings: G.Settings, chosen: seq<JobId>, commands: G.Commands, clock: G.Clock)
    returns (run': seq<S.System>, events': seq<S.Event>)
    requires Stands(run, events, t, S.Idle, jobs) && Only(events, start, t, clock.recovering, clock.recovering)
    requires G.AnswersItems(commands) && clock.recovering <= clock.claiming <= clock.submitting
    requires settings.enabled ==> G.OldestFirst(G.Recovered(jobs, clock), chosen, settings.maxJobs)
    ensures Stands(run', events', t, S.Idle, G.AfterSubmit(G.Recovered(jobs, clock), settings, chosen, commands, clock))
    ensures Only(events', start, t, clock.recovering, clock.submitting) && run <= run' && events <= events'
  {
    hide Stands, Only, G.Recovered, G.AfterSubmit, G.OldestFirst, G.AnswersItems;
    var recovered := G.Recovered(jobs, clock);
    run', events' := RecoverRun(run, events, start, t, jobs, clock);
    if settings.enabled {
      run', events' := SubmitRun(run', events', start, t, recovered, settings, chosen, commands, clock);
    } else {
      run', events' := LeftoverRun(run', events', start, t, recovered, settings, chosen, commands, clock);
      Rest(events', start, t, clock.recovering, clock.claiming, clock.submitting);
    }
  }

  /** A complete pass is a stretch of a run: from any state in which a tick is idle, its steps alone, in
      order and within the times of its clock, lead to the rows that the code's pass ends with. */
  lemma TickIsRun(run: seq<S.System>, events: seq<S.Event>, t: nat, settings: G.Settings, chosen: seq<JobId>,
                  commands: G.Commands, clock: G.Clock)
    returns (run': seq<S.System>, events': seq<S.Event>)
    requires |run| == |events| + 1 && Stands(run, events, t, S.Idle, run[|events|].db.jobs)
    requires G.AnswersItems(commands)
    requires clock.recovering <= clock.claiming <= clock.submitting <= clock.collecting
    requires settings.enabled ==> G.OldestFirst(G.Recovered(run[|events|].db.jobs, clock), chosen, settings.maxJobs)
    ensures Stands(run', events', t, S.Idle, G.AfterTick(run[|events|].db.jobs, settings, chosen, commands, clock))
    ensures Only(events', |events|, t, clock.recovering, clock.collecting) && run <= run' && events <= events'
  {
    var start, low, jobs := |events|, clock.recovering, run[|events|].db.jobs;
    assert Only(events, start, t, low, low);
    hide Stands, Only, G.Recovered, G.AfterSubmit, G.AfterCollect, G.OldestFirst, G.AnswersItems, G.BatchNames;
    run', events' := AdvanceRun(run, events, start, t, jobs, settings, chosen, commands, clock);
    var submitted := G.AfterSubmit(G.Recovered(jobs, clock), settings, chosen, commands, clock);
    NothingCollected(submitted, submitted.Keys, settings, commands, clock);
    AllCollected(submitted, settings, commands, clock);
    G.NamesOf(submitted);
    run', events' := CollectRun(run', events', start, t, submitted, G.BatchNames(submitted), submitted.Keys, settings,
                                commands, clock, low, clock.submitting);
  }

  /** So is a pass that a refused task has cut short; its tick is gone afterwards. */
  lemma CutShortIsRun(run: seq<S.System>, events: seq<S.Event>, t: nat, settings: G.Settings, chosen: seq<JobId>,
                      commands: G.Commands, clock: G.Clock, jobs': map<JobId, Job>)
    returns (run': seq<S.System>, events': seq<S.Event>)
    requires |run| == |events| + 1 && Stands(run, events, t, S.Idle, run[|events|].db.jobs)
    requires G.AnswersItems(commands)
    requires clock.recovering <= clock.claiming <= clock.submitting <= clock.collecting
    requires G.EndedEarly(run[|events|].db.jobs, jobs', settings, chosen, commands, clock)
    ensures |run'| == |events'| + 1 && S.IsRun(run', events')
    ensures var s := run'[|events'|]; t !in s.ticks && s.db.jobs == jobs'
    ensures Only(events', |events|, t, clock.recovering, clock.collecting) && run <= run' && events <= events'
  {
    var start, low, jobs := |events|, clock.recovering, run[|events|].db.jobs;
    assert Only(events, start, t, low, low);
    hide Stands, Only, G.Recovered, G.AfterSubmit, G.OldestFirst, G.AnswersItems, G.BatchNames, G.PartlyCollected;
    var high;
    if jobs' == G.Recovered(jobs, clock) {
      run', events' := RecoverRun(run, events, start, t, jobs, clock);
      high := low;
    } else {
      run', events' := AdvanceRun(run, events, start, t, jobs, settings, chosen, commands, clock);
      var submitted := G.AfterSubmit(G.Recovered(jobs, clock), settings, chosen, commands, clock);
      var done := PartCollected(submitted, jobs', settings, commands, clock);
      NothingCollected(submitted, done, settings, commands, clock);
      G.NamesOf(submitted);
      run', events' := CollectRun(run', events', start, t, submitted, G.BatchNames(submitted), done, settings, commands,
                                  clock, low, clock.submitting);
      high := clock.collecting;
    }
    run', events' := Dies(run', events', start, t, jobs', low, high, clock.collecting);
  }

  lemma Dies(run: seq<S.System>, events: seq<S.Event>, start: nat, t: nat, jobs: map<JobId, Job>, low: Time, high: Time,
             now: Time)
    returns (run': seq<S.System>, events': seq<S.Event>)
    requires Stands(run, events, t, S.Idle, jobs) && Only(events, start, t, low, high) && high <= now
    ensures |run'| == |events'| + 1 && S.IsRun(run', events')
    ensures var s := run'[|events'|]; t !in s.ticks && s.db.jobs == jobs
    ensures Only(events', start, t, low, now) && run <= run' && events <= events'
  {
    hide S.NextEpochs;
    var e := S.Event(now, S.Batching(t, S.TickDies));
    run', events' := run + [S.Next(run[|events|], e)], events + [e];
  }
}
