/** Gemini Batch Mode under overlapping ticks and duplicate deliveries: what the conditional
    UPDATEs guarantee, and the one kind of retry that they do not withstand. */
module BatchClaims {
  import opened Wrappers
  import opened JobModel
  import opened JobSystem

  /** A worker that may still save a prepared request for the job. */
  predicate Preparing(worker: Worker, j: JobId) {
    !worker.Failing? && worker.job == j && worker.seen == None
  }

  predicate Holds(tick: Tick, j: JobId) {
    match tick
    case Idle => false
    case FallingBack(ids) => j in ids
    case Submitting(ids) => j in ids
    case Collected(ids) => j in ids
    case Finishing(k, ids) => j == k || j in ids
  }

  predicate SubmitsIt(tick: Tick, j: JobId) {
    tick.Submitting? && j in tick.ids
  }

  /** A retry while a worker may still save a prepared request for the job, or a tick has it in an item
      list it has not had an answer for: what they write comes from before the retry. */
  ghost predicate Early(s: System, step: Step) {
    step.Retry? && (|| (exists w :: w in s.workers && Preparing(s.workers[w], step.j))
                    || (exists t :: t in s.ticks && SubmitsIt(s.ticks[t], step.j)))
  }

  function OneIf(b: bool): nat {
    if b then 1 else 0
  }

  ghost predicate Known(s: System) {
    && s.epochs.Keys == s.db.jobs.Keys
    && (forall w :: w in s.workers ==> s.workers[w].job in s.db.jobs)
    && (forall t, j :: t in s.ticks && Holds(s.ticks[t], j) ==> j in s.db.jobs)
  }

  predicate Fresh(job: Job) {
    job.status == JobStatus.Pending && job.stage == None
  }

  /** The claim ledger of one job in its current epoch. */
  predicate Counts(job: Job, h: Epoch) {
    && h.prepared <= 1
    && OneIf(job.stage == Some(Prepared)) + h.listed <= h.prepared
    && h.submitted <= h.listed
    && OneIf(job.stage == Some(Submitted)) + h.finishing <= h.submitted
    && (Fresh(job) ==> h.prepared == 0)
  }

  /** At most one worker can still prepare the job, and only before it was prepared. */
  ghost predicate WorkersFit(workers: map<nat, Worker>, j: JobId, job: Job, h: Epoch) {
    && (forall w :: w in workers && Preparing(workers[w], j) ==> h.prepared == 0 && !Fresh(job))
    && (forall w, v :: w in workers && v in workers && Preparing(workers[w], j) && Preparing(workers[v], j) ==> w == v)
  }

  /** At most one tick has the job in an item list it has not had an answer for. */
  ghost predicate TicksFit(ticks: map<nat, Tick>, j: JobId, h: Epoch) {
    && (forall t :: t in ticks && SubmitsIt(ticks[t], j) ==> h.submitted < h.listed)
    && (forall t, u :: t in ticks && u in ticks && SubmitsIt(ticks[t], j) && SubmitsIt(ticks[u], j) ==> t == u)
  }

  ghost predicate Ledger(s: System, j: JobId)
    requires j in s.db.jobs && j in s.epochs
  {
    && Counts(s.db.jobs[j], s.epochs[j])
    && WorkersFit(s.workers, j, s.db.jobs[j], s.epochs[j])
    && TicksFit(s.ticks, j, s.epochs[j])
  }

  ghost predicate Ledgers(s: System) {
    Known(s) && forall j :: j in s.db.jobs ==> Ledger(s, j)
  }

  lemma StepKeepsKnown(s: System, e: Event)
    requires Can(s, e.step) && Known(s)
    ensures Known(Next(s, e))
  {
    hide NextDb, MoveOf, NextEpochs;
    var s' := Next(s, e);
    assert s'.epochs.Keys == s.epochs.Keys + (if e.step.Upload? then e.step.ids else {}) by { EpochKeys(s, e.step); }
    if e.step.Upload? {
      UploadedRows(s, e);
    } else {
      StepKeepsRows(s, e);
    }
  }

  lemma EpochKeys(s: System, step: Step)
    ensures NextEpochs(s, step).Keys == s.epochs.Keys + if step.Upload? then step.ids else {}
  {
    hide MoveOf;
  }

  lemma UploadedRows(s: System, e: Event)
    requires Can(s, e.step) && e.step.Upload?
    ensures var db' := Next(s, e).db;
      && db'.imports == s.db.imports && db'.jobs.Keys == s.db.jobs.Keys + e.step.ids
      && (forall j :: j in s.db.jobs ==> db'.jobs[j] == s.db.jobs[j])
      && (forall j :: j in e.step.ids ==> db'.jobs[j] == NewJob(e.step.d, e.step.b))
  {
  }

  lemma MoveKeepsCounts(move: Move, a: Job, b: Job, h: Epoch)
    requires Moves(move, a, b) && Counts(a, h)
    requires move == SavePrepared ==> h.prepared == 0 && !Fresh(a)
    requires move == SaveSubmitted ==> h.submitted < h.listed
    requires move.Claim? ==> move == Claim(Prepared, Stage.Submitting) || move == Claim(Submitted, Stage.Finishing)
    ensures Counts(b, Count(h, move))
    ensures Fresh(b) && !Fresh(a) ==> move == Again
  {
  }

  /** What a step may do to a job, seen from its ledger. */
  lemma MoveFits(s: System, step: Step, j: JobId)
    requires Can(s, step) && Known(s) && j in s.db.jobs && Ledger(s, j)
    ensures var move, h := MoveOf(s, step, j), s.epochs[j];
      && (move == SavePrepared ==> h.prepared == 0 && !Fresh(s.db.jobs[j]))
      && (move == SaveSubmitted ==> h.submitted < h.listed)
      && (move.Claim? ==> move == Claim(Prepared, Stage.Submitting) || move == Claim(Submitted, Stage.Finishing))
  {
    hide Known, Counts, InStage, ActiveJobs, InterruptedJobs, StaleJobs;
  }

  lemma StepKeepsLedger(s: System, e: Event, j: JobId)
    requires Can(s, e.step) && !Early(s, e.step) && Known(s) && j in s.db.jobs && Ledger(s, j)
    requires Known(Next(s, e))
    ensures Ledger(Next(s, e), j)
  {
    hide NextDb, NextWorkers, NextTicks, MoveOf, WorkersFit, TicksFit, Counts;
    StepMoves(s, e, j);
    MoveFits(s, e.step, j);
    MoveKeepsCounts(MoveOf(s, e.step, j), s.db.jobs[j], Next(s, e).db.jobs[j], s.epochs[j]);
    WorkersStillFit(s, e, j);
    TicksStillFit(s, e, j);
  }

  lemma WorkersStillFit(s: System, e: Event, j: JobId)
    requires Can(s, e.step) && !Early(s, e.step) && Known(s) && j in s.db.jobs && Ledger(s, j)
    ensures j in Next(s, e).db.jobs
            && WorkersFit(NextWorkers(s, e.step), j, Next(s, e).db.jobs[j], Count(s.epochs[j], MoveOf(s, e.step, j)))
  {
    hide NextDb, NextTicks, InStage, NextWorkers, WorkersFit, TicksFit, Counts, MoveOf, Moves;
    StepMoves(s, e, j);
    if e.step.Work? {
      WorkersFitAfterWork(s, e, j);
    } else if e.step.Deliver? || e.step.DeliverFails? {
      WorkersFitAfterDelivery(s, e, j);
    } else {
      SameWorkers(s, e.step, j);
      SameWorkersFit(s.workers, j, MoveOf(s, e.step, j), s.db.jobs[j], Next(s, e).db.jobs[j], s.epochs[j]);
    }
  }

  lemma WorkersFitAfterWork(s: System, e: Event, j: JobId)
    requires Can(s, e.step) && !Early(s, e.step) && Known(s) && j in s.db.jobs && Ledger(s, j)
    requires j in Next(s, e).db.jobs && Moves(MoveOf(s, e.step, j), s.db.jobs[j], Next(s, e).db.jobs[j])
    requires e.step.Work?
    ensures WorkersFit(NextWorkers(s, e.step), j, Next(s, e).db.jobs[j], Count(s.epochs[j], MoveOf(s, e.step, j)))
  {
    hide NextDb, NextTicks, NextEpochs, Known, TicksFit, Early;
  }

  lemma WorkersFitAfterDelivery(s: System, e: Event, j: JobId)
    requires Can(s, e.step) && !Early(s, e.step) && Known(s) && j in s.db.jobs && Ledger(s, j)
    requires j in Next(s, e).db.jobs && Moves(MoveOf(s, e.step, j), s.db.jobs[j], Next(s, e).db.jobs[j])
    requires e.step.Deliver? || e.step.DeliverFails?
    ensures WorkersFit(NextWorkers(s, e.step), j, Next(s, e).db.jobs[j], Count(s.epochs[j], MoveOf(s, e.step, j)))
  {
    hide NextDb, NextTicks, NextEpochs, Known, TicksFit, Early;
  }

  lemma SameWorkersFit(workers: map<nat, Worker>, j: JobId, move: Move, a: Job, b: Job, h: Epoch)
    requires WorkersFit(workers, j, a, h) && Moves(move, a, b) && move != SavePrepared
    requires move == Again ==> forall w :: w in workers ==> !Preparing(workers[w], j)
    ensures WorkersFit(workers, j, b, Count(h, move))
  {
  }

  /** Only a delivery starts a worker, and only a worker prepares a job. */
  lemma SameWorkers(s: System, step: Step, j: JobId)
    requires Can(s, step) && !step.Work? && !step.Deliver? && !step.DeliverFails?
    ensures NextWorkers(s, step) == s.workers && MoveOf(s, step, j) != SavePrepared
    ensures MoveOf(s, step, j) == Again ==> step == Retry(j)
  {
    hide ActiveJobs, InterruptedJobs, StaleJobs, InStage;
  }

  lemma TicksStillFit(s: System, e: Event, j: JobId)
    requires Can(s, e.step) && !Early(s, e.step) && Known(s) && j in s.db.jobs && Ledger(s, j)
    ensures TicksFit(NextTicks(s, e.step), j, Count(s.epochs[j], MoveOf(s, e.step, j)))
  {
    hide NextDb, NextWorkers;
  }

  lemma UploadKeepsLedgers(s: System, e: Event)
    requires Can(s, e.step) && e.step.Upload? && Ledgers(s)
    ensures Ledgers(Next(s, e))
  {
    hide NextDb, NextWorkers, NextTicks, WorkersFit, TicksFit;
    StepKeepsKnown(s, e);
    UploadedRows(s, e);
    forall j | j in Next(s, e).db.jobs ensures Ledger(Next(s, e), j) {
      if j in s.db.jobs {
        assert Ledger(s, j);
        WorkersStillFit(s, e, j);
        TicksStillFit(s, e, j);
      } else {
        NobodyInside(s, e, j);
      }
    }
  }

  lemma NobodyInside(s: System, e: Event, j: JobId)
    requires Can(s, e.step) && e.step.Upload? && Known(s) && j !in s.db.jobs
    ensures WorkersFit(NextWorkers(s, e.step), j, NewJob(e.step.d, e.step.b), Epoch(0, 0, 0, 0))
    ensures TicksFit(NextTicks(s, e.step), j, Epoch(0, 0, 0, 0))
  {
  }

  lemma LateStepKeepsLedgers(s: System, e: Event)
    requires Can(s, e.step) && !Early(s, e.step) && Ledgers(s)
    ensures Ledgers(Next(s, e))
  {
    hide Next, Can, Ledger, Early;
    if e.step.Upload? {
      UploadKeepsLedgers(s, e);
    } else {
      StepKeepsKnown(s, e);
      StepKeepsRows(s, e);
      forall j | j in s.db.jobs ensures Ledger(Next(s, e), j) {
        StepKeepsLedger(s, e, j);
      }
    }
  }

  lemma FreshWhilePreparing(workers: map<nat, Worker>, w: nat, j: JobId, job: Job, h: Epoch)
    requires w in workers && Preparing(workers[w], j) && Fresh(job)
    ensures !WorkersFit(workers, j, job, h)
  {
  }

  lemma NotListedWhileSubmitting(ticks: map<nat, Tick>, t: nat, j: JobId)
    requires t in ticks && SubmitsIt(ticks[t], j)
    ensures !TicksFit(ticks, j, Epoch(0, 0, 0, 0))
  {
  }

  /** After an early retry the job is fresh, and listed by nobody, while somebody is still about to write
      what it did before. */
  lemma EarlyBreaksLedger(s: System, e: Event)
    requires Can(s, e.step) && Known(s) && Early(s, e.step)
    ensures !Ledgers(Next(s, e))
  {
    hide NextDb, NextWorkers, NextTicks, NextEpochs, NextRetrying, Known, WorkersFit, TicksFit;
    var j, s' := e.step.j, Next(s, e);
    StepMoves(s, e, j);
    EarlyEpoch(s, e.step);
    if w :| w in s.workers && Preparing(s.workers[w], j) {
      FreshWhilePreparing(s'.workers, w, j, s'.db.jobs[j], s'.epochs[j]);
    } else {
      var t :| t in s.ticks && SubmitsIt(s.ticks[t], j);
      NotListedWhileSubmitting(s'.ticks, t, j);
    }
    assert !Ledger(s', j);
  }

  lemma EarlyEpoch(s: System, step: Step)
    requires step.Retry? && Can(s, step) && Known(s)
    ensures NextWorkers(s, step) == s.workers && NextTicks(s, step) == s.ticks && MoveOf(s, step, step.j) == Again
    ensures step.j in NextEpochs(s, step) && NextEpochs(s, step)[step.j] == Epoch(0, 0, 0, 0)
  {
  }

  /** Every step keeps every job's ledger, except exactly an early retry. */
  lemma StepKeepsLedgers(s: System, e: Event)
    requires Can(s, e.step) && Ledgers(s)
    ensures Ledgers(Next(s, e)) <==> !Early(s, e.step)
  {
    hide Next, Can, Ledger, Early;
    if Early(s, e.step) {
      EarlyBreaksLedger(s, e);
    } else {
      LateStepKeepsLedgers(s, e);
    }
  }

  /** Claims: without early retries, since it was created or last retried, a job has been prepared at most once, has
      appeared in at most one submit item list, and has been claimed for finishing at most once. */
  lemma {:induction false} ClaimedOnce(run: seq<System>, events: seq<Event>, k: nat)
    requires IsRun(run, events) && Init(run[0]) && k < |run|
    requires forall i :: 0 <= i < |events| ==> !Early(run[i], events[i].step)
    ensures Ledgers(run[k])
    ensures forall j :: j in run[k].db.jobs ==>
              j in run[k].epochs
              && var h := run[k].epochs[j]; h.finishing <= h.submitted <= h.listed <= h.prepared <= 1
  {
    hide Next, Can, Early, WorkersFit, TicksFit;
    if k > 0 {
      ClaimedOnce(run, events, k - 1);
      StepKeepsLedgers(run[k - 1], events[k - 1]);
    }
    forall j | j in run[k].db.jobs ensures Counts(run[k].db.jobs[j], run[k].epochs[j]) {
      assert Ledger(run[k], j);
    }
  }
}
