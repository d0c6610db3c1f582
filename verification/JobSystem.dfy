/** Everything that can touch a job at the same time: delivered worker tasks (duplicates
    included), Gemini batch ticks, uploads, "Stop processing", retries and the two recoveries.
    One step is one committed transaction, or a worker or tick dying; steps interleave freely. */
module JobSystem {
  import opened Wrappers
  import opened JobModel

  /** Where a delivered task is between two transactions. `seen` is the stage its own
      session read when it claimed the job. */
  datatype Worker =
    | Started(job: JobId, seen: Option<Stage>)
    | Running(job: JobId, seen: Option<Stage>)
    | Failing(job: JobId)

  /** Where a tick is between two transactions, with the rows it holds in memory. */
  datatype Tick =
    | Idle
    | FallingBack(ids: set<JobId>)
    | Submitting(ids: set<JobId>)
    | Collected(ids: set<JobId>)
    | Finishing(job: JobId, ids: set<JobId>)

  /** What has happened to a job since it was created or last retried: times it was prepared,
      put in a submit item list, marked submitted and claimed for finishing. */
  datatype Epoch = Epoch(prepared: nat, listed: nat, submitted: nat, finishing: nat)

  /** `retrying` holds a job once for every retry request that has committed and whose session, between
      the commit and the end of the submit, still holds the row as it wrote it. */
  datatype System = System(db: Db, workers: map<nat, Worker>, ticks: map<nat, Tick>, epochs: map<JobId, Epoch>,
                           retrying: multiset<JobId>)

  /** One transaction of a delivered task, or its end. `Stumble` is any exception on the way. */
  datatype WorkerStep =
    | RecomputeStarted
    | Prepare
    | Complete(output: string)
    | StopRun
    | Stumble
    | FailRun(code: string)
    | WorkerDies

  /** One transaction of a tick, or its end. */
  datatype TickStep =
    | SelectStuck(ids: set<JobId>)
    | SelectLeftover(ids: set<JobId>)
    | FallBackSelected
    | ClaimPrepared(ids: set<JobId>)
    | SubmitAnswers(names: map<JobId, string>)
    | SubmitFails
    | SelectSubmitted(ids: set<JobId>)
    | GiveUpBatch
    | ClaimFinish(job: JobId)
    | FinishCompletes(output: string)
    | FinishFails
    | CollectEnds
    | TickDies

  datatype Step =
    | Upload(d: DocumentId, b: BatchId, ids: set<JobId>)
    | SubmitRaised(j: JobId)
    | StopBatch(b: BatchId, order: seq<JobId>)
    | Retry(j: JobId)
    | RetryEnds(j: JobId)
    | RetrySubmitRaised(j: JobId)
    | RecoverInterrupted(order: seq<JobId>)
    | RecoverStale(cutoff: Time, order: seq<JobId>)
    | Deliver(w: nat, j: JobId)
    | DeliverFails(w: nat, j: JobId)
    | Work(w: nat, work: WorkerStep)
    | TickStarts(t: nat)
    | Batching(t: nat, batching: TickStep)

  datatype Event = Event(at: Time, step: Step)

  // ---- a delivered task ----

  predicate CanWork(db: Db, worker: Worker, step: WorkerStep) {
    worker.job in db.jobs
    && match step
       case RecomputeStarted => worker.Started?
       case Prepare => worker.Running? && worker.seen == None
       case Complete(_) => worker.Running? && db.jobs[worker.job].status == JobStatus.Processing
       case StopRun =>
         worker.Running? && (Active(db.jobs[worker.job].status) || db.jobs[worker.job].status == JobStatus.Cancelled)
       case Stumble => true
       case FailRun(_) => true
       case WorkerDies => true
  }

  function WorkDb(db: Db, worker: Worker, step: WorkerStep, now: Time): Db
    requires CanWork(db, worker, step)
  {
    var j := worker.job;
    match step
    case RecomputeStarted => RecomputeFor(db, j, now)
    case Prepare => db.(jobs := db.jobs[j := SetStage(db.jobs[j], Prepared, now)])
    case Complete(output) => CompleteJob(db, j, output, now)
    case StopRun => CancelJob(db, j, now)
    case Stumble => db
    case FailRun(code) => if Active(db.jobs[j].status) then FailJob(db, j, code, now) else db
    case WorkerDies => db
  }

  function WorkerAfter(worker: Worker, step: WorkerStep): Option<Worker> {
    match step
    case RecomputeStarted => if worker.Started? then Some(Running(worker.job, worker.seen)) else None
    case Stumble => Some(Failing(worker.job))
    case _ => None
  }

  // ---- a tick ----

  predicate InStage(db: Db, ids: set<JobId>, stages: set<Stage>) {
    forall j | j in ids ::
      j in db.jobs && db.jobs[j].status == JobStatus.Processing && db.jobs[j].stage.Some?
      && db.jobs[j].stage.value in stages
  }

  /** What each query can have returned, and where in its code the tick must be. */
  predicate CanTick(db: Db, tick: Tick, step: TickStep) {
    match step
    case SelectStuck(ids) => tick.Idle? && InStage(db, ids, {Stage.Submitting, Stage.Finishing})
    case SelectLeftover(ids) => tick.Idle? && InStage(db, ids, {Prepared})
    case FallBackSelected => tick.FallingBack?
    case ClaimPrepared(ids) => tick.Idle? && InStage(db, ids, {Prepared})
    case SubmitAnswers(names) => tick.Submitting? && names.Keys <= tick.ids
    case SubmitFails => tick.Submitting?
    case SelectSubmitted(ids) => tick.Idle? && InStage(db, ids, {Submitted})
    case GiveUpBatch => tick.Collected?
    case ClaimFinish(j) => tick.Collected? && j in tick.ids && j in db.jobs && CanClaim(db.jobs[j], Submitted)
    case FinishCompletes(_) =>
      tick.Finishing? && tick.job in db.jobs && db.jobs[tick.job].status == JobStatus.Processing
    case FinishFails => tick.Finishing?
    case CollectEnds => tick.Collected?
    case TickDies => true
  }

  function FallBackAll(db: Db, ids: set<JobId>, now: Time): Db {
    db.(jobs := Update(db.jobs, ids, job => FallBack(job, now)))
  }

  function TickDb(db: Db, tick: Tick, step: TickStep, now: Time): Db
    requires CanTick(db, tick, step)
  {
    match step
    case FallBackSelected => FallBackAll(db, tick.ids, now)
    case ClaimPrepared(ids) => db.(jobs := Update(db.jobs, ids, job => SetStage(job, Stage.Submitting, now)))
    case SubmitAnswers(names) =>
      db.(jobs := map j | j in db.jobs :: if j in names then SetSubmitted(db.jobs[j], names[j], now) else db.jobs[j])
    case SubmitFails => FallBackAll(db, tick.ids, now)
    case GiveUpBatch => FallBackAll(db, tick.ids, now)
    case ClaimFinish(j) => db.(jobs := db.jobs[j := SetStage(db.jobs[j], Stage.Finishing, now)])
    case FinishCompletes(output) => CompleteJob(db, tick.job, output, now)
    case FinishFails => FallBackAll(db, {tick.job}, now)
    case _ => db
  }

  function TickAfter(tick: Tick, step: TickStep): Option<Tick> {
    match step
    case SelectStuck(ids) => Some(FallingBack(ids))
    case SelectLeftover(ids) => Some(FallingBack(ids))
    case ClaimPrepared(ids) => Some(Tick.Submitting(ids))
    case SelectSubmitted(ids) => Some(Collected(ids))
    case ClaimFinish(j) => if tick.Collected? then Some(Tick.Finishing(j, tick.ids - {j})) else None
    case FinishCompletes(_) => if tick.Finishing? then Some(Collected(tick.ids)) else None
    case FinishFails => if tick.Finishing? then Some(Collected(tick.ids)) else None
    case TickDies => None
    case _ => Some(Idle)
  }

  // ---- the whole system ----

  ghost predicate Can(s: System, step: Step) {
    match step
    case Upload(d, b, ids) => d !in s.db.documents && !HasJobs(s.db, d) && ids != {} && ids !! s.db.jobs.Keys
    case SubmitRaised(j) => j in s.db.jobs
    case StopBatch(b, order) => Lists(order, ActiveJobs(s.db.jobs, b))
    case Retry(j) => j in s.db.jobs && s.db.jobs[j].status in {JobStatus.Failed, JobStatus.Cancelled}
    case RecoverInterrupted(order) => Lists(order, InterruptedJobs(s.db.jobs))
    case RecoverStale(cutoff, order) => Lists(order, StaleJobs(s.db.jobs, cutoff))
    case RetryEnds(j) => j in s.retrying
    case RetrySubmitRaised(j) => j in s.retrying && j in s.db.jobs
    case Deliver(w, j) => w !in s.workers
    case DeliverFails(w, j) => w !in s.workers && j in s.db.jobs
    case Work(w, work) => w in s.workers && CanWork(s.db, s.workers[w], work)
    case TickStarts(t) => t !in s.ticks
    case Batching(t, batching) => t in s.ticks && CanTick(s.db, s.ticks[t], batching)
  }

  function NewJob(d: DocumentId, b: BatchId): Job {
    Job(JobStatus.Pending, None, None, None, None, None, None, None, Some(d), Some(b))
  }

  ghost function NextDb(s: System, step: Step, now: Time): Db
    requires Can(s, step)
  {
    match step
    case Upload(d, b, ids) =>
      s.db.(jobs := s.db.jobs + (map j | j in ids :: NewJob(d, b)),
            documents := s.db.documents[d := Document(b, DocumentStatus.Uploaded)])
    // Nothing holds the row across the upload's commit, so it is read, and guarded, again.
    case SubmitRaised(j) => if Active(s.db.jobs[j].status) then FailUnsubmitted(s.db, j, now) else s.db
    case StopBatch(b, order) => CancelBatch(s.db, b, order, now)
    case Retry(j) => RetryJob(s.db, j, now)
    case RetryEnds(j) => s.db
    // The session still holds the row it made PENDING, so this write passes its guard whatever the row says.
    case RetrySubmitRaised(j) => FailJob(s.db, j, "INTERNAL_PROCESSING_ERROR", now)
    case RecoverInterrupted(order) =>
      FailAll(s.db, InterruptedJobs(s.db.jobs), order, "PROCESS_INTERRUPTED", now)
    case RecoverStale(cutoff, order) =>
      FailAll(s.db, StaleJobs(s.db.jobs, cutoff), order, "PROCESS_STALLED", now)
    case Deliver(w, j) =>
      if j in s.db.jobs && s.db.jobs[j].status == JobStatus.Pending then StartJob(s.db, j, now) else s.db
    case DeliverFails(w, j) => s.db
    case Work(w, work) => WorkDb(s.db, s.workers[w], work, now)
    case TickStarts(t) => s.db
    case Batching(t, batching) => TickDb(s.db, s.ticks[t], batching, now)
  }

  function NextWorkers(s: System, step: Step): map<nat, Worker> {
    match step
    case Deliver(w, j) =>
      if j !in s.db.jobs || s.db.jobs[j].status == JobStatus.Cancelled then s.workers
      else if s.db.jobs[j].status == JobStatus.Pending then s.workers[w := Started(j, s.db.jobs[j].stage)]
      else s.workers[w := Failing(j)]
    case DeliverFails(w, j) => s.workers[w := Failing(j)]
    case Work(w, work) =>
      if w !in s.workers then s.workers
      else
        var after := WorkerAfter(s.workers[w], work);
        if after.Some? then s.workers[w := after.value] else s.workers - {w}
    case _ => s.workers
  }

  function NextTicks(s: System, step: Step): map<nat, Tick> {
    match step
    case TickStarts(t) => s.ticks[t := Idle]
    case Batching(t, batching) =>
      if t !in s.ticks then s.ticks
      else
        var after := TickAfter(s.ticks[t], batching);
        if after.Some? then s.ticks[t := after.value] else s.ticks - {t}
    case _ => s.ticks
  }

  function NextRetrying(s: System, step: Step): multiset<JobId> {
    match step
    case Retry(j) => s.retrying + multiset{j}
    case RetryEnds(j) => s.retrying - multiset{j}
    case RetrySubmitRaised(j) => s.retrying - multiset{j}
    case _ => s.retrying
  }

  ghost function Next(s: System, e: Event): System
    requires Can(s, e.step)
  {
    System(NextDb(s, e.step, e.at), NextWorkers(s, e.step), NextTicks(s, e.step), NextEpochs(s, e.step),
           NextRetrying(s, e.step))
  }

  ghost predicate IsRun(run: seq<System>, events: seq<Event>) {
    && |run| == |events| + 1
    && forall i :: 0 <= i < |events| ==> Can(run[i], events[i].step) && run[i + 1] == Next(run[i], events[i])
  }

  /** No jobs and no documents yet, and nothing running. */
  ghost predicate Init(s: System) {
    && s.db.jobs == map[] && s.db.documents == map[] && s.db.imports == multiset{}
    && s.workers == map[] && s.ticks == map[] && s.epochs == map[] && s.retrying == multiset{}
  }

  // ---- what a step does to one job ----

  datatype Move =
    | Keep
    | Start
    | SavePrepared
    | Done
    | Fail
    | Overwrite
    | Stop
    | Again
    | Claim(from: Stage, to: Stage)
    | SaveSubmitted
    | GoLive

  function WorkMove(db: Db, worker: Worker, step: WorkerStep, j: JobId): Move {
    if j != worker.job then Keep
    else match step
      case Prepare => SavePrepared
      case Complete(_) => Done
      case StopRun => Stop
      case FailRun(_) => if j in db.jobs && Active(db.jobs[j].status) then Fail else Keep
      case _ => Keep
  }

  function TickMove(tick: Tick, step: TickStep, j: JobId): Move {
    match step
    case FallBackSelected => if tick.FallingBack? && j in tick.ids then GoLive else Keep
    case ClaimPrepared(ids) => if j in ids then Claim(Prepared, Stage.Submitting) else Keep
    case SubmitAnswers(names) => if j in names then SaveSubmitted else Keep
    case SubmitFails => if tick.Submitting? && j in tick.ids then GoLive else Keep
    case GiveUpBatch => if tick.Collected? && j in tick.ids then GoLive else Keep
    case ClaimFinish(k) => if j == k then Claim(Submitted, Stage.Finishing) else Keep
    case FinishCompletes(_) => if tick.Finishing? && j == tick.job then Done else Keep
    case FinishFails => if tick.Finishing? && j == tick.job then GoLive else Keep
    case _ => Keep
  }

  function MoveOf(s: System, step: Step, j: JobId): Move {
    match step
    case SubmitRaised(k) => if j == k && j in s.db.jobs && Active(s.db.jobs[j].status) then Fail else Keep
    case RetrySubmitRaised(k) => if j == k then Overwrite else Keep
    case StopBatch(b, _) => if j in ActiveJobs(s.db.jobs, b) then Stop else Keep
    case Retry(k) => if j == k then Again else Keep
    case RecoverInterrupted(_) => if j in InterruptedJobs(s.db.jobs) then Fail else Keep
    case RecoverStale(cutoff, _) => if j in StaleJobs(s.db.jobs, cutoff) then Fail else Keep
    case Deliver(w, k) => if j == k && j in s.db.jobs && s.db.jobs[j].status == JobStatus.Pending then Start else Keep
    case Work(w, work) => if w in s.workers then WorkMove(s.db, s.workers[w], work, j) else Keep
    case Batching(t, batching) => if t in s.ticks then TickMove(s.ticks[t], batching, j) else Keep
    case _ => Keep
  }

  function Count(h: Epoch, move: Move): Epoch {
    match move
    case SavePrepared => h.(prepared := h.prepared + 1)
    case Claim(from, _) =>
      if from == Prepared then h.(listed := h.listed + 1) else h.(finishing := h.finishing + 1)
    case SaveSubmitted => h.(submitted := h.submitted + 1)
    case Again => Epoch(0, 0, 0, 0)
    case _ => h
  }

  function NextEpochs(s: System, step: Step): map<JobId, Epoch> {
    var counted := map j | j in s.epochs :: Count(s.epochs[j], MoveOf(s, step, j));
    if step.Upload? then counted + (map j | j in step.ids :: Epoch(0, 0, 0, 0)) else counted
  }

  predicate Moves(move: Move, a: Job, b: Job) {
    && b.document == a.document && b.batch == a.batch
    && match move
       case Keep => b == a
       case Start => a.status == JobStatus.Pending && b.status == JobStatus.Processing && b.stage == a.stage
       case SavePrepared => b.status == a.status && b.stage == Some(Prepared)
       case Done => a.status == JobStatus.Processing && b.status == JobStatus.Completed && b.stage == a.stage
       case Fail => Active(a.status) && b.status == JobStatus.Failed && b.stage == a.stage
       case Overwrite => b.status == JobStatus.Failed && b.stage == a.stage
       case Stop =>
         (Active(a.status) || a.status == JobStatus.Cancelled) && b.status == JobStatus.Cancelled && b.stage == a.stage
       case Again =>
         a.status in {JobStatus.Failed, JobStatus.Cancelled} && b.status == JobStatus.Pending && b.stage == None
       case Claim(from, to) =>
         a.status == JobStatus.Processing && b.status == a.status && a.stage == Some(from) && b.stage == Some(to)
       case SaveSubmitted => b.status == a.status && b.stage == Some(Submitted)
       case GoLive =>
         if a.status == JobStatus.Processing then b.status == JobStatus.Pending && b.stage == Some(Sync) else b == a
  }

  ghost predicate MovedBy(db: Db, db': Db, move: Move, j: JobId) {
    && (j in db.jobs ==> j in db'.jobs && Moves(move, db.jobs[j], db'.jobs[j]))
    && (j !in db.jobs ==> j !in db'.jobs)
    && db'.imports[j] == db.imports[j] + if move == Done then 1 else 0
  }

  lemma WorkMoves(db: Db, worker: Worker, step: WorkerStep, now: Time, j: JobId)
    requires CanWork(db, worker, step)
    ensures MovedBy(db, WorkDb(db, worker, step, now), WorkMove(db, worker, step, j), j)
  {
    hide RecomputeDocument, RecomputeBatch;
  }

  lemma TickMoves(db: Db, tick: Tick, step: TickStep, now: Time, j: JobId)
    requires CanTick(db, tick, step)
    ensures MovedBy(db, TickDb(db, tick, step, now), TickMove(tick, step, j), j)
  {
    hide RecomputeDocument, RecomputeBatch;
  }

  lemma WritesOneRow(db: Db, j: JobId, job: Job, now: Time)
    requires j in db.jobs
    ensures var r := WriteAndRecompute(db, j, job, now); r.jobs == db.jobs[j := job] && r.imports == db.imports
  {
    hide RecomputeDocument, RecomputeBatch;
  }

  /** The requests and recoveries that write one row or many. */
  lemma RequestMoves(s: System, e: Event, j: JobId)
    requires Can(s, e.step) && !e.step.Upload? && !e.step.Work? && !e.step.Batching?
    ensures MovedBy(s.db, NextDb(s, e.step, e.at), MoveOf(s, e.step, j), j)
  {
    hide RecomputeDocument, RecomputeBatch, RecomputeDocuments, RecomputeForJobs, WorkDb, TickDb, WorkMove, TickMove,
      WriteAndRecompute;
    match e.step
    case RetrySubmitRaised(k) =>
      WritesOneRow(s.db, k, MarkFailed(s.db.jobs[k], "INTERNAL_PROCESSING_ERROR", e.at), e.at);
    case Retry(k) => WritesOneRow(s.db, k, MarkPendingForRetry(s.db.jobs[k]), e.at);
    case _ =>
  }

  /** Each step does to every job exactly the move named for it, and imports exactly the jobs
      it completes; only an upload adds jobs. */
  lemma StepMoves(s: System, e: Event, j: JobId)
    requires Can(s, e.step) && !(e.step.Upload? && j in e.step.ids)
    ensures MovedBy(s.db, Next(s, e).db, MoveOf(s, e.step, j), j)
  {
    hide WorkDb, TickDb, WorkMove, TickMove, CanWork, CanTick, NextWorkers, NextTicks, NextEpochs, NextRetrying;
    match e.step
    case Upload(d, b, ids) =>
    case Work(w, work) => WorkMoves(s.db, s.workers[w], work, e.at, j);
    case Batching(t, batching) => TickMoves(s.db, s.ticks[t], batching, e.at, j);
    case _ =>
      RequestMoves(s, e, j);
  }

  /** A restart and a periodic recovery as steps, in columns: a job that waits on Google is left alone. */
  lemma RecoveriesSpareWaiting(s: System, e: Event)
    requires Can(s, e.step)
    ensures e.step.RecoverInterrupted? ==> FailedInterrupted(s.db.jobs, Next(s, e).db.jobs, e.at)
    ensures e.step.RecoverStale? ==> FailedStale(s.db.jobs, Next(s, e).db.jobs, e.step.cutoff, e.at)
  {
    hide NextWorkers, NextTicks, NextEpochs, NextRetrying, RecomputeForJobs, RecomputeDocuments, RecomputeDocument,
      RecomputeBatch, WorkDb, TickDb, CanWork, CanTick, WriteAndRecompute;
  }

  lemma StepKeepsRows(s: System, e: Event)
    requires Can(s, e.step) && !e.step.Upload?
    ensures Next(s, e).db.jobs.Keys == s.db.jobs.Keys
  {
    hide NextDb, NextWorkers, NextTicks, NextEpochs, MoveOf;
    var db' := Next(s, e).db;
    forall j: JobId ensures j in s.db.jobs <==> j in db'.jobs {
      StepMoves(s, e, j);
    }
  }
}
