/** A run after which a batch stays PROCESSING although both its documents are PROCESSED: one page of
    each has been completed, the other is being read when the process is restarted. */
module BatchScenario {
  import opened Wrappers
  import opened JobModel
  import opened JobSystem
  import opened BatchRollUp
  import opened JobScenarios
  import RollUp

  predicate Page(job: Job, j: JobId, status: JobStatus) {
    job.status == status && job.stage == None && job.document == Some(j / 2) && job.batch == Some(0)
  }

  /** Batch 0 has documents 0 and 1; their pages are the jobs 0 and 1, and 2 and 3. */
  ghost predicate Pages(s: System, statuses: map<JobId, JobStatus>, workers: map<nat, Worker>) {
    && s.db.jobs.Keys == statuses.Keys == {0, 1, 2, 3} && s.workers == workers && s.ticks == map[] && 0 in s.db.batches
    && forall j :: j in s.db.jobs ==> Page(s.db.jobs[j], j, statuses[j])
  }

  lemma StepKeepsBatches(s: System, e: Event)
    requires Can(s, e.step)
    ensures Next(s, e).db.batches.Keys == s.db.batches.Keys
  {
    hide WorkDb, TickDb, CanWork, CanTick, NextWorkers, NextTicks, NextEpochs, NextRetrying;
    match e.step
    case Work(w, work) => WorkKeepsBatches(s.db, s.workers[w], work, e.at);
    case Batching(t, batching) => TickKeepsBatches(s.db, s.ticks[t], batching, e.at);
    case _ => RequestKeepsBatches(s, e);
  }

  lemma RowWriteKeepsBatches(db: Db, j: JobId, job: Job, now: Time)
    requires j in db.jobs
    ensures WriteAndRecompute(db, j, job, now).batches.Keys == db.batches.Keys
  {
    hide RecomputeDocument, RecomputeBatch;
  }

  lemma WorkKeepsBatches(db: Db, worker: Worker, step: WorkerStep, now: Time)
    requires CanWork(db, worker, step)
    ensures WorkDb(db, worker, step, now).batches.Keys == db.batches.Keys
  {
    hide RecomputeDocument, RecomputeBatch;
  }

  lemma TickKeepsBatches(db: Db, tick: Tick, step: TickStep, now: Time)
    requires CanTick(db, tick, step)
    ensures TickDb(db, tick, step, now).batches.Keys == db.batches.Keys
  {
    hide RecomputeDocument, RecomputeBatch;
  }

  lemma {:induction false} RecomputeKeepsBatches(db: Db, jobs: seq<JobId>, seenD: set<DocumentId>, seenB: set<BatchId>,
                                                 now: Time)
    requires forall j :: j in jobs ==> j in db.jobs
    ensures RecomputeForJobs(db, jobs, seenD, seenB, now).batches.Keys == db.batches.Keys
    decreases |jobs|
  {
    hide RecomputeDocument, RecomputeBatch;
    if jobs != [] {
      var job := db.jobs[jobs[0]];
      var newD := job.document.Some? && job.document.value !in seenD;
      var newB := job.batch.Some? && job.batch.value !in seenB;
      var db1 := if newD then RecomputeDocument(db, job.document.value) else db;
      var db2 := if newB then RecomputeBatch(db1, job.batch.value, now) else db1;
      RecomputeKeepsBatches(db2, jobs[1..], if newD then seenD + {job.document.value} else seenD,
                            if newB then seenB + {job.batch.value} else seenB, now);
    }
  }

  lemma RequestKeepsBatches(s: System, e: Event)
    requires Can(s, e.step) && !e.step.Work? && !e.step.Batching?
    ensures NextDb(s, e.step, e.at).batches.Keys == s.db.batches.Keys
  {
    hide RecomputeDocument, RecomputeBatch, RecomputeDocuments, RecomputeForJobs, WorkDb, TickDb,
      WriteAndRecompute, HasJobs, FailAll;
    match e.step
    case RetrySubmitRaised(k) =>
      RowWriteKeepsBatches(s.db, k, MarkFailed(s.db.jobs[k], "INTERNAL_PROCESSING_ERROR", e.at), e.at);
    case Retry(k) => RowWriteKeepsBatches(s.db, k, MarkPendingForRetry(s.db.jobs[k]), e.at);
    case RecoverInterrupted(order) =>
      FailAllKeepsBatches(s.db, InterruptedJobs(s.db.jobs), order, "PROCESS_INTERRUPTED", e.at);
    case RecoverStale(cutoff, order) =>
      FailAllKeepsBatches(s.db, StaleJobs(s.db.jobs, cutoff), order, "PROCESS_STALLED", e.at);
    case _ =>
  }

  lemma FailAllKeepsBatches(db: Db, ids: set<JobId>, order: seq<JobId>, code: string, now: Time)
    requires forall j :: j in order ==> j in db.jobs
    ensures FailAll(db, ids, order, code, now).batches.Keys == db.batches.Keys
  {
    hide RecomputeForJobs;
    RecomputeKeepsBatches(db.(jobs := Update(db.jobs, ids, job => MarkFailed(job, code, now))), order, {}, {}, now);
  }

  // ---- the run ----

  /** One more step, at time 0. */
  lemma OneStep(run: seq<System>, events: seq<Event>, step: Step, before: map<JobId, JobStatus>,
                after: map<JobId, JobStatus>, workers: map<nat, Worker>)
    returns (run': seq<System>, events': seq<Event>)
    requires Reaches(run, events) && |run| == |events| + 1 && Pages(run[|events|], before, workers) && after.Keys == before.Keys
    requires Can(run[|events|], step) && !step.Upload? && NextTicks(run[|events|], step) == map[]
    requires forall j :: j in before ==> LeadsTo(MoveOf(run[|events|], step, j), run[|events|].db.jobs[j], after[j], None)
    ensures Reaches(run', events') && |run'| == |events'| + 1 && Pages(run'[|events'|], after, NextWorkers(run[|events|], step))
    ensures run' == run + [Next(run[|events|], Event(0, step))] && events' == events + [Event(0, step)]
  {
    hide NextDb, NextWorkers, NextEpochs, NextRetrying, MoveOf, Can, Moves, LeadsTo;
    var s, e := run[|events|], Event(0, step);
    StepKeepsRows(s, e);
    StepKeepsBatches(s, e);
    forall j | j in s.db.jobs ensures Page(Next(s, e).db.jobs[j], j, after[j]) {
      StepMoves(s, e, j);
      Arrives(MoveOf(s, step, j), s.db.jobs[j], Next(s, e).db.jobs[j], after[j], None);
      SameLinks(MoveOf(s, step, j), s.db.jobs[j], Next(s, e).db.jobs[j]);
    }
    run', events' := run + [Next(s, e)], events + [e];
  }

  lemma SameLinks(move: Move, a: Job, b: Job)
    requires Moves(move, a, b)
    ensures b.document == a.document && b.batch == a.batch
  {
  }

  lemma UploadStep(s: System, d: DocumentId, ids: set<JobId>)
    requires d !in s.db.documents && ids != {} && ids !! s.db.jobs.Keys
    requires forall j :: j in s.db.jobs ==> s.db.jobs[j].document != Some(d)
    ensures Can(s, Upload(d, 0, ids))
    ensures var s' := Next(s, Event(0, Upload(d, 0, ids)));
      && s'.db.jobs == s.db.jobs + (map j | j in ids :: NewJob(d, 0))
      && s'.db.documents == s.db.documents[d := Document(0, DocumentStatus.Uploaded)]
      && s'.db.batches == s.db.batches && s'.workers == s.workers && s'.ticks == s.ticks
  {
    hide HasJobs, NextEpochs;
    NoJobsYet(s.db, d);
  }

  lemma Uploads() returns (run: seq<System>, events: seq<Event>)
    ensures Reaches(run, events) && |run| == |events| + 1
    ensures Pages(run[|events|], map[0 := JobStatus.Pending, 1 := JobStatus.Pending, 2 := JobStatus.Pending,
                                     3 := JobStatus.Pending], map[])
  {
    hide Next, Can;
    var s0 := System(Db(map[], map[], map[0 := Batch(BatchStatus.Draft, None, None)], multiset{}), map[], map[], map[],
                     multiset{});
    var e0, e1 := Event(0, Upload(0, 0, {0, 1})), Event(0, Upload(1, 0, {2, 3}));
    assert 0 in e0.step.ids && 2 in e1.step.ids;
    UploadStep(s0, 0, {0, 1});
    var s1 := Next(s0, e0);
    assert s1.db.jobs == map[0 := NewJob(0, 0), 1 := NewJob(0, 0)];
    UploadStep(s1, 1, {2, 3});
    var s2 := Next(s1, e1);
    assert s2.db.jobs == map[0 := NewJob(0, 0), 1 := NewJob(0, 0), 2 := NewJob(1, 0), 3 := NewJob(1, 0)];
    run, events := [s0, s1, s2], [e0, e1];
  }

  lemma NoJobsYet(db: Db, d: DocumentId)
    requires forall j :: j in db.jobs ==> db.jobs[j].document != Some(d)
    ensures !HasJobs(db, d)
  {
  }

  /** Worker `j` takes page `j`. */
  lemma PageStarted(run: seq<System>, events: seq<Event>, j: JobId, statuses: map<JobId, JobStatus>,
                    workers: map<nat, Worker>)
    returns (run': seq<System>, events': seq<Event>)
    requires Reaches(run, events) && |run| == |events| + 1 && Pages(run[|events|], statuses, workers)
    requires j in statuses && statuses[j] == JobStatus.Pending && j !in workers
    ensures Reaches(run', events') && |run'| == |events'| + 1
    ensures Pages(run'[|events'|], statuses[j := JobStatus.Processing], workers[j := Started(j, None)])
  {
    hide NextDb, NextEpochs, Reaches;
    var s := run[|events|];
    assert Page(s.db.jobs[j], j, statuses[j]);
    run', events' := OneStep(run, events, Deliver(j, j), statuses, statuses[j := JobStatus.Processing], workers);
  }

  lemma PageRunning(run: seq<System>, events: seq<Event>, j: JobId, statuses: map<JobId, JobStatus>)
    returns (run': seq<System>, events': seq<Event>)
    requires Reaches(run, events) && |run| == |events| + 1 && Pages(run[|events|], statuses, map[j := Started(j, None)])
    requires j in statuses && statuses[j] == JobStatus.Processing
    ensures Reaches(run', events') && |run'| == |events'| + 1
    ensures Pages(run'[|events'|], statuses, map[j := Running(j, None)])
  {
    hide NextDb, NextEpochs, Reaches;
    ghost var workers := map[j := Started(j, None)];
    run', events' := OneStep(run, events, Work(j, RecomputeStarted), statuses, statuses, workers);
    assert workers[j := Running(j, None)] == map[j := Running(j, None)];
  }

  lemma PageDone(run: seq<System>, events: seq<Event>, j: JobId, statuses: map<JobId, JobStatus>)
    returns (run': seq<System>, events': seq<Event>)
    requires Reaches(run, events) && |run| == |events| + 1 && Pages(run[|events|], statuses, map[j := Running(j, None)])
    requires j in statuses && statuses[j] == JobStatus.Processing
    ensures Reaches(run', events') && |run'| == |events'| + 1
    ensures Pages(run'[|events'|], statuses[j := JobStatus.Completed], map[])
  {
    hide NextDb, NextEpochs, Reaches;
    ghost var workers := map[j := Running(j, None)];
    assert Page(run[|events|].db.jobs[j], j, statuses[j]);
    run', events' :=
      OneStep(run, events, Work(j, Complete("result.xlsx")), statuses, statuses[j := JobStatus.Completed], workers);
    assert workers - {j} == map[];
  }

  /** Worker `j` takes page `j` and completes it. */
  lemma PageCompleted(run: seq<System>, events: seq<Event>, j: JobId, statuses: map<JobId, JobStatus>)
    returns (run': seq<System>, events': seq<Event>)
    requires Reaches(run, events) && |run| == |events| + 1 && Pages(run[|events|], statuses, map[])
    requires j in statuses && statuses[j] == JobStatus.Pending
    ensures Reaches(run', events') && |run'| == |events'| + 1
    ensures Pages(run'[|events'|], statuses[j := JobStatus.Completed], map[])
  {
    hide Reaches, Pages;
    ghost var started := statuses[j := JobStatus.Processing];
    run', events' := PageStarted(run, events, j, statuses, map[]);
    assert map[][j := Started(j, None)] == map[j := Started(j, None)];
    run', events' := PageRunning(run', events', j, started);
    run', events' := PageDone(run', events', j, started);
    assert started[j := JobStatus.Completed] == statuses[j := JobStatus.Completed];
  }

  /** The restart finds page 1 of document 0 and page 3 of document 1 running. */
  lemma BothInterrupted() returns (run: seq<System>, events: seq<Event>)
    ensures Reaches(run, events) && |run| == |events| + 1
    ensures Pages(run[|events|], Interrupted(), Readers())
  {
    hide Reaches, Pages;
    var all := map[0 := JobStatus.Pending, 1 := JobStatus.Pending, 2 := JobStatus.Pending, 3 := JobStatus.Pending];
    run, events := Uploads();
    run, events := PageCompleted(run, events, 0, all);
    run, events := PageCompleted(run, events, 2, all[0 := JobStatus.Completed]);
    var half := all[0 := JobStatus.Completed][2 := JobStatus.Completed];
    run, events := PageStarted(run, events, 1, half, map[]);
    assert map[][1 := Started(1, None)] == map[1 := Started(1, None)];
    run, events := PageStarted(run, events, 3, half[1 := JobStatus.Processing], map[1 := Started(1, None)]);
    assert half[1 := JobStatus.Processing][3 := JobStatus.Processing]
        == Interrupted();
    assert map[1 := Started(1, None)][3 := Started(3, None)] == Readers();
  }

  lemma Documents(s: System, statuses: map<JobId, JobStatus>, workers: map<nat, Worker>)
    requires Pages(s, statuses, workers) && RollUp.Linked(s.db)
    ensures s.db.documents.Keys == {0, 1} && s.db.documents[0].batch == 0 == s.db.documents[1].batch
  {
    assert Page(s.db.jobs[0], 0, statuses[0]) && Page(s.db.jobs[2], 2, statuses[2]);
    forall d | d in s.db.documents ensures d == 0 || d == 1 {
      assert HasJobs(s.db, d);
      var j :| j in s.db.jobs && s.db.jobs[j].document == Some(d);
      assert Page(s.db.jobs[j], j, statuses[j]);
    }
  }

  /** With a page completed and the other not, a document is PROCESSING while that one runs, and PROCESSED
      once it has failed. */
  lemma HalfDone(db: Db, d: DocumentId, j: JobId, k: JobId)
    requires AllAgree(db) && d in db.documents && j in db.jobs && k in db.jobs
    requires db.jobs[j].document == Some(d) == db.jobs[k].document && db.jobs[j].status == JobStatus.Completed
    requires forall i :: i in db.jobs && db.jobs[i].document == Some(d) ==> i == j || i == k
    ensures db.jobs[k].status == JobStatus.Processing ==> db.documents[d].status == DocumentStatus.Processing
    ensures db.jobs[k].status == JobStatus.Failed ==> db.documents[d].status == DocumentStatus.Processed
  {
    hide AggregateDocument;
    var statuses := StatusesOf(db.jobs, d);
    assert db.jobs[j].status in statuses && db.jobs[k].status in statuses;
    assert Agrees(db, d);
    assert statuses == {db.jobs[j].status, db.jobs[k].status};
    AggregateDocumentMeaning(statuses);
  }

  lemma PagesOf(s: System, statuses: map<JobId, JobStatus>, workers: map<nat, Worker>, d: DocumentId)
    requires Pages(s, statuses, workers) && d < 2
    ensures var j, k := 2 * d, 2 * d + 1;
      && j in s.db.jobs && k in s.db.jobs && s.db.jobs[j].document == Some(d) == s.db.jobs[k].document
      && s.db.jobs[j].status == statuses[j] && s.db.jobs[k].status == statuses[k]
      && forall i :: i in s.db.jobs && s.db.jobs[i].document == Some(d) ==> i == j || i == k
  {
    assert Page(s.db.jobs[2 * d], 2 * d, statuses[2 * d]) && Page(s.db.jobs[2 * d + 1], 2 * d + 1, statuses[2 * d + 1]);
    forall i | i in s.db.jobs && s.db.jobs[i].document == Some(d) ensures i == 2 * d || i == 2 * d + 1 {
      assert Page(s.db.jobs[i], i, statuses[i]);
    }
  }

  function Interrupted(): map<JobId, JobStatus> {
    map[0 := JobStatus.Completed, 1 := JobStatus.Processing, 2 := JobStatus.Completed, 3 := JobStatus.Processing]
  }

  function Ended(): map<JobId, JobStatus> {
    map[0 := JobStatus.Completed, 1 := JobStatus.Failed, 2 := JobStatus.Completed, 3 := JobStatus.Failed]
  }

  function Readers(): map<nat, Worker> {
    map[1 := Started(1, None), 3 := Started(3, None)]
  }

  lemma TwoRunning(s: System)
    requires Pages(s, Interrupted(), Readers())
    ensures InterruptedJobs(s.db.jobs) == {1, 3} && Lists([1, 3], {1, 3})
    ensures s.db.jobs[1].batch == Some(0) && s.db.jobs[1].document == Some(0)
  {
    forall j | j in s.db.jobs ensures Page(s.db.jobs[j], j, Interrupted()[j]) {
    }
  }

  lemma HalfFails(db: Db, ids: set<JobId>, d: DocumentId, j: JobId, k: JobId)
    requires j in db.jobs && k in db.jobs && j !in ids && k in ids
    requires db.jobs[j].document == Some(d) == db.jobs[k].document && db.jobs[j].status == JobStatus.Completed
    requires forall i :: i in db.jobs && db.jobs[i].document == Some(d) ==> i == j || i == k
    ensures Hit(db, ids, d) && !AllFail(db, ids, d) && !StaysActive(db, ids, d)
  {
  }

  /** What the recovery will do to a document. */
  lemma OneOfTwoFails(s: System, d: DocumentId)
    requires AllAgree(s.db) && RollUp.Linked(s.db) && Pages(s, Interrupted(), Readers()) && d < 2
    ensures Hit(s.db, {1, 3}, d) && !AllFail(s.db, {1, 3}, d) && !StaysActive(s.db, {1, 3}, d)
    ensures d in s.db.documents && s.db.documents[d] == Document(0, DocumentStatus.Processing)
  {
    hide AllAgree, RollUp.Linked, Pages, Readers, Hit, AllFail, StaysActive;
    Documents(s, Interrupted(), Readers());
    PagesOf(s, Interrupted(), Readers(), d);
    assert Interrupted()[2 * d] == JobStatus.Completed && Interrupted()[2 * d + 1] == JobStatus.Processing;
    HalfDone(s.db, d, 2 * d, 2 * d + 1);
    HalfFails(s.db, {1, 3}, d, 2 * d, 2 * d + 1);
  }

  lemma HasRows(s: System)
    requires Pages(s, Interrupted(), Readers())
    ensures s.db.jobs.Keys == {0, 1, 2, 3} && 0 in s.db.batches
    ensures s.db.jobs[1].status == JobStatus.Processing == s.db.jobs[3].status
  {
    assert Page(s.db.jobs[1], 1, Interrupted()[1]) && Page(s.db.jobs[3], 3, Interrupted()[3]);
  }

  /** Why this batch is not seen in time. */
  lemma SeenTooEarly(s: System, now: Time)
    requires AllAgree(s.db) && RollUp.Linked(s.db) && Pages(s, Interrupted(), Readers())
    ensures !SeenInTime(s.db, {1, 3}, 0, 0)
    ensures var r := FailAll(s.db, {1, 3}, [1, 3], "PROCESS_INTERRUPTED", now);
      0 in r.batches && r.batches[0].status == BatchStatus.Processing
  {
    hide AllAgree, RollUp.Linked, DocumentsAfter, RecomputeForJobs, AggregateBatch, DocumentStatuses, Hit, AllFail,
      StaysActive, Lists, SomeFailed, SomeBlocks, Pages, Interrupted, Readers;
    HasRows(s);
    var db, ids, order := s.db, {1, 3}, [1, 3];
    Documents(s, Interrupted(), Readers());
    OneOfTwoFails(s, 0);
    OneOfTwoFails(s, 1);
    TwoRunning(s);
    assert Later(db, ids, 0, 0, 1);
    assert order[0] == 1;
    var failed := FailedRows(db, ids, "PROCESS_INTERRUPTED", now);
    var seen := DocumentsAfter(failed, order[..0 + 1], {});
    SeenAndLeft(db, ids, order, "PROCESS_INTERRUPTED", now, 0, 0, 0);
    SameRows(failed, order[..0 + 1]);
    NotEmpty(seen, 0, 0);
    BatchOf(seen, 0);
    RecoveredBatch(failed, order, now, 0, 0);
  }

  lemma BothEnded(s: System)
    requires AllAgree(s.db) && RollUp.Linked(s.db) && Pages(s, Ended(), Readers())
    ensures s.db.documents.Keys == {0, 1}
    ensures forall d :: d in s.db.documents ==> s.db.documents[d] == Document(0, DocumentStatus.Processed)
    ensures forall j :: j in s.db.jobs ==> !Active(s.db.jobs[j].status)
  {
    hide AllAgree, RollUp.Linked, Readers;
    forall j | j in s.db.jobs ensures !Active(s.db.jobs[j].status) {
      assert Page(s.db.jobs[j], j, Ended()[j]);
    }
    hide Pages;
    Documents(s, Ended(), Readers());
    forall d | d in s.db.documents ensures s.db.documents[d] == Document(0, DocumentStatus.Processed) {
      PagesOf(s, Ended(), Readers(), d);
      assert Ended()[2 * d] == JobStatus.Completed && Ended()[2 * d + 1] == JobStatus.Failed;
      HalfDone(s.db, d, 2 * d, 2 * d + 1);
    }
  }

  lemma RecoveryMoves(s: System, step: Step)
    requires Pages(s, Interrupted(), Readers()) && step == RecoverInterrupted([1, 3])
    ensures Can(s, step) && NextTicks(s, step) == map[] && NextWorkers(s, step) == Readers()
    ensures forall j :: j in Interrupted() ==> LeadsTo(MoveOf(s, step, j), s.db.jobs[j], Ended()[j], None)
    ensures forall now :: NextDb(s, step, now) == FailAll(s.db, {1, 3}, [1, 3], "PROCESS_INTERRUPTED", now)
  {
    hide FailAll;
    TwoRunning(s);
    forall j | j in s.db.jobs ensures Page(s.db.jobs[j], j, Interrupted()[j]) {
    }
  }

  /** The restart ends both running pages, and with them both documents; the batch, recomputed between
      the two, stays PROCESSING, and no job is left that would recompute it. */
  lemma BatchStaysProcessing() returns (run: seq<System>, events: seq<Event>)
    ensures Reaches(run, events) && |run| == |events| + 1
    ensures var db := run[|events|].db;
      && db.documents.Keys == {0, 1}
      && (forall d :: d in db.documents ==> db.documents[d] == Document(0, DocumentStatus.Processed))
      && (forall j :: j in db.jobs ==> !Active(db.jobs[j].status))
      && 0 in db.batches && db.batches[0].status == BatchStatus.Processing
  {
    hide Reaches, Pages, NextDb, NextWorkers, NextTicks, NextEpochs, NextRetrying, FailAll, AllAgree, RollUp.Linked, Can,
      MoveOf, LeadsTo, SeenInTime;
    run, events := BothInterrupted();
    ghost var s, step := run[|events|], RecoverInterrupted([1, 3]);
    AgreesAtEnd(run, events);
    SeenTooEarly(s, 0);
    RecoveryMoves(s, step);
    run, events := OneStep(run, events, step, Interrupted(), Ended(), Readers());
    AgreesAtEnd(run, events);
    BothEnded(run[|events|]);
  }

  lemma AgreesAtEnd(run: seq<System>, events: seq<Event>)
    requires Reaches(run, events) && |run| == |events| + 1
    ensures AllAgree(run[|events|].db) && RollUp.Linked(run[|events|].db)
  {
    RollUp.DocumentsAgree(run, events, |events|);
  }
}
