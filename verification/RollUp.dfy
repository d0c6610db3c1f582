/** Document statuses follow the jobs over every run, and what "Stop processing" leaves behind. */
module RollUp {
  import opened Wrappers
  import opened JobModel
  import opened JobSystem

  /** Rows are linked as uploads create them: a job belongs to a document of its batch, and
      every document has a job. */
  ghost predicate Linked(db: Db) {
    && (forall d :: d in db.documents ==> HasJobs(db, d))
    && (forall j :: j in db.jobs ==>
          && db.jobs[j].document.Some? && db.jobs[j].document.value in db.documents
          && db.jobs[j].batch == Some(db.documents[db.jobs[j].document.value].batch))
  }

  lemma WorkAgrees(db: Db, worker: Worker, step: WorkerStep, now: Time)
    requires CanWork(db, worker, step) && AllAgree(db)
    ensures AllAgree(WorkDb(db, worker, step, now))
  {
    hide AllAgree, RecomputeDocument, RecomputeBatch;
    var j := worker.job;
    match step
    case RecomputeStarted =>
      RecomputeAgrees(db, j, now);
    case Prepare =>
      SameClassesAgree(db, WorkDb(db, worker, step, now));
    case Complete(output) =>
      CompleteAgrees(db, j, output, now);
    case StopRun =>
      WriteAndRecomputeAgrees(db, j, MarkCancelled(db.jobs[j], now), now);
    case FailRun(code) =>
      WriteAndRecomputeAgrees(db, j, MarkFailed(db.jobs[j], code, now), now);
    case _ =>
  }

  lemma CompleteAgrees(db: Db, j: JobId, output: string, now: Time)
    requires AllAgree(db) && j in db.jobs
    ensures AllAgree(CompleteJob(db, j, output, now))
  {
    hide AllAgree;
    WriteAndRecomputeAgrees(db, j, MarkCompleted(db.jobs[j], output, now), now);
    ImportsDoNotMatter(WriteAndRecompute(db, j, MarkCompleted(db.jobs[j], output, now), now),
                       CompleteJob(db, j, output, now));
  }

  lemma UnsubmittedAgrees(db: Db, j: JobId, now: Time)
    requires AllAgree(db) && j in db.jobs
    ensures AllAgree(FailUnsubmitted(db, j, now))
  {
    hide AllAgree;
    var failed := MarkFailed(db.jobs[j], "INTERNAL_PROCESSING_ERROR", now);
    WriteAndRecomputeAgrees(db, j, failed, now);
    ImportsDoNotMatter(WriteAndRecompute(db, j, failed, now), FailUnsubmitted(db, j, now));
  }

  lemma ImportsDoNotMatter(db: Db, db': Db)
    requires AllAgree(db) && db'.jobs == db.jobs && db'.documents == db.documents
    ensures AllAgree(db')
  {
  }

  lemma RecomputeAgrees(db: Db, j: JobId, now: Time)
    requires j in db.jobs && AllAgree(db)
    ensures AllAgree(RecomputeFor(db, j, now))
  {
  }

  lemma TickAgrees(db: Db, tick: Tick, step: TickStep, now: Time)
    requires CanTick(db, tick, step) && AllAgree(db)
    ensures AllAgree(TickDb(db, tick, step, now))
  {
    hide AllAgree, RecomputeDocument, RecomputeBatch;
    if step.FinishCompletes? {
      CompleteAgrees(db, tick.job, step.output, now);
    } else {
      SameClassesAgree(db, TickDb(db, tick, step, now));
    }
  }

  lemma BulkAgrees(db: Db, jobs': map<JobId, Job>, ids: set<JobId>, order: seq<JobId>, db': Db)
    requires AllAgree(db) && Lists(order, ids) && ids <= db.jobs.Keys && jobs'.Keys == db.jobs.Keys
    requires forall j :: j in db.jobs ==> jobs'[j].document == db.jobs[j].document && (j !in ids ==> jobs'[j] == db.jobs[j])
    requires db'.jobs == jobs' && db'.documents.Keys == db.documents.Keys
    requires forall d :: d in db.documents ==>
      db'.documents[d] == (if Touches(jobs', order, d) then Recomputed(db.(jobs := jobs'), d) else db.documents[d])
    ensures AllAgree(db')
  {
    forall d | d in db'.documents
      ensures || (HasJobs(db', d) && db'.documents[d].status == AggregateDocument(StatusesOf(db'.jobs, d)))
              || (db'.documents[d].status == db.documents[d].status && SameForRollUp(db.jobs, db'.jobs, d))
    {
      if Touches(jobs', order, d) {
        var j :| j in order && j in jobs' && jobs'[j].document == Some(d);
        assert jobs'[j].status in StatusesOf(jobs', d);
      } else {
        assert SameForRollUp(db.jobs, db'.jobs, d);
      }
    }
    AgreementKept(db, db');
  }

  lemma CancelBatchAgrees(db: Db, b: BatchId, order: seq<JobId>, now: Time)
    requires AllAgree(db) && Lists(order, ActiveJobs(db.jobs, b))
    ensures AllAgree(CancelBatch(db, b, order, now))
  {
    hide AllAgree, RecomputeBatch, RecomputeDocuments;
    var ids := ActiveJobs(db.jobs, b);
    var cancelled := db.(jobs := Update(db.jobs, ids, job => MarkCancelled(job, now)));
    RecomputeDocumentsEffect(cancelled, order, {});
    BulkAgrees(db, cancelled.jobs, ids, order, CancelBatch(db, b, order, now));
  }

  lemma FailAllAgrees(db: Db, ids: set<JobId>, order: seq<JobId>, code: string, now: Time)
    requires AllAgree(db) && Lists(order, ids) && ids <= db.jobs.Keys
    ensures AllAgree(FailAll(db, ids, order, code, now))
  {
    hide AllAgree, RecomputeForJobs;
    var failed := db.(jobs := Update(db.jobs, ids, job => MarkFailed(job, code, now)));
    forall d | d in db.documents
      ensures FailAll(db, ids, order, code, now).documents[d]
           == if Touches(failed.jobs, order, d) then Recomputed(failed, d) else db.documents[d]
    {
      RecomputeForJobsEffect(failed, order, {}, {}, now, d);
    }
    BulkAgrees(db, failed.jobs, ids, order, FailAll(db, ids, order, code, now));
  }

  ghost predicate Uploaded(db: Db, db': Db, d0: DocumentId, b: BatchId, ids: set<JobId>) {
    && d0 !in db.documents && !HasJobs(db, d0) && ids != {} && ids !! db.jobs.Keys
    && db'.jobs == db.jobs + (map j | j in ids :: NewJob(d0, b))
    && db'.documents == db.documents[d0 := Document(b, DocumentStatus.Uploaded)]
  }

  lemma UploadAgrees(db: Db, db': Db, d0: DocumentId, b: BatchId, ids: set<JobId>)
    requires AllAgree(db) && Linked(db) && Uploaded(db, db', d0, b, ids)
    ensures AllAgree(db') && Linked(db')
  {
    UploadedAgrees(db', ids, d0, b);
    forall d | d in db'.documents && d != d0 ensures Agrees(db', d) && HasJobs(db', d) {
      assert Agrees(db, d) && HasJobs(db, d);
      assert SameForRollUp(db.jobs, db'.jobs, d);
      RollUpSeesClasses(db.jobs, db'.jobs, d);
    }
  }

  lemma UploadedAgrees(db: Db, ids: set<JobId>, d: DocumentId, b: BatchId)
    requires ids != {} && ids <= db.jobs.Keys && d in db.documents && db.documents[d].status == DocumentStatus.Uploaded
    requires forall j :: j in db.jobs && db.jobs[j].document == Some(d) ==> db.jobs[j].status == JobStatus.Pending
    requires forall j :: j in ids ==> db.jobs[j].document == Some(d)
    ensures Agrees(db, d) && HasJobs(db, d)
  {
    var j :| j in ids;
    assert db.jobs[j].status in StatusesOf(db.jobs, d);
  }

  /** Every step keeps the agreement, `fall_back_to_live` included although it recomputes nothing. */
  lemma StepAgrees(s: System, e: Event)
    requires Can(s, e.step) && AllAgree(s.db) && Linked(s.db)
    ensures AllAgree(Next(s, e).db)
  {
    hide AllAgree, RecomputeDocument, RecomputeBatch, RecomputeDocuments, RecomputeForJobs, WorkDb, TickDb,
      NextWorkers, NextTicks, NextEpochs, NextRetrying, CanWork, CanTick, WriteAndRecompute, FailUnsubmitted, CancelBatch,
      HasJobs;
    match e.step
    case Upload(d, b, ids) => UploadAgrees(s.db, Next(s, e).db, d, b, ids);
    case SubmitRaised(j) => UnsubmittedAgrees(s.db, j, e.at);
    case StopBatch(b, order) => CancelBatchAgrees(s.db, b, order, e.at);
    case Retry(j) => WriteAndRecomputeAgrees(s.db, j, MarkPendingForRetry(s.db.jobs[j]), e.at);
    case RetryEnds(j) =>
    case RetrySubmitRaised(j) =>
      WriteAndRecomputeAgrees(s.db, j, MarkFailed(s.db.jobs[j], "INTERNAL_PROCESSING_ERROR", e.at), e.at);
    case RecoverInterrupted(order) =>
      FailAllAgrees(s.db, InterruptedJobs(s.db.jobs), order, "PROCESS_INTERRUPTED", e.at);
    case RecoverStale(cutoff, order) =>
      FailAllAgrees(s.db, StaleJobs(s.db.jobs, cutoff), order, "PROCESS_STALLED", e.at);
    case Deliver(w, j) => SameClassesAgree(s.db, Next(s, e).db);
    case DeliverFails(w, j) =>
    case Work(w, work) => WorkAgrees(s.db, s.workers[w], work, e.at);
    case TickStarts(t) =>
    case Batching(t, batching) => TickAgrees(s.db, s.ticks[t], batching, e.at);
  }

  lemma StepKeepsDocuments(s: System, e: Event)
    requires Can(s, e.step) && !e.step.Upload?
    ensures SameDocuments(s.db, Next(s, e).db)
  {
    hide WorkDb, TickDb, CanWork, CanTick, NextWorkers, NextTicks, NextEpochs, NextRetrying, SameDocuments;
    match e.step
    case Work(w, work) => WorkKeepsDocuments(s.db, s.workers[w], work, e.at);
    case Batching(t, batching) => TickKeepsDocuments(s.db, s.ticks[t], batching, e.at);
    case _ => RequestKeepsDocuments(s, e);
  }

  lemma RequestKeepsDocuments(s: System, e: Event)
    requires Can(s, e.step) && !e.step.Upload? && !e.step.Work? && !e.step.Batching?
    ensures SameDocuments(s.db, NextDb(s, e.step, e.at))
  {
    hide RecomputeDocument, RecomputeBatch, RecomputeDocuments, RecomputeForJobs, InterruptedJobs, StaleJobs, WorkDb,
      TickDb, WriteAndRecompute;
    match e.step
    case RetrySubmitRaised(k) =>
      RowWriteKeepsDocuments(s.db, k, MarkFailed(s.db.jobs[k], "INTERNAL_PROCESSING_ERROR", e.at), e.at);
    case Retry(k) => RowWriteKeepsDocuments(s.db, k, MarkPendingForRetry(s.db.jobs[k]), e.at);
    case _ =>
  }

  lemma RowWriteKeepsDocuments(db: Db, j: JobId, job: Job, now: Time)
    requires j in db.jobs
    ensures SameDocuments(db, WriteAndRecompute(db, j, job, now))
  {
    hide RecomputeDocument, RecomputeBatch;
  }

  lemma WorkKeepsDocuments(db: Db, worker: Worker, step: WorkerStep, now: Time)
    requires CanWork(db, worker, step)
    ensures SameDocuments(db, WorkDb(db, worker, step, now))
  {
    hide RecomputeDocument, RecomputeBatch;
  }

  lemma TickKeepsDocuments(db: Db, tick: Tick, step: TickStep, now: Time)
    requires CanTick(db, tick, step)
    ensures SameDocuments(db, TickDb(db, tick, step, now))
  {
    hide RecomputeDocument, RecomputeBatch;
  }

  lemma StepLinked(s: System, e: Event)
    requires Can(s, e.step) && AllAgree(s.db) && Linked(s.db)
    ensures Linked(Next(s, e).db)
  {
    hide AllAgree, NextWorkers, NextTicks, NextEpochs, MoveOf;
    var db, db' := s.db, Next(s, e).db;
    if e.step.Upload? {
      UploadAgrees(db, db', e.step.d, e.step.b, e.step.ids);
    } else {
      hide NextDb;
      StepKeepsRows(s, e);
      StepKeepsDocuments(s, e);
      forall j | j in db.jobs ensures db'.jobs[j].document == db.jobs[j].document && db'.jobs[j].batch == db.jobs[j].batch {
        StepMoves(s, e, j);
      }
      forall d | d in db'.documents ensures HasJobs(db', d) {
        assert HasJobs(db, d);
        var j :| j in db.jobs && db.jobs[j].document == Some(d);
        assert db'.jobs[j].status in StatusesOf(db'.jobs, d);
      }
    }
  }

  /** Roll-up agreement: at every point of every run each document has jobs and shows their
      aggregate, or is still UPLOADED while none of them has ended. */
  lemma {:induction false} DocumentsAgree(run: seq<System>, events: seq<Event>, k: nat)
    requires IsRun(run, events) && Init(run[0]) && k < |run|
    ensures AllAgree(run[k].db) && Linked(run[k].db)
  {
    hide Next, Can, AllAgree;
    if k > 0 {
      DocumentsAgree(run, events, k - 1);
      StepAgrees(run[k - 1], events[k - 1]);
      StepLinked(run[k - 1], events[k - 1]);
    } else {
      assert AllAgree(run[0].db) by { NothingToAgreeOn(run[0].db); }
    }
  }

  lemma NothingToAgreeOn(db: Db)
    requires db.documents == map[]
    ensures AllAgree(db)
  {
  }

  // ---- "Stop processing" ----

  predicate Ended(s: DocumentStatus) {
    s == DocumentStatus.Processed || s == DocumentStatus.Failed || s == DocumentStatus.Cancelled
  }

  lemma EndedBatch(statuses: set<DocumentStatus>)
    requires statuses != {} && forall s :: s in statuses ==> Ended(s)
    ensures AggregateBatch(statuses) in {BatchStatus.Completed, BatchStatus.Failed, BatchStatus.Cancelled}
  {
  }

  lemma EndedDocument(db: Db, d: DocumentId)
    requires AllAgree(db) && d in db.documents && HasJobs(db, d)
    requires forall s :: s in StatusesOf(db.jobs, d) ==> !Active(s)
    ensures Ended(db.documents[d].status)
  {
  }

  /** Stopping a batch that has something to stop ends every job of it, leaves all other jobs
      alone, and leaves the batch showing the aggregate of its documents, which has ended. */
  lemma StopProcessing(db: Db, b: BatchId, order: seq<JobId>, now: Time)
    requires AllAgree(db) && Linked(db) && b in db.batches
    requires Lists(order, ActiveJobs(db.jobs, b)) && order != []
    ensures var r := CancelBatch(db, b, order, now);
      && ActiveJobs(r.jobs, b) == {}
      && (forall j :: j in db.jobs && j !in order ==> j in r.jobs && r.jobs[j] == db.jobs[j])
      && (forall j :: j in order ==> r.jobs[j].status == JobStatus.Cancelled)
      && b in r.batches
      && DocumentStatuses(r.documents, b) != {}
      && r.batches[b].status == AggregateBatch(DocumentStatuses(r.documents, b))
      && r.batches[b].status in {BatchStatus.Completed, BatchStatus.Failed, BatchStatus.Cancelled}
  {
    hide AllAgree, AggregateBatch, Ended, CancelBatch, DocumentStatuses;
    var r := CancelBatch(db, b, order, now);
    CancelBatchAgrees(db, b, order, now);
    StoppedJobs(db, b, order, now);
    StoppedBatch(db, b, order, now);
    forall d | d in r.documents && r.documents[d].batch == b ensures Ended(r.documents[d].status) {
      DocumentStopped(db, b, order, now, d);
    }
    EndedStatuses(r.documents, b);
    EndedBatch(DocumentStatuses(r.documents, b));
  }

  lemma EndedStatuses(documents: map<DocumentId, Document>, b: BatchId)
    requires forall d :: d in documents && documents[d].batch == b ==> Ended(documents[d].status)
    ensures forall s :: s in DocumentStatuses(documents, b) ==> Ended(s)
  {
  }

  lemma StoppedBatch(db: Db, b: BatchId, order: seq<JobId>, now: Time)
    requires Linked(db) && b in db.batches && Lists(order, ActiveJobs(db.jobs, b)) && order != []
    ensures var r := CancelBatch(db, b, order, now);
      && r.documents.Keys == db.documents.Keys
      && (forall d :: d in db.documents ==> r.documents[d].batch == db.documents[d].batch)
      && b in r.batches && DocumentStatuses(r.documents, b) != {}
      && r.batches[b].status == AggregateBatch(DocumentStatuses(r.documents, b))
  {
    hide AggregateBatch, RecomputeDocuments;
    var r := CancelBatch(db, b, order, now);
    assert order[0] in order;
    var d0 := db.jobs[order[0]].document.value;
    assert r.documents[d0].status in DocumentStatuses(r.documents, b);
  }

  lemma DocumentStopped(db: Db, b: BatchId, order: seq<JobId>, now: Time, d: DocumentId)
    requires Linked(db) && Lists(order, ActiveJobs(db.jobs, b)) && d in db.documents && db.documents[d].batch == b
    requires var r := CancelBatch(db, b, order, now); AllAgree(r) && d in r.documents && r.documents[d].batch == b
    ensures Ended(CancelBatch(db, b, order, now).documents[d].status)
  {
    hide AllAgree, CancelBatch, AggregateDocument, StatusesOf;
    var r := CancelBatch(db, b, order, now);
    StoppedJobs(db, b, order, now);
    assert HasJobs(db, d);
    NoneActive(db, r, d);
    EndedDocument(r, d);
  }

  lemma StoppedJobs(db: Db, b: BatchId, order: seq<JobId>, now: Time)
    requires Lists(order, ActiveJobs(db.jobs, b))
    ensures var r := CancelBatch(db, b, order, now);
      && r.jobs.Keys == db.jobs.Keys
      && forall j :: j in db.jobs ==>
           && r.jobs[j].document == db.jobs[j].document && r.jobs[j].batch == db.jobs[j].batch
           && (db.jobs[j].batch == Some(b) ==> !Active(r.jobs[j].status))
           && (if j in order then r.jobs[j].status == JobStatus.Cancelled else r.jobs[j] == db.jobs[j])
  {
    hide RecomputeDocuments, RecomputeBatch;
  }

  lemma NoneActive(db: Db, r: Db, d: DocumentId)
    requires HasJobs(db, d) && r.jobs.Keys == db.jobs.Keys
    requires forall j :: j in db.jobs ==> r.jobs[j].document == db.jobs[j].document
    requires forall j :: j in db.jobs && db.jobs[j].document == Some(d) ==> !Active(r.jobs[j].status)
    ensures HasJobs(r, d) && forall s :: s in StatusesOf(r.jobs, d) ==> !Active(s)
  {
    var j :| j in db.jobs && db.jobs[j].document == Some(d);
    assert r.jobs[j].status in StatusesOf(r.jobs, d);
  }

  /** From any reachable state. */
  lemma StopProcessingFromAnyRun(run: seq<System>, events: seq<Event>, k: nat)
    requires IsRun(run, events) && Init(run[0]) && k < |events|
    requires events[k].step.StopBatch? && events[k].step.order != [] && events[k].step.b in run[k].db.batches
    ensures var r, b := run[k + 1].db, events[k].step.b;
      && ActiveJobs(r.jobs, b) == {}
      && b in r.batches && r.batches[b].status in {BatchStatus.Completed, BatchStatus.Failed, BatchStatus.Cancelled}
  {
    hide AllAgree, CancelBatch;
    DocumentsAgree(run, events, k);
    StopProcessing(run[k].db, events[k].step.b, events[k].step.order, events[k].at);
  }
}
