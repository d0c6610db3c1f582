/** The job, document and batch tables, changed in place by the repository and service
    functions. Each method is proved against the transaction it stands for in JobModel. */
module JobStore {
  import opened Wrappers
  import M = JobModel
  import opened JobModel

  datatype JobError = NotFound | BadTransition | ImportRaised | SubmitRaised | BatchNotFound

  class Store {
    var jobs: map<JobId, Job>
    var documents: map<DocumentId, Document>
    var batches: map<BatchId, Batch>
    var imports: multiset<JobId>
    // Task queue of the job executor.
    var queue: multiset<JobId>

    ghost function Snapshot(): (db: Db)
      reads this
    {
      Db(jobs, documents, batches, imports)
    }

    // ---- db/repositories.py ----

    method MarkProcessing(j: JobId, startedAt: Time) returns (r: Result<Job, JobError>)
      modifies this`jobs
      ensures j !in old(jobs) ==> r == Failure(NotFound)
      ensures j in old(jobs) && old(jobs)[j].status != JobStatus.Pending ==> r == Failure(BadTransition)
      ensures j in old(jobs) && old(jobs)[j].status == JobStatus.Pending ==>
                r.Success? && Snapshot() == StartJob(old(Snapshot()), j, startedAt) && r.value == jobs[j]
      ensures r.Success? ==>
        jobs == old(jobs)[j := old(jobs)[j].(status := JobStatus.Processing, startedAt := Some(startedAt))]
      ensures r.Failure? ==> jobs == old(jobs)
    {
      if j !in jobs {
        return Failure(NotFound);
      }
      if jobs[j].status != JobStatus.Pending {
        return Failure(BadTransition);
      }
      jobs := jobs[j := jobs[j].(status := JobStatus.Processing, startedAt := Some(startedAt))];
      r := Success(jobs[j]);
    }

    method MarkCompleted(j: JobId, output: string, completedAt: Time) returns (r: Result<Job, JobError>)
      modifies this`jobs
      ensures r.Success? <==> j in old(jobs) && old(jobs)[j].status == JobStatus.Processing
      ensures r.Success? ==> jobs == old(jobs)[j := M.MarkCompleted(old(jobs)[j], output, completedAt)]
      ensures r.Success? ==>
        jobs == old(jobs)[j := old(jobs)[j].(status := JobStatus.Completed, output := Some(output),
                                             completedAt := Some(completedAt))]
      ensures r.Failure? ==> jobs == old(jobs)
    {
      if j !in jobs {
        return Failure(NotFound);
      }
      if jobs[j].status != JobStatus.Processing {
        return Failure(BadTransition);
      }
      jobs := jobs[j := jobs[j].(status := JobStatus.Completed, output := Some(output), completedAt := Some(completedAt))];
      r := Success(jobs[j]);
    }

    method MarkFailed(j: JobId, code: string, completedAt: Time) returns (r: Result<Job, JobError>)
      modifies this`jobs
      ensures r.Success? <==> j in old(jobs) && old(jobs)[j].status in {JobStatus.Pending, JobStatus.Processing}
      ensures r.Success? <==> j in old(jobs) && Active(old(jobs)[j].status)
      ensures r.Success? ==> jobs == old(jobs)[j := M.MarkFailed(old(jobs)[j], code, completedAt)]
      ensures r.Success? ==>
        jobs == old(jobs)[j := old(jobs)[j].(status := JobStatus.Failed, errorCode := Some(code),
                                             completedAt := Some(completedAt))]
      ensures r.Failure? ==> jobs == old(jobs)
    {
      if j !in jobs {
        return Failure(NotFound);
      }
      if jobs[j].status !in {JobStatus.Pending, JobStatus.Processing} {
        return Failure(BadTransition);
      }
      jobs := jobs[j := jobs[j].(status := JobStatus.Failed, errorCode := Some(code), completedAt := Some(completedAt))];
      r := Success(jobs[j]);
    }

    method MarkPendingForRetry(j: JobId) returns (r: Result<Job, JobError>)
      modifies this`jobs
      ensures r.Success? <==> j in old(jobs) && old(jobs)[j].status in {JobStatus.Failed, JobStatus.Cancelled}
      ensures r.Success? ==> jobs == old(jobs)[j := M.MarkPendingForRetry(old(jobs)[j])] && r.value == jobs[j]
      ensures r.Success? ==>
        && jobs.Keys == old(jobs).Keys && (forall k :: k in jobs && k != j ==> jobs[k] == old(jobs)[k])
        && var job := jobs[j];
           && job.status == JobStatus.Pending && job.errorCode == None && job.startedAt == None
           && job.completedAt == None && job.stage == None && job.batchName == None && job.stageAt == None
           && job.output == old(jobs)[j].output && job.document == old(jobs)[j].document
           && job.batch == old(jobs)[j].batch
      ensures r.Failure? ==> jobs == old(jobs)
    {
      if j !in jobs {
        return Failure(NotFound);
      }
      if jobs[j].status !in {JobStatus.Failed, JobStatus.Cancelled} {
        return Failure(BadTransition);
      }
      var job := jobs[j];
      job := job.(status := JobStatus.Pending);
      job := job.(errorCode := None, startedAt := None, completedAt := None);
      job := job.(stage := None, batchName := None, stageAt := None);
      jobs := jobs[j := job];
      r := Success(job);
    }

    method MarkCancelled(j: JobId, completedAt: Time) returns (r: Result<Job, JobError>)
      modifies this`jobs
      ensures r.Success? <==>
              j in old(jobs) && old(jobs)[j].status in {JobStatus.Pending, JobStatus.Processing, JobStatus.Cancelled}
      ensures r.Success? ==> jobs == old(jobs)[j := M.MarkCancelled(old(jobs)[j], completedAt)]
      ensures r.Success? ==>
        jobs == old(jobs)[j := old(jobs)[j].(status := JobStatus.Cancelled, completedAt := Some(completedAt))]
      ensures r.Failure? ==> jobs == old(jobs)
    {
      if j !in jobs {
        return Failure(NotFound);
      }
      if jobs[j].status !in {JobStatus.Pending, JobStatus.Processing, JobStatus.Cancelled} {
        return Failure(BadTransition);
      }
      jobs := jobs[j := jobs[j].(status := JobStatus.Cancelled, completedAt := Some(completedAt))];
      r := Success(jobs[j]);
    }

    /** The rows a query selects, in whatever order the database returns them. */
    method Select(ids: set<JobId>) returns (order: seq<JobId>)
      ensures Lists(order, ids)
    {
      order := [];
      var left := ids;
      while left != {}
        invariant left <= ids
        invariant forall j :: j in order <==> j in ids - left
        invariant forall i, k :: 0 <= i < k < |order| ==> order[i] != order[k]
      {
        var j :| j in left;
        assert j !in order;
        order := order + [j];
        left := left - {j};
      }
    }

    /** Rewrites every selected row. */
    method Rewrite(order: seq<JobId>, f: Job -> Job)
      requires forall j :: j in order ==> j in jobs
      requires forall i, k :: 0 <= i < k < |order| ==> order[i] != order[k]
      modifies this`jobs
      ensures jobs == Update(old(jobs), (set j | j in order), f)
    {
      for i := 0 to |order|
        invariant jobs.Keys == old(jobs).Keys
        invariant forall j :: j in jobs ==> jobs[j] == if j in order[..i] then f(old(jobs)[j]) else old(jobs)[j]
      {
        assert order[..i + 1] == order[..i] + [order[i]];
        assert order[i] !in order[..i];
        jobs := jobs[order[i] := f(jobs[order[i]])];
      }
      assert order[..|order|] == order;
    }

    method CancelPendingAndProcessingJobsForBatch(b: BatchId, completedAt: Time) returns (cancelled: seq<JobId>)
      modifies this`jobs
      ensures Lists(cancelled, ActiveJobs(old(jobs), b))
      ensures jobs == Update(old(jobs), ActiveJobs(old(jobs), b), job => M.MarkCancelled(job, completedAt))
      ensures CancelledInBatch(old(jobs), jobs, b, completedAt)
    {
      cancelled := Select(set j | j in jobs && jobs[j].batch == Some(b)
                                  && jobs[j].status in {JobStatus.Pending, JobStatus.Processing});
      Rewrite(cancelled, (job: Job) => job.(status := JobStatus.Cancelled, completedAt := Some(completedAt)));
    }

    method FailInterruptedJobs(completedAt: Time) returns (failed: seq<JobId>)
      modifies this`jobs
      ensures Lists(failed, InterruptedJobs(old(jobs)))
      ensures jobs == Update(old(jobs), InterruptedJobs(old(jobs)),
                             job => M.MarkFailed(job, "PROCESS_INTERRUPTED", completedAt))
      ensures FailedInterrupted(old(jobs), jobs, completedAt)
    {
      failed := Select(set j | j in jobs && jobs[j].status == JobStatus.Processing
                               && (jobs[j].stage == None || jobs[j].stage == Some(Sync)));
      Rewrite(failed, (job: Job) => job.(status := JobStatus.Failed, errorCode := Some("PROCESS_INTERRUPTED"),
                                  completedAt := Some(completedAt)));
    }

    method FailStaleProcessingJobs(now: Time, staleAfter: Time) returns (failed: seq<JobId>)
      modifies this`jobs
      ensures Lists(failed, StaleJobs(old(jobs), now - staleAfter))
      ensures jobs == Update(old(jobs), StaleJobs(old(jobs), now - staleAfter),
                             job => M.MarkFailed(job, "PROCESS_STALLED", now))
      ensures FailedStale(old(jobs), jobs, now - staleAfter, now)
    {
      var cutoff := now - staleAfter;
      failed := Select(set j | j in jobs && jobs[j].status == JobStatus.Processing
                               && jobs[j].startedAt != None && jobs[j].startedAt.value < cutoff
                               && (jobs[j].stage == None || jobs[j].stage == Some(Sync)));
      Rewrite(failed, (job: Job) => job.(status := JobStatus.Failed, errorCode := Some("PROCESS_STALLED"),
                                  completedAt := Some(now)));
    }

    // ---- batches/repositories.py ----

    method RecomputeDocumentStatus(d: DocumentId)
      modifies this`documents
      ensures Snapshot() == RecomputeDocument(old(Snapshot()), d)
      ensures DocumentShown(jobs, old(documents), documents, d)
    {
      RecomputedShown(Snapshot(), d);
      if d !in documents {
        return;
      }
      var statuses := StatusesOf(jobs, d);
      if statuses == {} {
        return;
      }
      var next;
      if statuses * {JobStatus.Pending, JobStatus.Processing} != {} {
        assert exists s :: s in statuses * {JobStatus.Pending, JobStatus.Processing};
        next := DocumentStatus.Processing;
      } else if statuses <= {JobStatus.Failed} {
        next := DocumentStatus.Failed;
      } else if JobStatus.Cancelled in statuses && JobStatus.Completed !in statuses {
        next := DocumentStatus.Cancelled;
      } else {
        next := DocumentStatus.Processed;
      }
      if documents[d].status == next {
        return;
      }
      documents := documents[d := documents[d].(status := next)];
    }

    method RecomputeBatchStatus(b: BatchId, now: Time)
      modifies this`batches
      ensures Snapshot() == RecomputeBatch(old(Snapshot()), b, now)
      ensures BatchShown(documents, old(batches), batches, b, now)
    {
      RecomputedBatchShown(Snapshot(), b, now);
      if b !in batches {
        return;
      }
      var statuses := DocumentStatuses(documents, b);
      if statuses == {} {
        return;
      }
      var next;
      var running := statuses * {DocumentStatus.Queued, DocumentStatus.Processing};
      assert DocumentStatus.Queued in running <==> DocumentStatus.Queued in statuses;
      assert DocumentStatus.Processing in running <==> DocumentStatus.Processing in statuses;
      if statuses == {DocumentStatus.Processed} {
        next := BatchStatus.Completed;
      } else if DocumentStatus.Failed in statuses {
        next := BatchStatus.Failed;
      } else if running != {} {
        assert exists s :: s in running;
        next := BatchStatus.Processing;
      } else if DocumentStatus.Cancelled in statuses {
        next := BatchStatus.Cancelled;
      } else {
        next := BatchStatus.Draft;
      }
      assert next == AggregateBatch(statuses);
      var batch := batches[b];
      if batch.status == next {
        assert WithStatus(batch, next, now) == batch;
        assert batches == batches[b := batch];
        return;
      }
      batch := batch.(status := next);
      if next == BatchStatus.Processing && batch.startedAt == None {
        batch := batch.(startedAt := Some(now));
      }
      if next in {BatchStatus.Completed, BatchStatus.Failed, BatchStatus.Cancelled} {
        batch := batch.(completedAt := Some(now));
      }
      batches := batches[b := batch];
    }

    method RecomputeOf(d: Option<DocumentId>, b: Option<BatchId>, now: Time)
      modifies this`documents, this`batches
      ensures Snapshot() == RecomputeBatchOf(RecomputeDocumentOf(old(Snapshot()), d), b, now)
    {
      if d.Some? {
        RecomputeDocumentStatus(d.value);
      }
      if b.Some? {
        RecomputeBatchStatus(b.value, now);
      }
    }
  }

  // ---- batches/service.py ----

  method CancelBatchProcessing(store: Store, b: BatchId, now: Time)
    returns (r: Result<Batch, JobError>, ghost cancelled: seq<JobId>)
    modifies store
    ensures Lists(cancelled, ActiveJobs(old(store.jobs), b)) && (forall j :: j in cancelled ==> j in old(store.jobs))
    ensures store.Snapshot() == CancelBatch(old(store.Snapshot()), b, cancelled, now)
    ensures r == if b in store.batches then Success(store.batches[b]) else Failure(BatchNotFound)
    ensures CancelledInBatch(old(store.jobs), store.jobs, b, now)
    ensures store.queue == old(store.queue)
  {
    var jobs := store.CancelPendingAndProcessingJobsForBatch(b, now);
    ghost var db0 := store.Snapshot();
    assert forall j :: j in jobs ==> j in store.jobs;
    var seen := {};
    for i := 0 to |jobs|
      invariant store.jobs == db0.jobs && store.queue == old(store.queue)
      invariant forall k :: 0 <= k < |jobs| ==> jobs[k] in store.jobs
      invariant RecomputeDocuments(db0, jobs, {}) == RecomputeDocuments(store.Snapshot(), jobs[i..], seen)
    {
      assert jobs[i..][1..] == jobs[i + 1..];
      var d := store.jobs[jobs[i]].document;
      if d.Some? && d.value !in seen {
        seen := seen + {d.value};
        store.RecomputeDocumentStatus(d.value);
      }
    }
    if jobs != [] {
      store.RecomputeBatchStatus(b, now);
    }
    cancelled := jobs;
    r := if b in store.batches then Success(store.batches[b]) else Failure(BatchNotFound);
  }

  // ---- jobs/service.py ----

  method RecomputeStatusForJobs(store: Store, jobs: seq<JobId>, now: Time)
    requires forall j :: j in jobs ==> j in store.jobs
    modifies store`documents, store`batches
    ensures store.Snapshot() == RecomputeForJobs(old(store.Snapshot()), jobs, {}, {}, now)
  {
    var seenDocuments, seenBatches := {}, {};
    for i := 0 to |jobs|
      invariant RecomputeForJobs(old(store.Snapshot()), jobs, {}, {}, now)
             == RecomputeForJobs(store.Snapshot(), jobs[i..], seenDocuments, seenBatches, now)
    {
      assert jobs[i..][1..] == jobs[i + 1..];
      var job := store.jobs[jobs[i]];
      if job.document.Some? && job.document.value !in seenDocuments {
        seenDocuments := seenDocuments + {job.document.value};
        store.RecomputeDocumentStatus(job.document.value);
      }
      if job.batch.Some? && job.batch.value !in seenBatches {
        seenBatches := seenBatches + {job.batch.value};
        store.RecomputeBatchStatus(job.batch.value, now);
      }
    }
  }

  method RecoverInterruptedJobs(store: Store, now: Time) returns (count: nat, ghost failed: seq<JobId>)
    modifies store
    ensures Lists(failed, InterruptedJobs(old(store.jobs))) && (forall j :: j in failed ==> j in old(store.jobs))
    ensures store.Snapshot()
         == FailAll(old(store.Snapshot()), InterruptedJobs(old(store.jobs)), failed, "PROCESS_INTERRUPTED", now)
    ensures FailedInterrupted(old(store.jobs), store.jobs, now)
    ensures count == |failed| && store.queue == old(store.queue)
  {
    var jobs := store.FailInterruptedJobs(now);
    RecomputeStatusForJobs(store, jobs, now);
    count, failed := |jobs|, jobs;
  }

  method RecoverStaleJobs(store: Store, staleAfter: Time, now: Time) returns (count: nat, ghost failed: seq<JobId>)
    modifies store
    ensures Lists(failed, StaleJobs(old(store.jobs), now - staleAfter))
            && (forall j :: j in failed ==> j in old(store.jobs))
    ensures store.Snapshot()
         == FailAll(old(store.Snapshot()), StaleJobs(old(store.jobs), now - staleAfter), failed, "PROCESS_STALLED", now)
    ensures FailedStale(old(store.jobs), store.jobs, now - staleAfter, now)
    ensures count == |failed| && store.queue == old(store.queue)
  {
    var jobs := store.FailStaleProcessingJobs(now, staleAfter);
    RecomputeStatusForJobs(store, jobs, now);
    count, failed := |jobs|, jobs;
  }

  /** First transaction of a retry, then the hand-over to the executor; a submit that raises
      is answered by a second transaction that works on the row as this session last saw it. */
  method RetryJob(store: Store, j: JobId, submitRaises: bool, now: Time) returns (r: Result<Job, JobError>)
    modifies store
    ensures j !in old(store.jobs) ==> r == Failure(NotFound)
    ensures j in old(store.jobs) && old(store.jobs)[j].status !in {JobStatus.Failed, JobStatus.Cancelled} ==>
              r == Failure(BadTransition)
    ensures r.Failure? && r.error != SubmitRaised ==>
              store.Snapshot() == old(store.Snapshot()) && store.queue == old(store.queue)
    ensures j in old(store.jobs) && old(store.jobs)[j].status in {JobStatus.Failed, JobStatus.Cancelled} ==>
              if submitRaises
              then r == Failure(SubmitRaised) && store.queue == old(store.queue)
                   && store.Snapshot() == FailJob(M.RetryJob(old(store.Snapshot()), j, now), j,
                                                  "INTERNAL_PROCESSING_ERROR", now)
              else r.Success? && store.queue == old(store.queue) + multiset{j}
                   && store.Snapshot() == M.RetryJob(old(store.Snapshot()), j, now)
    ensures j in old(store.jobs) && old(store.jobs)[j].status in {JobStatus.Failed, JobStatus.Cancelled} ==>
              var cleared := old(store.jobs)[j].(status := JobStatus.Pending, errorCode := None, startedAt := None,
                                                 completedAt := None, stage := None, batchName := None, stageAt := None);
              store.jobs == old(store.jobs)[j :=
                if submitRaises
                then cleared.(status := JobStatus.Failed, errorCode := Some("INTERNAL_PROCESSING_ERROR"),
                              completedAt := Some(now))
                else cleared]
  {
    if j !in store.jobs {
      return Failure(NotFound);
    }
    if store.jobs[j].status !in {JobStatus.Failed, JobStatus.Cancelled} {
      return Failure(BadTransition);
    }
    var marked := store.MarkPendingForRetry(j);
    var job := marked.value;
    store.RecomputeOf(job.document, job.batch, now);
    if submitRaises {
      var _ := store.MarkFailed(j, "INTERNAL_PROCESSING_ERROR", now);
      store.RecomputeOf(job.document, job.batch, now);
      return Failure(SubmitRaised);
    }
    store.queue := store.queue + multiset{j};
    r := Success(job);
  }

  // ---- jobs/processing.py ----

  method MarkFailedSafe(store: Store, j: JobId, code: string, now: Time)
    modifies store
    ensures j in old(store.jobs) && Active(old(store.jobs)[j].status) ==>
              store.Snapshot() == FailJob(old(store.Snapshot()), j, code, now)
    ensures !(j in old(store.jobs) && Active(old(store.jobs)[j].status)) ==>
              store.Snapshot() == old(store.Snapshot())
    ensures store.jobs ==
            if j in old(store.jobs) && old(store.jobs)[j].status in {JobStatus.Pending, JobStatus.Processing}
            then old(store.jobs)[j := old(store.jobs)[j].(status := JobStatus.Failed, errorCode := Some(code),
                                                          completedAt := Some(now))]
            else old(store.jobs)
    ensures store.queue == old(store.queue)
  {
    var r := store.MarkFailed(j, code, now);
    if r.Success? {
      store.RecomputeOf(store.jobs[j].document, store.jobs[j].batch, now);
    }
  }

  /** One transaction: completes the job, imports its records, recomputes its roll-ups. When the
      row is not PROCESSING, or the import raises, nothing is committed. */
  method CompleteJob(store: Store, j: JobId, output: string, importRaises: bool, now: Time)
    returns (r: Result<Job, JobError>)
    modifies store
    ensures r.Success? <==>
            j in old(store.jobs) && old(store.jobs)[j].status == JobStatus.Processing && !importRaises
    ensures r.Success? ==> store.Snapshot() == M.CompleteJob(old(store.Snapshot()), j, output, now)
    ensures r.Success? ==> store.jobs == old(store.jobs)[j := M.MarkCompleted(old(store.jobs)[j], output, now)]
    ensures r.Success? ==>
      && store.jobs == old(store.jobs)[j := old(store.jobs)[j].(status := JobStatus.Completed, output := Some(output),
                                                                completedAt := Some(now))]
      && store.imports == old(store.imports) + multiset{j}
    ensures r.Failure? ==> store.Snapshot() == old(store.Snapshot())
    ensures store.queue == old(store.queue)
  {
    var committed := store.jobs;
    r := store.MarkCompleted(j, output, now);
    if r.Failure? {
      return;
    }
    if importRaises {
      store.jobs := committed;
      return Failure(ImportRaised);
    }
    store.imports := store.imports + multiset{j};
    store.RecomputeOf(store.jobs[j].document, store.jobs[j].batch, now);
  }

  datatype RunResult = RunCompleted(output: string) | RunCancelled | RunFailed(code: string) | RunRaised

  /** What the OCR subprocess's outcome commits for a PROCESSING job. */
  function AfterRun(db: Db, j: JobId, run: RunResult, importRaises: bool, now: Time): Db
    requires j in db.jobs
  {
    match run
    case RunCompleted(output) =>
      if importRaises then FailJob(db, j, "INTERNAL_PROCESSING_ERROR", now) else M.CompleteJob(db, j, output, now)
    case RunCancelled => CancelJob(db, j, now)
    case RunFailed(code) => FailJob(db, j, code, now)
    case RunRaised => FailJob(db, j, "INTERNAL_PROCESSING_ERROR", now)
  }

  /** What the run of a PROCESSING job comes to, in columns. */
  function EndedJob(job: Job, run: RunResult, importRaises: bool, now: Time): Job {
    if run.RunCompleted? && !importRaises
    then job.(status := JobStatus.Completed, output := Some(run.output), completedAt := Some(now))
    else if run.RunCancelled? then job.(status := JobStatus.Cancelled, completedAt := Some(now))
    else job.(status := JobStatus.Failed, completedAt := Some(now),
              errorCode := Some(if run.RunFailed? then run.code else "INTERNAL_PROCESSING_ERROR"))
  }

  method RunLive(store: Store, j: JobId, run: RunResult, importRaises: bool, now: Time)
    requires j in store.jobs && store.jobs[j].status == JobStatus.Processing
    modifies store
    ensures store.Snapshot() == AfterRun(old(store.Snapshot()), j, run, importRaises, now)
    ensures store.jobs == old(store.jobs)[j := EndedJob(old(store.jobs)[j], run, importRaises, now)]
    ensures store.imports == old(store.imports) + if run.RunCompleted? && !importRaises then multiset{j} else multiset{}
    ensures store.queue == old(store.queue)
  {
    match run
    case RunCancelled =>
      var cancelled := store.MarkCancelled(j, now);
      store.RecomputeOf(store.jobs[j].document, store.jobs[j].batch, now);
    case RunCompleted(output) =>
      var completed := CompleteJob(store, j, output, importRaises, now);
      if completed.Failure? {
        MarkFailedSafe(store, j, "INTERNAL_PROCESSING_ERROR", now);
      }
    case RunFailed(code) =>
      MarkFailedSafe(store, j, code, now);
    case RunRaised =>
      MarkFailedSafe(store, j, "INTERNAL_PROCESSING_ERROR", now);
  }

  /** The two transactions that open a PENDING job's run. */
  function Started(db: Db, j: JobId, now: Time): (r: Db)
    requires j in db.jobs
    ensures r.jobs == db.jobs[j := M.MarkProcessing(db.jobs[j], now)]
  {
    RecomputeFor(StartJob(db, j, now), j, now)
  }

  /** What a delivered task comes to when nothing else is running. */
  function Processed(db: Db, j: JobId, claimRaises: bool, prepared: bool, run: RunResult, importRaises: bool, now: Time): Db
  {
    if j !in db.jobs then db
    else if claimRaises then
      if Active(db.jobs[j].status) then FailJob(db, j, "INTERNAL_PROCESSING_ERROR", now) else db
    else match db.jobs[j].status
      case Pending =>
        var started := Started(db, j, now);
        if prepared && db.jobs[j].stage == None
        then started.(jobs := started.jobs[j := SetStage(started.jobs[j], Prepared, now)])
        else AfterRun(started, j, run, importRaises, now)
      case Processing => FailJob(db, j, "INTERNAL_PROCESSING_ERROR", now)
      case _ => db
  }

  /** The same in columns, whatever state the job is in. */
  lemma ProcessedRows(db: Db, j: JobId, claimRaises: bool, prepared: bool, run: RunResult, importRaises: bool, now: Time)
    ensures var r := Processed(db, j, claimRaises, prepared, run, importRaises, now);
      if j !in db.jobs then r == db
      else if db.jobs[j].status == JobStatus.Processing || (claimRaises && db.jobs[j].status == JobStatus.Pending)
      then && r.jobs == db.jobs[j := db.jobs[j].(status := JobStatus.Failed, completedAt := Some(now),
                                                 errorCode := Some("INTERNAL_PROCESSING_ERROR"))]
           && RolledUp(db, r, db.jobs[j].document, db.jobs[j].batch, now) && r.imports == db.imports
      else if db.jobs[j].status != JobStatus.Pending then r == db
      else exists mid ::
        && ClaimedAndRolledUp(db, mid, j, now)
        && if prepared && db.jobs[j].stage == None
           then r == mid.(jobs := mid.jobs[j := mid.jobs[j].(stage := Some(Prepared), stageAt := Some(now))])
           else EndedAndRolledUp(mid, r, j, EndedJob(mid.jobs[j], run, importRaises, now),
                                 run.RunCompleted? && !importRaises, now)
  {
    hide RecomputeDocument, RecomputeBatch, AfterRun, EndedJob, RolledUp, FailJob, Started;
    if j in db.jobs {
      FailedRows(db, j, "INTERNAL_PROCESSING_ERROR", now);
      StartedRows(db, j, now);
      var started := Started(db, j, now);
      AfterRunRows(started, j, run, importRaises, now);
      var ended := EndedJob(started.jobs[j], run, importRaises, now);
      assert started.jobs[j := ended] == db.jobs[j := ended];
    }
  }

  /** The claim has been committed, and with it, in a second transaction, its roll-ups. */
  ghost predicate ClaimedAndRolledUp(db: Db, mid: Db, j: JobId, now: Time)
    requires j in db.jobs
    ensures ClaimedAndRolledUp(db, mid, j, now) ==> j in mid.jobs
  {
    && mid.jobs == db.jobs[j := db.jobs[j].(status := JobStatus.Processing, startedAt := Some(now))]
    && mid.imports == db.imports && RolledUp(db, mid, db.jobs[j].document, db.jobs[j].batch, now)
  }

  lemma StartedRows(db: Db, j: JobId, now: Time)
    requires j in db.jobs
    ensures ClaimedAndRolledUp(db, Started(db, j, now), j, now)
  {
    var claimed := StartJob(db, j, now);
    JobsRollUp(claimed, j, "", "", now);
    hide DocumentShown, BatchShown, RecomputeDocument, RecomputeBatch;
  }

  /** One transaction that writes a job's row, imports its records or not, and rolls up. */
  ghost predicate EndedAndRolledUp(db: Db, r: Db, j: JobId, ended: Job, imported: bool, now: Time) {
    && r.jobs == db.jobs[j := ended] && RolledUp(db, r, ended.document, ended.batch, now)
    && r.imports == db.imports + (if imported then multiset{j} else multiset{})
  }

  lemma FailedRows(db: Db, j: JobId, code: string, now: Time)
    requires j in db.jobs
    ensures EndedAndRolledUp(db, FailJob(db, j, code, now), j,
      db.jobs[j].(status := JobStatus.Failed, errorCode := Some(code), completedAt := Some(now)), false, now)
  {
    JobsRollUp(db, j, "", code, now);
    hide RolledUp, RecomputeDocument, RecomputeBatch;
  }

  lemma CompletedRows(db: Db, j: JobId, output: string, now: Time)
    requires j in db.jobs
    ensures EndedAndRolledUp(db, M.CompleteJob(db, j, output, now), j,
      db.jobs[j].(status := JobStatus.Completed, output := Some(output), completedAt := Some(now)), true, now)
  {
    JobsRollUp(db, j, output, "", now);
    hide RolledUp, RecomputeDocument, RecomputeBatch;
  }

  lemma CancelledRows(db: Db, j: JobId, now: Time)
    requires j in db.jobs
    ensures EndedAndRolledUp(db, CancelJob(db, j, now), j,
      db.jobs[j].(status := JobStatus.Cancelled, completedAt := Some(now)), false, now)
  {
    JobsRollUp(db, j, "", "", now);
    hide RolledUp, RecomputeDocument, RecomputeBatch;
  }

  lemma AfterRunRows(db: Db, j: JobId, run: RunResult, importRaises: bool, now: Time)
    requires j in db.jobs
    ensures EndedAndRolledUp(db, AfterRun(db, j, run, importRaises, now), j, EndedJob(db.jobs[j], run, importRaises, now),
                             run.RunCompleted? && !importRaises, now)
  {
    hide EndedAndRolledUp, M.CompleteJob, FailJob, CancelJob;
    match run
    case RunCompleted(output) =>
      CompletedRows(db, j, output, now);
      FailedRows(db, j, "INTERNAL_PROCESSING_ERROR", now);
    case RunCancelled => CancelledRows(db, j, now);
    case RunFailed(code) => FailedRows(db, j, code, now);
    case RunRaised => FailedRows(db, j, "INTERNAL_PROCESSING_ERROR", now);
  }

  /** One delivered task handled from start to end with nothing else running. `prepared` answers
      for should_batch and the prepare command; `run` is what the OCR subprocess came to;
      `claimRaises` is an exception before the claim has been committed. */
  method ProcessOcrJob(store: Store, j: JobId, claimRaises: bool, prepared: bool, run: RunResult, importRaises: bool,
                       now: Time)
    modifies store
    ensures store.queue == old(store.queue)
    ensures store.Snapshot() == Processed(old(store.Snapshot()), j, claimRaises, prepared, run, importRaises, now)
    ensures claimRaises ==>
              store.Snapshot() ==
              if j in old(store.jobs) && Active(old(store.jobs)[j].status)
              then FailJob(old(store.Snapshot()), j, "INTERNAL_PROCESSING_ERROR", now)
              else old(store.Snapshot())
    ensures j !in old(store.jobs) || old(store.jobs)[j].status in {JobStatus.Completed, JobStatus.Failed, JobStatus.Cancelled} ==>
              store.Snapshot() == old(store.Snapshot())
    ensures j in old(store.jobs) && old(store.jobs)[j].status == JobStatus.Processing ==>
              store.Snapshot() == FailJob(old(store.Snapshot()), j, "INTERNAL_PROCESSING_ERROR", now)
    ensures !claimRaises && j in old(store.jobs) && old(store.jobs)[j].status == JobStatus.Pending ==>
              var started := Started(old(store.Snapshot()), j, now);
              store.Snapshot() ==
              if prepared && old(store.jobs)[j].stage == None
              then started.(jobs := started.jobs[j := SetStage(started.jobs[j], Prepared, now)])
              else AfterRun(started, j, run, importRaises, now)
  {
    if claimRaises || j !in store.jobs {
      MarkFailedSafe(store, j, "INTERNAL_PROCESSING_ERROR", now);
      return;
    }
    if store.jobs[j].status == JobStatus.Cancelled {
      return;
    }
    var marked := store.MarkProcessing(j, now);
    if marked.Failure? {
      MarkFailedSafe(store, j, "INTERNAL_PROCESSING_ERROR", now);
      return;
    }
    var job := marked.value;
    store.RecomputeOf(job.document, job.batch, now);
    assert store.Snapshot() == Started(old(store.Snapshot()), j, now);
    if job.stage == None && prepared {
      store.jobs := store.jobs[j := SetStage(store.jobs[j], Prepared, now)];
      return;
    }
    RunLive(store, j, run, importRaises, now);
  }
}
