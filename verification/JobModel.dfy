/** OCR jobs, documents and batches as database rows, what each repository function
    writes to them, and the document and batch roll-ups. Every function here is one
    committed transaction, or part of one; transactions are atomic and serial. */
module JobModel {
  import opened Wrappers

  type Time = int // seconds

  type JobId = nat
  type DocumentId = nat
  type BatchId = nat

  datatype JobStatus = Pending | Processing | Completed | Failed | Cancelled

  /** `gemini_batch_stage`; a NULL column is `None`. */
  datatype Stage = Prepared | Submitting | Submitted | Finishing | Sync

  datatype Job = Job(
    status: JobStatus,
    stage: Option<Stage>,
    batchName: Option<string>,
    stageAt: Option<Time>,
    startedAt: Option<Time>,
    completedAt: Option<Time>,
    errorCode: Option<string>,
    output: Option<string>,
    document: Option<DocumentId>,
    batch: Option<BatchId>)

  datatype DocumentStatus = Uploaded | Queued | Processing | Processed | Failed | Cancelled

  datatype Document = Document(batch: BatchId, status: DocumentStatus)

  datatype BatchStatus = Draft | Queued | Processing | ReviewRequired | Completed | Failed | Cancelled

  datatype Batch = Batch(status: BatchStatus, startedAt: Option<Time>, completedAt: Option<Time>)

  /** `imports` holds a job once for every committed transaction that imported its records. */
  datatype Db = Db(
    jobs: map<JobId, Job>,
    documents: map<DocumentId, Document>,
    batches: map<BatchId, Batch>,
    imports: multiset<JobId>)

  predicate Active(s: JobStatus) {
    s == JobStatus.Pending || s == JobStatus.Processing
  }

  /** Waiting on Google: not running in any process (BATCH_WAITING_STAGES). */
  predicate Waiting(job: Job) {
    job.status == JobStatus.Processing && WaitingStage(job.stage)
  }

  predicate WaitingStage(stage: Option<Stage>) {
    stage.Some? && stage.value != Sync
  }

  // ---- what the guarded updates write to one row ----

  function MarkProcessing(job: Job, now: Time): Job {
    job.(status := JobStatus.Processing, startedAt := Some(now))
  }

  function MarkCompleted(job: Job, output: string, now: Time): Job {
    job.(status := JobStatus.Completed, output := Some(output), completedAt := Some(now))
  }

  function MarkFailed(job: Job, code: string, now: Time): Job {
    job.(status := JobStatus.Failed, errorCode := Some(code), completedAt := Some(now))
  }

  function MarkCancelled(job: Job, now: Time): Job {
    job.(status := JobStatus.Cancelled, completedAt := Some(now))
  }

  function MarkPendingForRetry(job: Job): Job {
    job.(status := JobStatus.Pending, errorCode := None, startedAt := None, completedAt := None,
         stage := None, batchName := None, stageAt := None)
  }

  function SetStage(job: Job, stage: Stage, now: Time): Job {
    job.(stage := Some(stage), stageAt := Some(now))
  }

  function SetSubmitted(job: Job, name: string, now: Time): Job {
    job.(stage := Some(Submitted), stageAt := Some(now), batchName := Some(name))
  }

  predicate CanClaim(job: Job, from: Stage) {
    job.status == JobStatus.Processing && job.stage == Some(from)
  }

  /** Put back through the live run; a row that is not PROCESSING is not matched. */
  function FallBack(job: Job, now: Time): Job {
    if job.status == JobStatus.Processing
    then job.(status := JobStatus.Pending, startedAt := None, stage := Some(Sync), stageAt := Some(now))
    else job
  }

  // ---- roll-ups ----

  function StatusesOf(jobs: map<JobId, Job>, d: DocumentId): set<JobStatus> {
    set j | j in jobs && jobs[j].document == Some(d) :: jobs[j].status
  }

  function AggregateDocument(statuses: set<JobStatus>): DocumentStatus
    requires statuses != {}
  {
    if JobStatus.Pending in statuses || JobStatus.Processing in statuses then DocumentStatus.Processing
    else if forall s | s in statuses :: s == JobStatus.Failed then DocumentStatus.Failed
    else if JobStatus.Cancelled in statuses && JobStatus.Completed !in statuses then DocumentStatus.Cancelled
    else DocumentStatus.Processed
  }

  /** What each document status says about the jobs of the document. */
  lemma AggregateDocumentMeaning(statuses: set<JobStatus>)
    requires statuses != {}
    ensures AggregateDocument(statuses) == DocumentStatus.Processing <==> exists s :: s in statuses && Active(s)
    ensures AggregateDocument(statuses) == DocumentStatus.Failed <==> statuses == {JobStatus.Failed}
    ensures AggregateDocument(statuses) == DocumentStatus.Processed <==>
            JobStatus.Completed in statuses && forall s :: s in statuses ==> !Active(s)
    ensures AggregateDocument(statuses) == DocumentStatus.Cancelled <==>
            statuses == {JobStatus.Cancelled} || statuses == {JobStatus.Cancelled, JobStatus.Failed}
  {
  }

  function DocumentStatuses(documents: map<DocumentId, Document>, b: BatchId): set<DocumentStatus> {
    set d | d in documents && documents[d].batch == b :: documents[d].status
  }

  function AggregateBatch(statuses: set<DocumentStatus>): BatchStatus
    requires statuses != {}
  {
    if statuses == {DocumentStatus.Processed} then BatchStatus.Completed
    else if DocumentStatus.Failed in statuses then BatchStatus.Failed
    else if DocumentStatus.Queued in statuses || DocumentStatus.Processing in statuses then BatchStatus.Processing
    else if DocumentStatus.Cancelled in statuses then BatchStatus.Cancelled
    else BatchStatus.Draft
  }

  /** What each batch status says about the documents of the batch. */
  lemma AggregateBatchMeaning(statuses: set<DocumentStatus>)
    requires statuses != {}
    ensures AggregateBatch(statuses) == BatchStatus.Completed <==> forall s :: s in statuses ==> s == DocumentStatus.Processed
    ensures AggregateBatch(statuses) == BatchStatus.Failed <==> DocumentStatus.Failed in statuses
    ensures AggregateBatch(statuses) == BatchStatus.Processing <==>
            DocumentStatus.Failed !in statuses
            && exists s :: s in statuses && (s == DocumentStatus.Queued || s == DocumentStatus.Processing)
    ensures AggregateBatch(statuses) == BatchStatus.Cancelled <==>
            DocumentStatus.Cancelled in statuses
            && forall s :: s in statuses ==> s in {DocumentStatus.Uploaded, DocumentStatus.Processed, DocumentStatus.Cancelled}
    ensures AggregateBatch(statuses) == BatchStatus.Draft <==>
            DocumentStatus.Uploaded in statuses
            && forall s :: s in statuses ==> s in {DocumentStatus.Uploaded, DocumentStatus.Processed}
  {
    var s :| s in statuses;
    if forall t :: t in statuses ==> t == DocumentStatus.Processed {
      assert statuses == {DocumentStatus.Processed};
    }
  }

  ghost predicate SameDocuments(db: Db, db': Db) {
    && db'.documents.Keys == db.documents.Keys
    && forall d :: d in db.documents ==> db'.documents[d].batch == db.documents[d].batch
  }

  function RecomputeDocument(db: Db, d: DocumentId): (r: Db)
    ensures r.jobs == db.jobs && r.imports == db.imports && r.batches == db.batches
    ensures SameDocuments(db, r)
  {
    if d !in db.documents || StatusesOf(db.jobs, d) == {} then db
    else db.(documents := db.documents[d := db.documents[d].(status := AggregateDocument(StatusesOf(db.jobs, d)))])
  }

  function WithStatus(batch: Batch, status: BatchStatus, now: Time): Batch {
    if batch.status == status then batch
    else Batch(
      status,
      if status == BatchStatus.Processing && batch.startedAt.None? then Some(now) else batch.startedAt,
      if status in {BatchStatus.Completed, BatchStatus.Failed, BatchStatus.Cancelled} then Some(now)
      else batch.completedAt)
  }

  function RecomputeBatch(db: Db, b: BatchId, now: Time): (r: Db)
    ensures r.jobs == db.jobs && r.imports == db.imports && r.documents == db.documents
    ensures r.batches.Keys == db.batches.Keys
  {
    if b !in db.batches || DocumentStatuses(db.documents, b) == {} then db
    else db.(batches :=
      db.batches[b := WithStatus(db.batches[b], AggregateBatch(DocumentStatuses(db.documents, b)), now)])
  }

  function RecomputeDocumentOf(db: Db, d: Option<DocumentId>): Db {
    if d.Some? then RecomputeDocument(db, d.value) else db
  }

  function RecomputeBatchOf(db: Db, b: Option<BatchId>, now: Time): Db {
    if b.Some? then RecomputeBatch(db, b.value, now) else db
  }

  /** Writes one job's row, then recomputes its document and its batch. */
  function WriteAndRecompute(db: Db, j: JobId, job: Job, now: Time): Db {
    RecomputeBatchOf(RecomputeDocumentOf(db.(jobs := db.jobs[j := job]), job.document), job.batch, now)
  }

  /** Recomputes the document of every listed job once. */
  function RecomputeDocuments(db: Db, jobs: seq<JobId>, seen: set<DocumentId>): (r: Db)
    requires forall j :: j in jobs ==> j in db.jobs
    ensures r.jobs == db.jobs && r.imports == db.imports && r.batches == db.batches
    ensures SameDocuments(db, r)
    decreases |jobs|
  {
    if jobs == [] then db
    else
      var d := db.jobs[jobs[0]].document;
      if d.None? || d.value in seen then RecomputeDocuments(db, jobs[1..], seen)
      else RecomputeDocuments(RecomputeDocument(db, d.value), jobs[1..], seen + {d.value})
  }

  /** `_recompute_status_for_jobs`: a batch is recomputed at its first job, before later documents. */
  function RecomputeForJobs(db: Db, jobs: seq<JobId>, seenDocuments: set<DocumentId>, seenBatches: set<BatchId>,
                            now: Time): (r: Db)
    requires forall j :: j in jobs ==> j in db.jobs
    ensures r.jobs == db.jobs && r.imports == db.imports && SameDocuments(db, r)
    decreases |jobs|
  {
    if jobs == [] then db
    else
      var job := db.jobs[jobs[0]];
      var newDocument := job.document.Some? && job.document.value !in seenDocuments;
      var newBatch := job.batch.Some? && job.batch.value !in seenBatches;
      var db1 := if newDocument then RecomputeDocument(db, job.document.value) else db;
      var db2 := if newBatch then RecomputeBatch(db1, job.batch.value, now) else db1;
      RecomputeForJobs(db2, jobs[1..],
                       if newDocument then seenDocuments + {job.document.value} else seenDocuments,
                       if newBatch then seenBatches + {job.batch.value} else seenBatches, now)
  }

  // ---- whole transactions ----

  function Update(jobs: map<JobId, Job>, ids: set<JobId>, f: Job -> Job): map<JobId, Job> {
    map j | j in jobs :: if j in ids then f(jobs[j]) else jobs[j]
  }

  /** First transaction of a delivered task. */
  function StartJob(db: Db, j: JobId, now: Time): Db
    requires j in db.jobs
  {
    db.(jobs := db.jobs[j := MarkProcessing(db.jobs[j], now)])
  }

  /** Second transaction of a delivered task. */
  function RecomputeFor(db: Db, j: JobId, now: Time): Db
    requires j in db.jobs
  {
    RecomputeBatchOf(RecomputeDocumentOf(db, db.jobs[j].document), db.jobs[j].batch, now)
  }

  function CompleteJob(db: Db, j: JobId, output: string, now: Time): Db
    requires j in db.jobs
  {
    WriteAndRecompute(db, j, MarkCompleted(db.jobs[j], output, now), now)
    .(imports := db.imports + multiset{j})
  }

  function FailJob(db: Db, j: JobId, code: string, now: Time): Db
    requires j in db.jobs
  {
    WriteAndRecompute(db, j, MarkFailed(db.jobs[j], code, now), now)
  }

  /** The upload's answer to a failed submit leaves the batch alone. */
  function FailUnsubmitted(db: Db, j: JobId, now: Time): Db
    requires j in db.jobs
  {
    RecomputeDocumentOf(db.(jobs := db.jobs[j := MarkFailed(db.jobs[j], "INTERNAL_PROCESSING_ERROR", now)]),
                        db.jobs[j].document)
  }

  function CancelJob(db: Db, j: JobId, now: Time): Db
    requires j in db.jobs
  {
    WriteAndRecompute(db, j, MarkCancelled(db.jobs[j], now), now)
  }

  function RetryJob(db: Db, j: JobId, now: Time): Db
    requires j in db.jobs
  {
    WriteAndRecompute(db, j, MarkPendingForRetry(db.jobs[j]), now)
  }

  function ActiveJobs(jobs: map<JobId, Job>, b: BatchId): set<JobId> {
    set j | j in jobs && jobs[j].batch == Some(b) && Active(jobs[j].status)
  }

  function CancelBatch(db: Db, b: BatchId, order: seq<JobId>, now: Time): Db
    requires forall j :: j in order ==> j in db.jobs
  {
    var cancelled := db.(jobs := Update(db.jobs, ActiveJobs(db.jobs, b), job => MarkCancelled(job, now)));
    var rolledUp := RecomputeDocuments(cancelled, order, {});
    if order == [] then rolledUp else RecomputeBatch(rolledUp, b, now)
  }

  function InterruptedJobs(jobs: map<JobId, Job>): set<JobId> {
    set j | j in jobs && jobs[j].status == JobStatus.Processing && !WaitingStage(jobs[j].stage)
  }

  function StaleJobs(jobs: map<JobId, Job>, cutoff: Time): set<JobId> {
    set j | j in InterruptedJobs(jobs) && jobs[j].startedAt.Some? && jobs[j].startedAt.value < cutoff
  }

  function FailAll(db: Db, ids: set<JobId>, order: seq<JobId>, code: string, now: Time): Db
    requires forall j :: j in order ==> j in db.jobs
  {
    RecomputeForJobs(db.(jobs := Update(db.jobs, ids, job => MarkFailed(job, code, now))), order, {}, {}, now)
  }

  /** The list a query returned: each selected row once, in the order the database chose. */
  ghost predicate Lists(order: seq<JobId>, ids: set<JobId>) {
    && (forall j :: j in ids <==> j in order)
    && (forall i, k :: 0 <= i < k < |order| ==> order[i] != order[k])
  }

  // ---- the bulk writes and the roll-ups, in columns ----

  /** "Stop processing" writes the batch's own active rows and no other. */
  ghost predicate CancelledInBatch(jobs: map<JobId, Job>, jobs': map<JobId, Job>, b: BatchId, now: Time) {
    && jobs'.Keys == jobs.Keys
    && forall j :: j in jobs ==>
         jobs'[j] == if jobs[j].batch == Some(b) && jobs[j].status in {JobStatus.Pending, JobStatus.Processing}
                     then jobs[j].(status := JobStatus.Cancelled, completedAt := Some(now))
                     else jobs[j]
  }

  /** A restart fails the jobs that some process was running; those that wait on Google, in any of the four
      waiting stages, and those that are not PROCESSING stay as they are. */
  ghost predicate FailedInterrupted(jobs: map<JobId, Job>, jobs': map<JobId, Job>, now: Time) {
    && jobs'.Keys == jobs.Keys
    && (forall j :: j in jobs && jobs[j].status == JobStatus.Processing && jobs[j].stage in {None, Some(Sync)} ==>
          jobs'[j] == jobs[j].(status := JobStatus.Failed, errorCode := Some("PROCESS_INTERRUPTED"),
                               completedAt := Some(now)))
    && (forall j :: j in jobs && jobs[j].stage in {Some(Prepared), Some(Submitting), Some(Submitted), Some(Finishing)} ==>
          jobs'[j] == jobs[j])
    && (forall j :: j in jobs && jobs[j].status != JobStatus.Processing ==> jobs'[j] == jobs[j])
  }

  /** The periodic recovery fails those of them that were started before the cutoff. */
  ghost predicate FailedStale(jobs: map<JobId, Job>, jobs': map<JobId, Job>, cutoff: Time, now: Time) {
    && jobs'.Keys == jobs.Keys
    && (forall j :: j in jobs && jobs[j].status == JobStatus.Processing && jobs[j].stage in {None, Some(Sync)}
                    && jobs[j].startedAt.Some? && jobs[j].startedAt.value < cutoff ==>
          jobs'[j] == jobs[j].(status := JobStatus.Failed, errorCode := Some("PROCESS_STALLED"), completedAt := Some(now)))
    && (forall j :: j in jobs && (jobs[j].startedAt.None? || jobs[j].startedAt.value >= cutoff) ==> jobs'[j] == jobs[j])
    && (forall j :: j in jobs && jobs[j].stage in {Some(Prepared), Some(Submitting), Some(Submitted), Some(Finishing)} ==>
          jobs'[j] == jobs[j])
    && (forall j :: j in jobs && jobs[j].status != JobStatus.Processing ==> jobs'[j] == jobs[j])
  }

  ghost predicate SomeJob(jobs: map<JobId, Job>, d: DocumentId, status: JobStatus) {
    exists j :: j in jobs && jobs[j].document == Some(d) && jobs[j].status == status
  }

  /** The document's status told from its jobs, one by one; no other document changes. */
  ghost predicate DocumentShown(jobs: map<JobId, Job>, documents: map<DocumentId, Document>,
                                documents': map<DocumentId, Document>, d: DocumentId) {
    && documents'.Keys == documents.Keys
    && (forall k :: k in documents && k != d ==> documents'[k] == documents[k])
    && (d in documents ==>
          && documents'[d].batch == documents[d].batch
          && if forall j :: j in jobs ==> jobs[j].document != Some(d) then documents'[d] == documents[d]
             else
               var active := SomeJob(jobs, d, JobStatus.Pending) || SomeJob(jobs, d, JobStatus.Processing);
               var completed, cancelled := SomeJob(jobs, d, JobStatus.Completed), SomeJob(jobs, d, JobStatus.Cancelled);
               && (documents'[d].status == DocumentStatus.Processing <==> active)
               && (documents'[d].status == DocumentStatus.Processed <==> !active && completed)
               && (documents'[d].status == DocumentStatus.Cancelled <==> !active && !completed && cancelled)
               && (documents'[d].status == DocumentStatus.Failed <==> !active && !completed && !cancelled))
  }

  lemma RecomputedShown(db: Db, d: DocumentId)
    ensures DocumentShown(db.jobs, db.documents, RecomputeDocument(db, d).documents, d)
  {
    hide AggregateDocument;
    var statuses := StatusesOf(db.jobs, d);
    forall status: JobStatus ensures SomeJob(db.jobs, d, status) <==> status in statuses {
    }
    if statuses != {} {
      AggregateDocumentMeaning(statuses);
      FailedAlone(statuses);
    } else {
      forall j | j in db.jobs ensures db.jobs[j].document != Some(d) {
        assert !SomeJob(db.jobs, d, db.jobs[j].status);
      }
    }
  }

  lemma FailedAlone(statuses: set<JobStatus>)
    requires statuses != {}
    ensures (AggregateDocument(statuses) == DocumentStatus.Failed <==>
              JobStatus.Pending !in statuses && JobStatus.Processing !in statuses && JobStatus.Completed !in statuses
              && JobStatus.Cancelled !in statuses)
    ensures (AggregateDocument(statuses) == DocumentStatus.Cancelled <==>
              JobStatus.Pending !in statuses && JobStatus.Processing !in statuses && JobStatus.Completed !in statuses
              && JobStatus.Cancelled in statuses)
  {
  }

  ghost predicate SomeDocument(documents: map<DocumentId, Document>, b: BatchId, status: DocumentStatus) {
    exists d :: d in documents && documents[d].batch == b && documents[d].status == status
  }

  /** The batch's status told from its documents, one by one, and when its two times are written. */
  ghost predicate BatchShown(documents: map<DocumentId, Document>, batches: map<BatchId, Batch>,
                             batches': map<BatchId, Batch>, b: BatchId, now: Time) {
    && batches'.Keys == batches.Keys
    && (forall k :: k in batches && k != b ==> batches'[k] == batches[k])
    && (b in batches ==>
          if forall d :: d in documents ==> documents[d].batch != b then batches'[b] == batches[b]
          else
            var status := batches'[b].status;
            var failed := SomeDocument(documents, b, DocumentStatus.Failed);
            var running := SomeDocument(documents, b, DocumentStatus.Queued)
                           || SomeDocument(documents, b, DocumentStatus.Processing);
            var cancelled := SomeDocument(documents, b, DocumentStatus.Cancelled);
            var uploaded := SomeDocument(documents, b, DocumentStatus.Uploaded);
            && (status == BatchStatus.Failed <==> failed)
            && (status == BatchStatus.Processing <==> !failed && running)
            && (status == BatchStatus.Cancelled <==> !failed && !running && cancelled)
            && (status == BatchStatus.Draft <==> !failed && !running && !cancelled && uploaded)
            && (status == BatchStatus.Completed <==> !failed && !running && !cancelled && !uploaded)
            && batches'[b].startedAt
               == (if status != batches[b].status && status == BatchStatus.Processing && batches[b].startedAt == None
                   then Some(now) else batches[b].startedAt)
            && batches'[b].completedAt
               == (if status != batches[b].status && status in {BatchStatus.Completed, BatchStatus.Failed, BatchStatus.Cancelled}
                   then Some(now) else batches[b].completedAt))
  }

  lemma RecomputedBatchShown(db: Db, b: BatchId, now: Time)
    ensures BatchShown(db.documents, db.batches, RecomputeBatch(db, b, now).batches, b, now)
  {
    hide AggregateBatch;
    var statuses := DocumentStatuses(db.documents, b);
    forall status: DocumentStatus ensures SomeDocument(db.documents, b, status) <==> status in statuses {
    }
    if statuses != {} {
      AggregateBatchMeaning(statuses);
      CompletedAlone(statuses);
    } else {
      forall d | d in db.documents ensures db.documents[d].batch != b {
        assert !SomeDocument(db.documents, b, db.documents[d].status);
      }
    }
  }

  lemma CompletedAlone(statuses: set<DocumentStatus>)
    requires statuses != {}
    ensures AggregateBatch(statuses) == BatchStatus.Completed <==>
            DocumentStatus.Failed !in statuses && DocumentStatus.Queued !in statuses && DocumentStatus.Processing !in statuses
            && DocumentStatus.Cancelled !in statuses && DocumentStatus.Uploaded !in statuses
    ensures AggregateBatch(statuses) == BatchStatus.Cancelled <==>
            DocumentStatus.Failed !in statuses && DocumentStatus.Queued !in statuses && DocumentStatus.Processing !in statuses
            && DocumentStatus.Cancelled in statuses
    ensures AggregateBatch(statuses) == BatchStatus.Draft <==>
            DocumentStatus.Failed !in statuses && DocumentStatus.Queued !in statuses && DocumentStatus.Processing !in statuses
            && DocumentStatus.Cancelled !in statuses && DocumentStatus.Uploaded in statuses
  {
    var s :| s in statuses;
    if forall t :: t in statuses ==> t == DocumentStatus.Processed {
      assert statuses == {DocumentStatus.Processed};
    }
  }

  /** A transaction that has recomputed this document and then this batch. */
  ghost predicate RolledUp(db: Db, db': Db, d: Option<DocumentId>, b: Option<BatchId>, now: Time) {
    && (match d
        case None => db'.documents == db.documents
        case Some(k) => DocumentShown(db'.jobs, db.documents, db'.documents, k))
    && (match b
        case None => db'.batches == db.batches
        case Some(k) => BatchShown(db'.documents, db.batches, db'.batches, k, now))
  }

  lemma RecomputesRollUp(db: Db, d: Option<DocumentId>, b: Option<BatchId>, now: Time)
    ensures RolledUp(db, RecomputeBatchOf(RecomputeDocumentOf(db, d), b, now), d, b, now)
  {
    hide RecomputeDocument, RecomputeBatch, DocumentShown, BatchShown;
    if d.Some? {
      RecomputedShown(db, d.value);
    }
    if b.Some? {
      RecomputedBatchShown(RecomputeDocumentOf(db, d), b.value, now);
    }
  }

  /** Whatever ends, restarts or starts a job recomputes its document and then its batch, each from the
      rows as they are then. */
  lemma JobsRollUp(db: Db, j: JobId, output: string, code: string, now: Time)
    requires j in db.jobs
    ensures var d, b := db.jobs[j].document, db.jobs[j].batch;
      && RolledUp(db, CompleteJob(db, j, output, now), d, b, now) && RolledUp(db, FailJob(db, j, code, now), d, b, now)
      && RolledUp(db, CancelJob(db, j, now), d, b, now) && RolledUp(db, RetryJob(db, j, now), d, b, now)
      && RolledUp(db, RecomputeFor(db, j, now), d, b, now)
  {
    hide RecomputeDocumentOf, RecomputeBatchOf, DocumentShown, BatchShown, RecomputeDocument, RecomputeBatch;
    var d, b := db.jobs[j].document, db.jobs[j].batch;
    RecomputesRollUp(db.(jobs := db.jobs[j := MarkCompleted(db.jobs[j], output, now)]), d, b, now);
    RecomputesRollUp(db.(jobs := db.jobs[j := MarkFailed(db.jobs[j], code, now)]), d, b, now);
    RecomputesRollUp(db.(jobs := db.jobs[j := MarkCancelled(db.jobs[j], now)]), d, b, now);
    RecomputesRollUp(db.(jobs := db.jobs[j := MarkPendingForRetry(db.jobs[j])]), d, b, now);
    RecomputesRollUp(db, d, b, now);
  }

  /** The upload's answer to a failed submit: the row, its document, and nothing else. */
  lemma UnsubmittedInWords(db: Db, j: JobId, now: Time)
    requires j in db.jobs
    ensures var r := FailUnsubmitted(db, j, now);
      && r.jobs == db.jobs[j := db.jobs[j].(status := JobStatus.Failed, errorCode := Some("INTERNAL_PROCESSING_ERROR"),
                                            completedAt := Some(now))]
      && RolledUp(db, r, db.jobs[j].document, None, now) && r.imports == db.imports
  {
    hide DocumentShown, BatchShown, RecomputeDocument;
    RecomputesRollUp(db.(jobs := db.jobs[j := MarkFailed(db.jobs[j], "INTERNAL_PROCESSING_ERROR", now)]),
                     db.jobs[j].document, None, now);
  }

  // ---- roll-up agreement ----

  ghost predicate HasJobs(db: Db, d: DocumentId) {
    StatusesOf(db.jobs, d) != {}
  }

  /** The document shows the aggregate of its jobs, or has not been recomputed yet
      because none of its jobs has ended. */
  ghost predicate Agrees(db: Db, d: DocumentId)
    requires d in db.documents
  {
    HasJobs(db, d) ==>
      || db.documents[d].status == AggregateDocument(StatusesOf(db.jobs, d))
      || (db.documents[d].status == DocumentStatus.Uploaded && forall s :: s in StatusesOf(db.jobs, d) ==> Active(s))
  }

  ghost predicate AllAgree(db: Db) {
    forall d :: d in db.documents ==> Agrees(db, d)
  }

  /** Nothing the roll-up looks at has changed for the jobs of `d`. */
  ghost predicate SameForRollUp(jobs: map<JobId, Job>, jobs': map<JobId, Job>, d: DocumentId) {
    && (forall j :: j in jobs && jobs[j].document == Some(d) ==>
          j in jobs' && jobs'[j].document == Some(d) && SameClass(jobs[j].status, jobs'[j].status))
    && (forall j :: j in jobs' && jobs'[j].document == Some(d) ==> j in jobs && jobs[j].document == Some(d))
  }

  predicate SameClass(s: JobStatus, s': JobStatus) {
    s == s' || (Active(s) && Active(s'))
  }

  lemma RollUpSeesClasses(jobs: map<JobId, Job>, jobs': map<JobId, Job>, d: DocumentId)
    requires SameForRollUp(jobs, jobs', d)
    ensures StatusesOf(jobs, d) == {} <==> StatusesOf(jobs', d) == {}
    ensures StatusesOf(jobs, d) != {} ==>
              AggregateDocument(StatusesOf(jobs, d)) == AggregateDocument(StatusesOf(jobs', d))
    ensures (forall s :: s in StatusesOf(jobs, d) ==> Active(s)) <==> (forall s :: s in StatusesOf(jobs', d) ==> Active(s))
  {
    StatusesRelated(jobs, jobs', d);
    StatusesRelated(jobs', jobs, d);
    AggregateSeesClasses(StatusesOf(jobs, d), StatusesOf(jobs', d));
  }

  ghost predicate Related(a: set<JobStatus>, b: set<JobStatus>) {
    forall s :: s in a ==> if Active(s) then JobStatus.Pending in b || JobStatus.Processing in b else s in b
  }

  lemma StatusesRelated(jobs: map<JobId, Job>, jobs': map<JobId, Job>, d: DocumentId)
    requires SameForRollUp(jobs, jobs', d)
    ensures Related(StatusesOf(jobs, d), StatusesOf(jobs', d))
  {
  }

  lemma AggregateSeesClasses(a: set<JobStatus>, b: set<JobStatus>)
    requires Related(a, b) && Related(b, a)
    ensures a == {} <==> b == {}
    ensures a != {} ==> b != {} && AggregateDocument(a) == AggregateDocument(b)
    ensures (forall s :: s in a ==> Active(s)) <==> (forall s :: s in b ==> Active(s))
  {
  }

  /** What keeps the agreement: each document was recomputed from the new jobs, or kept its
      status while the roll-up could not notice what happened to its jobs. */
  lemma AgreementKept(db: Db, db': Db)
    requires AllAgree(db)
    requires forall d :: d in db'.documents ==>
      || (HasJobs(db', d) && db'.documents[d].status == AggregateDocument(StatusesOf(db'.jobs, d)))
      || (d in db.documents && db'.documents[d].status == db.documents[d].status && SameForRollUp(db.jobs, db'.jobs, d))
    ensures AllAgree(db')
  {
    forall d | d in db'.documents ensures Agrees(db', d) {
      if d in db.documents && db'.documents[d].status == db.documents[d].status && SameForRollUp(db.jobs, db'.jobs, d) {
        RollUpSeesClasses(db.jobs, db'.jobs, d);
        assert Agrees(db, d);
      }
    }
  }

  /** Writing one row and recomputing its document, whatever the new status is. */
  lemma WriteAndRecomputeAgrees(db: Db, j: JobId, job: Job, now: Time)
    requires AllAgree(db) && j in db.jobs && job.document == db.jobs[j].document
    ensures AllAgree(WriteAndRecompute(db, j, job, now))
  {
    var db' := WriteAndRecompute(db, j, job, now);
    assert db'.jobs == db.jobs[j := job];
    if job.document.Some? && job.document.value in db.documents {
      assert db'.jobs[j] == job;
      assert job.status in StatusesOf(db'.jobs, job.document.value);
    }
    forall d | d in db'.documents && job.document != Some(d) ensures SameForRollUp(db.jobs, db'.jobs, d) {
    }
    AgreementKept(db, db');
  }

  /** Rows rewritten within their class need no recompute. */
  lemma SameClassesAgree(db: Db, db': Db)
    requires AllAgree(db) && db'.documents == db.documents && db'.jobs.Keys == db.jobs.Keys
    requires forall j :: j in db.jobs ==>
      db'.jobs[j].document == db.jobs[j].document && SameClass(db.jobs[j].status, db'.jobs[j].status)
    ensures AllAgree(db')
  {
    forall d | d in db'.documents ensures SameForRollUp(db.jobs, db'.jobs, d) {
    }
    AgreementKept(db, db');
  }

  ghost predicate Touches(jobs: map<JobId, Job>, order: seq<JobId>, d: DocumentId) {
    exists j :: j in order && j in jobs && jobs[j].document == Some(d)
  }

  ghost function Recomputed(db: Db, d: DocumentId): Document
    requires d in db.documents
  {
    if HasJobs(db, d) then db.documents[d].(status := AggregateDocument(StatusesOf(db.jobs, d))) else db.documents[d]
  }

  /** Documents come out the same whatever order the rows were listed in. */
  lemma {:induction false} RecomputeDocumentsEffect(db: Db, jobs: seq<JobId>, seen: set<DocumentId>)
    requires forall j :: j in jobs ==> j in db.jobs
    ensures var r := RecomputeDocuments(db, jobs, seen);
      && r.jobs == db.jobs && r.batches == db.batches && r.imports == db.imports
      && r.documents.Keys == db.documents.Keys
      && (forall d :: d in db.documents ==>
            r.documents[d] == (if d !in seen && Touches(db.jobs, jobs, d) then Recomputed(db, d) else db.documents[d]))
    decreases |jobs|
  {
    if jobs != [] {
      var d0 := db.jobs[jobs[0]].document;
      assert jobs == [jobs[0]] + jobs[1..];
      if d0.None? || d0.value in seen {
        RecomputeDocumentsEffect(db, jobs[1..], seen);
      } else {
        assert db.jobs[jobs[0]].status in StatusesOf(db.jobs, d0.value);
        RecomputeDocumentsEffect(RecomputeDocument(db, d0.value), jobs[1..], seen + {d0.value});
      }
    }
  }

  lemma RecomputedOnce(db: Db, d0: DocumentId, d: DocumentId)
    requires d in db.documents
    ensures var r := RecomputeDocument(db, d0);
      d in r.documents && r.documents[d] == (if d == d0 then Recomputed(db, d) else db.documents[d])
      && Recomputed(r, d) == Recomputed(db, d)
  {
  }

  lemma {:induction false} RecomputeForJobsEffect(db: Db, order: seq<JobId>, seenD: set<DocumentId>, seenB: set<BatchId>,
                                                  now: Time, d: DocumentId)
    requires (forall j :: j in order ==> j in db.jobs) && d in db.documents
    ensures RecomputeForJobs(db, order, seenD, seenB, now).documents[d]
         == if d !in seenD && Touches(db.jobs, order, d) then Recomputed(db, d) else db.documents[d]
    decreases |order|
  {
    if order != [] {
      var job := db.jobs[order[0]];
      assert order == [order[0]] + order[1..];
      var newD := job.document.Some? && job.document.value !in seenD;
      var newB := job.batch.Some? && job.batch.value !in seenB;
      var db1 := if newD then RecomputeDocument(db, job.document.value) else db;
      if newD {
        RecomputedOnce(db, job.document.value, d);
      }
      var db2 := if newB then RecomputeBatch(db1, job.batch.value, now) else db1;
      assert Recomputed(db2, d) == Recomputed(db, d);
      hide RecomputeBatch, RecomputeDocument, Recomputed;
      RecomputeForJobsEffect(db2, order[1..], if newD then seenD + {job.document.value} else seenD,
                             if newB then seenB + {job.batch.value} else seenB, now, d);
    }
  }

  /** A document of the listed jobs shows what they have come to, and the others are as they were. */
  ghost predicate TouchedShown(db: Db, db': Db, order: seq<JobId>) {
    && db'.documents.Keys == db.documents.Keys
    && forall d :: d in db.documents ==>
         if exists j :: j in order && j in db'.jobs && db'.jobs[j].document == Some(d)
         then DocumentShown(db'.jobs, db.documents, db.documents[d := db'.documents[d]], d)
         else db'.documents[d] == db.documents[d]
  }

  lemma RecomputedIsShown(db: Db, d: DocumentId)
    requires d in db.documents
    ensures DocumentShown(db.jobs, db.documents, db.documents[d := Recomputed(db, d)], d)
  {
    RecomputedShown(db, d);
    assert RecomputeDocument(db, d).documents == db.documents[d := Recomputed(db, d)];
    hide DocumentShown;
  }

  /** Stopping a batch: the documents of what was stopped, and then the batch, if anything was. */
  lemma CancelInWords(db: Db, b: BatchId, order: seq<JobId>, now: Time)
    requires Lists(order, ActiveJobs(db.jobs, b))
    ensures var r := CancelBatch(db, b, order, now);
      && CancelledInBatch(db.jobs, r.jobs, b, now) && TouchedShown(db, r, order) && r.imports == db.imports
      && if order == [] then r.batches == db.batches else BatchShown(r.documents, db.batches, r.batches, b, now)
  {
    hide RecomputeDocuments, RecomputeBatch, DocumentShown, BatchShown, Recomputed;
    var cancelled := db.(jobs := Update(db.jobs, ActiveJobs(db.jobs, b), job => MarkCancelled(job, now)));
    var rolledUp := RecomputeDocuments(cancelled, order, {});
    RecomputeDocumentsEffect(cancelled, order, {});
    RecomputedBatchShown(rolledUp, b, now);
    forall d | d in db.documents && Touches(cancelled.jobs, order, d)
      ensures DocumentShown(cancelled.jobs, db.documents, db.documents[d := rolledUp.documents[d]], d)
    {
      RecomputedIsShown(cancelled, d);
    }
  }

  /** A recovery: the documents of what was failed. What the batches show is told in BatchRollUp. */
  lemma FailAllInWords(db: Db, ids: set<JobId>, order: seq<JobId>, code: string, now: Time)
    requires Lists(order, ids) && ids <= db.jobs.Keys
    ensures var r := FailAll(db, ids, order, code, now);
      && r.jobs.Keys == db.jobs.Keys && TouchedShown(db, r, order) && r.imports == db.imports
      && forall j :: j in db.jobs ==>
           r.jobs[j] == if j in ids
                        then db.jobs[j].(status := JobStatus.Failed, errorCode := Some(code), completedAt := Some(now))
                        else db.jobs[j]
  {
    hide RecomputeForJobs, DocumentShown, Recomputed;
    var failed := db.(jobs := Update(db.jobs, ids, job => MarkFailed(job, code, now)));
    var r := FailAll(db, ids, order, code, now);
    forall d | d in db.documents
      ensures if Touches(failed.jobs, order, d)
              then DocumentShown(failed.jobs, db.documents, db.documents[d := r.documents[d]], d)
              else r.documents[d] == db.documents[d]
    {
      RecomputeForJobsEffect(failed, order, {}, {}, now, d);
      RecomputedIsShown(failed, d);
    }
  }
}
