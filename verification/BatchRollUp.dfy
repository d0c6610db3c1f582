/** Batches after a recovery: `_recompute_status_for_jobs` looks at each batch once, when it comes to
    the first job of it, before the documents of later jobs have been recomputed. */
module BatchRollUp {
  import opened Wrappers
  import opened JobModel
  import RollUp

  /** The documents once those of `jobs` have been recomputed. */
  ghost function DocumentsAfter(db: Db, jobs: seq<JobId>, seen: set<DocumentId>): map<DocumentId, Document> {
    map d | d in db.documents :: if d !in seen && Touches(db.jobs, jobs, d) then Recomputed(db, d) else db.documents[d]
  }

  lemma {:induction false} SeenBatchStays(db: Db, order: seq<JobId>, seenD: set<DocumentId>, seenB: set<BatchId>, now: Time,
                                          b: BatchId)
    requires (forall j :: j in order ==> j in db.jobs) && b in seenB && b in db.batches
    ensures b in RecomputeForJobs(db, order, seenD, seenB, now).batches
    ensures RecomputeForJobs(db, order, seenD, seenB, now).batches[b] == db.batches[b]
    decreases |order|
  {
    hide RecomputeDocument;
    if order != [] {
      var job := db.jobs[order[0]];
      assert order == [order[0]] + order[1..];
      var newD := job.document.Some? && job.document.value !in seenD;
      var newB := job.batch.Some? && job.batch.value !in seenB;
      var db1 := if newD then RecomputeDocument(db, job.document.value) else db;
      var db2 := if newB then RecomputeBatch(db1, job.batch.value, now) else db1;
      SeenBatchStays(db2, order[1..], if newD then seenD + {job.document.value} else seenD,
                     if newB then seenB + {job.batch.value} else seenB, now, b);
    }
  }

  lemma BatchRow(db: Db, b: BatchId, now: Time)
    requires b in db.batches && DocumentStatuses(db.documents, b) != {}
    ensures b in RecomputeBatch(db, b, now).batches
    ensures RecomputeBatch(db, b, now).batches[b].status == AggregateBatch(DocumentStatuses(db.documents, b))
  {
  }

  lemma OtherBatch(db: Db, b: BatchId, b0: BatchId, now: Time)
    requires b in db.batches
    ensures b in RecomputeBatch(db, b0, now).batches
  {
  }

  /** The batch ends with the aggregate of its documents as they were at its first job. */
  lemma {:induction false} BatchAsFirstSeen(db: Db, order: seq<JobId>, seenD: set<DocumentId>, seenB: set<BatchId>,
                                            now: Time, b: BatchId, i: nat)
    requires (forall j :: j in order ==> j in db.jobs) && i < |order| && b in db.batches && b !in seenB
    requires db.jobs[order[i]].batch == Some(b) && forall k :: 0 <= k < i ==> db.jobs[order[k]].batch != Some(b)
    requires DocumentStatuses(DocumentsAfter(db, order[..i + 1], seenD), b) != {}
    ensures b in RecomputeForJobs(db, order, seenD, seenB, now).batches
    ensures RecomputeForJobs(db, order, seenD, seenB, now).batches[b].status
         == AggregateBatch(DocumentStatuses(DocumentsAfter(db, order[..i + 1], seenD), b))
    decreases |order|
  {
    hide RecomputeDocument, RecomputeBatch, AggregateBatch, DocumentStatuses;
    var job := db.jobs[order[0]];
    assert order == [order[0]] + order[1..];
    var newD := job.document.Some? && job.document.value !in seenD;
    var newB := job.batch.Some? && job.batch.value !in seenB;
    var db1 := if newD then RecomputeDocument(db, job.document.value) else db;
    var seenD' := if newD then seenD + {job.document.value} else seenD;
    var rest := order[..i + 1][1..];
    assert order[..i + 1][0] == order[0];
    assert seenD' == if job.document.Some? then seenD + {job.document.value} else seenD;
    FirstDocument(db, db1, order[..i + 1], seenD, seenD');
    hide DocumentsAfter;
    if i == 0 {
      assert DocumentsAfter(db1, [], seenD') == db1.documents by { NothingTouched(db1, seenD'); }
      BatchRow(db1, b, now);
      SeenBatchStays(RecomputeBatch(db1, b, now), order[1..], seenD', seenB + {b}, now, b);
    } else {
      var db2 := if newB then RecomputeBatch(db1, job.batch.value, now) else db1;
      if newB {
        OtherBatch(db1, b, job.batch.value, now);
      }
      assert order[1..][..i] == rest;
      assert DocumentsAfter(db2, rest, seenD') == DocumentsAfter(db1, rest, seenD') by { SameDocumentsAfter(db1, db2, rest, seenD'); }
      BatchAsFirstSeen(db2, order[1..], seenD', if newB then seenB + {job.batch.value} else seenB, now, b, i - 1);
    }
  }

  lemma FirstDocument(db: Db, db1: Db, order: seq<JobId>, seen: set<DocumentId>, seen': set<DocumentId>)
    requires order != [] && order[0] in db.jobs
    requires var d0 := db.jobs[order[0]].document;
      && seen' == (if d0.Some? then seen + {d0.value} else seen)
      && db1 == if d0.Some? && d0.value !in seen then RecomputeDocument(db, d0.value) else db
    ensures DocumentsAfter(db1, order[1..], seen') == DocumentsAfter(db, order, seen)
  {
  }

  lemma NothingTouched(db: Db, seen: set<DocumentId>)
    ensures DocumentsAfter(db, [], seen) == db.documents
  {
  }

  lemma SameDocumentsAfter(db: Db, db': Db, jobs: seq<JobId>, seen: set<DocumentId>)
    requires db'.jobs == db.jobs && db'.documents == db.documents
    ensures DocumentsAfter(db', jobs, seen) == DocumentsAfter(db, jobs, seen)
  {
    hide AggregateDocument;
  }

  /** The whole recovery: every document ends recomputed, the batch with what its first job could see. */
  lemma RecoveredBatch(db: Db, order: seq<JobId>, now: Time, b: BatchId, i: nat)
    requires (forall j :: j in order ==> j in db.jobs) && i < |order| && b in db.batches
    requires db.jobs[order[i]].batch == Some(b) && forall k :: 0 <= k < i ==> db.jobs[order[k]].batch != Some(b)
    requires DocumentStatuses(DocumentsAfter(db, order[..i + 1], {}), b) != {}
    ensures var r := RecomputeForJobs(db, order, {}, {}, now);
      && b in r.batches
      && r.documents == DocumentsAfter(db, order, {})
      && r.batches[b].status == AggregateBatch(DocumentStatuses(DocumentsAfter(db, order[..i + 1], {}), b))
  {
    hide AggregateBatch, DocumentStatuses, RecomputeForJobs;
    BatchAsFirstSeen(db, order, {}, {}, now, b, i);
    var r := RecomputeForJobs(db, order, {}, {}, now);
    forall d | d in db.documents ensures r.documents[d] == DocumentsAfter(db, order, {})[d] {
      RecomputeForJobsEffect(db, order, {}, {}, now, d);
    }
    assert r.documents == DocumentsAfter(db, order, {});
  }

  // ---- what can be read before the recovery ----

  /** A recovery that fails `ids` comes to the document. */
  ghost predicate Hit(db: Db, ids: set<JobId>, d: DocumentId) {
    exists j :: j in ids && j in db.jobs && db.jobs[j].document == Some(d)
  }

  ghost predicate AllFail(db: Db, ids: set<JobId>, d: DocumentId) {
    forall j :: j in db.jobs && db.jobs[j].document == Some(d) ==> j in ids || db.jobs[j].status == JobStatus.Failed
  }

  ghost predicate StaysActive(db: Db, ids: set<JobId>, d: DocumentId) {
    exists j :: j in db.jobs && j !in ids && db.jobs[j].document == Some(d) && Active(db.jobs[j].status)
  }

  ghost predicate InBatch(db: Db, b: BatchId, d: DocumentId) {
    d in db.documents && db.documents[d].batch == b
  }

  /** A document of the batch that is recomputed after the batch has been. */
  ghost predicate Later(db: Db, ids: set<JobId>, b: BatchId, d0: DocumentId, d: DocumentId) {
    InBatch(db, b, d) && d != d0 && Hit(db, ids, d)
  }

  ghost predicate Untouched(db: Db, ids: set<JobId>, b: BatchId, d: DocumentId) {
    InBatch(db, b, d) && !Hit(db, ids, d)
  }

  ghost predicate FailedElsewhere(db: Db, ids: set<JobId>, b: BatchId, d0: DocumentId) {
    AllFail(db, ids, d0) || exists d :: Untouched(db, ids, b, d) && db.documents[d].status == DocumentStatus.Failed
  }

  ghost predicate ActiveElsewhere(db: Db, ids: set<JobId>, b: BatchId, d0: DocumentId) {
    || StaysActive(db, ids, d0)
    || exists d :: Untouched(db, ids, b, d) && Blocks(db.documents[d].status)
  }

  predicate Blocks(status: DocumentStatus) {
    status == DocumentStatus.Queued || status == DocumentStatus.Processing
  }

  /** Told from the rows before the recovery, with `d0` the document of the batch's first job: no document
      is recomputed too late; or some other document makes the batch FAILED anyway; or none of the later
      ones ends FAILED, and the batch is PROCESSING both as it was seen and as it ends. */
  ghost predicate SeenInTime(db: Db, ids: set<JobId>, b: BatchId, d0: DocumentId) {
    || (forall d :: !Later(db, ids, b, d0, d))
    || FailedElsewhere(db, ids, b, d0)
    || (&& (forall d :: Later(db, ids, b, d0, d) ==> !AllFail(db, ids, d))
        && (|| ActiveElsewhere(db, ids, b, d0)
            || (&& (exists d :: Later(db, ids, b, d0, d) && db.documents[d].status == DocumentStatus.Processing)
                && (exists d :: Later(db, ids, b, d0, d) && StaysActive(db, ids, d)))))
  }

  ghost predicate Recovering(db: Db, ids: set<JobId>, order: seq<JobId>) {
    && AllAgree(db) && RollUp.Linked(db) && Lists(order, ids)
    && forall j :: j in ids ==> j in db.jobs && db.jobs[j].status == JobStatus.Processing
  }

  ghost predicate FirstOf(db: Db, order: seq<JobId>, b: BatchId, i: nat) {
    && i < |order| && (forall j :: j in order ==> j in db.jobs)
    && db.jobs[order[i]].batch == Some(b) && forall k :: 0 <= k < i ==> db.jobs[order[k]].batch != Some(b)
  }

  function FailedRows(db: Db, ids: set<JobId>, code: string, now: Time): Db {
    db.(jobs := Update(db.jobs, ids, job => MarkFailed(job, code, now)))
  }

  // ---- documents ----

  lemma StatusAfter(db: Db, ids: set<JobId>, code: string, now: Time, d: DocumentId)
    requires Hit(db, ids, d) && d in db.documents
    ensures var status := Recomputed(FailedRows(db, ids, code, now), d).status;
      && (status == DocumentStatus.Failed <==> AllFail(db, ids, d))
      && (Blocks(status) <==> StaysActive(db, ids, d))
  {
    hide AggregateDocument;
    var failed := FailedRows(db, ids, code, now);
    var statuses := StatusesOf(failed.jobs, d);
    var j :| j in ids && j in db.jobs && db.jobs[j].document == Some(d);
    assert failed.jobs[j].status == JobStatus.Failed && failed.jobs[j].status in statuses;
    AggregateDocumentMeaning(statuses);
    FailedStatuses(db, ids, code, now, d);
    NeverQueued(statuses);
  }

  lemma NeverQueued(statuses: set<JobStatus>)
    requires statuses != {}
    ensures AggregateDocument(statuses) != DocumentStatus.Queued
  {
  }

  lemma FailedStatuses(db: Db, ids: set<JobId>, code: string, now: Time, d: DocumentId)
    requires Hit(db, ids, d)
    ensures var statuses := StatusesOf(FailedRows(db, ids, code, now).jobs, d);
      && (statuses == {JobStatus.Failed} <==> AllFail(db, ids, d))
      && ((exists s :: s in statuses && Active(s)) <==> StaysActive(db, ids, d))
  {
    var failed := FailedRows(db, ids, code, now).jobs;
    var statuses := StatusesOf(failed, d);
    forall j | j in db.jobs && db.jobs[j].document == Some(d) ensures failed[j].status in statuses {
    }
    if AllFail(db, ids, d) {
      assert forall s :: s in statuses ==> s == JobStatus.Failed;
    }
    if StaysActive(db, ids, d) {
      var j :| j in db.jobs && j !in ids && db.jobs[j].document == Some(d) && Active(db.jobs[j].status);
      assert failed[j].status in statuses;
    }
  }

  /** A document with a job that is about to be failed shows PROCESSING, or UPLOADED while all its jobs
      are active. */
  lemma StatusBefore(db: Db, ids: set<JobId>, order: seq<JobId>, d: DocumentId)
    requires Recovering(db, ids, order) && d in db.documents && Hit(db, ids, d)
    ensures db.documents[d].status in {DocumentStatus.Processing, DocumentStatus.Uploaded}
    ensures db.documents[d].status == DocumentStatus.Uploaded ==> AllFail(db, ids, d) || StaysActive(db, ids, d)
  {
    hide AggregateDocument, Lists, RollUp.Linked;
    var j :| j in ids && j in db.jobs && db.jobs[j].document == Some(d);
    var statuses := StatusesOf(db.jobs, d);
    assert db.jobs[j].status in statuses;
    assert Agrees(db, d);
    AggregateDocumentMeaning(statuses);
    if db.documents[d].status == DocumentStatus.Uploaded {
      forall k | k in db.jobs && db.jobs[k].document == Some(d) ensures Active(db.jobs[k].status) {
        assert db.jobs[k].status in statuses;
      }
    }
  }

  // ---- the batch ----

  lemma SeenDocuments(db: Db, ids: set<JobId>, order: seq<JobId>, code: string, now: Time, b: BatchId, i: nat,
                      d: DocumentId)
    requires RollUp.Linked(db) && Lists(order, ids) && FirstOf(db, order, b, i) && InBatch(db, b, d)
    ensures var failed := FailedRows(db, ids, code, now);
      && d in DocumentsAfter(failed, order[..i + 1], {}) && d in DocumentsAfter(failed, order, {})
      && DocumentsAfter(failed, order[..i + 1], {})[d]
         == (if db.jobs[order[i]].document == Some(d) then Recomputed(failed, d) else db.documents[d])
      && DocumentsAfter(failed, order, {})[d] == if Hit(db, ids, d) then Recomputed(failed, d) else db.documents[d]
  {
    hide AggregateDocument, StatusesOf;
    var failed := FailedRows(db, ids, code, now);
    var seen := order[..i + 1];
    assert order[i] in seen && order[i] in order;
    if Touches(failed.jobs, seen, d) {
      var j :| j in seen && j in failed.jobs && failed.jobs[j].document == Some(d);
      var k :| 0 <= k < |seen| && seen[k] == j;
      assert db.jobs[j].batch == Some(b);
    }
    if db.jobs[order[i]].document == Some(d) {
      assert Touches(failed.jobs, seen, d);
    }
    if Hit(db, ids, d) {
      var j :| j in ids && j in db.jobs && db.jobs[j].document == Some(d);
      assert Touches(failed.jobs, order, d);
    }
  }

  lemma HasStatus(documents: map<DocumentId, Document>, b: BatchId, status: DocumentStatus)
    ensures status in DocumentStatuses(documents, b) <==>
            exists d :: d in documents && documents[d].batch == b && documents[d].status == status
  {
  }

  ghost predicate SomeBlocks(documents: map<DocumentId, Document>, b: BatchId) {
    exists d :: d in documents && documents[d].batch == b && Blocks(documents[d].status)
  }

  ghost predicate SomeFailed(documents: map<DocumentId, Document>, b: BatchId) {
    exists d :: d in documents && documents[d].batch == b && documents[d].status == DocumentStatus.Failed
  }

  /** FAILED and PROCESSING are the two statuses that a single document decides. */
  lemma BatchOf(documents: map<DocumentId, Document>, b: BatchId)
    requires DocumentStatuses(documents, b) != {}
    ensures var status := AggregateBatch(DocumentStatuses(documents, b));
      && (status == BatchStatus.Failed <==> SomeFailed(documents, b))
      && (status == BatchStatus.Processing <==> !SomeFailed(documents, b) && SomeBlocks(documents, b))
  {
    hide AggregateBatch, DocumentStatuses;
    AggregateBatchMeaning(DocumentStatuses(documents, b));
    HasStatus(documents, b, DocumentStatus.Failed);
    HasStatus(documents, b, DocumentStatus.Queued);
    HasStatus(documents, b, DocumentStatus.Processing);
    forall s | s in DocumentStatuses(documents, b) && Blocks(s) ensures SomeBlocks(documents, b) {
      HasStatus(documents, b, s);
    }
  }

  /** What the two aggregates are taken over, told from the rows before. */
  lemma SeenAndLeft(db: Db, ids: set<JobId>, order: seq<JobId>, code: string, now: Time, b: BatchId, i: nat, d0: DocumentId)
    requires Recovering(db, ids, order) && FirstOf(db, order, b, i) && db.jobs[order[i]].document == Some(d0)
    ensures var seen, left := DocumentsAfter(FailedRows(db, ids, code, now), order[..i + 1], {}),
                              DocumentsAfter(FailedRows(db, ids, code, now), order, {});
      && (SomeFailed(seen, b) <==> FailedElsewhere(db, ids, b, d0))
      && (SomeFailed(left, b) <==>
            FailedElsewhere(db, ids, b, d0) || exists d :: Later(db, ids, b, d0, d) && AllFail(db, ids, d))
      && (SomeBlocks(seen, b) <==>
            || ActiveElsewhere(db, ids, b, d0)
            || exists d :: Later(db, ids, b, d0, d) && db.documents[d].status == DocumentStatus.Processing)
      && (SomeBlocks(left, b) <==>
            ActiveElsewhere(db, ids, b, d0) || exists d :: Later(db, ids, b, d0, d) && StaysActive(db, ids, d))
  {
    hide AllAgree, Recomputed, AllFail, StaysActive, Hit, DocumentsAfter;
    var failed := FailedRows(db, ids, code, now);
    var seen, left := DocumentsAfter(failed, order[..i + 1], {}), DocumentsAfter(failed, order, {});
    FirstHit(db, ids, order, b, i, d0);
    SameRows(failed, order[..i + 1]);
    SameRows(failed, order);
    forall d | InBatch(db, b, d)
      ensures d in seen && d in left && seen[d].batch == b && left[d].batch == b
      ensures Untouched(db, ids, b, d) ==> seen[d] == left[d] == db.documents[d]
      ensures Hit(db, ids, d) ==>
        && (left[d].status == DocumentStatus.Failed <==> AllFail(db, ids, d))
        && (Blocks(left[d].status) <==> StaysActive(db, ids, d))
      ensures d == d0 ==> seen[d] == left[d]
      ensures Later(db, ids, b, d0, d) ==>
        seen[d] == db.documents[d] && db.documents[d].status in {DocumentStatus.Processing, DocumentStatus.Uploaded}
    {
      SeenDocuments(db, ids, order, code, now, b, i, d);
      if Hit(db, ids, d) {
        StatusAfter(db, ids, code, now, d);
        StatusBefore(db, ids, order, d);
      }
    }
    assert InBatch(db, b, d0) && Hit(db, ids, d0);
    forall d | d in seen && seen[d].batch == b ensures InBatch(db, b, d) {
    }
    forall d | d in left && left[d].batch == b ensures InBatch(db, b, d) {
    }
  }

  lemma FirstHit(db: Db, ids: set<JobId>, order: seq<JobId>, b: BatchId, i: nat, d0: DocumentId)
    requires RollUp.Linked(db) && Lists(order, ids) && FirstOf(db, order, b, i) && db.jobs[order[i]].document == Some(d0)
    ensures InBatch(db, b, d0) && Hit(db, ids, d0)
  {
    assert order[i] in order;
  }

  lemma SameRows(db: Db, jobs: seq<JobId>)
    ensures DocumentsAfter(db, jobs, {}).Keys == db.documents.Keys
    ensures forall d :: d in db.documents ==> DocumentsAfter(db, jobs, {})[d].batch == db.documents[d].batch
  {
    hide AggregateDocument, StatusesOf;
  }

  /** Exactly when a recovered batch shows the aggregate of its documents, told from the rows before. */
  lemma BatchAgreesIff(db: Db, ids: set<JobId>, order: seq<JobId>, code: string, now: Time, b: BatchId, i: nat,
                       d0: DocumentId)
    requires Recovering(db, ids, order) && FirstOf(db, order, b, i) && b in db.batches
    requires db.jobs[order[i]].document == Some(d0)
    ensures var r := FailAll(db, ids, order, code, now);
      && b in r.batches && DocumentStatuses(r.documents, b) != {}
      && (r.batches[b].status == AggregateBatch(DocumentStatuses(r.documents, b)) <==> SeenInTime(db, ids, b, d0))
  {
    hide AllAgree, AggregateBatch, DocumentStatuses, DocumentsAfter, RecomputeForJobs, AllFail, StaysActive, Hit,
      FailedElsewhere, ActiveElsewhere, SomeFailed, SomeBlocks;
    var failed := FailedRows(db, ids, code, now);
    var seen, left := DocumentsAfter(failed, order[..i + 1], {}), DocumentsAfter(failed, order, {});
    FirstHit(db, ids, order, b, i, d0);
    SameRows(failed, order[..i + 1]);
    SameRows(failed, order);
    NotEmpty(seen, b, d0);
    NotEmpty(left, b, d0);
    RecoveredBatch(failed, order, now, b, i);
    BatchOf(seen, b);
    BatchOf(left, b);
    SeenAndLeft(db, ids, order, code, now, b, i, d0);
    forall d | Later(db, ids, b, d0, d)
      ensures db.documents[d].status == DocumentStatus.Processing || AllFail(db, ids, d) || StaysActive(db, ids, d)
    {
      StatusBefore(db, ids, order, d);
    }
    if forall d :: !Later(db, ids, b, d0, d) {
      NoneLater(db, ids, order, code, now, b, i, d0);
    }
  }

  lemma NotEmpty(documents: map<DocumentId, Document>, b: BatchId, d: DocumentId)
    requires d in documents && documents[d].batch == b
    ensures DocumentStatuses(documents, b) != {}
  {
    assert documents[d].status in DocumentStatuses(documents, b);
  }

  lemma NoneLater(db: Db, ids: set<JobId>, order: seq<JobId>, code: string, now: Time, b: BatchId, i: nat, d0: DocumentId)
    requires Recovering(db, ids, order) && FirstOf(db, order, b, i) && db.jobs[order[i]].document == Some(d0)
    requires forall d :: !Later(db, ids, b, d0, d)
    ensures var failed := FailedRows(db, ids, code, now);
      DocumentStatuses(DocumentsAfter(failed, order[..i + 1], {}), b) == DocumentStatuses(DocumentsAfter(failed, order, {}), b)
  {
    hide AllAgree, Recomputed, Hit, DocumentsAfter;
    var failed := FailedRows(db, ids, code, now);
    SameRows(failed, order[..i + 1]);
    SameRows(failed, order);
    FirstHit(db, ids, order, b, i, d0);
    forall d | InBatch(db, b, d)
      ensures DocumentsAfter(failed, order[..i + 1], {})[d] == DocumentsAfter(failed, order, {})[d]
    {
      SeenDocuments(db, ids, order, code, now, b, i, d);
      assert !Later(db, ids, b, d0, d);
    }
    SameStatuses(DocumentsAfter(failed, order[..i + 1], {}), DocumentsAfter(failed, order, {}), b);
  }

  lemma SameStatuses(a: map<DocumentId, Document>, c: map<DocumentId, Document>, b: BatchId)
    requires a.Keys == c.Keys && forall d :: d in a ==> a[d].batch == c[d].batch
    requires forall d :: d in a && a[d].batch == b ==> a[d] == c[d]
    ensures DocumentStatuses(a, b) == DocumentStatuses(c, b)
  {
  }

  /** A batch of two documents, each with a page that was completed and a page that has just been failed
      by a recovery; the documents still show the run that was interrupted. */
  ghost predicate TwoInterrupted(db: Db, j0: JobId, j1: JobId, d0: DocumentId, d1: DocumentId, b: BatchId) {
    && j0 in db.jobs && j1 in db.jobs && d0 != d1 && b in db.batches
    && db.jobs[j0].document == Some(d0) && db.jobs[j1].document == Some(d1) && db.jobs[j0].batch == Some(b)
    && StatusesOf(db.jobs, d0) == {JobStatus.Completed, JobStatus.Failed} == StatusesOf(db.jobs, d1)
    && db.documents == map[d0 := Document(b, DocumentStatus.Processing), d1 := Document(b, DocumentStatus.Processing)]
  }

  /** The recovery leaves such a batch PROCESSING although both its documents end PROCESSED. */
  lemma BatchLeftBehind(db: Db, j0: JobId, j1: JobId, d0: DocumentId, d1: DocumentId, b: BatchId, now: Time)
    requires TwoInterrupted(db, j0, j1, d0, d1, b)
    ensures var r := RecomputeForJobs(db, [j0, j1], {}, {}, now);
      && DocumentStatuses(r.documents, b) == {DocumentStatus.Processed}
      && b in r.batches && r.batches[b].status == BatchStatus.Processing
  {
    hide DocumentStatuses, RecomputeForJobs, StatusesOf, AggregateBatch, Recomputed;
    var order := [j0, j1];
    AfterBoth(db, j0, j1, d0, d1, b);
    StatusesOfTwo(DocumentsAfter(db, order[..1], {}), d0, d1, b);
    StatusesOfTwo(DocumentsAfter(db, order, {}), d0, d1, b);
    hide DocumentsAfter;
    HalfAndWhole();
    assert DocumentStatuses(DocumentsAfter(db, order[..1], {}), b) == {DocumentStatus.Processed, DocumentStatus.Processing};
    RecoveredBatch(db, order, now, b, 0);
  }

  lemma HalfAndWhole()
    ensures AggregateBatch({DocumentStatus.Processed, DocumentStatus.Processing}) == BatchStatus.Processing
    ensures AggregateBatch({DocumentStatus.Processed}) == BatchStatus.Completed
  {
  }

  lemma AfterBoth(db: Db, j0: JobId, j1: JobId, d0: DocumentId, d1: DocumentId, b: BatchId)
    requires TwoInterrupted(db, j0, j1, d0, d1, b)
    ensures DocumentsAfter(db, [j0, j1][..1], {})
         == map[d0 := Document(b, DocumentStatus.Processed), d1 := Document(b, DocumentStatus.Processing)]
    ensures DocumentsAfter(db, [j0, j1], {})
         == map[d0 := Document(b, DocumentStatus.Processed), d1 := Document(b, DocumentStatus.Processed)]
  {
    hide StatusesOf;
    assert [j0, j1][..1] == [j0];
    assert j0 in [j0] && j0 in [j0, j1] && j1 in [j0, j1];
    assert Touches(db.jobs, [j0], d0) && !Touches(db.jobs, [j0], d1);
    assert Touches(db.jobs, [j0, j1], d0) && Touches(db.jobs, [j0, j1], d1);
  }

  lemma StatusesOfTwo(documents: map<DocumentId, Document>, d0: DocumentId, d1: DocumentId, b: BatchId)
    requires documents.Keys == {d0, d1} && documents[d0].batch == b == documents[d1].batch
    ensures DocumentStatuses(documents, b) == {documents[d0].status, documents[d1].status}
  {
  }
}
