# Verified model of the marriage OCR backend

This Dafny project models the parts of the backend that carry protocols or algorithms, and proves what
they keep over every input or every run:

- **OCR jobs and Gemini Batch Mode** (`JobModel`, `JobStore`, `JobSystem`, `Completion`, `LostTasks`, `RollUp`,
  `BatchRollUp`, `BatchScenario`, `BatchClaims`, `BatchTermination`, `JobScenarios`, `GeminiBatch`,
  `BatchProgress`, `BatchRows`, `BatchRuns`, `CodeSteps`). The repository and service functions are methods of a store
  class, proved against functions on database rows. `JobSystem` interleaves delivered tasks (duplicates
  included), batch ticks, uploads, "Stop processing", retries, the two recoveries and dying workers, one
  committed transaction at a time; the theorems are about every run of it. `CodeSteps` shows that a
  delivered task, a complete pass of the batch scheduler and a pass that a refused task cuts short are
  stretches of such runs.
- **OneDrive submissions** (`SubmissionModel`, `SubmissionStore`, `SubmissionLease`, `Ingest`): the
  heartbeat lease and its recovery as a state machine with a clock, and the fetch run as an imperative
  program that may be killed between any two of its persistent effects.
- **Classification** (`FileNames`, `DocumentTypes`, `ClassifyFiles`, `ClassifyRefinement`, `NeighborFallback`):
  stacks, cache and per-file fall-back, and the pass that rewrites the list it is scanning.
- **Records** (`NotRecorded`, `IcFormat`, `ResolverOrder`, `ResolverMeaning`, `OrderedDict`, `RecordLog`,
  `Importer`, `ImportMeaning`): the issue resolver and its undo audit, the revision log, and the sheet importer.
- **Exports** (`ExportTable`, `ColumnNames`): the table an export writes, and spreadsheet column names.

The methods are proved against functions on rows and values. What those functions say is in turn stated
without them, column by column or in the words of the register and the sheet: in the further `ensures` of the
store methods, in `BatchRows`, `ResolverMeaning` and `ImportMeaning`, and in the lemmas whose names end in `Rows`,
`Shown`, `Means` or `InWords`.

Each committed transaction is atomic and transactions are serial; a transaction reads the clock once.
Commands in the marriage-ocr checkout (OCR, classify, gemini-batch, the Mas Kahwin normalizer) and the job
executors are functions that answer arbitrarily or refuse. UUIDs are natural numbers and times are whole seconds.

## Findings

Where the code and its comments or intentions part, the model follows the code:

- Sessions keep loaded rows after a commit (`expire_on_commit=False`) for as long as something refers to
  them, and `retry_job` holds its row across `executor.submit` (`jobs/service.py` 112-138). The `mark_failed`
  that answers a failed submit therefore looks at the PENDING row it wrote; if the job had been delivered
  after all, it can overwrite a COMPLETED job. `Completion.StepKeepsImports` gives the exact condition,
  `JobScenarios.CompletionOverwritten` a run. (The same code on upload drops its rows, reads them again, and
  is guarded.)
- A submission's `mark_failed` has no guard at all. Three writes by tasks that do not hold the row use it:
  the answer to a failed submit (`onedrive/service.py` 947-955, and the link route), to a look-up or claim
  that raised in a duplicate task (738-758 with 854-860), and to a clean-up that raised after the submission
  was marked fetched (849-860). Each can fail the row of a live run, whose retry lets a second run in. The
  lease is kept exactly when none of them meets a live run (`SubmissionLease.StepKeepsLease`,
  `SubmissionLease.TwoRunsAtOnce`).
- `fall_back_to_live` commits its rows before it queues any of them (`jobs/gemini_batch.py` 255-258): a submit
  that raises leaves that job and those after it PENDING without a task (`GeminiBatch.FallBackToLive`), and
  nothing looks for PENDING jobs (`LostTasks.StaysPending`).
- A recovery recomputes a batch before the documents of its later jobs, and can leave a batch PROCESSING
  whose documents are all PROCESSED (`BatchRollUp.BatchAgreesIff`, `BatchScenario.BatchStaysProcessing`).
- A stack that fails costs one call more than classifying its files one by one, although the comment at
  `onedrive/service.py` 538-540 says stacking can only save calls (`ClassifyRefinement.StackCalls`).
- A record approved on import has only the resolver's audit in `normalized_data`, which the export then
  prefers to the field values (`RecordLog.AuditOnlyExportLosesFields`, `Importer.ImportedExport`).
- The resolver's answer depends on the order of the issues when both "missing mas kahwin" and the
  RM-prefix issue are present (`ResolverOrder.TwoOrders`, `ResolverOrder.OrderMatters`), and an earlier
  audit can survive a later resolution and spoil its undo (`ResolverOrder.UndoRestoresIff`,
  `ResolverOrder.UndoSpoiled`). Only `scripts/approve_not_recorded.py` passes an earlier audit; the importer
  passes none, so what it approves can always be undone.
- A retry while a worker may still prepare the job, or a tick is still submitting it, lets that worker or
  tick write to the retried job: it can be submitted twice, or marked SUBMITTED without having been
  submitted. These are exactly the steps after which the claims no longer add up
  (`BatchClaims.StepKeepsLedgers`, `JobScenarios.EarlyRetrySubmitsTwice`,
  `JobScenarios.EarlyRetryMarksUnsubmitted`).
- Unconditional stage writes and a fall-back that tests the status alone can move a job backwards when ticks
  overlap. `BatchTermination.RankDropsIff` says exactly which write on which row does so,
  `JobScenarios.OverlappingTicksRaiseRank` gives a run.

## Model

| member | source | states |
|---|---|---|
| JobModel.AggregateDocumentMeaning | src/marriage_ocr_api/batches/repositories.py:227-263 | for every set of job statuses, exactly when the document is PROCESSING, FAILED, PROCESSED or CANCELLED |
| JobModel.AggregateBatchMeaning | src/marriage_ocr_api/batches/repositories.py:266-293 | for every set of document statuses, exactly when the batch is COMPLETED, FAILED, PROCESSING, CANCELLED or DRAFT |
| JobModel.AgreementKept | src/marriage_ocr_api/batches/repositories.py:227-263 | roll-up agreement survives any change in which each document was recomputed, or its jobs kept their classes |
| JobModel.SameClassesAgree | src/marriage_ocr_api/jobs/gemini_batch.py:232-260 | rows that move between PENDING and PROCESSING need no recompute |
| JobModel.RecomputeDocumentsEffect | src/marriage_ocr_api/batches/service.py:115-123 | the seen-set loop recomputes each touched document once, whatever the order of the rows |
| JobModel.RecomputeForJobsEffect | src/marriage_ocr_api/jobs/service.py:170-187 | the same for the recovery loop, interleaved with batch recomputes |
| JobModel.RecomputedShown | src/marriage_ocr_api/batches/repositories.py:227-263 | a recompute told from the jobs one by one: which status the document gets, and that no other document changes |
| JobModel.RecomputedBatchShown | src/marriage_ocr_api/batches/repositories.py:266-293 | the same for a batch, told from its documents, and exactly when its start and end times are written |
| JobModel.JobsRollUp | src/marriage_ocr_api/jobs/processing.py:60-136 | whatever completes, fails, cancels, retries or starts a job recomputes its document and then its batch, each from the rows as they are then |
| JobModel.UnsubmittedInWords | src/marriage_ocr_api/onedrive/service.py:338-352 | the answer to a failed submit fails the row, recomputes its document and leaves the batch alone |
| JobModel.CancelInWords | src/marriage_ocr_api/batches/service.py:103-128 | stopping a batch, column by column: its active rows and no others, the documents of those, and the batch if there were any |
| JobModel.FailAllInWords | src/marriage_ocr_api/jobs/service.py:164-196 | a recovery, column by column: the selected rows, the documents of those, and nothing else |
| JobStore.Store.MarkProcessing | src/marriage_ocr_api/db/repositories.py:123-131 | only a PENDING row is claimed; which error otherwise; nothing else changes |
| JobStore.Store.MarkCompleted | src/marriage_ocr_api/db/repositories.py:134-148 | succeeds exactly from PROCESSING, and what it writes |
| JobStore.Store.MarkFailed | src/marriage_ocr_api/db/repositories.py:151-167 | succeeds exactly from PENDING or PROCESSING, and what it writes |
| JobStore.Store.MarkPendingForRetry | src/marriage_ocr_api/db/repositories.py:170-184 | succeeds exactly from FAILED or CANCELLED, and clears the batch columns |
| JobStore.Store.MarkCancelled | src/marriage_ocr_api/db/repositories.py:187-202 | succeeds from PENDING, PROCESSING and CANCELLED, and what it writes |
| JobStore.Store.CancelPendingAndProcessingJobsForBatch | src/marriage_ocr_api/db/repositories.py:205-234 | cancels exactly the active jobs of the batch and returns each once |
| JobStore.Store.FailInterruptedJobs | src/marriage_ocr_api/db/repositories.py:237-263 | fails exactly the PROCESSING jobs that are not in a batch-waiting stage |
| JobStore.Store.FailStaleProcessingJobs | src/marriage_ocr_api/db/repositories.py:266-303 | the same, restricted to runs started before the cutoff |
| JobStore.Store.RecomputeDocumentStatus | src/marriage_ocr_api/batches/repositories.py:227-263 | sets the document to the aggregate of its jobs and touches nothing else |
| JobStore.Store.RecomputeBatchStatus | src/marriage_ocr_api/batches/repositories.py:266-293 | sets the batch to the aggregate of its documents, with its start and end times |
| JobStore.CancelBatchProcessing | src/marriage_ocr_api/batches/service.py:103-128 | the loop with its seen-set is the "Stop processing" transaction; the error for an unknown batch |
| JobStore.RecomputeStatusForJobs | src/marriage_ocr_api/jobs/service.py:170-187 | the loop with two seen-sets is the fold that the agreement lemmas are about |
| JobStore.RecoverInterruptedJobs | src/marriage_ocr_api/jobs/service.py:164-167 | fails the interrupted jobs, recomputes their roll-ups, counts them |
| JobStore.RecoverStaleJobs | src/marriage_ocr_api/jobs/service.py:190-196 | fails the stale jobs, recomputes their roll-ups, counts them |
| JobStore.RetryJob | src/marriage_ocr_api/jobs/service.py:107-140 | both outcomes of the submit, both errors, and what each leaves in the rows and the queue |
| JobStore.MarkFailedSafe | src/marriage_ocr_api/jobs/processing.py:60-79 | fails an active job with its roll-ups, and leaves any other alone |
| JobStore.CompleteJob | src/marriage_ocr_api/jobs/processing.py:82-136 | one transaction completes, imports and rolls up, or nothing is committed |
| JobStore.ProcessOcrJob | src/marriage_ocr_api/jobs/processing.py:160-277 | one delivered task, in each state the job can be in, its claim raising included; a duplicate delivery of a PROCESSING job fails it |
| JobStore.ProcessedRows | src/marriage_ocr_api/jobs/processing.py:160-277 | the same column by column, in every state: which row the claim, the preparation and the end of the run leave, what is imported, and the roll-ups after each |
| JobStore.RunLive | src/marriage_ocr_api/jobs/processing.py:233-277 | what each outcome of the OCR subprocess commits for a PROCESSING job |
| CodeSteps.TaskIsRun | src/marriage_ocr_api/jobs/processing.py:160-277 | a delivered task is a stretch of a run: from any state and however it goes, its transactions as steps of one worker end with the rows that JobStore.ProcessOcrJob states |
| CodeSteps.TickIsRun | src/marriage_ocr_api/jobs/gemini_batch.py:446-474 | so is a complete pass, at times in order, with the rows that GeminiBatch.Tick states |
| CodeSteps.CutShortIsRun | src/marriage_ocr_api/jobs/gemini_batch.py:255-258 | so is a pass that a refused task has cut short, wherever that was |
| JobSystem.StepMoves | src/marriage_ocr_api/db/repositories.py:123-303 | what every step of the system does to every job, and which step imports records |
| JobSystem.RecoveriesSpareWaiting | src/marriage_ocr_api/db/repositories.py:237-303 | over the steps of the system: both recoveries leave a job that waits on Google, in any of the four stages, as it is, and fail exactly the running jobs, or those of them started before the cutoff |
| Completion.StepKeepsImports | src/marriage_ocr_api/jobs/service.py:122-138 | a step keeps "COMPLETED exactly when imported once" if and only if it is not a retry's failed submit answered over a COMPLETED job |
| Completion.SingleCompletion | src/marriage_ocr_api/jobs/processing.py:105-136 | over every run, a job is COMPLETED exactly when one transaction has imported it, and stays COMPLETED |
| JobScenarios.CompletionOverwritten | src/marriage_ocr_api/jobs/service.py:122-138 | a run in which that write marks a COMPLETED job FAILED |
| LostTasks.StaysPending | src/marriage_ocr_api/jobs/gemini_batch.py:255-258 | over every stretch of every run, a PENDING job that nobody delivers, stops or answers for stays PENDING, whatever ticks, restarts and recoveries do |
| RollUp.StepAgrees | src/marriage_ocr_api/jobs/service.py:107-187 | every step keeps document agreement, the fall-back that recomputes nothing included |
| RollUp.DocumentsAgree | src/marriage_ocr_api/batches/repositories.py:227-263 | over every run, each document shows the aggregate of its jobs or is still UPLOADED with none of them ended |
| RollUp.StopProcessing | src/marriage_ocr_api/batches/service.py:103-128 | stopping a batch ends all its jobs, leaves others alone, and leaves it COMPLETED, FAILED or CANCELLED as its documents say |
| RollUp.StopProcessingFromAnyRun | src/marriage_ocr_api/batches/service.py:103-128 | the same from every reachable state |
| BatchRollUp.BatchAsFirstSeen | src/marriage_ocr_api/jobs/service.py:170-187 | a recovered batch ends with the aggregate of its documents as they were at its first job |
| BatchRollUp.BatchAgreesIff | src/marriage_ocr_api/jobs/service.py:170-187 | exactly when that is the aggregate of the documents as they end, told from the job and document statuses before the recovery |
| BatchRollUp.BatchLeftBehind | src/marriage_ocr_api/jobs/service.py:181-187 | a family of batches left PROCESSING with all documents PROCESSED |
| BatchScenario.BatchStaysProcessing | src/marriage_ocr_api/jobs/service.py:181-187 | a run from uploads to a restart that ends with such a batch and no job left to recompute it |
| BatchClaims.MoveFits | src/marriage_ocr_api/jobs/gemini_batch.py:263-276 | the conditional UPDATEs let each claim happen only where the ledger has room for it |
| BatchClaims.StepKeepsLedgers | src/marriage_ocr_api/jobs/gemini_batch.py:180-215 | a step keeps every job's claim ledger if and only if it is not a retry while a worker may still prepare the job or a tick is still submitting it |
| BatchClaims.ClaimedOnce | src/marriage_ocr_api/jobs/gemini_batch.py:169-215 | over every run without such a retry, overlapping ticks included, a job is prepared, listed in a submit and claimed for finishing at most once per retry epoch |
| JobScenarios.EarlyRetrySubmitsTwice | src/marriage_ocr_api/jobs/gemini_batch.py:180-184 | a run in which a retry inside a running job makes it be submitted twice |
| JobScenarios.EarlyRetryMarksUnsubmitted | src/marriage_ocr_api/jobs/gemini_batch.py:180-184 | a run in which a retry under a submitting tick leaves the job SUBMITTED without having been submitted or started |
| BatchTermination.StepLowersRank | src/marriage_ocr_api/jobs/gemini_batch.py:232-260 | with ticks that do not overlap, every step that changes a job other than by a retry lowers its rank |
| BatchTermination.RankDropsIff | src/marriage_ocr_api/jobs/gemini_batch.py:180-276 | for every step from every state: a change that is no retry fails to lower the job's rank if and only if it is one of five writes, told from the write and the row |
| BatchTermination.ChangesBounded | src/marriage_ocr_api/jobs/gemini_batch.py:169-276 | over every stretch of every run a job changes at most 20 times, 21 more for each retry and 9 more for each such write |
| BatchTermination.DisciplinedChanges | src/marriage_ocr_api/jobs/gemini_batch.py:169-260 | with ticks that do not overlap and no early retries there are no such writes: at most 20 changes between two retries |
| JobScenarios.OverlappingTicksRaiseRank | src/marriage_ocr_api/jobs/gemini_batch.py:242-254 | a run in which overlapping ticks send a job back |
| GeminiBatch.ShouldBatch | src/marriage_ocr_api/jobs/gemini_batch.py:169-177 | a job with any stage never batches again; otherwise handwritten pages, or the Gemini reader |
| GeminiBatch.FallBackToLive | src/marriage_ocr_api/jobs/gemini_batch.py:232-260 | exactly the listed jobs that are still PROCESSING go back; they are queued in turn, each once, up to the first one the executor refuses |
| GeminiBatch.Claim | src/marriage_ocr_api/jobs/gemini_batch.py:263-276 | the claim succeeds exactly in the stage it names, and what it writes |
| GeminiBatch.RecoverStuckSteps | src/marriage_ocr_api/jobs/gemini_batch.py:427-443 | exactly the SUBMITTING and FINISHING jobs older than an hour go back to the live run, and which of them are queued |
| GeminiBatch.SelectOldestPrepared | src/marriage_ocr_api/jobs/gemini_batch.py:285-292 | the oldest PREPARED jobs, as many as the limit allows |
| GeminiBatch.SubmitPrepared | src/marriage_ocr_api/jobs/gemini_batch.py:279-320 | which jobs are claimed and what each becomes, for every answer of the submit command |
| GeminiBatch.FinishJob | src/marriage_ocr_api/jobs/gemini_batch.py:323-368 | a collected job is completed from its output or put back, and its roll-ups still agree; a refused task is raised only if finishing itself had raised |
| GeminiBatch.CollectSubmitted | src/marriage_ocr_api/jobs/gemini_batch.py:371-420 | what the loop over batches does to every job, told from the rows before the loop, cut short by a refused task or not; what it queues and counts |
| GeminiBatch.Tick | src/marriage_ocr_api/jobs/gemini_batch.py:446-474 | one pass as a function of the rows before it, or where a refused task ended it; document agreement is kept either way, the jobs put back are queued, each once, up to a refusal (all of them when nothing is refused), and the count is of the jobs it completed |
| BatchRows.RecoveredRow | src/marriage_ocr_api/jobs/gemini_batch.py:427-443 | the recovery of stuck steps for every row, in columns |
| BatchRows.SubmittedRowOf | src/marriage_ocr_api/jobs/gemini_batch.py:279-320 | submitting for every row and every answer, in columns, and what is put back when batching is switched off |
| BatchRows.ChosenRows | src/marriage_ocr_api/jobs/gemini_batch.py:285-292 | no PREPARED row is left out that was prepared before a chosen one, and none at all while there is room |
| BatchRows.CollectedRowOf | src/marriage_ocr_api/jobs/gemini_batch.py:371-420 | collecting for every row: what each answer about its batch and each outcome of finishing makes of it |
| BatchRows.TickedRow | src/marriage_ocr_api/jobs/gemini_batch.py:446-474 | a whole pass for a row that is SUBMITTED before it, told from the answers alone |
| BatchRows.CompletedOnlyWhenFinished | src/marriage_ocr_api/jobs/gemini_batch.py:406-418 | a pass completes a job exactly when its own batch ended successfully and its own finish gave the output that is stored |
| BatchProgress.TickRow | src/marriage_ocr_api/jobs/gemini_batch.py:446-474 | a pass told row by row: a job that is still waiting after it is unchanged or newly submitted |
| BatchProgress.AheadShrinks | src/marriage_ocr_api/jobs/gemini_batch.py:285-293 | a full submit that leaves a job out takes a whole batch of the jobs ahead of it |
| BatchProgress.TickLowers | src/marriage_ocr_api/jobs/gemini_batch.py:446-474 | each pass that leaves a job waiting brings it nearer its end |
| BatchProgress.LeavesBatchMode | src/marriage_ocr_api/jobs/gemini_batch.py:279-474 | every waiting job leaves the waiting stages within a stated number of complete passes, however many are cut short between them |
| BatchRuns.RowsOverRuns | src/marriage_ocr_api/jobs/gemini_batch.py:180-184 | over every run, a waiting row has the time it entered its stage and, once SUBMITTED, the name of its batch |
| BatchRuns.BetweenPasses | src/marriage_ocr_api/jobs/processing.py:213-221 | over every run, between two passes a row enters a waiting stage only by being prepared afresh |
| BatchRuns.PassIsRun | src/marriage_ocr_api/jobs/gemini_batch.py:446-474 | passes as the bound takes them occur at every point of every run where a tick is idle |
| BatchRuns.CutPassIsRun | src/marriage_ocr_api/jobs/gemini_batch.py:255-258 | and so do passes that are cut short |
| BatchRuns.LeavesBatchMode | src/marriage_ocr_api/jobs/gemini_batch.py:279-474 | that bound inside runs of the whole job system |
| SubmissionStore.Store.ClaimForFetch | src/marriage_ocr_api/onedrive/repositories.py:242-264 | claims exactly a PENDING or a stale FETCHING row |
| SubmissionStore.Store.BeginFetch | src/marriage_ocr_api/onedrive/service.py:739-758 | a delivered task up to its claim, and the row it fails when the look-up or the claim raises |
| SubmissionStore.Store.RetrySubmission | src/marriage_ocr_api/onedrive/service.py:928-956 | both outcomes of the submit and both errors, with the row and the queue they leave |
| SubmissionStore.Store.ResumeOrFailStale | src/marriage_ocr_api/onedrive/repositories.py:200-239 | every stale row is resumed or failed, which one, and each listed once |
| SubmissionStore.Store.RequeueLost | src/marriage_ocr_api/onedrive/repositories.py:267-285 | exactly the PENDING rows older than three hours are bumped and listed |
| SubmissionStore.Store.RecoverStaleSubmissions | src/marriage_ocr_api/onedrive/service.py:867-898 | after a pass nothing is stale or lost, and who gets a task, refused ones left out |
| SubmissionLease.StepKeepsLease | src/marriage_ocr_api/onedrive/service.py:738-860 | a step keeps the lease if and only if it is not an unguarded write over a live run by somebody who does not hold it |
| SubmissionLease.OneRunPerSubmission | src/marriage_ocr_api/onedrive/repositories.py:242-264 | over every run with timely heartbeats, one live fetch per submission, holding a row nobody can claim |
| SubmissionLease.TimelyRunsAreFresh | src/marriage_ocr_api/onedrive/service.py:395-437 | no claim and no recovery pass touches the row of a timely live run |
| SubmissionLease.TwoRunsAtOnce | src/marriage_ocr_api/onedrive/service.py:849-860 | for each of the three unguarded writes, a run in which it lets two fetches in |
| SubmissionLease.ResumesBounded | src/marriage_ocr_api/onedrive/repositories.py:200-239 | over every run, `fetch_attempts` counts the automatic resumes since the last success, at most three |
| SubmissionLease.FailsWhenUsedUp | src/marriage_ocr_api/onedrive/repositories.py:220-237 | once they are used up, a recovery pass that finds the run stale fails it |
| NeighborFallback.LeftUnmoved | src/marriage_ocr_api/onedrive/service.py:637 | the `before` lookup on the rewritten list sees what it would see on the original |
| NeighborFallback.LeftIsNearest | src/marriage_ocr_api/onedrive/service.py:637 | that lookup finds the nearest ROUTABLE page on the left, if there is one |
| NeighborFallback.RightIsNearest | src/marriage_ocr_api/onedrive/service.py:638 | and the other one the nearest on the right |
| NeighborFallback.ApplyNeighborFallback | src/marriage_ocr_api/onedrive/service.py:604-660 | the in-place pass equals the pointwise definition on the original list |
| NeighborFallback.Idempotent | src/marriage_ocr_api/onedrive/service.py:604-660 | a second pass changes nothing |
| NeighborFallback.OnlyGivenUpPagesChange | src/marriage_ocr_api/onedrive/service.py:630-635 | paths and all other statuses are kept; an inherited classification is an earlier page's, config path included |
| NeighborFallback.PageInWords | src/marriage_ocr_api/onedrive/service.py:604-660 | a page with a known type or another status is kept; a given-up one inherits exactly when the nearest ROUTABLE pages on both sides name the same book |
| NeighborFallback.ApplyNikahBatchFallback | src/marriage_ocr_api/onedrive/service.py:668-695 | which pages a Nikah batch routes as handwritten Nikah, and that all others are kept |
| NeighborFallback.NikahInWords | src/marriage_ocr_api/onedrive/service.py:680 | a Nikah batch is one with "nikah" somewhere in its name, in any case |
| NeighborFallback.RouteAll | src/marriage_ocr_api/onedrive/service.py:698-704 | how every page ends up routed, from the classifier's answers alone; Jawi pages never are |
| NeighborFallback.RoutedInWords | src/marriage_ocr_api/onedrive/service.py:814-818 | the same in words: a known page by its own classification, a given-up one by its neighbours or the batch name |
| DocumentTypes.RouteInWords | src/marriage_ocr_api/onedrive/classification.py:19-31 | which document type each combination of type, record and layout is, and the status every other one is skipped with |
| FileNames.SuffixInWords | src/marriage_ocr_api/onedrive/service.py:243 | a path has a suffix, compared in lower case, exactly when its name ends so, in any case, with something before it |
| FileNames.NameInWords | src/marriage_ocr_api/onedrive/service.py:376 | the name an entry has is what follows the last slash of the path |
| FileNames.OrderInWords | src/marriage_ocr_api/onedrive/service.py:775-777 | paths are sorted component by component: the first difference decides, and a folder comes before what only starts like it |
| ClassifyFiles.Classifier.Flush | src/marriage_ocr_api/onedrive/service.py:570-586 | a stack is remembered as answered, or classified file by file |
| ClassifyFiles.Classifier.ClassifyFiles | src/marriage_ocr_api/onedrive/service.py:526-601 | the loops compute the specified results, cache and number of calls |
| ClassifyRefinement.ClassifiedGives | src/marriage_ocr_api/onedrive/service.py:526-601 | the result has exactly the input files; each outcome is the cached one, the file's own, or its answer from a stack the run formed |
| ClassifyRefinement.StacksInOrder | src/marriage_ocr_api/onedrive/service.py:587-601 | the stacks a run forms are its stackable pending files in order, each once, in pieces of exactly `stack_size` but for a shorter last one |
| ClassifyRefinement.StackableInWords | src/marriage_ocr_api/onedrive/service.py:588-599 | a file is stacked exactly when stacks hold more than one and it is no PDF, or PDFs stack too |
| ClassifyRefinement.StackableInOrder | src/marriage_ocr_api/onedrive/service.py:587-599 | what is stacked keeps the order of the paths |
| ClassifyRefinement.RefinesSingleFiles | src/marriage_ocr_api/onedrive/service.py:526-601 | for every list, stack size, cache and pattern of failures, a file comes out as its own call says wherever the cache and the stack it was put into agree with it |
| ClassifyRefinement.AnsweredStackDecides | src/marriage_ocr_api/onedrive/service.py:570-586 | when a stack of the run is answered, each of its files comes out as the answer at its own place |
| ClassifyRefinement.FailsOnlyAlone | src/marriage_ocr_api/onedrive/service.py:549-553 | a ClassifyError is recorded only where the file's own call raised it |
| ClassifyRefinement.ResumedRunReuses | src/marriage_ocr_api/onedrive/service.py:483-512 | a later run reuses every classification that was made and saved |
| ClassifyRefinement.StackCalls | src/marriage_ocr_api/onedrive/service.py:538-540 | a stack saves calls if and only if it is answered |
| ClassifyRefinement.PendingCalls | src/marriage_ocr_api/onedrive/service.py:588-601 | when every stack of the run is answered there is never more than one call per file |
| Ingest.Submission.DuplicateOf | src/marriage_ocr_api/onedrive/service.py:455-472 | what each verdict says about the committed documents and the run's earlier files |
| Ingest.Submission.Deduplicate | src/marriage_ocr_api/onedrive/service.py:780-790 | what is left is new, has distinct contents and is in path order; every other file is already this submission's or truthfully recorded, as a copy of an earlier file or of a foreign document |
| Ingest.Submission.IngestOneFile | src/marriage_ocr_api/onedrive/service.py:229-353 | in transaction order: what is committed, what is left staged, and the code it is refused with; a typed file that is no PDF is refused before anything happens |
| Ingest.Submission.Sort | src/marriage_ocr_api/onedrive/service.py:801-812 | which files are classified, and the entries of the others |
| Ingest.Submission.IngestAll | src/marriage_ocr_api/onedrive/service.py:817-843 | the entries written, that every file is committed or has one, exactly which documents are new, and what the ledger gains |
| Ingest.Submission.RunOneDriveFetch | src/marriage_ocr_api/onedrive/service.py:728-864 | however it ends, distinct documents and an honest ledger; when it marks the submission fetched, every supported file is accounted for, `skipped_files` holds exactly the duplicates, failures and skipped files, and the documents that are new are exactly those of the files that could be read and committed |
| Ingest.WhatBecomes | src/marriage_ocr_api/onedrive/service.py:239-248 | in such a run a PDF that can be routed and commits is in a document and has no entry of its own; a typed file that is no PDF stores nothing and is skipped as TYPED_REQUIRES_PDF; a handwritten one is never skipped so by the run itself |
| Ingest.RefusalInWords | src/marriage_ocr_api/onedrive/service.py:817-843 | for every classified file, exactly which status it is skipped with |
| Ingest.SupportedInWords | src/marriage_ocr_api/onedrive/service.py:775-777 | which files of the share are looked at, by what their names end in |
| Ingest.Runs | src/marriage_ocr_api/onedrive/service.py:728-864 | over any sequence of killed, failed and fetched runs no two documents of the submission share a SHA-256, and once one has marked it fetched every supported file stays accounted for |
| Ingest.AccountedFor | src/marriage_ocr_api/onedrive/service.py:801-845 | a file that was looked at has its contents committed or its name among the entries |
| Ingest.StaysIngestible | src/marriage_ocr_api/onedrive/service.py:817-843 | ingesting one file leaves every other one new to the submission |
| NotRecorded.Resolve | src/marriage_ocr_api/records/not_recorded.py:118-168 | the loops compute the specified answer, early exits and audit included |
| ResolverMeaning.ResolvedInWords | src/marriage_ocr_api/records/not_recorded.py:118-168 | when the resolver has an answer, in the words of the register: only cross-references, a row that points at another book, a numbered row never filled in, or every issue explained by what the values say |
| ResolverMeaning.KeptOrResolved | src/marriage_ocr_api/records/not_recorded.py:134-164 | rows of the first three kinds keep their values; any other is answered by the issues alone |
| ResolverMeaning.OutcomeInWords | src/marriage_ocr_api/records/not_recorded.py:141-168 | field by field, the values and the kept originals of an answer: an IC is written as 6-2-4 digits, Mas Kahwin as the normalizer says, and nothing else changes |
| IcFormat.FormatIcKeepsDigits | src/marriage_ocr_api/records/not_recorded.py:101-107 | a reformatted IC keeps its digits, counts as recorded and reformats to itself |
| ResolverOrder.ResolvesIff | src/marriage_ocr_api/records/not_recorded.py:141-168 | for every list, when the fold goes through and what it gives, told from the original values alone |
| ResolverOrder.OrderDoesNotMatter | src/marriage_ocr_api/records/not_recorded.py:142-164 | every permutation resolves to the same state, exactly when the original values explain every issue |
| ResolverOrder.ResolvedWhenExplained | src/marriage_ocr_api/records/not_recorded.py:142-164 | with at most one RM-prefix issue: resolved if and only if each issue is explained as it stands |
| ResolverOrder.ResolverOrderDoesNotMatter | src/marriage_ocr_api/records/not_recorded.py:118-168 | the same for the whole resolver, up to the order the audit lists |
| ResolverOrder.TwoOrders | src/marriage_ocr_api/records/not_recorded.py:143-149 | with both Mas Kahwin issues present, what each order asks for |
| ResolverOrder.OrderMatters | src/marriage_ocr_api/records/not_recorded.py:143-149 | values and a normalizer for which the two orders disagree |
| ResolverOrder.UndoRestoresIff | src/marriage_ocr_api/records/not_recorded.py:165-168 | exactly when overlaying the kept values restores every field lookup |
| ResolverOrder.UndoSpoiled | scripts/approve_not_recorded.py:43-60 | values and an earlier audit for which the undo brings back a value that was corrected since |
| ResolverOrder.OnlyAmountAndIcsChange | src/marriage_ocr_api/records/not_recorded.py:143-160 | only Mas Kahwin and IC fields change, and a changed IC keeps its digits |
| OrderedDict.MergeAssociative | src/marriage_ocr_api/records/service.py:57-59 | overlaying dictionaries is associative, key order included |
| OrderedDict.MergeInWords | src/marriage_ocr_api/records/service.py:57-59 | what lies on top wins, and the keys are the lower ones in their order and then the new ones in theirs |
| RecordLog.RecordStore.ApplyCorrection | src/marriage_ocr_api/records/service.py:34-78 | the record after a correction, column by column, or the error; no other record changes |
| RecordLog.CorrectionApproves | src/marriage_ocr_api/records/service.py:60-72 | a field stays flagged exactly while it is blank; a correction approves the record exactly when none is |
| ImportMeaning.StillFlaggedInWords | src/marriage_ocr_api/records/service.py:60-62 | a field counts as blank when it has no text, or only white space |
| RecordLog.RecordStore.SetReviewStatus | src/marriage_ocr_api/records/service.py:81-112 | the record after an approval, column by column, unchanged if it has that status, or the error; no other record changes |
| RecordLog.RecordStore.BulkApprove | src/marriage_ocr_api/records/service.py:133-150 | all listed records are approved at their own versions, or none |
| RecordLog.RevisionLog | src/marriage_ocr_api/records/service.py:34-112 | over every history: version is one more than the revisions, numbered without a gap, each showing the fold of the earlier ones |
| RecordLog.OneWriterPerVersion | src/marriage_ocr_api/records/service.py:44-45 | of two actions based on one version at most one changes the record |
| RecordLog.ExportsCurrentValues | src/marriage_ocr_api/exports/service.py:35-43 | without `normalized_data`, the exported values are the current ones after any history, columns in the same order |
| RecordLog.EffectiveInWords | src/marriage_ocr_api/exports/service.py:35-43 | what is exported of a record: what a reviewer entered over `normalized_data`, or over the field values where that is empty |
| RecordLog.ExportsCurrentValuesIff | src/marriage_ocr_api/exports/service.py:35-43 | with it, exactly when it agrees with the created values on every uncorrected field |
| RecordLog.AuditOnlyExportLosesFields | src/marriage_ocr_api/records/importer.py:142-148 | an uncorrected field of a record approved on import is missing from its export |
| Importer.RecordTable.ImportXlsx | src/marriage_ocr_api/records/importer.py:79-170 | the row loop computes the specified records, initial status and column order included, and counts the ones it created |
| Importer.RecordTable.CreateRecordIfMissing | src/marriage_ocr_api/records/repositories.py:129-180 | a key that is there is left alone |
| Importer.ImportTwice | src/marriage_ocr_api/records/importer.py:151-166 | importing a sheet again changes nothing |
| Importer.OwnKey | src/marriage_ocr_api/records/importer.py:125-134 | two rows share a key only if both carry a record number |
| Importer.NoUnnumberedRowDropped | src/marriage_ocr_api/records/importer.py:125-134 | each row without one that is not empty has its own record |
| Importer.ImportedRecord | src/marriage_ocr_api/records/importer.py:136-166 | a record approved by the resolver has no issues and only the audit in `normalized_data`; any other starts APPROVED exactly when it has no confidence or one of at least 0.70 |
| ImportMeaning.FieldsInWords | src/marriage_ocr_api/records/importer.py:52-115 | for every column: the fields of a row are its cells that are not None under a name that describes no reading, and the listed missing ones; those that are blank get the placeholder |
| ImportMeaning.FieldOrder | src/marriage_ocr_api/records/importer.py:109-137 | the order of the fields: the row's cells as they stand, then the others as they are listed |
| ImportMeaning.ListsInWords | src/marriage_ocr_api/records/importer.py:73-76 | the items of a cell are the parts between its semicolons that are not blank, trimmed, in their order |
| ImportMeaning.KeyInWords | src/marriage_ocr_api/records/importer.py:116-134 | the page and the text of a row's key; the real page wins over the one in the sheet |
| ImportMeaning.SharedKey | src/marriage_ocr_api/records/importer.py:125-127 | numbered rows of one file share a key exactly when they give the same number on the same page |
| ImportMeaning.IndexReads | src/marriage_ocr_api/records/importer.py:66-70 | the index is the number in the cell, whatever stands around it |
| ImportMeaning.RowInWords | src/marriage_ocr_api/records/importer.py:107-166 | how the record of a row starts, column by column, with and without an answer of the resolver |
| ImportMeaning.SheetInWords | src/marriage_ocr_api/records/importer.py:103-169 | records that were there stay, every row with a cell that says something has a record under its key, and each new record is such a row's |
| Importer.ImportedExport | src/marriage_ocr_api/exports/service.py:35-43 | after any history, the export of an imported record misses its uncorrected fields if the resolver approved it, and otherwise shows its current values |
| ExportTable.BuildExportRows | src/marriage_ocr_api/exports/service.py:46-90 | exactly the approved records have a row, in their order, or all where unreviewed ones are asked for; every row has every column any of them has, with what the record shows there |
| ExportTable.ColumnsInFirstSeenOrder | src/marriage_ocr_api/exports/service.py:70-77 | columns are the union of all keys, each once, in the order of their first mention |
| ExportTable.ColumnsByMention | src/marriage_ocr_api/exports/service.py:70-77 | of two columns the one comes first that an earlier row mentions, or the same row earlier |
| ExportTable.NothingLost | src/marriage_ocr_api/exports/service.py:70-90 | every field of every exported record is in its row |
| ExportTable.ExportShowsCurrentValues | src/marriage_ocr_api/exports/service.py:35-90 | a record created without `normalized_data` has a row with its current values, after any history |
| ColumnNames.ColumnLetter | src/marriage_ocr_api/exports/writer.py:34-41 | the loop ends and computes the bijective base-26 name |
| ColumnNames.NameThenIndex | src/marriage_ocr_api/exports/writer.py:34-41 | every column's name is non-empty, A to Z, and leads back to the column |
| ColumnNames.IndexThenName | src/marriage_ocr_api/exports/writer.py:34-41 | every such name is the name of a column |
| ColumnNames.NamesIncrease | src/marriage_ocr_api/exports/writer.py:34-41 | names grow strictly with the column, by length and then alphabetically |
| ColumnNames.BeforeIsAlphabetical | src/marriage_ocr_api/exports/writer.py:34-41 | on names of one length that order is the order at the first difference |
| ColumnNames.ReferencesDistinct | src/marriage_ocr_api/exports/writer.py:58-70 | a cell reference is letters and then a row number without leading zeros, and names one cell |
| ColumnNames.SheetReferences | src/marriage_ocr_api/exports/writer.py:53-77 | all references of a sheet of any size, pairwise distinct |

## Left out

- FastAPI routers, request and response models, authentication, the activity log and configuration: wiring and field copying.
- Subprocess and thread handling, object storage, PDF splitting, openpyxl, csv and zip writing, local-disk clean-up: foreign calls.
- Anomalies inside a transaction (two concurrent transactions that both read before either writes): transactions are serial here.
- The skipped-file re-download, hand classification and reclassify runs: they bypass the claim and the ingest-time duplicate check, so the lease and dedup theorems are about fetch runs only.
- Deleting batches, submissions, documents and records, operator scripts and migrations: rows only come and change here.
- Batch statuses over whole runs: agreement is proved for documents; for batches it is proved where "Stop processing" sets it, and its exact condition after a recovery.
- Error messages, `updated_at` of jobs, documents and batches, page and size columns: written, never read by the code modelled.
- BatchProgress.LeavesBatchMode: passes come one after another, at least a second apart; what a worker that died mid-tick left behind is the state the first one finds.
- BatchRuns.LeavesBatchMode: the same, in runs with ticks that do not overlap and no retry of a job that somebody is still inside.
- BatchTermination.DisciplinedChanges: assumes that ticks do not overlap, that no retry is issued while a worker or tick is still inside the job, and that no retry's failed submit overwrites a COMPLETED job; `ChangesBounded` assumes none of these.
- Ingest.Submission.RunOneDriveFetch: a successful download brings every file of the share that is not on its skip list; the share's contents do not change between runs, and a file is its SHA-256.
- Ingest.Submission.IngestOneFile: page jobs, the page-1 OCR copy and the job submits after the commit are one answer, committed or raising.
- ClassifyFiles.Classifier.ClassifyFiles: the page-1 OCR result a cached classification carries is not copied; an exception other than ClassifyError ends the run.
- GeminiBatch.SubmitPrepared: a submit command answers only for keys it was given, each with one batch name.
- NotRecorded.Resolve: stripping, upper-casing, digits and word characters are the ASCII ones, here and in the importer and the routing.
- Importer.OwnKey: a cell that counts as empty prints no digit but 0, which is so for every empty value a sheet can hold.
- The typed CSV importer: its rows are keyed by source file alone, one row per file.
- Formula-prefix escaping and cell values in the writer: shallow next to the references.
