/** A PENDING job lives by its task: nothing in the system looks for PENDING jobs, so one whose task was
    refused after its row was committed stays PENDING until somebody stops its batch. */
module LostTasks {
  import opened JobModel
  import opened JobSystem

  /** The step is a task of the job, a request for it, or the answer to a failed submit of it. */
  predicate About(s: System, step: Step, j: JobId) {
    match step
    case Deliver(_, k) => k == j
    case SubmitRaised(k) => k == j
    case RetrySubmitRaised(k) => k == j
    case StopBatch(b, _) => j in ActiveJobs(s.db.jobs, b)
    case Work(w, _) => w in s.workers && s.workers[w].job == j
    case _ => false
  }

  lemma StepKeepsPending(s: System, e: Event, j: JobId)
    requires Can(s, e.step) && j in s.db.jobs && s.db.jobs[j].status == JobStatus.Pending && !About(s, e.step, j)
    ensures j in Next(s, e).db.jobs && Next(s, e).db.jobs[j].status == JobStatus.Pending
  {
    hide NextDb, NextWorkers, NextTicks, NextEpochs, NextRetrying, Can;
    UploadIsNew(s, e.step, j);
    StepMoves(s, e, j);
    PendingMoves(s, e.step, j);
  }

  lemma UploadIsNew(s: System, step: Step, j: JobId)
    requires Can(s, step) && j in s.db.jobs
    ensures !(step.Upload? && j in step.ids)
  {
  }

  lemma PendingMoves(s: System, step: Step, j: JobId)
    requires j in s.db.jobs && s.db.jobs[j].status == JobStatus.Pending && !About(s, step, j)
    ensures !MoveOf(s, step, j).Start? && !MoveOf(s, step, j).Fail? && !MoveOf(s, step, j).Overwrite?
    ensures !MoveOf(s, step, j).Stop?
  {
  }

  /** Over every stretch of every run: without a step about it a PENDING job stays PENDING, whatever ticks,
      startups and recoveries do meanwhile. */
  lemma {:induction false} StaysPending(run: seq<System>, events: seq<Event>, j: JobId, start: nat, end: nat)
    requires IsRun(run, events) && start <= end < |run|
    requires j in run[start].db.jobs && run[start].db.jobs[j].status == JobStatus.Pending
    requires forall i :: start <= i < end ==> !About(run[i], events[i].step, j)
    ensures j in run[end].db.jobs && run[end].db.jobs[j].status == JobStatus.Pending
    decreases end
  {
    hide Next, Can, About;
    if start < end {
      StaysPending(run, events, j, start, end - 1);
      StepKeepsPending(run[end - 1], events[end - 1], j);
    }
  }
}
