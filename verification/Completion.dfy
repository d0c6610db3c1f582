/** A job is completed once: its records are imported by the one transaction that sets it COMPLETED. */
module Completion {
  import opened Wrappers
  import opened JobModel
  import opened JobSystem

  /** A job is COMPLETED exactly when one committed transaction has imported its records. */
  ghost predicate ImportedOnce(db: Db) {
    && (forall j :: j in db.jobs ==> db.imports[j] == if db.jobs[j].status == JobStatus.Completed then 1 else 0)
    && (forall j: JobId :: j !in db.jobs ==> db.imports[j] == 0)
  }

  /** A retry whose submit raises although it delivered the job, which then ran to its end. */
  predicate OverwritesCompleted(s: System, step: Step) {
    step.RetrySubmitRaised? && step.j in s.db.jobs && s.db.jobs[step.j].status == JobStatus.Completed
  }

  lemma MoveKeepsImport(move: Move, a: Job, b: Job, imports: nat)
    requires Moves(move, a, b) && imports == if a.status == JobStatus.Completed then 1 else 0
    ensures (imports + (if move == Done then 1 else 0) == if b.status == JobStatus.Completed then 1 else 0)
            <==> !(move == Overwrite && a.status == JobStatus.Completed)
    ensures move != Overwrite && a.status == JobStatus.Completed ==> b.status == JobStatus.Completed
  {
  }

  lemma OnlyRetryOverwrites(s: System, step: Step, j: JobId)
    ensures MoveOf(s, step, j) == Overwrite <==> step == RetrySubmitRaised(j)
  {
  }

  /** The one step that breaks the pairing of completion and import is the unguarded write
      after a retry's failed submit, and it does so exactly when it finds the job COMPLETED. */
  lemma StepKeepsImports(s: System, e: Event)
    requires Can(s, e.step) && ImportedOnce(s.db)
    ensures ImportedOnce(Next(s, e).db) <==> !OverwritesCompleted(s, e.step)
    ensures !OverwritesCompleted(s, e.step) ==>
      forall j :: j in s.db.jobs && s.db.jobs[j].status == JobStatus.Completed ==>
        j in Next(s, e).db.jobs && Next(s, e).db.jobs[j].status == JobStatus.Completed
  {
    hide NextDb, NextWorkers, NextTicks, NextEpochs, MoveOf;
    var db, db' := s.db, Next(s, e).db;
    if e.step.Upload? {
      UploadKeepsJobs(s, e);
    } else {
      StepKeepsRows(s, e);
      forall j | j in db.jobs
        ensures (db'.imports[j] == if db'.jobs[j].status == JobStatus.Completed then 1 else 0)
                <==> !(e.step == RetrySubmitRaised(j) && db.jobs[j].status == JobStatus.Completed)
        ensures db.jobs[j].status == JobStatus.Completed && e.step != RetrySubmitRaised(j) ==>
                  db'.jobs[j].status == JobStatus.Completed
      {
        StepMoves(s, e, j);
        OnlyRetryOverwrites(s, e.step, j);
        MoveKeepsImport(MoveOf(s, e.step, j), db.jobs[j], db'.jobs[j], db.imports[j]);
      }
      forall j: JobId | j !in db.jobs ensures db'.imports[j] == 0 {
        StepMoves(s, e, j);
        NoMoveWithoutRow(s, e.step, j);
      }
    }
  }

  lemma NoMoveWithoutRow(s: System, step: Step, j: JobId)
    requires Can(s, step) && j !in s.db.jobs
    ensures MoveOf(s, step, j) != Done
  {
  }

  lemma UploadKeepsJobs(s: System, e: Event)
    requires Can(s, e.step) && e.step.Upload?
    ensures var db' := Next(s, e).db;
      && db'.imports == s.db.imports && db'.jobs.Keys == s.db.jobs.Keys + e.step.ids
      && (forall j :: j in s.db.jobs ==> db'.jobs[j] == s.db.jobs[j])
      && (forall j :: j in e.step.ids ==> db'.jobs[j] == NewJob(e.step.d, e.step.b))
  {
  }

  ghost predicate NeverOverwrites(run: seq<System>, events: seq<Event>)
    requires |run| == |events| + 1
  {
    forall i :: 0 <= i < |events| ==> !OverwritesCompleted(run[i], events[i].step)
  }

  /** Single completion: at every point of a run a job is COMPLETED exactly when its records
      have been imported, by exactly one transaction, and a COMPLETED job stays COMPLETED. */
  lemma {:induction false} SingleCompletion(run: seq<System>, events: seq<Event>, k: nat)
    requires IsRun(run, events) && Init(run[0]) && NeverOverwrites(run, events) && k < |run|
    ensures ImportedOnce(run[k].db)
    ensures forall i, j :: 0 <= i <= k && j in run[i].db.jobs && run[i].db.jobs[j].status == JobStatus.Completed ==>
              j in run[k].db.jobs && run[k].db.jobs[j].status == JobStatus.Completed
  {
    hide Next, Can;
    if k > 0 {
      SingleCompletion(run, events, k - 1);
      StepKeepsImports(run[k - 1], events[k - 1]);
    }
  }
}
