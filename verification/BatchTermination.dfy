/** How often a job can change: its rank drops with every change except a retry and the writes that move
    it backwards, and with ticks that do not overlap there are no such writes. */
module BatchTermination {
  import opened Wrappers
  import opened JobModel
  import opened JobSystem
  import opened BatchClaims
  import Completion

  function StageRank(stage: Option<Stage>): nat {
    match stage
    case None => 5
    case Some(Prepared) => 4
    case Some(Submitting) => 3
    case Some(Submitted) => 2
    case Some(Finishing) => 1
    case Some(Sync) => 0
  }

  /** From (PENDING, none) through the batch stages, (PENDING, SYNC) and (PROCESSING, SYNC) to an end. */
  function Rank(job: Job): nat {
    match job.status
    case Pending => if job.stage == None then 20 else 13
    case Processing => if job.stage == Some(Sync) then 12 else 14 + StageRank(job.stage)
    case Cancelled => 2 * StageRank(job.stage) + 1
    case _ => 2 * StageRank(job.stage)
  }

  predicate Changed(a: Job, b: Job) {
    a.status != b.status || a.stage != b.stage
  }

  // ---- exactly which writes move a job back ----

  /** A write that changes the row without lowering its rank, told from the row and the write. */
  predicate Backwards(move: Move, job: Job) {
    match move
    case Start => WaitingStage(job.stage)
    case SavePrepared => job.stage.Some? && job.stage != Some(Prepared)
    case SaveSubmitted =>
      || job.stage == Some(Stage.Finishing) || job.stage == Some(Sync)
      || (job.status == JobStatus.Pending && job.stage.Some? && job.stage != Some(Submitted))
    case GoLive => job.status == JobStatus.Processing && job.stage == Some(Sync)
    case Overwrite => job.status == JobStatus.Completed
    case _ => false
  }

  predicate RealClaim(move: Move) {
    move.Claim? ==> move == Claim(Prepared, Stage.Submitting) || move == Claim(Submitted, Stage.Finishing)
  }

  lemma MoveLowersRankIff(move: Move, a: Job, b: Job)
    requires Moves(move, a, b) && move != Again && RealClaim(move)
    ensures Changed(a, b) && Rank(b) >= Rank(a) <==> Backwards(move, a)
    ensures Backwards(move, a) ==> Rank(b) <= Rank(a) + 8
  {
  }

  predicate MovesBack(s: System, step: Step, j: JobId) {
    j in s.db.jobs && Backwards(MoveOf(s, step, j), s.db.jobs[j])
  }

  lemma RealClaims(s: System, step: Step, j: JobId)
    ensures RealClaim(MoveOf(s, step, j))
  {
  }

  /** Whoever does it and whatever else is running: a step that is no retry of a job and changes it lowers
      its rank, or is one of the writes named above. */
  lemma RankDropsIff(s: System, e: Event, j: JobId)
    requires Can(s, e.step) && j in s.db.jobs && e.step != Retry(j)
    ensures j in Next(s, e).db.jobs
    ensures var a, b := s.db.jobs[j], Next(s, e).db.jobs[j];
      && (Changed(a, b) && Rank(b) >= Rank(a) <==> MovesBack(s, e.step, j))
      && (MovesBack(s, e.step, j) ==> Rank(b) <= Rank(a) + 8)
  {
    hide NextDb, NextWorkers, NextTicks, NextEpochs, NextRetrying, MoveOf, Moves, Changed, Rank, Backwards;
    UploadIsNew(s, e.step, j);
    StepMoves(s, e, j);
    OnlyRetryAgain(s, e.step, j);
    RealClaims(s, e.step, j);
    MoveLowersRankIff(MoveOf(s, e.step, j), s.db.jobs[j], Next(s, e).db.jobs[j]);
  }

  lemma UploadIsNew(s: System, step: Step, j: JobId)
    requires Can(s, step) && j in s.db.jobs
    ensures !(step.Upload? && j in step.ids)
  {
  }

  lemma OnlyRetryAgain(s: System, step: Step, j: JobId)
    ensures MoveOf(s, step, j) == Again <==> step == Retry(j)
  {
  }

  // ---- how often a job changes ----

  predicate ChangedBetween(s: System, s': System, j: JobId) {
    j in s.db.jobs && j in s'.db.jobs && Changed(s.db.jobs[j], s'.db.jobs[j])
  }

  /** How often a job's (status, stage) changes between two points of a run. */
  function Changes(run: seq<System>, j: JobId, start: nat, end: nat): nat
    requires end < |run|
  {
    if end <= start then 0
    else Changes(run, j, start, end - 1) + OneIf(ChangedBetween(run[end - 1], run[end], j))
  }

  /** How often it is retried. */
  function Retries(events: seq<Event>, j: JobId, start: nat, end: nat): nat
    requires end <= |events|
  {
    if end <= start then 0
    else Retries(events, j, start, end - 1) + OneIf(events[end - 1].step == Retry(j))
  }

  /** How often it is moved back. */
  function Setbacks(run: seq<System>, events: seq<Event>, j: JobId, start: nat, end: nat): nat
    requires end <= |events| < |run|
  {
    if end <= start then 0
    else Setbacks(run, events, j, start, end - 1) + OneIf(MovesBack(run[end - 1], events[end - 1].step, j))
  }

  lemma RankAtMost20(job: Job)
    ensures Rank(job) <= 20
  {
  }

  lemma RetryMovesNoneBack(s: System, j: JobId)
    ensures !MovesBack(s, Retry(j), j)
  {
  }

  lemma StepCosts(s: System, e: Event, j: JobId)
    requires Can(s, e.step) && j in s.db.jobs
    ensures j in Next(s, e).db.jobs
    ensures OneIf(ChangedBetween(s, Next(s, e), j)) + Rank(Next(s, e).db.jobs[j])
         <= Rank(s.db.jobs[j]) + 21 * OneIf(e.step == Retry(j)) + 9 * OneIf(MovesBack(s, e.step, j))
  {
    hide Next, Can, Rank, Changed, MovesBack;
    if e.step == Retry(j) {
      StepKeepsRows(s, e);
      RetryMovesNoneBack(s, j);
      RankAtMost20(Next(s, e).db.jobs[j]);
    } else {
      RankDropsIff(s, e, j);
      SameRank(s.db.jobs[j], Next(s, e).db.jobs[j]);
    }
  }

  lemma SameRank(a: Job, b: Job)
    ensures Changed(a, b) || Rank(b) == Rank(a)
  {
  }

  /** Termination: over every stretch of every run a job's (status, stage) changes at most as often as its
      rank allows, so at most 20 times, and 21 times more for each retry and 9 times more for each write
      that moves it back, however long the stretch is and whoever else is running. */
  lemma {:induction false} ChangesBounded(run: seq<System>, events: seq<Event>, j: JobId, start: nat, end: nat)
    requires |run| == |events| + 1 && IsRun(run, events) && start <= end < |run| && j in run[start].db.jobs
    ensures j in run[end].db.jobs
    ensures Changes(run, j, start, end) + Rank(run[end].db.jobs[j])
         <= Rank(run[start].db.jobs[j]) + 21 * Retries(events, j, start, end) + 9 * Setbacks(run, events, j, start, end)
    ensures Rank(run[start].db.jobs[j]) <= 20
    decreases end
  {
    hide Next, Can, Rank, ChangedBetween, MovesBack;
    if start < end {
      ChangesBounded(run, events, j, start, end - 1);
      StepCosts(run[end - 1], events[end - 1], j);
    } else {
      RankAtMost20(run[start].db.jobs[j]);
    }
  }

  // ---- with ticks that do not overlap ----

  ghost predicate Inside(s: System, j: JobId) {
    || (exists w :: w in s.workers && s.workers[w].job == j)
    || (exists t :: t in s.ticks && Holds(s.ticks[t], j))
  }

  /** No retry while an earlier worker or tick is still inside the job. */
  ghost predicate RetriesWait(s: System, step: Step) {
    step.Retry? ==> !Inside(s, step.j)
  }

  lemma WaitingIsNotEarly(s: System, step: Step)
    requires RetriesWait(s, step)
    ensures !Early(s, step)
  {
  }

  /** Ticks do not overlap. */
  ghost predicate TicksApart(s: System, step: Step) {
    step.TickStarts? ==> s.ticks == map[]
  }

  predicate Fits(tick: Tick, j: JobId, stage: Option<Stage>) {
    match tick
    case Idle => true
    case FallingBack(ids) => j in ids ==> WaitingStage(stage)
    case Submitting(ids) => j in ids ==> stage == Some(Stage.Submitting)
    case Collected(ids) => j in ids ==> stage == Some(Submitted)
    case Finishing(k, ids) =>
      if j == k then stage == Some(Stage.Finishing) && j !in ids else j in ids ==> stage == Some(Submitted)
  }

  predicate RowSteady(job: Job, h: Epoch) {
    && (job.status == JobStatus.Pending ==> job.stage == None || job.stage == Some(Sync))
    && (h.prepared == 0 ==> job.stage == None)
  }

  ghost predicate TicksSteady(ticks: map<nat, Tick>, j: JobId, job: Job, h: Epoch) {
    forall t :: t in ticks && Holds(ticks[t], j) ==> h.prepared == 1 && Fits(ticks[t], j, job.stage)
  }

  /** With one tick at a time, what it holds in memory is still what the row says. */
  ghost predicate Steady(s: System, j: JobId)
    requires j in s.db.jobs && j in s.epochs
  {
    RowSteady(s.db.jobs[j], s.epochs[j]) && TicksSteady(s.ticks, j, s.db.jobs[j], s.epochs[j])
  }

  ghost predicate OneTick(s: System) {
    forall t, u :: t in s.ticks && u in s.ticks ==> t == u
  }

  ghost predicate Orderly(s: System) {
    OneTick(s) && Ledgers(s) && forall j :: j in s.db.jobs ==> Steady(s, j)
  }

  /** What a row looks like when each move reaches it. */
  predicate MoveInOrder(move: Move, job: Job, h: Epoch) {
    match move
    case SavePrepared => job.stage == None && job.status != JobStatus.Pending
    case SaveSubmitted => job.stage == Some(Stage.Submitting) && h.prepared == 1
    case GoLive => WaitingStage(job.stage) && h.prepared == 1
    case Claim(from, to) => move == Claim(Prepared, Stage.Submitting) || move == Claim(Submitted, Stage.Finishing)
    case _ => true
  }

  lemma StepInOrder(s: System, step: Step, j: JobId)
    requires Can(s, step) && Known(s) && j in s.db.jobs && Ledger(s, j) && Steady(s, j)
    ensures MoveInOrder(MoveOf(s, step, j), s.db.jobs[j], s.epochs[j])
  {
    hide Known, InStage, ActiveJobs, InterruptedJobs, StaleJobs;
  }

  lemma RowStaysSteady(move: Move, a: Job, b: Job, h: Epoch)
    requires Moves(move, a, b) && RowSteady(a, h) && Counts(a, h) && MoveInOrder(move, a, h)
    ensures RowSteady(b, Count(h, move))
  {
  }

  lemma TicksStaySteady(s: System, e: Event, j: JobId)
    requires Can(s, e.step) && RetriesWait(s, e.step) && OneTick(s) && Known(s)
    requires j in s.db.jobs && Ledger(s, j) && Steady(s, j) && j in Next(s, e).db.jobs
    requires Moves(MoveOf(s, e.step, j), s.db.jobs[j], Next(s, e).db.jobs[j])
    requires e.step.Batching?
    ensures TicksSteady(NextTicks(s, e.step), j, Next(s, e).db.jobs[j], Count(s.epochs[j], MoveOf(s, e.step, j)))
  {
    hide NextDb, NextWorkers, NextEpochs, WorkMove, WorkersFit, TicksFit;
  }

  lemma OthersStaySteady(s: System, e: Event, j: JobId)
    requires Can(s, e.step) && RetriesWait(s, e.step) && Known(s)
    requires j in s.db.jobs && Ledger(s, j) && Steady(s, j) && j in Next(s, e).db.jobs
    requires Moves(MoveOf(s, e.step, j), s.db.jobs[j], Next(s, e).db.jobs[j])
    requires !e.step.Batching?
    ensures TicksSteady(NextTicks(s, e.step), j, Next(s, e).db.jobs[j], Count(s.epochs[j], MoveOf(s, e.step, j)))
  {
    hide NextDb, NextWorkers, NextEpochs, MoveOf, Moves, TicksFit, WorkersFit, Counts, RowSteady, Fits;
    MoveFits(s, e.step, j);
    OutsideTicks(s, e.step, j);
    HeldSteady(s.ticks, j, MoveOf(s, e.step, j), s.db.jobs[j], Next(s, e).db.jobs[j], s.epochs[j]);
  }

  lemma HeldSteady(ticks: map<nat, Tick>, j: JobId, move: Move, a: Job, b: Job, h: Epoch)
    requires TicksSteady(ticks, j, a, h) && Moves(move, a, b)
    requires !move.Claim? && move != SaveSubmitted && move != GoLive
    requires move == SavePrepared ==> h.prepared == 0
    requires move == Again ==> forall t :: t in ticks ==> !Holds(ticks[t], j)
    ensures TicksSteady(ticks, j, b, Count(h, move))
  {
  }

  /** Whoever is not a tick neither claims nor puts back, and gives no tick a job to hold. */
  lemma OutsideTicks(s: System, step: Step, j: JobId)
    requires Can(s, step) && !step.Batching?
    ensures var move := MoveOf(s, step, j);
      !move.Claim? && move != SaveSubmitted && move != GoLive && (move == Again ==> step == Retry(j))
    ensures NextTicks(s, step) == if step.TickStarts? then s.ticks[step.t := Idle] else s.ticks
  {
    hide ActiveJobs, InterruptedJobs, StaleJobs;
  }

  lemma StepKeepsSteady(s: System, e: Event, j: JobId)
    requires Can(s, e.step) && RetriesWait(s, e.step) && OneTick(s) && Known(s) && Known(Next(s, e))
    requires j in s.db.jobs && Ledger(s, j) && Steady(s, j) && !e.step.Upload?
    ensures Steady(Next(s, e), j)
  {
    hide NextDb, NextWorkers, NextTicks, MoveOf, WorkersFit, TicksFit, TicksSteady;
    StepMoves(s, e, j);
    StepInOrder(s, e.step, j);
    RowStaysSteady(MoveOf(s, e.step, j), s.db.jobs[j], Next(s, e).db.jobs[j], s.epochs[j]);
    if e.step.Batching? {
      TicksStaySteady(s, e, j);
    } else {
      OthersStaySteady(s, e, j);
    }
  }

  lemma InOrderIsForwards(move: Move, a: Job, b: Job, h: Epoch)
    requires Moves(move, a, b) && RowSteady(a, h) && MoveInOrder(move, a, h)
    requires !(move == Overwrite && a.status == JobStatus.Completed)
    ensures !Backwards(move, a)
  {
  }

  /** Without overlapping ticks, early retries and overwritten completions no step moves a job back. */
  lemma NothingMovesBack(s: System, e: Event, j: JobId)
    requires Can(s, e.step) && Orderly(s) && j in s.db.jobs && !Completion.OverwritesCompleted(s, e.step)
    ensures !MovesBack(s, e.step, j)
  {
    hide NextDb, NextWorkers, NextTicks, NextEpochs, NextRetrying, Can, Ledger, MoveOf, Backwards;
    assert Steady(s, j);
    UploadIsNew(s, e.step, j);
    StepMoves(s, e, j);
    StepInOrder(s, e.step, j);
    Completion.OnlyRetryOverwrites(s, e.step, j);
    InOrderIsForwards(MoveOf(s, e.step, j), s.db.jobs[j], Next(s, e).db.jobs[j], s.epochs[j]);
  }

  lemma UploadKeepsOrder(s: System, e: Event)
    requires Can(s, e.step) && e.step.Upload? && Orderly(s) && Ledgers(Next(s, e))
    ensures Orderly(Next(s, e))
  {
    hide NextDb, NextWorkers, Ledger;
    UploadedRows(s, e);
    forall j | j in Next(s, e).db.jobs ensures Steady(Next(s, e), j) {
      if j in s.db.jobs {
        assert Steady(s, j);
      }
    }
  }

  lemma StepKeepsOneTick(s: System, step: Step)
    requires Can(s, step) && TicksApart(s, step) && OneTick(s)
    ensures forall t, u :: t in NextTicks(s, step) && u in NextTicks(s, step) ==> t == u
  {
  }

  lemma StepKeepsOrder(s: System, e: Event)
    requires Can(s, e.step) && RetriesWait(s, e.step) && TicksApart(s, e.step) && Orderly(s)
    ensures Orderly(Next(s, e))
  {
    hide NextDb, NextWorkers, NextTicks, NextEpochs, NextRetrying, Can, RetriesWait, TicksApart, Ledger, Steady, Early;
    WaitingIsNotEarly(s, e.step);
    StepKeepsLedgers(s, e);
    StepKeepsOneTick(s, e.step);
    if e.step.Upload? {
      UploadKeepsOrder(s, e);
    } else {
      StepKeepsRows(s, e);
      forall j | j in s.db.jobs ensures Steady(Next(s, e), j) {
        StepKeepsSteady(s, e, j);
      }
    }
  }

  /** What one step does to a job that it changes: unless it is a retry, the job's rank drops. */
  lemma StepLowersRank(s: System, e: Event)
    requires Can(s, e.step) && RetriesWait(s, e.step) && TicksApart(s, e.step) && Orderly(s)
    requires !Completion.OverwritesCompleted(s, e.step)
    ensures Orderly(Next(s, e))
    ensures forall j :: j in s.db.jobs && !(e.step == Retry(j)) ==>
              j in Next(s, e).db.jobs
              && (Changed(s.db.jobs[j], Next(s, e).db.jobs[j]) ==> Rank(Next(s, e).db.jobs[j]) < Rank(s.db.jobs[j]))
  {
    hide Next, Can, RetriesWait, TicksApart, Orderly, Changed, Rank, MovesBack;
    StepKeepsOrder(s, e);
    forall j | j in s.db.jobs && e.step != Retry(j)
      ensures j in Next(s, e).db.jobs
      ensures Changed(s.db.jobs[j], Next(s, e).db.jobs[j]) ==> Rank(Next(s, e).db.jobs[j]) < Rank(s.db.jobs[j])
    {
      NothingMovesBack(s, e, j);
      RankDropsIff(s, e, j);
    }
  }

  ghost predicate Disciplined(run: seq<System>, events: seq<Event>)
    requires |run| == |events| + 1
  {
    forall i :: 0 <= i < |events| ==>
      && RetriesWait(run[i], events[i].step) && TicksApart(run[i], events[i].step)
      && !Completion.OverwritesCompleted(run[i], events[i].step)
  }

  lemma {:induction false} OrderOverRuns(run: seq<System>, events: seq<Event>, k: nat)
    requires IsRun(run, events) && Init(run[0]) && Disciplined(run, events) && k < |run|
    ensures Orderly(run[k])
  {
    hide Next, Can, RetriesWait, TicksApart, Ledger, Steady;
    if k > 0 {
      OrderOverRuns(run, events, k - 1);
      StepLowersRank(run[k - 1], events[k - 1]);
    }
  }

  lemma {:induction false} NoSetbacks(run: seq<System>, events: seq<Event>, j: JobId, start: nat, end: nat)
    requires |run| == |events| + 1 && IsRun(run, events) && Init(run[0]) && Disciplined(run, events)
    requires start <= end < |run| && j in run[start].db.jobs
    ensures Setbacks(run, events, j, start, end) == 0 && j in run[end].db.jobs
    decreases end
  {
    hide Next, Can, RetriesWait, TicksApart, Orderly, MovesBack;
    if start < end {
      NoSetbacks(run, events, j, start, end - 1);
      OrderOverRuns(run, events, end - 1);
      NothingMovesBack(run[end - 1], events[end - 1], j);
      StepCosts(run[end - 1], events[end - 1], j);
    }
  }

  lemma {:induction false} NoRetries(events: seq<Event>, j: JobId, start: nat, end: nat)
    requires end <= |events| && forall i :: start <= i < end ==> events[i].step != Retry(j)
    ensures Retries(events, j, start, end) == 0
  {
    if start < end {
      NoRetries(events, j, start, end - 1);
    }
  }

  /** In a disciplined run a job changes at most 20 times between two retries. */
  lemma DisciplinedChanges(run: seq<System>, events: seq<Event>, j: JobId, start: nat, end: nat)
    requires |run| == |events| + 1 && IsRun(run, events) && Init(run[0]) && Disciplined(run, events)
    requires start <= end < |run| && j in run[start].db.jobs
    requires forall i :: start <= i < end ==> events[i].step != Retry(j)
    ensures j in run[end].db.jobs
    ensures Changes(run, j, start, end) + Rank(run[end].db.jobs[j]) <= Rank(run[start].db.jobs[j]) <= 20
  {
    hide IsRun, Disciplined, Init, Rank;
    NoSetbacks(run, events, j, start, end);
    NoRetries(events, j, start, end);
    ChangesBounded(run, events, j, start, end);
  }
}
