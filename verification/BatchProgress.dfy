/** No job waits for ever: with a clock that advances and a collect command that answers, a bounded number
    of passes that run to their end takes every waiting job out of the waiting stages, however many passes
    between them are cut short by a refused task. */
module BatchProgress {
  import opened Wrappers
  import opened JobModel
  import opened GeminiBatch

  /** One pass of the scheduler, and what it was answered. Batching may be switched on and off. */
  datatype Round = Round(enabled: bool, chosen: seq<JobId>, commands: Commands, clock: Clock)

  datatype Limits = Limits(maxJobs: nat, fallbackAfter: nat)

  function SettingsOf(round: Round, limits: Limits): Settings {
    Settings(round.enabled, limits.maxJobs, limits.fallbackAfter)
  }

  predicate Advances(clock: Clock) {
    clock.recovering <= clock.claiming <= clock.submitting <= clock.collecting
  }

  /** Batches have names, and a collect command tells how its batch is doing. */
  ghost predicate Answers(commands: Commands) {
    && AnswersItems(commands)
    && (forall items: seq<JobId>, j :: commands.submit(items).Some? && j in commands.submit(items).value ==>
          commands.submit(items).value[j] != "")
    && (forall name: string :: commands.collect(name) != Unreachable)
  }

  ghost predicate Ticks(jobs: map<JobId, Job>, after: map<JobId, Job>, round: Round, limits: Limits) {
    && Advances(round.clock) && Answers(round.commands)
    && (round.enabled ==> OldestFirst(Recovered(jobs, round.clock), round.chosen, limits.maxJobs))
    && after == AfterTick(jobs, SettingsOf(round, limits), round.chosen, round.commands, round.clock)
  }

  /** A pass that a refused task has cut short. */
  ghost predicate Cut(jobs: map<JobId, Job>, after: map<JobId, Job>, round: Round, limits: Limits) {
    && Advances(round.clock) && Answers(round.commands)
    && EndedEarly(jobs, after, SettingsOf(round, limits), round.chosen, round.commands, round.clock)
  }

  /** Between two ticks anything may happen to a job except that it enters or changes a waiting
      stage otherwise than by being prepared afresh. (In runs of the job system it is so: BatchRuns.) */
  ghost predicate Between(after: map<JobId, Job>, jobs': map<JobId, Job>, tickEnd: Time) {
    forall j :: j in jobs' && Waiting(jobs'[j]) ==>
      || (j in after && jobs'[j] == after[j])
      || (jobs'[j].stage == Some(Prepared) && jobs'[j].stageAt.Some? && tickEnd < jobs'[j].stageAt.value)
  }

  predicate RowSound(job: Job) {
    Waiting(job) ==>
      && job.stageAt.Some?
      && (job.stage == Some(Submitted) ==> job.batchName.Some? && job.batchName.value != "")
  }

  ghost predicate Sound(jobs: map<JobId, Job>) {
    forall j :: j in jobs ==> RowSound(jobs[j])
  }

  predicate Reached(job: Job, now: Time) {
    Waiting(job) && job.stageAt.Some? ==> job.stageAt.value <= now
  }

  // ---- one row through one tick ----

  function RowAfterRecovery(job: Job, clock: Clock): Job {
    if (CanClaim(job, Submitting) || CanClaim(job, Finishing))
       && (job.stageAt.None? || job.stageAt.value < clock.recovering - STUCK_STEP_AFTER)
    then FallBack(job, clock.recovering) else job
  }

  function RowAfterSubmit(job: Job, j: JobId, round: Round): Job {
    if round.enabled
    then if j in round.chosen then SubmittedRow(job, j, round.commands.submit(round.chosen), round.clock) else job
    else if CanClaim(job, Prepared) then FallBack(job, round.clock.claiming) else job
  }

  lemma TickRow(jobs: map<JobId, Job>, after: map<JobId, Job>, round: Round, limits: Limits, j: JobId)
    requires Ticks(jobs, after, round, limits) && j in jobs
    ensures j in after
    ensures var row := RowAfterSubmit(RowAfterRecovery(jobs[j], round.clock), j, round);
      && (!Collectable(row) ==> after[j] == row)
      && (Collectable(row) && Waiting(after[j]) ==>
            && after[j] == row
            && (row.stageAt.Some? ==> row.stageAt.value >= round.clock.collecting - limits.fallbackAfter))
  {
    hide OldestFirst, SubmittedRow;
    var settings := SettingsOf(round, limits);
    var mid := AfterSubmit(Recovered(jobs, round.clock), settings, round.chosen, round.commands, round.clock);
    assert mid[j] == RowAfterSubmit(RowAfterRecovery(jobs[j], round.clock), j, round);
    if Collectable(mid[j]) {
      CollectedRowWaits(mid, j, settings, round.commands, round.clock);
    } else {
      NotCollected(mid, j, settings, round.commands, round.clock);
    }
  }

  lemma CollectedRowWaits(jobs: map<JobId, Job>, j: JobId, settings: Settings, commands: Commands, clock: Clock)
    requires j in jobs && Collectable(jobs[j]) && Answers(commands)
    ensures var row := CollectedRow(jobs, j, settings, commands, clock);
      Waiting(row) ==>
        row == jobs[j] && (row.stageAt.Some? ==> row.stageAt.value >= clock.collecting - settings.fallbackAfter)
  {
  }

  // ---- how many ticks a job still has to wait ----

  /** The PREPARED jobs a tick takes before this one. */
  function Ahead(jobs: map<JobId, Job>, j: JobId): set<JobId>
    requires j in jobs
  {
    set k | k in InStage(jobs, Prepared) && k != j && Earlier(jobs[k], jobs[j])
  }

  function Larger(a: int, b: int): int {
    if a < b then b else a
  }

  /** Ticks that can still find the job waiting, when the next one begins at `start`. */
  function TicksLeft(jobs: map<JobId, Job>, j: JobId, limits: Limits, start: Time): int
    requires j in jobs && Waiting(jobs[j]) && RowSound(jobs[j]) && limits.maxJobs > 0
  {
    var at := jobs[j].stageAt.value;
    match jobs[j].stage.value
    case Prepared => |Ahead(jobs, j)| / limits.maxJobs + 1 + Larger(STUCK_STEP_AFTER, limits.fallbackAfter)
    case Submitted => at + limits.fallbackAfter + 1 - start
    case _ => at + STUCK_STEP_AFTER + 1 - start
  }

  /** A full choice that leaves a job out takes only jobs ahead of it. */
  lemma ChosenAhead(jobs: map<JobId, Job>, chosen: seq<JobId>, limit: nat, j: JobId)
    requires OldestFirst(jobs, chosen, limit) && j in jobs && CanClaim(jobs[j], Prepared) && j !in chosen
    requires jobs[j].stageAt.Some?
    ensures |chosen| == limit
    ensures Elements(chosen) <= Ahead(jobs, j) && |Elements(chosen)| == limit
  {
    var taken := Elements(chosen);
    Distinct(chosen);
    assert taken < InStage(jobs, Prepared) by { assert j in InStage(jobs, Prepared) && j !in taken; }
    Smaller(taken, InStage(jobs, Prepared));
  }

  function Elements(s: seq<JobId>): set<JobId> {
    set k | k in s
  }

  lemma {:induction false} Distinct(s: seq<JobId>)
    requires forall i, k :: 0 <= i < k < |s| ==> s[i] != s[k]
    ensures |Elements(s)| == |s|
  {
    if s == [] {
      assert Elements(s) == {};
    } else {
      var rest, last := s[..|s| - 1], s[|s| - 1];
      Distinct(rest);
      assert last !in rest && s == rest + [last];
      assert Elements(s) == Elements(rest) + {last};
    }
  }

  lemma Smaller(a: set<JobId>, b: set<JobId>)
    requires a < b
    ensures |a| < |b|
  {
    assert b == a + (b - a);
    assert b - a != {};
  }

  /** A waiting job that survives a tick untouched is nearer its end. */
  lemma TickLowers(jobs: map<JobId, Job>, after: map<JobId, Job>, jobs': map<JobId, Job>, round: Round, limits: Limits,
                   next: Time, j: JobId)
    requires Ticks(jobs, after, round, limits) && Between(after, jobs', round.clock.collecting)
    requires limits.maxJobs > 0 && round.clock.collecting < next
    requires j in jobs && Waiting(jobs[j]) && RowSound(jobs[j]) && Reached(jobs[j], round.clock.recovering)
    requires j in after && Waiting(after[j]) && j in jobs' && jobs'[j] == after[j]
    ensures RowSound(jobs'[j])
    ensures 1 <= TicksLeft(jobs, j, limits, round.clock.recovering)
    ensures TicksLeft(jobs', j, limits, next) < TicksLeft(jobs, j, limits, round.clock.recovering)
  {
    hide Ticks, Between, Ahead, TicksLeft;
    if jobs[j].stage == Some(Prepared) {
      if round.enabled && j in round.chosen {
        ChosenLowers(jobs, after, round, limits, next, j);
        LessOnceChosen(jobs, jobs', limits, round.clock.recovering, next, j);
      } else {
        NotChosen(jobs, after, round, limits, j);
        AheadShrinks(jobs, after, jobs', round, limits, j);
        LessAhead(jobs, jobs', limits, round.clock.recovering, next, j);
      }
    } else {
      StepLowers(jobs, after, round, limits, next, j);
      LessTime(jobs, jobs', limits, round.clock.recovering, next, j);
    }
  }

  lemma LessOnceChosen(jobs: map<JobId, Job>, jobs': map<JobId, Job>, limits: Limits, start: Time, next: Time, j: JobId)
    requires j in jobs && CanClaim(jobs[j], Prepared) && RowSound(jobs[j]) && limits.maxJobs > 0
    requires j in jobs' && Waiting(jobs'[j]) && RowSound(jobs'[j]) && jobs'[j].stage != Some(Prepared)
    requires jobs'[j].stageAt.value < next
    ensures TicksLeft(jobs', j, limits, next) < TicksLeft(jobs, j, limits, start) && 1 <= TicksLeft(jobs, j, limits, start)
  {
    hide Ahead;
  }

  lemma LessAhead(jobs: map<JobId, Job>, jobs': map<JobId, Job>, limits: Limits, start: Time, next: Time, j: JobId)
    requires j in jobs && CanClaim(jobs[j], Prepared) && RowSound(jobs[j]) && limits.maxJobs > 0
    requires j in jobs' && jobs'[j] == jobs[j] && |Ahead(jobs', j)| / limits.maxJobs < |Ahead(jobs, j)| / limits.maxJobs
    ensures RowSound(jobs'[j])
    ensures TicksLeft(jobs', j, limits, next) < TicksLeft(jobs, j, limits, start) && 1 <= TicksLeft(jobs, j, limits, start)
  {
    hide Ahead;
  }

  lemma LessTime(jobs: map<JobId, Job>, jobs': map<JobId, Job>, limits: Limits, start: Time, next: Time, j: JobId)
    requires j in jobs && Waiting(jobs[j]) && RowSound(jobs[j]) && jobs[j].stage != Some(Prepared) && limits.maxJobs > 0
    requires j in jobs' && jobs'[j] == jobs[j] && start < next
    requires if jobs[j].stage == Some(Submitted)
             then jobs[j].stageAt.value >= start - limits.fallbackAfter
             else jobs[j].stageAt.value >= start - STUCK_STEP_AFTER
    ensures RowSound(jobs'[j])
    ensures TicksLeft(jobs', j, limits, next) < TicksLeft(jobs, j, limits, start) && 1 <= TicksLeft(jobs, j, limits, start)
  {
    hide Ahead;
  }

  lemma ChosenLowers(jobs: map<JobId, Job>, after: map<JobId, Job>, round: Round, limits: Limits, next: Time, j: JobId)
    requires Ticks(jobs, after, round, limits) && round.clock.collecting < next
    requires j in jobs && CanClaim(jobs[j], Prepared) && RowSound(jobs[j])
    requires round.enabled && j in round.chosen && j in after && Waiting(after[j])
    ensures RowSound(after[j]) && after[j].stage != Some(Prepared)
    ensures after[j].stageAt.value <= round.clock.collecting
  {
    hide AfterTick, OldestFirst;
    TickRow(jobs, after, round, limits, j);
  }

  lemma NotChosen(jobs: map<JobId, Job>, after: map<JobId, Job>, round: Round, limits: Limits, j: JobId)
    requires Ticks(jobs, after, round, limits) && j in jobs && CanClaim(jobs[j], Prepared)
    requires !(round.enabled && j in round.chosen) && j in after && Waiting(after[j])
    ensures round.enabled && after[j] == jobs[j]
  {
    hide AfterTick, OldestFirst;
    TickRow(jobs, after, round, limits, j);
  }

  lemma StepLowers(jobs: map<JobId, Job>, after: map<JobId, Job>, round: Round, limits: Limits, next: Time, j: JobId)
    requires Ticks(jobs, after, round, limits) && round.clock.collecting < next
    requires j in jobs && Waiting(jobs[j]) && jobs[j].stage != Some(Prepared) && RowSound(jobs[j])
    requires j in after && Waiting(after[j])
    ensures after[j] == jobs[j] && round.clock.recovering <= round.clock.collecting
    ensures if jobs[j].stage == Some(Submitted)
            then jobs[j].stageAt.value >= round.clock.recovering - limits.fallbackAfter
            else jobs[j].stageAt.value >= round.clock.recovering - STUCK_STEP_AFTER
  {
    hide AfterTick;
    TickRow(jobs, after, round, limits, j);
  }

  lemma AheadShrinks(jobs: map<JobId, Job>, after: map<JobId, Job>, jobs': map<JobId, Job>, round: Round, limits: Limits,
                     j: JobId)
    requires Ticks(jobs, after, round, limits) && Between(after, jobs', round.clock.collecting)
    requires round.enabled && limits.maxJobs > 0
    requires j in jobs && CanClaim(jobs[j], Prepared) && jobs[j].stageAt.Some? && Reached(jobs[j], round.clock.recovering)
    requires j !in round.chosen && j in jobs' && jobs'[j] == jobs[j]
    ensures |Ahead(jobs', j)| / limits.maxJobs < |Ahead(jobs, j)| / limits.maxJobs
  {
    var recovered := Recovered(jobs, round.clock);
    assert recovered[j] == jobs[j];
    ChosenAhead(recovered, round.chosen, limits.maxJobs, j);
    var taken := Elements(round.chosen);
    assert Ahead(recovered, j) == Ahead(jobs, j);
    forall k | k in Ahead(jobs', j) ensures k in Ahead(jobs, j) && k !in taken {
      StillAhead(jobs, after, jobs', round, limits, j, k);
    }
    Subset(Ahead(jobs', j), Ahead(jobs, j) - taken);
    Divided(|Ahead(jobs', j)|, |Ahead(jobs, j)|, limits.maxJobs);
  }

  lemma StillAhead(jobs: map<JobId, Job>, after: map<JobId, Job>, jobs': map<JobId, Job>, round: Round, limits: Limits,
                   j: JobId, k: JobId)
    requires Ticks(jobs, after, round, limits) && Between(after, jobs', round.clock.collecting)
    requires round.enabled && j in jobs && jobs[j].stageAt.Some? && jobs[j].stageAt.value <= round.clock.recovering
    requires j in jobs' && jobs'[j] == jobs[j] && k in Ahead(jobs', j)
    ensures k in Ahead(jobs, j) && k !in round.chosen
  {
    assert k in after && jobs'[k] == after[k];
    assert k in jobs;
    TickRow(jobs, after, round, limits, k);
  }

  lemma Subset(a: set<JobId>, b: set<JobId>)
    requires a <= b
    ensures |a| <= |b|
  {
    if a != b {
      Smaller(a, b);
    }
  }

  lemma Divided(a: nat, b: nat, d: nat)
    requires d > 0 && a + d <= b
    ensures a / d < b / d
  {
  }

  // ---- passes that are cut short ----

  /** A row that still waits after such a pass is as its recovery, or its submit, left it. */
  lemma CutRow(jobs: map<JobId, Job>, after: map<JobId, Job>, round: Round, limits: Limits, j: JobId)
    requires Cut(jobs, after, round, limits) && j in jobs
    ensures j in after
    ensures var row := RowAfterRecovery(jobs[j], round.clock);
      Waiting(after[j]) ==>
        || after[j] == row
        || (&& (round.enabled ==> OldestFirst(Recovered(jobs, round.clock), round.chosen, limits.maxJobs))
            && after[j] == RowAfterSubmit(row, j, round))
  {
    hide OldestFirst, SubmittedRow, CollectedRow;
    var settings := SettingsOf(round, limits);
    if after != Recovered(jobs, round.clock) {
      var mid := AfterSubmit(Recovered(jobs, round.clock), settings, round.chosen, round.commands, round.clock);
      assert mid[j] == RowAfterSubmit(RowAfterRecovery(jobs[j], round.clock), j, round);
      if Collectable(mid[j]) {
        CollectedRowWaits(mid, j, settings, round.commands, round.clock);
      } else {
        NotCollected(mid, j, settings, round.commands, round.clock);
      }
    }
  }

  /** So it is unchanged, or was PREPARED and has been submitted. */
  lemma CutKeeps(jobs: map<JobId, Job>, after: map<JobId, Job>, round: Round, limits: Limits, j: JobId)
    requires Cut(jobs, after, round, limits) && j in jobs
    ensures j in after
    ensures Waiting(after[j]) && RowSound(jobs[j]) ==> RowSound(after[j])
    ensures Waiting(after[j]) && after[j] != jobs[j] ==>
      && CanClaim(jobs[j], Prepared) && after[j].stage != Some(Prepared)
      && after[j].stageAt.Some? && after[j].stageAt.value <= round.clock.collecting
  {
    hide Recovered, EndedEarly;
    CutRow(jobs, after, round, limits, j);
    if Waiting(after[j]) && after[j] != jobs[j] {
      ChosenInStage(jobs, round, limits, j);
    }
  }

  lemma ChosenInStage(jobs: map<JobId, Job>, round: Round, limits: Limits, j: JobId)
    requires j in jobs && round.enabled && j in round.chosen
    requires OldestFirst(Recovered(jobs, round.clock), round.chosen, limits.maxJobs)
    ensures CanClaim(RowAfterRecovery(jobs[j], round.clock), Prepared)
  {
    assert j in InStage(Recovered(jobs, round.clock), Prepared);
  }

  lemma CutNeverRaises(jobs: map<JobId, Job>, after: map<JobId, Job>, jobs': map<JobId, Job>, round: Round, limits: Limits,
                       next: Time, j: JobId)
    requires Cut(jobs, after, round, limits) && Between(after, jobs', round.clock.collecting)
    requires limits.maxJobs > 0 && round.clock.collecting < next
    requires j in jobs && Waiting(jobs[j]) && RowSound(jobs[j]) && Reached(jobs[j], round.clock.recovering)
    requires j in after && Waiting(after[j]) && j in jobs' && jobs'[j] == after[j]
    ensures RowSound(jobs'[j])
    ensures TicksLeft(jobs', j, limits, next) <= TicksLeft(jobs, j, limits, round.clock.recovering)
  {
    hide Cut, Between, Ahead, TicksLeft;
    CutKeeps(jobs, after, round, limits, j);
    if after[j] != jobs[j] {
      LessOnceChosen(jobs, jobs', limits, round.clock.recovering, next, j);
    } else {
      if jobs[j].stage == Some(Prepared) {
        AheadDoesNotGrow(jobs, after, jobs', round, limits, j);
      }
      assert round.clock.recovering <= round.clock.collecting by { CutAdvances(jobs, after, round, limits); }
      NoMoreLeft(jobs, jobs', limits, round.clock.recovering, next, j);
    }
  }

  lemma CutAdvances(jobs: map<JobId, Job>, after: map<JobId, Job>, round: Round, limits: Limits)
    requires Cut(jobs, after, round, limits)
    ensures round.clock.recovering <= round.clock.collecting
  {
  }

  lemma NoMoreLeft(jobs: map<JobId, Job>, jobs': map<JobId, Job>, limits: Limits, start: Time, next: Time, j: JobId)
    requires j in jobs && Waiting(jobs[j]) && RowSound(jobs[j]) && limits.maxJobs > 0
    requires j in jobs' && jobs'[j] == jobs[j] && start <= next
    requires jobs[j].stage == Some(Prepared) ==> |Ahead(jobs', j)| <= |Ahead(jobs, j)|
    ensures TicksLeft(jobs', j, limits, next) <= TicksLeft(jobs, j, limits, start)
  {
    hide Ahead;
    if jobs[j].stage == Some(Prepared) {
      DividedUp(|Ahead(jobs', j)|, |Ahead(jobs, j)|, limits.maxJobs);
    }
  }

  lemma DividedUp(a: nat, b: nat, d: nat)
    requires d > 0 && a <= b
    ensures a / d <= b / d
  {
    var p, q := b / d, a / d;
    assert q * d <= a && b < p * d + d;
    if p < q {
      Times(p, q, d);
    }
  }

  lemma {:induction false} Times(p: nat, q: nat, d: nat)
    requires p < q
    ensures p * d + d <= q * d
    decreases q
  {
    if p + 1 < q {
      Times(p, q - 1, d);
    }
  }

  lemma AheadDoesNotGrow(jobs: map<JobId, Job>, after: map<JobId, Job>, jobs': map<JobId, Job>, round: Round,
                         limits: Limits, j: JobId)
    requires Cut(jobs, after, round, limits) && Between(after, jobs', round.clock.collecting)
    requires j in jobs && jobs[j].stageAt.Some? && jobs[j].stageAt.value <= round.clock.recovering
    requires j in jobs' && jobs'[j] == jobs[j]
    ensures |Ahead(jobs', j)| <= |Ahead(jobs, j)|
  {
    hide Cut;
    CutAdvances(jobs, after, round, limits);
    CutKeys(jobs, after, round, limits);
    forall k | k in Ahead(jobs', j) ensures k in Ahead(jobs, j) {
      assert k in after && jobs'[k] == after[k];
      CutKeeps(jobs, after, round, limits, k);
    }
    Subset(Ahead(jobs', j), Ahead(jobs, j));
  }

  lemma CutKeys(jobs: map<JobId, Job>, after: map<JobId, Job>, round: Round, limits: Limits)
    requires Cut(jobs, after, round, limits)
    ensures after.Keys == jobs.Keys
  {
    hide CollectedRow, SubmittedRow, OldestFirst, Answers, Left;
  }

  // ---- over runs ----

  /** Rows before each pass and after it, and whether it ran to its end. */
  datatype Pass = Pass(before: map<JobId, Job>, round: Round, after: map<JobId, Job>, complete: bool)

  ghost predicate Happens(pass: Pass, limits: Limits) {
    if pass.complete then Ticks(pass.before, pass.after, pass.round, limits)
    else Cut(pass.before, pass.after, pass.round, limits)
  }

  /** Passes follow each other, one at a time; the first finds rows as the other code writes them. */
  ghost predicate IsBatchRun(run: seq<Pass>, limits: Limits) {
    && (forall i :: 0 <= i < |run| ==> Happens(run[i], limits))
    && (forall i :: 0 <= i < |run| ==> AllReached(run[i].before, run[i].round.clock.recovering))
    && (forall i :: 0 < i < |run| ==>
          && run[i - 1].round.clock.collecting < run[i].round.clock.recovering
          && Between(run[i - 1].after, run[i].before, run[i - 1].round.clock.collecting))
    && (run != [] ==> Sound(run[0].before))
  }

  ghost predicate AllReached(jobs: map<JobId, Job>, now: Time) {
    forall j :: j in jobs ==> Reached(jobs[j], now)
  }

  lemma RowStaysSound(jobs: map<JobId, Job>, after: map<JobId, Job>, round: Round, limits: Limits, j: JobId)
    requires Ticks(jobs, after, round, limits) && j in jobs && RowSound(jobs[j])
    ensures j in after && RowSound(after[j])
  {
    hide AfterTick;
    TickRow(jobs, after, round, limits, j);
    if Waiting(after[j]) && round.enabled && j in round.chosen {
      assert j in InStage(Recovered(jobs, round.clock), Prepared);
    }
  }

  lemma SameKeys(jobs: map<JobId, Job>, after: map<JobId, Job>, round: Round, limits: Limits)
    requires Ticks(jobs, after, round, limits)
    ensures after.Keys == jobs.Keys
  {
    hide CollectedRow, SubmittedRow, OldestFirst, Answers;
  }

  lemma {:induction false} SoundOverRuns(run: seq<Pass>, limits: Limits, k: nat)
    requires IsBatchRun(run, limits) && k < |run|
    ensures Sound(run[k].before)
  {
    hide Happens, RowSound, AllReached;
    if k > 0 {
      SoundOverRuns(run, limits, k - 1);
      SoundKept(run[k - 1], run[k].before, limits);
    }
  }

  lemma SoundKept(pass: Pass, next: map<JobId, Job>, limits: Limits)
    requires Happens(pass, limits) && Sound(pass.before)
    requires Between(pass.after, next, pass.round.clock.collecting)
    ensures Sound(next)
  {
    hide Ticks, Cut;
    forall j | j in next ensures RowSound(next[j]) {
      if Waiting(next[j]) && j in pass.after && next[j] == pass.after[j] {
        if pass.complete {
          SameKeys(pass.before, pass.after, pass.round, limits);
          RowStaysSound(pass.before, pass.after, pass.round, limits, j);
        } else {
          CutKeys(pass.before, pass.after, pass.round, limits);
          CutKeeps(pass.before, pass.after, pass.round, limits, j);
        }
      }
    }
  }

  /** The job is waiting before and after each of these passes, and nothing else touches it. */
  ghost predicate KeepsWaiting(run: seq<Pass>, j: JobId, start: nat, end: nat)
    requires end <= |run|
  {
    && (forall i :: start <= i < end ==>
          && j in run[i].before && Waiting(run[i].before[j])
          && j in run[i].after && Waiting(run[i].after[j]))
    && (forall i :: start < i < end ==> run[i].before[j] == run[i - 1].after[j])
  }

  /** How many of these passes ran to their end. */
  function Completed(run: seq<Pass>, start: nat, end: nat): nat
    requires end <= |run|
  {
    if end <= start then 0 else Completed(run, start, end - 1) + OneIf(run[end - 1].complete)
  }

  lemma {:induction false} AllCompleted(run: seq<Pass>, start: nat, end: nat)
    requires start <= end <= |run| && forall i :: start <= i < end ==> run[i].complete
    ensures Completed(run, start, end) == end - start
  {
    if start < end {
      AllCompleted(run, start, end - 1);
    }
  }

  lemma PassLowers(pass: Pass, jobs': map<JobId, Job>, limits: Limits, next: Time, j: JobId)
    requires Happens(pass, limits) && Between(pass.after, jobs', pass.round.clock.collecting)
    requires limits.maxJobs > 0 && pass.round.clock.collecting < next
    requires j in pass.before && Waiting(pass.before[j]) && RowSound(pass.before[j])
    requires Reached(pass.before[j], pass.round.clock.recovering)
    requires j in pass.after && Waiting(pass.after[j]) && j in jobs' && jobs'[j] == pass.after[j]
    ensures RowSound(jobs'[j])
    ensures OneIf(pass.complete) + TicksLeft(jobs', j, limits, next)
         <= TicksLeft(pass.before, j, limits, pass.round.clock.recovering)
  {
    hide Ticks, Cut, Between, TicksLeft, RowSound, Reached;
    if pass.complete {
      TickLowers(pass.before, pass.after, jobs', pass.round, limits, next, j);
    } else {
      CutNeverRaises(pass.before, pass.after, jobs', pass.round, limits, next, j);
    }
  }

  lemma {:induction false} TicksRunOut(run: seq<Pass>, limits: Limits, j: JobId, start: nat, end: nat)
    requires IsBatchRun(run, limits) && limits.maxJobs > 0 && start < end <= |run| && KeepsWaiting(run, j, start, end)
    ensures RowSound(run[start].before[j]) && RowSound(run[end - 1].before[j])
    ensures Completed(run, start, end - 1) + TicksLeft(run[end - 1].before, j, limits, run[end - 1].round.clock.recovering)
         <= TicksLeft(run[start].before, j, limits, run[start].round.clock.recovering)
  {
    hide Happens, Between, TicksLeft, RowSound, Reached;
    SoundOverRuns(run, limits, start);
    if start < end - 1 {
      TicksRunOut(run, limits, j, start, end - 1);
      var last := run[end - 2];
      assert Reached(last.before[j], last.round.clock.recovering);
      PassLowers(last, run[end - 1].before, limits, run[end - 1].round.clock.recovering, j);
    }
  }

  lemma SurvivedTick(pass: Pass, limits: Limits, j: JobId)
    requires Ticks(pass.before, pass.after, pass.round, limits) && limits.maxJobs > 0
    requires j in pass.before && Waiting(pass.before[j]) && RowSound(pass.before[j])
    requires Reached(pass.before[j], pass.round.clock.recovering) && j in pass.after && Waiting(pass.after[j])
    ensures 1 <= TicksLeft(pass.before, j, limits, pass.round.clock.recovering)
  {
    hide Ticks, TicksLeft, RowSound;
    var tickEnd := pass.round.clock.collecting;
    assert Between(pass.after, pass.after, tickEnd);
    TickLowers(pass.before, pass.after, pass.after, pass.round, limits, tickEnd + 1, j);
  }

  lemma {:induction false} CompletedBounded(run: seq<Pass>, limits: Limits, j: JobId, start: nat, end: nat)
    requires IsBatchRun(run, limits) && limits.maxJobs > 0 && start < end <= |run| && KeepsWaiting(run, j, start, end)
    ensures RowSound(run[start].before[j])
    ensures Completed(run, start, end) == 0
            || Completed(run, start, end) <= TicksLeft(run[start].before, j, limits, run[start].round.clock.recovering)
  {
    hide Happens, Between, TicksLeft, RowSound, Reached;
    TicksRunOut(run, limits, j, start, end);
    var last := run[end - 1];
    assert Reached(last.before[j], last.round.clock.recovering);
    if last.complete {
      assert Ticks(last.before, last.after, last.round, limits) by { CompleteTicks(last, limits); }
      SurvivedTick(last, limits, j);
    } else if start < end - 1 {
      CompletedBounded(run, limits, j, start, end - 1);
    }
  }

  lemma CompleteTicks(pass: Pass, limits: Limits)
    requires Happens(pass, limits) && pass.complete
    ensures Ticks(pass.before, pass.after, pass.round, limits)
  {
  }

  /** Progress: a job that nothing else touches stays in the waiting stages for at most this many complete
      passes. One that is PREPARED needs a pass for each full batch ahead of it and one more; then, or
      from SUBMITTING and FINISHING, it has the hour after which a step counts as dead; SUBMITTED
      it has until the fall-back deadline. (Passes are at least a second apart.) */
  lemma LeavesBatchMode(run: seq<Pass>, limits: Limits, j: JobId, start: nat, end: nat)
    requires IsBatchRun(run, limits) && limits.maxJobs > 0 && start < end <= |run| && KeepsWaiting(run, j, start, end)
    ensures var job, n := run[start].before[j], Completed(run, start, end);
      if job.stage == Some(Prepared)
      then n <= |Ahead(run[start].before, j)| / limits.maxJobs + 1 + Larger(STUCK_STEP_AFTER, limits.fallbackAfter)
      else && job.stageAt.Some?
           && (n > 0 ==>
                 n <= job.stageAt.value + 1 - run[start].round.clock.recovering
                      + (if job.stage == Some(Submitted) then limits.fallbackAfter else STUCK_STEP_AFTER))
    ensures (forall i :: start <= i < end ==> run[i].complete) ==> Completed(run, start, end) == end - start
  {
    hide Happens, Between, Ahead, Completed;
    CompletedBounded(run, limits, j, start, end);
    if forall i :: start <= i < end ==> run[i].complete {
      AllCompleted(run, start, end);
    }
  }
}
