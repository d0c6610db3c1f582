/** What one pass of the batch scheduler writes, column by column: each phase for every row it finds, and a
    whole pass for every row that is waiting for Google's answer. */
module BatchRows {
  import opened Wrappers
  import opened JobModel
  import opened GeminiBatch

  /** The columns a fall-back writes; the batch name and everything else stays. */
  function Live(job: Job, now: Time): Job {
    job.(status := JobStatus.Pending, startedAt := None, stage := Some(Sync), stageAt := Some(now))
  }

  predicate IsIn(job: Job, stage: Stage) {
    job.status == JobStatus.Processing && job.stage == Some(stage)
  }

  lemma RecoveredRow(jobs: map<JobId, Job>, clock: Clock, j: JobId)
    requires j in jobs
    ensures var job, limit := jobs[j], clock.recovering - 3600;
      && j in Recovered(jobs, clock)
      && Recovered(jobs, clock)[j]
         == if (IsIn(job, Submitting) || IsIn(job, Finishing)) && (job.stageAt == None || job.stageAt.value < limit)
            then Live(job, clock.recovering) else job
  {
  }

  /** Submitting with batching switched on, and what is put back when it is off. */
  lemma SubmittedRowOf(jobs: map<JobId, Job>, settings: Settings, chosen: seq<JobId>, commands: Commands, clock: Clock,
                       j: JobId)
    requires j in jobs
    requires settings.enabled ==> OldestFirst(jobs, chosen, settings.maxJobs)
    ensures var job, after := jobs[j], AfterSubmit(jobs, settings, chosen, commands, clock);
      && j in after
      && if !settings.enabled
         then after[j] == if IsIn(job, Prepared) then Live(job, clock.claiming) else job
         else if j !in chosen then after[j] == job
         else
           && IsIn(job, Prepared)
           && match commands.submit(chosen)
              case None => after[j] == Live(job, clock.submitting)
              case Some(names) =>
                after[j] == if j in names
                            then job.(stage := Some(Submitted), stageAt := Some(clock.submitting), batchName := Some(names[j]))
                            else job.(stage := Some(Submitting), stageAt := Some(clock.claiming))
  {
  }

  ghost predicate SomeOlder(jobs: map<JobId, Job>, name: string, deadline: Time) {
    exists k :: k in jobs && IsIn(jobs[k], Submitted) && jobs[k].batchName == Some(name)
                && jobs[k].stageAt.Some? && jobs[k].stageAt.value < deadline
  }

  /** Collecting: what each answer about a batch makes of a row that is SUBMITTED in it. */
  lemma CollectedRowOf(jobs: map<JobId, Job>, settings: Settings, commands: Commands, clock: Clock, j: JobId)
    requires j in jobs
    ensures var job, now := jobs[j], clock.collecting;
      var after := AfterCollect(jobs, settings, commands, clock);
      && j in after
      && if !IsIn(job, Submitted) || job.batchName == None || job.batchName == Some("") then after[j] == job
         else
           var name := job.batchName.value;
           match commands.collect(name)
           case Unreachable => after[j] == job
           case NotDone =>
             after[j] == if SomeOlder(jobs, name, now - settings.fallbackAfter) then Live(job, now) else job
           case Ended(false) => after[j] == Live(job, now)
           case Ended(true) =>
             (match commands.finish(j)
              case Output(path) =>
                after[j] == job.(status := JobStatus.Completed, output := Some(path), completedAt := Some(now),
                                 stage := Some(Finishing), stageAt := Some(now))
              case NoOutput => after[j] == Live(job, now)
              case FinishRaises => after[j] == Live(job, now))
  {
    hide FinishedRow, FallBack;
    var job := jobs[j];
    if Collectable(job) {
      assert TooOld(jobs, job.batchName.value, clock.collecting - settings.fallbackAfter)
        <==> SomeOlder(jobs, job.batchName.value, clock.collecting - settings.fallbackAfter) by {
        SameOlder(jobs, job.batchName.value, clock.collecting - settings.fallbackAfter);
      }
      FinishedColumns(job, commands.finish(j), clock.collecting);
      FallBackColumns(job, clock.collecting);
    } else {
      NotCollected(jobs, j, settings, commands, clock);
    }
  }

  lemma SameOlder(jobs: map<JobId, Job>, name: string, deadline: Time)
    ensures TooOld(jobs, name, deadline) <==> SomeOlder(jobs, name, deadline)
  {
    if TooOld(jobs, name, deadline) {
      var k :| k in jobs && InBatch(jobs[k], name) && jobs[k].stageAt.Some? && jobs[k].stageAt.value < deadline;
      assert IsIn(jobs[k], Submitted) && jobs[k].batchName == Some(name);
    }
    if SomeOlder(jobs, name, deadline) {
      var k :| k in jobs && IsIn(jobs[k], Submitted) && jobs[k].batchName == Some(name)
               && jobs[k].stageAt.Some? && jobs[k].stageAt.value < deadline;
      assert InBatch(jobs[k], name);
    }
  }

  lemma FallBackColumns(job: Job, now: Time)
    requires job.status == JobStatus.Processing
    ensures FallBack(job, now) == Live(job, now)
  {
  }

  lemma FinishedColumns(job: Job, answer: FinishAnswer, now: Time)
    requires job.status == JobStatus.Processing
    ensures FinishedRow(job, answer, now)
         == if answer.Output?
            then job.(status := JobStatus.Completed, output := Some(answer.path), completedAt := Some(now),
                      stage := Some(Finishing), stageAt := Some(now))
            else Live(job, now)
  {
  }

  /** A pass brings a row to COMPLETED exactly when it was SUBMITTED when collecting began, its own batch had
      ended successfully, and finishing it gave the output that is stored. */
  lemma CompletedOnlyWhenFinished(jobs: map<JobId, Job>, settings: Settings, chosen: seq<JobId>, commands: Commands,
                                  clock: Clock, j: JobId)
    requires j in jobs && jobs[j].status != JobStatus.Completed
    requires settings.enabled ==> OldestFirst(Recovered(jobs, clock), chosen, settings.maxJobs)
    ensures var mid := AfterSubmit(Recovered(jobs, clock), settings, chosen, commands, clock);
      var after := AfterTick(jobs, settings, chosen, commands, clock);
      && j in mid && j in after
      && (after[j].status == JobStatus.Completed <==>
            && IsIn(mid[j], Submitted) && mid[j].batchName.Some? && mid[j].batchName.value != ""
            && commands.collect(mid[j].batchName.value) == Ended(true) && commands.finish(j).Output?)
      && (after[j].status == JobStatus.Completed ==> after[j].output == Some(commands.finish(j).path))
  {
    hide Recovered, AfterSubmit, AfterCollect, OldestFirst;
    RecoveredRow(jobs, clock, j);
    SubmittedRowOf(Recovered(jobs, clock), settings, chosen, commands, clock, j);
    var mid := AfterSubmit(Recovered(jobs, clock), settings, chosen, commands, clock);
    CollectedRowOf(mid, settings, commands, clock, j);
  }

  /** A row that is SUBMITTED before the pass is still so when collecting begins. */
  lemma SubmittedStays(jobs: map<JobId, Job>, settings: Settings, chosen: seq<JobId>, commands: Commands, clock: Clock,
                       j: JobId)
    requires j in jobs && IsIn(jobs[j], Submitted)
    requires settings.enabled ==> OldestFirst(Recovered(jobs, clock), chosen, settings.maxJobs)
    ensures var mid := AfterSubmit(Recovered(jobs, clock), settings, chosen, commands, clock);
      j in mid && mid[j] == jobs[j]
  {
    hide Recovered, AfterSubmit, OldestFirst;
    RecoveredRow(jobs, clock, j);
    SubmittedRowOf(Recovered(jobs, clock), settings, chosen, commands, clock, j);
  }

  /** A complete pass, for a row that is SUBMITTED in a batch before it, from the answers it was given: the
      rows of the batch as they are when collecting begins decide only about the deadline. */
  lemma TickedRow(jobs: map<JobId, Job>, settings: Settings, chosen: seq<JobId>, commands: Commands, clock: Clock, j: JobId)
    requires j in jobs && IsIn(jobs[j], Submitted) && jobs[j].batchName.Some? && jobs[j].batchName.value != ""
    requires settings.enabled ==> OldestFirst(Recovered(jobs, clock), chosen, settings.maxJobs)
    ensures var after := AfterTick(jobs, settings, chosen, commands, clock);
      var answer := commands.collect(jobs[j].batchName.value);
      && j in after
      && (answer == Ended(true) && commands.finish(j).Output? ==>
            after[j].status == JobStatus.Completed && after[j].output == Some(commands.finish(j).path))
      && (answer == Ended(true) && !commands.finish(j).Output? ==>
            after[j].status == JobStatus.Pending && after[j].stage == Some(Sync) && after[j].output == jobs[j].output)
      && (answer == Ended(false) ==>
            after[j].status == JobStatus.Pending && after[j].stage == Some(Sync) && after[j].output == jobs[j].output)
      && (answer == Unreachable ==> after[j] == jobs[j])
      && (answer == NotDone && jobs[j].stageAt.Some? && jobs[j].stageAt.value < clock.collecting - settings.fallbackAfter ==>
            after[j].status == JobStatus.Pending && after[j].stage == Some(Sync))
      && (answer == NotDone && after[j] != jobs[j] ==>
            && after[j].status == JobStatus.Pending && after[j].stage == Some(Sync)
            && SomeOlder(AfterSubmit(Recovered(jobs, clock), settings, chosen, commands, clock),
                         jobs[j].batchName.value, clock.collecting - settings.fallbackAfter))
  {
    hide Recovered, AfterSubmit, AfterCollect, OldestFirst;
    SubmittedStays(jobs, settings, chosen, commands, clock, j);
    var mid := AfterSubmit(Recovered(jobs, clock), settings, chosen, commands, clock);
    CollectedRowOf(mid, settings, commands, clock, j);
  }

  /** What is chosen: PREPARED rows, each once, no more than allowed, none left out that was prepared before
      one of them, and none left out at all while there is room. */
  lemma ChosenRows(jobs: map<JobId, Job>, chosen: seq<JobId>, limit: nat)
    requires OldestFirst(jobs, chosen, limit)
    ensures |chosen| <= limit
    ensures forall j :: j in chosen ==> j in jobs && IsIn(jobs[j], Prepared)
    ensures forall j, k :: j in chosen && k in jobs && IsIn(jobs[k], Prepared) && k !in chosen && jobs[k].stageAt.Some? ==>
              jobs[j].stageAt.Some? && jobs[j].stageAt.value <= jobs[k].stageAt.value
    ensures |chosen| < limit ==> forall k :: k in jobs && IsIn(jobs[k], Prepared) ==> k in chosen
  {
    if |chosen| < limit {
      forall k | k in jobs && IsIn(jobs[k], Prepared) ensures k in chosen {
        AllChosen(InStage(jobs, Prepared), chosen, k);
      }
    }
  }

  lemma AllChosen(ids: set<JobId>, chosen: seq<JobId>, k: JobId)
    requires (forall j :: j in chosen ==> j in ids) && |chosen| == |ids| && k in ids
    requires forall i, m :: 0 <= i < m < |chosen| ==> chosen[i] != chosen[m]
    ensures k in chosen
  {
    if k !in chosen {
      Fewer(ids - {k}, chosen);
    }
  }

  lemma {:induction false} Fewer(ids: set<JobId>, chosen: seq<JobId>)
    requires forall j :: j in chosen ==> j in ids
    requires forall i, m :: 0 <= i < m < |chosen| ==> chosen[i] != chosen[m]
    ensures |chosen| <= |ids|
  {
    if chosen != [] {
      var last := chosen[|chosen| - 1];
      assert last in chosen;
      Fewer(ids - {last}, chosen[..|chosen| - 1]);
    }
  }
}
