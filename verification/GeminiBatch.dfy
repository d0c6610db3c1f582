/** One scheduler pass of Gemini Batch Mode, run with nothing else inside its jobs. The
    gemini-batch commands and the job executor are oracles: functions that answer or refuse. */
module GeminiBatch {
  import opened Wrappers
  import M = JobModel
  import opened JobModel
  import opened JobStore
  import opened DocumentTypes
  import RollUp

  const STUCK_STEP_AFTER: Time := 3600

  /** A job that has been through Batch Mode since its last retry, in any stage, never goes again. */
  function ShouldBatch(enabled: bool, readerIsGemini: bool, job: Job, t: DocumentType): (r: bool)
    ensures job.stage.Some? ==> !r
    ensures job.stage.None? && enabled ==> (r <==> Handwritten(t) || readerIsGemini)
    ensures job.stage.None? && enabled && !readerIsGemini ==>
      (r <==> t !in {TypedBorang4B, TypedNikahLegacy, TypedNikahModern, TypedCeraiLegacy, TypedCeraiModern,
                     TypedRujukLegacy, TypedRujukModern})
    ensures !enabled ==> !r
  {
    HandwrittenOrTyped(t);
    if !enabled || job.stage != None then false
    else Handwritten(t) || readerIsGemini
  }

  datatype Answer = Unreachable | NotDone | Ended(succeeded: bool)

  /** When one tick reads the clock. */
  datatype Clock = Clock(recovering: Time, claiming: Time, submitting: Time, collecting: Time)

  datatype Settings = Settings(enabled: bool, maxJobs: nat, fallbackAfter: Time)

  /** What building a collected job's output comes to: the output, none, or an exception. */
  datatype FinishAnswer = Output(path: string) | NoOutput | FinishRaises

  /** What the commands answer during one tick: `submit` names the batch of each key it took, or
      raises; `collect` reports on a batch; `finish` is about one job. `accepts` tells whether the job
      executor takes a job's task or raises. */
  datatype Commands = Commands(submit: seq<JobId> -> Option<map<JobId, string>>, collect: string -> Answer,
                               finish: JobId -> FinishAnswer, accepts: JobId -> bool)

  /** A submit answers only for keys it was given. */
  ghost predicate AnswersItems(commands: Commands) {
    forall items: seq<JobId>, j :: commands.submit(items).Some? && j in commands.submit(items).value ==> j in items
  }

  // ---- what a tick does to the jobs ----

  function Stuck(jobs: map<JobId, Job>, cutoff: Time): set<JobId> {
    set j | j in jobs && (CanClaim(jobs[j], Submitting) || CanClaim(jobs[j], Finishing))
            && (jobs[j].stageAt.None? || jobs[j].stageAt.value < cutoff)
  }

  function InStage(jobs: map<JobId, Job>, stage: Stage): set<JobId> {
    set j | j in jobs && CanClaim(jobs[j], stage)
  }

  predicate Earlier(a: Job, b: Job) {
    a.stageAt.Some? && (b.stageAt.Some? ==> a.stageAt.value <= b.stageAt.value)
  }

  /** The oldest `limit` PREPARED rows; NULL times sort last. */
  ghost predicate OldestFirst(jobs: map<JobId, Job>, chosen: seq<JobId>, limit: nat) {
    && (forall j :: j in chosen ==> j in InStage(jobs, Prepared))
    && (forall i, k :: 0 <= i < k < |chosen| ==> chosen[i] != chosen[k])
    && |chosen| == (if |InStage(jobs, Prepared)| < limit then |InStage(jobs, Prepared)| else limit)
    && (forall j, k :: j in chosen && k in InStage(jobs, Prepared) && k !in chosen ==>
          jobs[k].stageAt.Some? ==> Earlier(jobs[j], jobs[k]))
  }

  function Recovered(jobs: map<JobId, Job>, clock: Clock): map<JobId, Job> {
    Update(jobs, Stuck(jobs, clock.recovering - STUCK_STEP_AFTER), job => FallBack(job, clock.recovering))
  }

  function SubmittedRow(job: Job, j: JobId, answer: Option<map<JobId, string>>, clock: Clock): Job {
    var claimed := SetStage(job, Submitting, clock.claiming);
    if answer.None? then FallBack(claimed, clock.submitting)
    else if j in answer.value then SetSubmitted(claimed, answer.value[j], clock.submitting)
    else claimed
  }

  function AfterSubmit(jobs: map<JobId, Job>, settings: Settings, chosen: seq<JobId>, commands: Commands, clock: Clock)
    : map<JobId, Job>
  {
    map j | j in jobs ::
      if settings.enabled
      then if j in chosen then SubmittedRow(jobs[j], j, commands.submit(chosen), clock) else jobs[j]
      else if CanClaim(jobs[j], Prepared) then FallBack(jobs[j], clock.claiming) else jobs[j]
  }

  predicate InBatch(job: Job, name: string) {
    CanClaim(job, Submitted) && job.batchName == Some(name)
  }

  ghost predicate TooOld(jobs: map<JobId, Job>, name: string, cutoff: Time) {
    exists j :: j in jobs && InBatch(jobs[j], name) && jobs[j].stageAt.Some? && jobs[j].stageAt.value < cutoff
  }

  function EndedRow(claimed: Job, answer: FinishAnswer, now: Time): Job {
    match answer
    case Output(path) => MarkCompleted(claimed, path, now)
    case _ => FallBack(claimed, now)
  }

  function FinishedRow(job: Job, answer: FinishAnswer, now: Time): Job {
    EndedRow(SetStage(job, Finishing, now), answer, now)
  }

  ghost function CollectedRow(jobs: map<JobId, Job>, j: JobId, settings: Settings, commands: Commands, clock: Clock): Job
    requires j in jobs
  {
    var job, now := jobs[j], clock.collecting;
    if !CanClaim(job, Submitted) || job.batchName.None? || job.batchName.value == "" then job
    else match commands.collect(job.batchName.value)
      case Unreachable => job
      case NotDone => if TooOld(jobs, job.batchName.value, now - settings.fallbackAfter) then FallBack(job, now) else job
      case Ended(succeeded) => if succeeded then FinishedRow(job, commands.finish(j), now) else FallBack(job, now)
  }

  ghost function AfterCollect(jobs: map<JobId, Job>, settings: Settings, commands: Commands, clock: Clock)
    : map<JobId, Job>
  {
    map j | j in jobs :: CollectedRow(jobs, j, settings, commands, clock)
  }

  ghost function AfterTick(jobs: map<JobId, Job>, settings: Settings, chosen: seq<JobId>, commands: Commands,
                           clock: Clock): map<JobId, Job>
  {
    AfterCollect(AfterSubmit(Recovered(jobs, clock), settings, chosen, commands, clock), settings, commands, clock)
  }

  predicate IsProcessing(jobs: map<JobId, Job>, j: JobId) {
    j in jobs && jobs[j].status == JobStatus.Processing
  }

  function OneIf(b: bool): nat {
    if b then 1 else 0
  }

  predicate WentBack(jobs: map<JobId, Job>, jobs': map<JobId, Job>, j: JobId) {
    IsProcessing(jobs, j) && j in jobs' && jobs'[j].status == JobStatus.Pending
  }

  ghost predicate Refused(jobs: map<JobId, Job>, jobs': map<JobId, Job>, accepts: JobId -> bool) {
    exists j: JobId :: WentBack(jobs, jobs', j) && !accepts(j)
  }

  /** Who has been queued: at most the jobs that were put back for a live run, each once, and all of
      them that the executor takes unless a refusal has ended the pass. No job has started to run. */
  ghost predicate Requeues(jobs: map<JobId, Job>, jobs': map<JobId, Job>, queue: multiset<JobId>,
                           queue': multiset<JobId>, accepts: JobId -> bool, raised: bool)
  {
    && jobs'.Keys == jobs.Keys
    && (forall j :: j in jobs && jobs[j].status != JobStatus.Processing ==> jobs'[j].status == jobs[j].status)
    && (forall j: JobId :: queue[j] <= queue'[j] <= queue[j] + OneIf(WentBack(jobs, jobs', j) && accepts(j)))
    && (if raised
        then Refused(jobs, jobs', accepts)
        else forall j: JobId :: queue'[j] == queue[j] + OneIf(WentBack(jobs, jobs', j) && accepts(j)))
  }

  lemma ThenRequeues(a: map<JobId, Job>, b: map<JobId, Job>, c: map<JobId, Job>, q: multiset<JobId>, r: multiset<JobId>,
                     s: multiset<JobId>, accepts: JobId -> bool, raised: bool)
    requires Requeues(a, b, q, r, accepts, false) && Requeues(b, c, r, s, accepts, raised)
    ensures Requeues(a, c, q, s, accepts, raised)
  {
    forall j: JobId
      ensures WentBack(a, c, j) <==> WentBack(a, b, j) || WentBack(b, c, j)
      ensures !(WentBack(a, b, j) && WentBack(b, c, j))
      ensures r[j] == q[j] + OneIf(WentBack(a, b, j) && accepts(j))
    {
    }
    if raised {
      var j: JobId :| WentBack(b, c, j) && !accepts(j);
      assert WentBack(a, c, j);
    }
  }

  /** With an executor that takes every task, nothing is raised, and whoever was put back is queued. */
  lemma WithoutRefusal(jobs: map<JobId, Job>, jobs': map<JobId, Job>, queue: multiset<JobId>, queue': multiset<JobId>,
                       accepts: JobId -> bool, raised: bool)
    requires Requeues(jobs, jobs', queue, queue', accepts, raised)
    ensures (forall j: JobId :: accepts(j)) ==>
      !raised && forall j: JobId :: queue'[j] == queue[j] + OneIf(WentBack(jobs, jobs', j))
  {
  }

  /** The jobs that went from PROCESSING to COMPLETED. */
  function NewlyCompleted(jobs: map<JobId, Job>, jobs': map<JobId, Job>): set<JobId> {
    set j | j in jobs && j in jobs' && jobs[j].status == JobStatus.Processing && jobs'[j].status == JobStatus.Completed
  }

  lemma ThenCompleted(a: map<JobId, Job>, b: map<JobId, Job>, c: map<JobId, Job>, q: multiset<JobId>, r: multiset<JobId>,
                      s: multiset<JobId>, accepts: JobId -> bool)
    requires Requeues(a, b, q, r, accepts, false) && Requeues(b, c, r, s, accepts, false)
    ensures |NewlyCompleted(a, c)| == |NewlyCompleted(a, b)| + |NewlyCompleted(b, c)|
  {
    assert NewlyCompleted(a, c) == NewlyCompleted(a, b) + NewlyCompleted(b, c);
    assert NewlyCompleted(a, b) !! NewlyCompleted(b, c);
  }

  lemma NoneCompleted(jobs: map<JobId, Job>, jobs': map<JobId, Job>)
    requires forall j :: j in jobs && j in jobs' ==> SameClass(jobs[j].status, jobs'[j].status)
    ensures NewlyCompleted(jobs, jobs') == {}
  {
  }

  lemma NobodyCompleted(jobs: map<JobId, Job>)
    ensures NewlyCompleted(jobs, jobs) == {}
  {
  }

  lemma NobodyWentBack(jobs: map<JobId, Job>, jobs': map<JobId, Job>, queue: multiset<JobId>, accepts: JobId -> bool)
    requires jobs'.Keys == jobs.Keys
    requires forall j :: j in jobs && jobs'[j].status != jobs[j].status ==>
      jobs[j].status == JobStatus.Processing && jobs'[j].status != JobStatus.Pending
    ensures Requeues(jobs, jobs', queue, queue, accepts, false)
  {
  }

  // ---- the code ----

  /** One conditional UPDATE of the fall-back; answers whether it matched the row. */
  method FallBackRow(store: Store, j: JobId, now: Time) returns (changed: bool)
    modifies store`jobs
    ensures changed <==> IsProcessing(old(store.jobs), j)
    ensures store.jobs ==
            if changed then old(store.jobs)[j := FallBack(old(store.jobs)[j], now)] else old(store.jobs)
  {
    changed := j in store.jobs && store.jobs[j].status == JobStatus.Processing;
    if changed {
      store.jobs := store.jobs[j := store.jobs[j].(status := JobStatus.Pending, startedAt := None,
                                                   stage := Some(Sync), stageAt := Some(now))];
    }
  }

  /** The listed jobs whose rows the fall-back matches, in the order of the list. */
  function Matched(jobs: map<JobId, Job>, ids: seq<JobId>): seq<JobId> {
    if ids == [] then []
    else
      var last := ids[|ids| - 1];
      Matched(jobs, ids[..|ids| - 1]) + if IsProcessing(jobs, last) then [last] else []
  }

  /** The tasks that are queued before the first one that is refused. */
  function Taken(requeued: seq<JobId>, accepts: JobId -> bool): seq<JobId> {
    if requeued == [] || !accepts(requeued[0]) then [] else [requeued[0]] + Taken(requeued[1..], accepts)
  }

  /** The conditional UPDATEs of the fall-back, and the jobs they matched. */
  method FallBackRows(store: Store, ids: seq<JobId>, now: Time) returns (requeued: seq<JobId>)
    requires forall i, k :: 0 <= i < k < |ids| ==> ids[i] != ids[k]
    modifies store`jobs
    ensures store.jobs.Keys == old(store.jobs).Keys
    ensures forall j :: j in store.jobs ==>
      store.jobs[j] == if j in ids then FallBack(old(store.jobs)[j], now) else old(store.jobs)[j]
    ensures requeued == Matched(old(store.jobs), ids)
  {
    hide FallBack;
    requeued := [];
    for i := 0 to |ids|
      invariant store.jobs.Keys == old(store.jobs).Keys
      invariant forall j :: j in store.jobs ==>
        store.jobs[j] == if j in ids[..i] then FallBack(old(store.jobs)[j], now) else old(store.jobs)[j]
      invariant requeued == Matched(old(store.jobs), ids[..i])
    {
      var j := ids[i];
      assert ids[..i + 1] == ids[..i] + [j] && j !in ids[..i];
      assert ids[..i + 1][..i] == ids[..i];
      var changed := FallBackRow(store, j, now);
      if changed {
        requeued := requeued + [j];
      } else {
        NotMatched(store.jobs, j, now);
      }
    }
    assert ids[..|ids|] == ids;
  }

  /** Queues the jobs in turn, until the executor refuses one. */
  method SubmitAll(store: Store, requeued: seq<JobId>, accepts: JobId -> bool) returns (raised: bool)
    modifies store`queue
    ensures store.queue == old(store.queue) + multiset(Taken(requeued, accepts))
    ensures raised <==> exists j :: j in requeued && !accepts(j)
  {
    raised := false;
    for i := 0 to |requeued|
      invariant forall k :: 0 <= k < i ==> accepts(requeued[k])
      invariant store.queue == old(store.queue) + multiset(requeued[..i])
    {
      if !accepts(requeued[i]) {
        TakenUpTo(requeued, accepts, i);
        return true;
      }
      assert requeued[..i + 1] == requeued[..i] + [requeued[i]];
      store.queue := store.queue + multiset{requeued[i]};
    }
    TakenUpTo(requeued, accepts, |requeued|);
  }

  lemma {:induction false} TakenUpTo(requeued: seq<JobId>, accepts: JobId -> bool, i: nat)
    requires i <= |requeued| && forall k :: 0 <= k < i ==> accepts(requeued[k])
    requires i < |requeued| ==> !accepts(requeued[i])
    ensures Taken(requeued, accepts) == requeued[..i]
  {
    if i > 0 {
      TakenUpTo(requeued[1..], accepts, i - 1);
      assert requeued[..i] == [requeued[0]] + requeued[1..][..i - 1];
    }
  }

  /** Puts every listed job that is still PROCESSING back through the live run and queues it; all rows
      are committed before the first task is, and a task that is refused ends the queueing. */
  method FallBackToLive(store: Store, ids: seq<JobId>, accepts: JobId -> bool, now: Time) returns (raised: bool)
    requires forall i, k :: 0 <= i < k < |ids| ==> ids[i] != ids[k]
    modifies store`jobs, store`queue
    ensures store.jobs == Update(old(store.jobs), set j | j in ids :: j, job => FallBack(job, now))
    ensures store.jobs.Keys == old(store.jobs).Keys
    ensures forall j :: j in store.jobs ==>
      store.jobs[j] == if j in ids && old(store.jobs)[j].status == JobStatus.Processing
                       then old(store.jobs)[j].(status := JobStatus.Pending, startedAt := None, stage := Some(Sync),
                                                stageAt := Some(now))
                       else old(store.jobs)[j]
    ensures store.queue == old(store.queue) + multiset(Taken(Matched(old(store.jobs), ids), accepts))
    ensures raised <==> exists j :: j in ids && IsProcessing(old(store.jobs), j) && !accepts(j)
    ensures Requeues(old(store.jobs), store.jobs, old(store.queue), store.queue, accepts, raised)
    ensures QueuedInTurn(old(store.jobs), ids, old(store.queue), store.queue, accepts)
  {
    hide Requeues, Matched, Taken, QueuedInTurn;
    InTurn(store.jobs, ids, store.queue, accepts);
    var requeued := FallBackRows(store, ids, now);
    raised := SubmitAll(store, requeued, accepts);
    MatchedRows(old(store.jobs), ids);
    PutBackRequeues(old(store.jobs), ids, now, old(store.queue), accepts, raised);
  }

  /** A listed job that is PROCESSING is queued once exactly when neither it nor any such job listed before
      it is refused; nobody else is. */
  ghost predicate QueuedInTurn(jobs: map<JobId, Job>, ids: seq<JobId>, queue: multiset<JobId>, queue': multiset<JobId>,
                               accepts: JobId -> bool)
  {
    && (forall j: JobId :: j !in ids ==> queue'[j] == queue[j])
    && forall a: nat :: a < |ids| ==> queue'[ids[a]] == queue[ids[a]] + OneIf(ItsTurn(jobs, ids, a, accepts))
  }

  ghost predicate ItsTurn(jobs: map<JobId, Job>, ids: seq<JobId>, a: nat, accepts: JobId -> bool)
    requires a < |ids|
  {
    && ids[a] in jobs && jobs[ids[a]].status == JobStatus.Processing
    && forall b :: 0 <= b <= a && ids[b] in jobs && jobs[ids[b]].status == JobStatus.Processing ==> accepts(ids[b])
  }

  lemma {:induction false} TakenPrefix(requeued: seq<JobId>, accepts: JobId -> bool)
    ensures Taken(requeued, accepts) <= requeued && forall j :: j in Taken(requeued, accepts) ==> accepts(j)
    ensures (forall j :: j in requeued ==> accepts(j)) ==> Taken(requeued, accepts) == requeued
  {
    if requeued != [] && accepts(requeued[0]) {
      TakenPrefix(requeued[1..], accepts);
      assert requeued == [requeued[0]] + requeued[1..];
    }
  }

  lemma {:induction false} TakenAppend(requeued: seq<JobId>, x: JobId, accepts: JobId -> bool)
    ensures Taken(requeued + [x], accepts)
         == if forall j :: j in requeued ==> accepts(j) then requeued + (if accepts(x) then [x] else [])
            else Taken(requeued, accepts)
  {
    if requeued == [] {
      assert [] + [x] == [x] && Taken([x][1..], accepts) == [];
    } else {
      var rest := requeued[1..];
      assert (requeued + [x])[1..] == rest + [x] && requeued == [requeued[0]] + rest;
      TakenAppend(rest, x, accepts);
    }
  }

  lemma OthersTaken(requeued: seq<JobId>, x: JobId, accepts: JobId -> bool, j: JobId)
    requires j != x
    ensures j in Taken(requeued + [x], accepts) <==> j in Taken(requeued, accepts)
  {
    TakenAppend(requeued, x, accepts);
    TakenPrefix(requeued, accepts);
    hide Taken;
  }

  lemma LastTaken(requeued: seq<JobId>, x: JobId, accepts: JobId -> bool)
    requires x !in requeued
    ensures x in Taken(requeued + [x], accepts) <==> accepts(x) && forall j :: j in requeued ==> accepts(j)
  {
    TakenAppend(requeued, x, accepts);
    TakenPrefix(requeued, accepts);
    hide Taken;
  }

  lemma MatchedLast(jobs: map<JobId, Job>, rest: seq<JobId>, x: JobId)
    ensures Matched(jobs, rest + [x]) == if IsProcessing(jobs, x) then Matched(jobs, rest) + [x] else Matched(jobs, rest)
  {
    assert (rest + [x])[..|rest|] == rest;
  }

  lemma AllBefore(jobs: map<JobId, Job>, rest: seq<JobId>, x: JobId, accepts: JobId -> bool)
    ensures ItsTurn(jobs, rest + [x], |rest|, accepts) <==>
            IsProcessing(jobs, x) && accepts(x) && forall j :: j in Matched(jobs, rest) ==> accepts(j)
  {
    MatchedMembers(jobs, rest);
    hide Matched;
    var ids := rest + [x];
    if ItsTurn(jobs, ids, |rest|, accepts) {
      forall j | j in Matched(jobs, rest) ensures accepts(j) {
        var b :| 0 <= b < |rest| && rest[b] == j;
        assert ids[b] == j;
      }
    }
    assert forall b :: 0 <= b < |rest| ==> ids[b] in rest;
  }

  lemma {:induction false} TurnTaken(jobs: map<JobId, Job>, ids: seq<JobId>, a: nat, accepts: JobId -> bool)
    requires a < |ids| && forall i, k :: 0 <= i < k < |ids| ==> ids[i] != ids[k]
    ensures ids[a] in Taken(Matched(jobs, ids), accepts) <==> ItsTurn(jobs, ids, a, accepts)
    decreases |ids|
  {
    hide Taken, Matched;
    var n := |ids| - 1;
    var rest, x := ids[..n], ids[n];
    assert ids == rest + [x] && x !in rest;
    var before := Matched(jobs, rest);
    MatchedLast(jobs, rest, x);
    MatchedMembers(jobs, rest);
    if a < n {
      TurnTaken(jobs, rest, a, accepts);
      OthersTaken(before, x, accepts, ids[a]);
    } else {
      AllBefore(jobs, rest, x, accepts);
      LastTaken(before, x, accepts);
      TakenPrefix(before, accepts);
    }
  }

  lemma InTurn(jobs: map<JobId, Job>, ids: seq<JobId>, queue: multiset<JobId>, accepts: JobId -> bool)
    requires forall i, k :: 0 <= i < k < |ids| ==> ids[i] != ids[k]
    ensures QueuedInTurn(jobs, ids, queue, queue + multiset(Taken(Matched(jobs, ids), accepts)), accepts)
  {
    TakenOnce(jobs, ids, accepts);
    MatchedMembers(jobs, ids);
    TakenPrefix(Matched(jobs, ids), accepts);
    forall a: nat | a < |ids| ensures ids[a] in Taken(Matched(jobs, ids), accepts) <==> ItsTurn(jobs, ids, a, accepts) {
      TurnTaken(jobs, ids, a, accepts);
    }
    hide Taken, Matched, ItsTurn;
    TurnQueued(jobs, ids, queue, Taken(Matched(jobs, ids), accepts), accepts);
  }

  lemma TurnQueued(jobs: map<JobId, Job>, ids: seq<JobId>, queue: multiset<JobId>, taken: seq<JobId>,
                   accepts: JobId -> bool)
    requires forall j: JobId :: multiset(taken)[j] == OneIf(j in taken)
    requires forall j :: j in taken ==> j in ids
    requires forall a: nat :: a < |ids| ==> (ids[a] in taken <==> ItsTurn(jobs, ids, a, accepts))
    ensures QueuedInTurn(jobs, ids, queue, queue + multiset(taken), accepts)
  {
    hide ItsTurn;
  }

  lemma TakenOnce(jobs: map<JobId, Job>, ids: seq<JobId>, accepts: JobId -> bool)
    requires forall i, k :: 0 <= i < k < |ids| ==> ids[i] != ids[k]
    ensures forall j: JobId :: multiset(Taken(Matched(jobs, ids), accepts))[j] == OneIf(j in Taken(Matched(jobs, ids), accepts))
  {
    MatchedOnce(jobs, ids);
    TakenPrefix(Matched(jobs, ids), accepts);
    hide Taken, Matched;
    var taken: seq<JobId> := Taken(Matched(jobs, ids), accepts);
    forall j: JobId ensures multiset(taken)[j] == OneIf(j in taken) {
      CountOf(taken, j);
    }
  }

  lemma {:induction false} MatchedMembers(jobs: map<JobId, Job>, ids: seq<JobId>)
    ensures forall j: JobId :: j in Matched(jobs, ids) <==> j in ids && IsProcessing(jobs, j)
  {
    if ids != [] {
      var rest, last := ids[..|ids| - 1], ids[|ids| - 1];
      MatchedMembers(jobs, rest);
      assert ids == rest + [last];
    }
  }

  lemma {:induction false} MatchedOnce(jobs: map<JobId, Job>, ids: seq<JobId>)
    requires forall i, k :: 0 <= i < k < |ids| ==> ids[i] != ids[k]
    ensures forall i, k :: 0 <= i < k < |Matched(jobs, ids)| ==> Matched(jobs, ids)[i] != Matched(jobs, ids)[k]
  {
    if ids != [] {
      var rest, last := ids[..|ids| - 1], ids[|ids| - 1];
      MatchedOnce(jobs, rest);
      MatchedMembers(jobs, rest);
      assert last !in rest && ids == rest + [last];
    }
  }

  lemma {:induction false} CountOf(s: seq<JobId>, j: JobId)
    requires forall i, k :: 0 <= i < k < |s| ==> s[i] != s[k]
    ensures multiset(s)[j] == OneIf(j in s)
  {
    if s != [] {
      var rest, last := s[..|s| - 1], s[|s| - 1];
      assert last !in rest && s == rest + [last];
      CountOf(rest, j);
      assert multiset(s) == multiset(rest) + multiset{last};
    }
  }

  lemma MatchedRows(jobs: map<JobId, Job>, ids: seq<JobId>)
    requires forall i, k :: 0 <= i < k < |ids| ==> ids[i] != ids[k]
    ensures forall j: JobId :: multiset(Matched(jobs, ids))[j] == OneIf(j in ids && IsProcessing(jobs, j))
    ensures forall j: JobId :: j in Matched(jobs, ids) <==> j in ids && IsProcessing(jobs, j)
  {
    hide Matched, IsProcessing;
    MatchedMembers(jobs, ids);
    MatchedOnce(jobs, ids);
    forall j: JobId ensures multiset(Matched(jobs, ids))[j] == OneIf(j in ids && IsProcessing(jobs, j)) {
      CountOf(Matched(jobs, ids), j);
    }
  }

  lemma TakenOf(requeued: seq<JobId>, accepts: JobId -> bool)
    ensures forall j: JobId :: multiset(Taken(requeued, accepts))[j] <= if accepts(j) then multiset(requeued)[j] else 0
    ensures (forall j :: j in requeued ==> accepts(j)) ==> Taken(requeued, accepts) == requeued
  {
    TakenPrefix(requeued, accepts);
    var taken := Taken(requeued, accepts);
    hide Taken;
    assert requeued == taken + requeued[|taken|..];
    assert multiset(requeued) == multiset(taken) + multiset(requeued[|taken|..]);
  }

  lemma PutBackRequeues(jobs: map<JobId, Job>, ids: seq<JobId>, now: Time, queue: multiset<JobId>, accepts: JobId -> bool,
                        raised: bool)
    requires forall i, k :: 0 <= i < k < |ids| ==> ids[i] != ids[k]
    requires raised <==> exists j :: j in ids && IsProcessing(jobs, j) && !accepts(j)
    ensures Requeues(jobs, Update(jobs, set j | j in ids :: j, job => FallBack(job, now)), queue,
                     queue + multiset(Taken(Matched(jobs, ids), accepts)), accepts, raised)
  {
    hide Matched, Taken, WentBack, IsProcessing, Update, Requeues;
    MatchedRows(jobs, ids);
    TakenOf(Matched(jobs, ids), accepts);
    WhoWentBack(jobs, ids, now);
    var after := Update(jobs, set j | j in ids :: j, job => FallBack(job, now));
    var taken: multiset<JobId> := multiset(Taken(Matched(jobs, ids), accepts));
    forall j: JobId
      ensures taken[j] <= OneIf(WentBack(jobs, after, j) && accepts(j))
      ensures !raised ==> taken[j] == OneIf(WentBack(jobs, after, j) && accepts(j))
    {
      assert WentBack(jobs, after, j) <==> j in ids && IsProcessing(jobs, j);
      assert !raised ==> Taken(Matched(jobs, ids), accepts) == Matched(jobs, ids);
    }
    if raised {
      var j :| j in ids && IsProcessing(jobs, j) && !accepts(j);
      assert WentBack(jobs, after, j);
    }
    Queued(jobs, after, queue, taken, accepts, raised);
  }

  lemma Queued(jobs: map<JobId, Job>, after: map<JobId, Job>, queue: multiset<JobId>, taken: multiset<JobId>,
               accepts: JobId -> bool, raised: bool)
    requires after.Keys == jobs.Keys
    requires forall j :: j in jobs && jobs[j].status != JobStatus.Processing ==> after[j].status == jobs[j].status
    requires forall j: JobId :: taken[j] <= OneIf(WentBack(jobs, after, j) && accepts(j))
    requires !raised ==> forall j: JobId :: taken[j] == OneIf(WentBack(jobs, after, j) && accepts(j))
    requires raised ==> Refused(jobs, after, accepts)
    ensures Requeues(jobs, after, queue, queue + taken, accepts, raised)
  {
    hide WentBack;
  }

  lemma WhoWentBack(jobs: map<JobId, Job>, ids: seq<JobId>, now: Time)
    ensures var after := Update(jobs, set j | j in ids :: j, job => FallBack(job, now));
      && after.Keys == jobs.Keys
      && (forall j: JobId :: WentBack(jobs, after, j) <==> j in ids && IsProcessing(jobs, j))
      && (forall j :: j in jobs && jobs[j].status != JobStatus.Processing ==> after[j].status == jobs[j].status)
  {
  }

  lemma NotMatched(jobs: map<JobId, Job>, j: JobId, now: Time)
    requires !IsProcessing(jobs, j)
    ensures j in jobs ==> FallBack(jobs[j], now) == jobs[j]
  {
  }

  /** The conditional UPDATE that doubles as a claim. */
  method Claim(store: Store, j: JobId, source: Stage, target: Stage, now: Time) returns (claimed: bool)
    modifies store`jobs
    ensures claimed <==> j in old(store.jobs) && CanClaim(old(store.jobs)[j], source)
    ensures store.jobs ==
            if claimed then old(store.jobs)[j := SetStage(old(store.jobs)[j], target, now)] else old(store.jobs)
    ensures claimed <==>
      j in old(store.jobs) && old(store.jobs)[j].status == JobStatus.Processing && old(store.jobs)[j].stage == Some(source)
    ensures claimed ==>
      store.jobs == old(store.jobs)[j := old(store.jobs)[j].(stage := Some(target), stageAt := Some(now))]
  {
    claimed := j in store.jobs && store.jobs[j].status == JobStatus.Processing && store.jobs[j].stage == Some(source);
    if claimed {
      store.jobs := store.jobs[j := store.jobs[j].(stage := Some(target), stageAt := Some(now))];
    }
  }

  method RecoverStuckSteps(store: Store, accepts: JobId -> bool, clock: Clock) returns (raised: bool)
    modifies store`jobs, store`queue
    ensures store.jobs == Recovered(old(store.jobs), clock)
    ensures Requeues(old(store.jobs), store.jobs, old(store.queue), store.queue, accepts, raised)
  {
    hide FallBack, Requeues, Matched, Taken;
    var cutoff := clock.recovering - STUCK_STEP_AFTER;
    var rows := set j | j in store.jobs && store.jobs[j].status == JobStatus.Processing
                        && (store.jobs[j].stage == Some(Submitting) || store.jobs[j].stage == Some(Finishing))
                        && (store.jobs[j].stageAt == None || store.jobs[j].stageAt.value < cutoff);
    assert forall j :: j in rows <==> j in Stuck(store.jobs, cutoff);
    var stuck := store.Select(rows);
    assert (set j | j in stuck :: j) == Stuck(store.jobs, cutoff);
    raised := FallBackToLive(store, stuck, accepts, clock.recovering);
  }

  /** One row that no other row of the set is older than. */
  method Oldest(jobs: map<JobId, Job>, ids: set<JobId>) returns (oldest: JobId)
    requires ids != {} && ids <= jobs.Keys
    ensures oldest in ids
    ensures forall k :: k in ids && jobs[k].stageAt.Some? ==> Earlier(jobs[oldest], jobs[k])
  {
    oldest :| oldest in ids;
    var left := ids - {oldest};
    while left != {}
      invariant oldest in ids && left <= ids
      invariant forall k :: k in ids - left && jobs[k].stageAt.Some? ==> Earlier(jobs[oldest], jobs[k])
    {
      var k :| k in left;
      left := left - {k};
      if jobs[k].stageAt.Some? && !Earlier(jobs[oldest], jobs[k]) {
        oldest := k;
      }
    }
  }

  method SelectOldestPrepared(store: Store, limit: nat) returns (chosen: seq<JobId>)
    ensures OldestFirst(store.jobs, chosen, limit)
  {
    var left := InStage(store.jobs, Prepared);
    chosen := [];
    while left != {} && |chosen| < limit
      invariant left <= InStage(store.jobs, Prepared)
      invariant forall j :: j in InStage(store.jobs, Prepared) <==> j in left || j in chosen
      invariant forall j :: j in chosen ==> j !in left
      invariant forall i, k :: 0 <= i < k < |chosen| ==> chosen[i] != chosen[k]
      invariant |chosen| + |left| == |InStage(store.jobs, Prepared)| && |chosen| <= limit
      invariant forall j, k :: j in chosen && k in left && store.jobs[k].stageAt.Some? ==>
                  Earlier(store.jobs[j], store.jobs[k])
      decreases |left|
    {
      var j := Oldest(store.jobs, left);
      assert j !in chosen;
      chosen := chosen + [j];
      left := left - {j};
    }
  }

  /** Claims each candidate in turn; every one of them is still there to claim. */
  method ClaimAll(store: Store, candidates: seq<JobId>, ghost accepts: JobId -> bool, now: Time)
    returns (chosen: seq<JobId>)
    requires forall i, k :: 0 <= i < k < |candidates| ==> candidates[i] != candidates[k]
    requires forall j :: j in candidates ==> j in InStage(store.jobs, Prepared)
    modifies store`jobs
    ensures chosen == candidates && store.jobs.Keys == old(store.jobs).Keys
    ensures forall j :: j in store.jobs ==>
      store.jobs[j] == if j in chosen then SetStage(old(store.jobs)[j], Submitting, now) else old(store.jobs)[j]
    ensures Requeues(old(store.jobs), store.jobs, store.queue, store.queue, accepts, false)
  {
    chosen := [];
    for i := 0 to |candidates|
      invariant chosen == candidates[..i]
      invariant store.jobs.Keys == old(store.jobs).Keys
      invariant forall j :: j in store.jobs ==>
        store.jobs[j] == if j in chosen then SetStage(old(store.jobs)[j], Submitting, now) else old(store.jobs)[j]
    {
      assert candidates[i] in candidates && candidates[i] !in candidates[..i];
      var claimed := Claim(store, candidates[i], Prepared, Submitting, now);
      if claimed {
        chosen := chosen + [candidates[i]];
      }
    }
    assert candidates[..|candidates|] == candidates;
    NobodyWentBack(old(store.jobs), store.jobs, store.queue, accepts);
  }

  /** Marks the answered keys SUBMITTED, each with the batch it went into. */
  method RecordBatches(store: Store, names: map<JobId, string>, ghost accepts: JobId -> bool, now: Time)
    modifies store`jobs
    ensures store.jobs == map j | j in old(store.jobs) ::
      if j in names then SetSubmitted(old(store.jobs)[j], names[j], now) else old(store.jobs)[j]
    ensures Requeues(old(store.jobs), store.jobs, store.queue, store.queue, accepts, false)
  {
    store.jobs := map j | j in store.jobs ::
      if j in names then store.jobs[j].(stage := Some(Submitted), stageAt := Some(now), batchName := Some(names[j]))
      else store.jobs[j];
    NobodyWentBack(old(store.jobs), store.jobs, store.queue, accepts);
  }

  /** Claims the oldest PREPARED jobs, submits them together, and records the answer; a submit
      that raises puts every one of them back through the live run. */
  method SubmitPrepared(store: Store, settings: Settings, commands: Commands, clock: Clock)
    returns (submitted: nat, chosen: seq<JobId>, raised: bool)
    requires settings.enabled && AnswersItems(commands)
    modifies store`jobs, store`queue
    ensures OldestFirst(old(store.jobs), chosen, settings.maxJobs)
    ensures store.jobs == AfterSubmit(old(store.jobs), settings, chosen, commands, clock)
    ensures !raised ==> submitted == if chosen == [] || commands.submit(chosen).None? then 0 else |chosen|
    ensures Requeues(old(store.jobs), store.jobs, old(store.queue), store.queue, commands.accepts, raised)
  {
    hide FallBack, Requeues, SetStage, SetSubmitted, Taken, Matched, OldestFirst;
    ghost var accepts := commands.accepts;
    var candidates := SelectOldestPrepared(store, settings.maxJobs);
    chosen := ClaimAll(store, candidates, accepts, clock.claiming);
    submitted, raised := 0, false;
    if chosen == [] {
      return;
    }
    var answer := commands.submit(chosen);
    ghost var mid, queue := store.jobs, store.queue;
    match answer
    case Some(names) =>
      RecordBatches(store, names, accepts, clock.submitting);
      submitted := |chosen|;
      ThenRequeues(old(store.jobs), mid, store.jobs, queue, queue, queue, accepts, false);
    case None =>
      raised := FallBackToLive(store, chosen, commands.accepts, clock.submitting);
      ThenRequeues(old(store.jobs), mid, store.jobs, queue, queue, store.queue, accepts, raised);
  }

  method FallBackLeftover(store: Store, accepts: JobId -> bool, clock: Clock) returns (raised: bool)
    modifies store`jobs, store`queue
    ensures store.jobs == Update(old(store.jobs), InStage(old(store.jobs), Prepared), job => FallBack(job, clock.claiming))
    ensures Requeues(old(store.jobs), store.jobs, old(store.queue), store.queue, accepts, raised)
  {
    hide FallBack, Requeues, Matched, Taken;
    var leftover := store.Select(InStage(store.jobs, Prepared));
    assert (set j | j in leftover :: j) == InStage(store.jobs, Prepared);
    raised := FallBackToLive(store, leftover, accepts, clock.claiming);
  }

  /** `min` over the rows' times, if there is one. */
  method OldestTime(jobs: map<JobId, Job>, rows: seq<JobId>) returns (oldest: Option<Time>)
    requires forall j :: j in rows ==> j in jobs
    ensures oldest.Some? ==> exists j :: j in rows && jobs[j].stageAt == oldest
    ensures forall j :: j in rows && jobs[j].stageAt.Some? ==> oldest.Some? && oldest.value <= jobs[j].stageAt.value
  {
    oldest := None;
    for i := 0 to |rows|
      invariant oldest.Some? ==> exists j :: j in rows[..i] && jobs[j].stageAt == oldest
      invariant forall j :: j in rows[..i] && jobs[j].stageAt.Some? ==>
                  oldest.Some? && oldest.value <= jobs[j].stageAt.value
    {
      assert rows[..i + 1] == rows[..i] + [rows[i]];
      var at := jobs[rows[i]].stageAt;
      if at.Some? && (oldest.None? || at.value < oldest.value) {
        oldest := at;
      }
    }
    assert rows[..|rows|] == rows;
  }

  lemma OneRow(jobs: map<JobId, Job>, j: JobId, now: Time)
    requires j in jobs
    ensures Update(jobs, set k | k in [j] :: k, job => FallBack(job, now)) == jobs[j := FallBack(jobs[j], now)]
  {
    var ids := set k | k in [j] :: k;
    assert j in [j];
    assert forall k :: k in ids <==> k == j;
  }

  /** The second half of finishing: a claimed job is completed from its output or put back. When there
      is no output, a refused task is caught, and the handler's own fall-back finds the job PENDING. */
  method FinishClaimed(store: Store, j: JobId, answer: FinishAnswer, accepts: JobId -> bool, now: Time)
    returns (raised: bool)
    requires IsProcessing(store.jobs, j) && AllAgree(store.Snapshot())
    modifies store
    ensures store.jobs == old(store.jobs)[j := EndedRow(old(store.jobs)[j], answer, now)]
    ensures raised <==> answer.FinishRaises? && !accepts(j)
    ensures AllAgree(store.Snapshot())
    ensures Requeues(old(store.jobs), store.jobs, old(store.queue), store.queue, accepts, raised)
  {
    hide AllAgree, RecomputeDocument, RecomputeBatch, M.CompleteJob, Requeues, Taken, Matched;
    ghost var before := store.Snapshot();
    raised := false;
    match answer
    case Output(path) =>
      var r := JobStore.CompleteJob(store, j, path, false, now);
      NobodyWentBack(before.jobs, store.jobs, store.queue, accepts);
      RollUp.CompleteAgrees(before, j, path, now);
    case NoOutput =>
      var refused := PutBack(store, j, accepts, now);
      if refused {
        raised := PutBack(store, j, accepts, now);
        CaughtRefusal(before.jobs, store.jobs, j, old(store.queue), store.queue, accepts);
      }
    case FinishRaises =>
      raised := PutBack(store, j, accepts, now);
  }

  /** FallBackToLive for one job. */
  method PutBack(store: Store, j: JobId, accepts: JobId -> bool, now: Time) returns (raised: bool)
    requires j in store.jobs && AllAgree(store.Snapshot())
    modifies store`jobs, store`queue
    ensures store.jobs == old(store.jobs)[j := FallBack(old(store.jobs)[j], now)] && AllAgree(store.Snapshot())
    ensures raised <==> IsProcessing(old(store.jobs), j) && !accepts(j)
    ensures !IsProcessing(old(store.jobs), j) || raised ==> store.queue == old(store.queue)
    ensures Requeues(old(store.jobs), store.jobs, old(store.queue), store.queue, accepts, raised)
  {
    hide AllAgree, Requeues, Matched, Taken, FallBack;
    ghost var before := store.Snapshot();
    assert j in [j];
    raised := FallBackToLive(store, [j], accepts, now);
    OneTask(before.jobs, j, accepts);
    OneRow(before.jobs, j, now);
    OneRowAgrees(before, store.Snapshot(), j, now);
  }

  lemma OneTask(jobs: map<JobId, Job>, j: JobId, accepts: JobId -> bool)
    ensures Taken(Matched(jobs, [j]), accepts) == if IsProcessing(jobs, j) && accepts(j) then [j] else []
  {
    assert [j][..0] == [] && [j][0] == j;
    assert Matched(jobs, [j][..0]) == [];
    assert Taken([], accepts) == [];
  }

  lemma OneRowAgrees(db: Db, db': Db, j: JobId, now: Time)
    requires AllAgree(db) && j in db.jobs && db'.jobs == db.jobs[j := FallBack(db.jobs[j], now)]
    requires db'.documents == db.documents
    ensures AllAgree(db')
  {
    hide AllAgree;
    SameClassesAgree(db, db');
  }

  lemma CaughtRefusal(jobs: map<JobId, Job>, jobs': map<JobId, Job>, j: JobId, queue: multiset<JobId>,
                      queue': multiset<JobId>, accepts: JobId -> bool)
    requires IsProcessing(jobs, j) && !accepts(j) && queue' == queue
    requires jobs'.Keys == jobs.Keys && forall k :: k in jobs && k != j ==> jobs'[k] == jobs[k]
    ensures Requeues(jobs, jobs', queue, queue', accepts, false)
  {
  }

  /** Claims a collected job, then completes it from its output or puts it back through the live run. */
  method FinishJob(store: Store, j: JobId, commands: Commands, now: Time) returns (finished: bool, raised: bool)
    requires j in store.jobs && CanClaim(store.jobs[j], Submitted) && AllAgree(store.Snapshot())
    modifies store
    ensures store.jobs == old(store.jobs)[j := FinishedRow(old(store.jobs)[j], commands.finish(j), now)]
    ensures finished <==> commands.finish(j).Output?
    ensures raised <==> commands.finish(j).FinishRaises? && !commands.accepts(j)
    ensures NewlyCompleted(old(store.jobs), store.jobs) == if finished then {j} else {}
    ensures AllAgree(store.Snapshot())
    ensures Requeues(old(store.jobs), store.jobs, old(store.queue), store.queue, commands.accepts, raised)
  {
    hide AllAgree, Requeues, NewlyCompleted, EndedRow;
    ghost var before, accepts := store.Snapshot(), commands.accepts;
    var claimed := Claim(store, j, Submitted, Finishing, now);
    SameClassesAgree(before, store.Snapshot());
    ghost var mid := store.jobs;
    NobodyWentBack(before.jobs, mid, store.queue, accepts);
    var answer := commands.finish(j);
    raised := FinishClaimed(store, j, answer, commands.accepts, now);
    finished := answer.Output?;
    assert store.jobs == before.jobs[j := FinishedRow(before.jobs[j], answer, now)];
    ThenRequeues(before.jobs, mid, store.jobs, old(store.queue), old(store.queue), store.queue, accepts, raised);
    OneCompleted(before.jobs, j, answer, now);
  }

  lemma OneCompleted(jobs: map<JobId, Job>, j: JobId, answer: FinishAnswer, now: Time)
    requires j in jobs && jobs[j].status == JobStatus.Processing
    ensures NewlyCompleted(jobs, jobs[j := FinishedRow(jobs[j], answer, now)]) == if answer.Output? then {j} else {}
  {
  }

  /** FallBackToLive, which recomputes nothing and needs no recompute. */
  method GiveUp(store: Store, ids: seq<JobId>, accepts: JobId -> bool, now: Time) returns (raised: bool)
    requires forall i, k :: 0 <= i < k < |ids| ==> ids[i] != ids[k]
    requires AllAgree(store.Snapshot())
    modifies store`jobs, store`queue
    ensures store.jobs.Keys == old(store.jobs).Keys && AllAgree(store.Snapshot())
    ensures forall j :: j in store.jobs ==>
      store.jobs[j] == if j in ids then FallBack(old(store.jobs)[j], now) else old(store.jobs)[j]
    ensures NewlyCompleted(old(store.jobs), store.jobs) == {}
    ensures Requeues(old(store.jobs), store.jobs, old(store.queue), store.queue, accepts, raised)
  {
    hide AllAgree, Requeues, Taken, Matched;
    ghost var before := store.Snapshot();
    raised := FallBackToLive(store, ids, accepts, now);
    SameClassesAgree(before, store.Snapshot());
  }

  /** A row after a loop that may have been cut short: as the loop leaves it, or not reached. */
  predicate Left(row: Job, before: Job, after: Job, raised: bool) {
    row == after || (raised && row == before)
  }

  method FinishAll(store: Store, ids: seq<JobId>, commands: Commands, now: Time) returns (finished: nat, raised: bool)
    requires forall i, k :: 0 <= i < k < |ids| ==> ids[i] != ids[k]
    requires forall j :: j in ids ==> j in store.jobs && CanClaim(store.jobs[j], Submitted)
    requires AllAgree(store.Snapshot())
    modifies store
    ensures store.jobs.Keys == old(store.jobs).Keys && AllAgree(store.Snapshot())
    ensures forall j :: j in store.jobs && j in ids ==>
      Left(store.jobs[j], old(store.jobs)[j], FinishedRow(old(store.jobs)[j], commands.finish(j), now), raised)
    ensures forall j :: j in store.jobs && j !in ids ==> store.jobs[j] == old(store.jobs)[j]
    ensures !raised ==> finished == |NewlyCompleted(old(store.jobs), store.jobs)|
    ensures Requeues(old(store.jobs), store.jobs, old(store.queue), store.queue, commands.accepts, raised)
  {
    hide FinishedRow, AllAgree, Requeues, NewlyCompleted;
    finished, raised := 0, false;
    ghost var accepts := commands.accepts;
    NobodyCompleted(store.jobs);
    NobodyWentBack(store.jobs, store.jobs, store.queue, accepts);
    for i := 0 to |ids|
      invariant store.jobs.Keys == old(store.jobs).Keys && AllAgree(store.Snapshot()) && !raised
      invariant Requeues(old(store.jobs), store.jobs, old(store.queue), store.queue, accepts, false)
      invariant finished == |NewlyCompleted(old(store.jobs), store.jobs)|
      invariant forall j :: j in store.jobs ==>
        store.jobs[j] == if j in ids[..i] then FinishedRow(old(store.jobs)[j], commands.finish(j), now)
                         else old(store.jobs)[j]
    {
      assert ids[..i + 1] == ids[..i] + [ids[i]] && ids[i] !in ids[..i] && ids[i] in ids;
      ghost var jobs, queue := store.jobs, store.queue;
      var done;
      done, raised := FinishJob(store, ids[i], commands, now);
      ThenRequeues(old(store.jobs), jobs, store.jobs, old(store.queue), queue, store.queue, accepts, raised);
      if raised {
        return;
      }
      ThenCompleted(old(store.jobs), jobs, store.jobs, old(store.queue), queue, store.queue, accepts);
      finished := finished + OneIf(done);
    }
    assert ids[..|ids|] == ids;
  }

  /** What the collect loop does with one batch's rows. */
  method CollectOne(store: Store, name: string, settings: Settings, commands: Commands, clock: Clock)
    returns (finished: nat, raised: bool)
    requires name != "" && AllAgree(store.Snapshot())
    modifies store
    ensures store.jobs.Keys == old(store.jobs).Keys && AllAgree(store.Snapshot())
    ensures forall j :: j in old(store.jobs) && InBatch(old(store.jobs)[j], name) ==>
      Left(store.jobs[j], old(store.jobs)[j], CollectedRow(old(store.jobs), j, settings, commands, clock), raised)
    ensures forall j :: j in old(store.jobs) && !InBatch(old(store.jobs)[j], name) ==> store.jobs[j] == old(store.jobs)[j]
    ensures !raised ==> finished == |NewlyCompleted(old(store.jobs), store.jobs)|
    ensures Requeues(old(store.jobs), store.jobs, old(store.queue), store.queue, commands.accepts, raised)
  {
    hide AllAgree, FinishedRow, FallBack, Requeues, NewlyCompleted;
    NobodyWentBack(store.jobs, store.jobs, store.queue, commands.accepts);
    NobodyCompleted(store.jobs);
    var now := clock.collecting;
    var rows := set j | j in store.jobs && InBatch(store.jobs[j], name);
    var ids := store.Select(rows);
    assert forall j :: j in ids <==> j in rows;
    finished, raised := 0, false;
    match commands.collect(name)
    case Unreachable =>
    case NotDone =>
      var oldest := OldestTime(store.jobs, ids);
      if oldest.Some? && now - oldest.value > settings.fallbackAfter {
        raised := GiveUp(store, ids, commands.accepts, now);
      }
    case Ended(succeeded) =>
      if succeeded {
        finished, raised := FinishAll(store, ids, commands, now);
      } else {
        raised := GiveUp(store, ids, commands.accepts, now);
      }
  }

  function BatchNames(jobs: map<JobId, Job>): set<string> {
    set j | j in jobs && CanClaim(jobs[j], Submitted) && jobs[j].batchName.Some? && jobs[j].batchName.value != ""
      :: jobs[j].batchName.value
  }

  lemma NamesOf(jobs: map<JobId, Job>)
    ensures "" !in BatchNames(jobs)
    ensures forall j :: j in jobs && Collectable(jobs[j]) ==> jobs[j].batchName.value in BatchNames(jobs)
  {
  }

  /** Rows that a collecting loop cut short by a refusal may leave. */
  ghost predicate PartlyCollected(jobs: map<JobId, Job>, jobs': map<JobId, Job>, settings: Settings, commands: Commands,
                                  clock: Clock)
  {
    && jobs'.Keys == jobs.Keys
    && forall j :: j in jobs ==> Left(jobs'[j], jobs[j], CollectedRow(jobs, j, settings, commands, clock), true)
  }

  method CollectSubmitted(store: Store, settings: Settings, commands: Commands, clock: Clock)
    returns (finished: nat, raised: bool)
    requires AllAgree(store.Snapshot())
    modifies store
    ensures !raised ==> store.jobs == AfterCollect(old(store.jobs), settings, commands, clock)
    ensures raised ==> PartlyCollected(old(store.jobs), store.jobs, settings, commands, clock)
    ensures AllAgree(store.Snapshot())
    ensures Requeues(old(store.jobs), store.jobs, old(store.queue), store.queue, commands.accepts, raised)
    ensures !raised ==> finished == |NewlyCompleted(old(store.jobs), store.jobs)|
  {
    hide AllAgree, CollectedRow, Requeues, NewlyCompleted;
    NobodyWentBack(store.jobs, store.jobs, store.queue, commands.accepts);
    NobodyCompleted(store.jobs);
    ghost var before, accepts := store.jobs, commands.accepts;
    var left := BatchNames(store.jobs);
    NamesOf(store.jobs);
    hide BatchNames;
    finished, raised := 0, false;
    while left != {}
      invariant left <= BatchNames(before) && store.jobs.Keys == before.Keys && AllAgree(store.Snapshot()) && !raised
      invariant Requeues(before, store.jobs, old(store.queue), store.queue, accepts, false)
      invariant finished == |NewlyCompleted(before, store.jobs)|
      invariant forall j :: j in before ==>
        store.jobs[j] == if Collectable(before[j]) && before[j].batchName.value !in left
                         then CollectedRow(before, j, settings, commands, clock)
                         else before[j]
    {
      var name :| name in left;
      left := left - {name};
      ghost var mid := store.jobs;
      SameBatch(before, mid, name, left, settings, commands, clock);
      ghost var queue := store.queue;
      var done;
      done, raised := CollectOne(store, name, settings, commands, clock);
      ThenRequeues(before, mid, store.jobs, old(store.queue), queue, store.queue, accepts, raised);
      if raised {
        CutShort(before, mid, store.jobs, name, left, settings, commands, clock);
        return;
      }
      ThenCompleted(before, mid, store.jobs, old(store.queue), queue, store.queue, accepts);
      finished := finished + done;
    }
    forall j | j in before && !Collectable(before[j])
      ensures CollectedRow(before, j, settings, commands, clock) == before[j]
    {
      NotCollected(before, j, settings, commands, clock);
    }
  }

  lemma CutShort(before: map<JobId, Job>, mid: map<JobId, Job>, after: map<JobId, Job>, name: string, left: set<string>,
                 settings: Settings, commands: Commands, clock: Clock)
    requires mid.Keys == before.Keys == after.Keys
    requires forall j :: j in before ==>
      mid[j] == if Collectable(before[j]) && before[j].batchName.value !in left + {name}
                then CollectedRow(before, j, settings, commands, clock)
                else before[j]
    requires forall j :: j in before && InBatch(mid[j], name) ==>
      && CollectedRow(mid, j, settings, commands, clock) == CollectedRow(before, j, settings, commands, clock)
      && Left(after[j], mid[j], CollectedRow(mid, j, settings, commands, clock), true)
    requires forall j :: j in before && !InBatch(mid[j], name) ==> after[j] == mid[j]
    ensures PartlyCollected(before, after, settings, commands, clock)
  {
    hide CollectedRow;
  }

  /** The rows of a batch that has not been looked at yet are the ones the loop began with. */
  lemma SameBatch(before: map<JobId, Job>, mid: map<JobId, Job>, name: string, left: set<string>, settings: Settings,
                  commands: Commands, clock: Clock)
    requires mid.Keys == before.Keys && name != ""
    requires forall j :: j in before ==>
      || mid[j] == before[j]
      || (&& Collectable(before[j]) && before[j].batchName.value !in left + {name}
          && mid[j] == CollectedRow(before, j, settings, commands, clock))
    ensures forall j :: j in before ==> (InBatch(mid[j], name) <==> InBatch(before[j], name))
    ensures forall j :: j in before && InBatch(before[j], name) ==>
      CollectedRow(mid, j, settings, commands, clock) == CollectedRow(before, j, settings, commands, clock)
  {
    hide CollectedRow;
    forall j | j in before ensures InBatch(mid[j], name) <==> InBatch(before[j], name) {
      if Collectable(before[j]) {
        CollectedLeavesBatch(before, j, settings, commands, clock);
      }
    }
    forall j | j in before && InBatch(before[j], name)
      ensures CollectedRow(mid, j, settings, commands, clock) == CollectedRow(before, j, settings, commands, clock)
    {
      SameBatchSameRow(before, mid, j, settings, commands, clock);
    }
  }

  predicate Collectable(job: Job) {
    CanClaim(job, Submitted) && job.batchName.Some? && job.batchName.value != ""
  }

  lemma NotCollected(jobs: map<JobId, Job>, j: JobId, settings: Settings, commands: Commands, clock: Clock)
    requires j in jobs && !Collectable(jobs[j])
    ensures CollectedRow(jobs, j, settings, commands, clock) == jobs[j]
  {
  }

  lemma CollectedLeavesBatch(jobs: map<JobId, Job>, j: JobId, settings: Settings, commands: Commands, clock: Clock)
    requires j in jobs && Collectable(jobs[j])
    ensures CollectedRow(jobs, j, settings, commands, clock).batchName == jobs[j].batchName
  {
  }

  lemma SameBatchSameRow(jobs: map<JobId, Job>, jobs': map<JobId, Job>, j: JobId, settings: Settings,
                         commands: Commands, clock: Clock)
    requires j in jobs && Collectable(jobs[j]) && jobs.Keys == jobs'.Keys
    requires forall k :: k in jobs && (InBatch(jobs[k], jobs[j].batchName.value) || InBatch(jobs'[k], jobs[j].batchName.value))
               ==> jobs'[k] == jobs[k]
    ensures CollectedRow(jobs', j, settings, commands, clock) == CollectedRow(jobs, j, settings, commands, clock)
  {
  }

  /** Where a refused task can have ended a pass: after the recovery of stuck steps, or in the middle of
      what follows. */
  ghost predicate EndedEarly(jobs: map<JobId, Job>, jobs': map<JobId, Job>, settings: Settings, chosen: seq<JobId>,
                             commands: Commands, clock: Clock)
  {
    || jobs' == Recovered(jobs, clock)
    || (&& (settings.enabled ==> OldestFirst(Recovered(jobs, clock), chosen, settings.maxJobs))
        && PartlyCollected(AfterSubmit(Recovered(jobs, clock), settings, chosen, commands, clock), jobs', settings,
                           commands, clock))
  }

  /** Everything before collecting. */
  method Advance(store: Store, settings: Settings, commands: Commands, clock: Clock)
    returns (submitted: nat, raised: bool, ghost recovering: bool, ghost chosen: seq<JobId>)
    requires AnswersItems(commands) && AllAgree(store.Snapshot())
    modifies store`jobs, store`queue
    ensures raised && recovering ==> store.jobs == Recovered(old(store.jobs), clock)
    ensures !(raised && recovering) ==>
      && (settings.enabled ==> OldestFirst(Recovered(old(store.jobs), clock), chosen, settings.maxJobs))
      && store.jobs == AfterSubmit(Recovered(old(store.jobs), clock), settings, chosen, commands, clock)
    ensures AllAgree(store.Snapshot()) && NewlyCompleted(old(store.jobs), store.jobs) == {}
    ensures Requeues(old(store.jobs), store.jobs, old(store.queue), store.queue, commands.accepts, raised)
  {
    hide AllAgree, SubmittedRow, Requeues, NewlyCompleted, OldestFirst;
    ghost var before := store.Snapshot();
    submitted, recovering, chosen := 0, true, [];
    raised := RecoverStuckSteps(store, commands.accepts, clock);
    ghost var recovered, queue := store.jobs, store.queue;
    if raised {
      RecoveredAgrees(before, store.Snapshot(), clock);
      return;
    }
    recovering := false;
    if settings.enabled {
      submitted, chosen, raised := SubmitPrepared(store, settings, commands, clock);
      assert OldestFirst(recovered, chosen, settings.maxJobs);
    } else {
      raised := FallBackLeftover(store, commands.accepts, clock);
      assert store.jobs == AfterSubmit(recovered, settings, chosen, commands, clock);
    }
    AdvancedAgrees(before, store.Snapshot(), settings, chosen, commands, clock);
    ThenRequeues(before.jobs, recovered, store.jobs, old(store.queue), queue, store.queue, commands.accepts, raised);
  }

  lemma RecoveredAgrees(db: Db, db': Db, clock: Clock)
    requires AllAgree(db) && db'.jobs == Recovered(db.jobs, clock) && db'.documents == db.documents
    ensures AllAgree(db') && NewlyCompleted(db.jobs, db'.jobs) == {}
  {
    hide AllAgree;
    SameClassesAgree(db, db');
  }

  lemma AdvancedAgrees(db: Db, db': Db, settings: Settings, chosen: seq<JobId>, commands: Commands, clock: Clock)
    requires AllAgree(db) && db'.documents == db.documents
    requires settings.enabled ==> OldestFirst(Recovered(db.jobs, clock), chosen, settings.maxJobs)
    requires db'.jobs == AfterSubmit(Recovered(db.jobs, clock), settings, chosen, commands, clock)
    ensures AllAgree(db') && NewlyCompleted(db.jobs, db'.jobs) == {}
  {
    hide AllAgree, SubmittedRow;
    forall j | j in db.jobs
      ensures db'.jobs[j].document == db.jobs[j].document && SameClass(db.jobs[j].status, db'.jobs[j].status)
    {
      WaitingStaysActive(db.jobs, settings, chosen, commands, clock, j);
    }
    SameClassesAgree(db, db');
    NoneCompleted(db.jobs, db'.jobs);
  }

  /** One scheduler pass, which ends early if the executor refuses a task that was not caught. */
  method Tick(store: Store, settings: Settings, commands: Commands, clock: Clock)
    returns (submitted: nat, finished: nat, raised: bool, ghost chosen: seq<JobId>)
    requires AnswersItems(commands) && AllAgree(store.Snapshot())
    modifies store
    ensures !raised ==>
      && (settings.enabled ==> OldestFirst(Recovered(old(store.jobs), clock), chosen, settings.maxJobs))
      && store.jobs == AfterTick(old(store.jobs), settings, chosen, commands, clock)
      && finished == |NewlyCompleted(old(store.jobs), store.jobs)|
    ensures raised ==> EndedEarly(old(store.jobs), store.jobs, settings, chosen, commands, clock)
    ensures (forall j: JobId :: commands.accepts(j)) ==>
      !raised
      && forall j: JobId :: store.queue[j] == old(store.queue)[j] + OneIf(WentBack(old(store.jobs), store.jobs, j))
    ensures AllAgree(store.Snapshot())
    ensures Requeues(old(store.jobs), store.jobs, old(store.queue), store.queue, commands.accepts, raised)
  {
    hide AllAgree, AfterCollect, AfterSubmit, Recovered, Requeues, NewlyCompleted, OldestFirst;
    ghost var before, recovering, queue0 := store.jobs, false, store.queue;
    finished := 0;
    submitted, raised, recovering, chosen := Advance(store, settings, commands, clock);
    ghost var submittedJobs, queue := store.jobs, store.queue;
    if raised {
      NothingCollected(submittedJobs, settings, commands, clock);
      WithoutRefusal(before, store.jobs, queue0, store.queue, commands.accepts, raised);
      return;
    }
    finished, raised := CollectSubmitted(store, settings, commands, clock);
    ThenRequeues(before, submittedJobs, store.jobs, old(store.queue), queue, store.queue, commands.accepts, raised);
    WithoutRefusal(before, store.jobs, queue0, store.queue, commands.accepts, raised);
    if !raised {
      ThenCompleted(before, submittedJobs, store.jobs, old(store.queue), queue, store.queue, commands.accepts);
    }
  }

  lemma NothingCollected(jobs: map<JobId, Job>, settings: Settings, commands: Commands, clock: Clock)
    ensures PartlyCollected(jobs, jobs, settings, commands, clock)
  {
  }

  lemma WaitingStaysActive(jobs: map<JobId, Job>, settings: Settings, chosen: seq<JobId>, commands: Commands,
                           clock: Clock, j: JobId)
    requires j in jobs
    requires settings.enabled && j in chosen ==> j in InStage(Recovered(jobs, clock), Prepared)
    ensures var after := AfterSubmit(Recovered(jobs, clock), settings, chosen, commands, clock);
      after[j].document == jobs[j].document && SameClass(jobs[j].status, after[j].status)
  {
  }
}
