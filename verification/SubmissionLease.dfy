/** The heartbeat lease of a OneDrive submission: fetch runs that are claimed, heartbeat, crash and
    end, recovery passes, retries and stray tasks, interleaved freely. One step is one committed
    transaction, or a run dying, or time passing. */
module SubmissionLease {
  import opened Wrappers
  import opened SubmissionModel

  type RunId = nat

  /** A live fetch run and when it last proved it was alive. */
  datatype Run = Run(submission: SubmissionId, lastBeat: Time)

  /** `queueing` holds the submissions whose creating or retrying request is still handing a task
      to the executor; `tails` those of runs that have marked them fetched and are still cleaning up. */
  datatype System = System(rows: Rows, runs: map<RunId, Run>, queueing: multiset<SubmissionId>,
                           tails: multiset<SubmissionId>, clock: Time)

  datatype Step =
    | Wait(until: Time)
    | Create(s: SubmissionId)
    | Queued(s: SubmissionId)
    | SubmitRaised(s: SubmissionId)
    | Retry(s: SubmissionId)
    | Claim(r: RunId, s: SubmissionId)
    | ClaimRaised(s: SubmissionId)
    | Beat(r: RunId)
    | Touch(s: SubmissionId)
    | Crash(r: RunId)
    | Finish(r: RunId)
    | TailEnds(s: SubmissionId)
    | TailRaised(s: SubmissionId)
    | FailRun(r: RunId, code: string)
    | Recover(hasExecutor: bool)

  /** Any delivered task may try to claim, duplicates included; when its look-up or its claim raises,
      it fails the row without ever having held it, and when its clean-up raises, after it has let the
      row go. `Touch` is any other write to the row, such as its title: it bumps `updated_at`. */
  predicate Can(s: System, step: Step) {
    match step
    case Wait(until) => s.clock < until
    case Create(id) => id !in s.rows
    case Queued(id) => id in s.queueing
    case SubmitRaised(id) => id in s.queueing && id in s.rows
    case Retry(id) => id in s.rows && s.rows[id].status == Failed
    case Claim(r, id) => r !in s.runs && id in s.rows
    case ClaimRaised(id) => id in s.rows
    case Beat(r) => r in s.runs && s.runs[r].submission in s.rows
    case Touch(id) => id in s.rows
    case Crash(r) => r in s.runs
    case Finish(r) => r in s.runs && s.runs[r].submission in s.rows
    case TailEnds(id) => id in s.tails
    case TailRaised(id) => id in s.tails && id in s.rows
    case FailRun(r, _) => r in s.runs && s.runs[r].submission in s.rows
    case Recover(_) => true
  }

  function NextRows(s: System, step: Step): Rows
    requires Can(s, step)
  {
    var rows, now := s.rows, s.clock;
    match step
    case Wait(_) => rows
    case Create(id) => rows[id := Created(now)]
    case Queued(_) => rows
    case SubmitRaised(id) => rows[id := MarkFailed(rows[id], "INTERNAL_PROCESSING_ERROR", now)]
    case Retry(id) => rows[id := MarkPendingForRetry(rows[id], now)]
    case Claim(_, id) => if Claimable(rows[id], now) then rows[id := MarkFetching(rows[id], now)] else rows
    case ClaimRaised(id) => rows[id := MarkFailed(rows[id], "INTERNAL_PROCESSING_ERROR", now)]
    case Beat(r) =>
      var id := s.runs[r].submission;
      if rows[id].status == Fetching then rows[id := rows[id].(updatedAt := now)] else rows
    case Touch(id) => rows[id := rows[id].(updatedAt := now)]
    case Crash(_) => rows
    case Finish(r) => var id := s.runs[r].submission; rows[id := MarkFetched(rows[id], now)]
    case TailEnds(_) => rows
    case TailRaised(id) => rows[id := MarkFailed(rows[id], "INTERNAL_PROCESSING_ERROR", now)]
    case FailRun(r, code) => var id := s.runs[r].submission; rows[id := MarkFailed(rows[id], code, now)]
    case Recover(hasExecutor) => map id | id in rows :: Recovered(rows[id], hasExecutor, now)
  }

  function NextRuns(s: System, step: Step): map<RunId, Run>
    requires Can(s, step)
  {
    match step
    case Claim(r, id) => if Claimable(s.rows[id], s.clock) then s.runs[r := Run(id, s.clock)] else s.runs
    case Beat(r) =>
      if s.rows[s.runs[r].submission].status == Fetching then s.runs[r := s.runs[r].(lastBeat := s.clock)] else s.runs
    case Crash(r) => s.runs - {r}
    case Finish(r) => s.runs - {r}
    case FailRun(r, _) => s.runs - {r}
    case _ => s.runs
  }

  function Next(s: System, step: Step): System
    requires Can(s, step)
  {
    var queueing := match step
      case Create(id) => s.queueing + multiset{id}
      case Retry(id) => s.queueing + multiset{id}
      case Queued(id) => s.queueing - multiset{id}
      case SubmitRaised(id) => s.queueing - multiset{id}
      case _ => s.queueing;
    var tails := match step
      case Finish(r) => s.tails + multiset{s.runs[r].submission}
      case TailEnds(id) => s.tails - multiset{id}
      case TailRaised(id) => s.tails - multiset{id}
      case _ => s.tails;
    System(NextRows(s, step), NextRuns(s, step), queueing, tails, if step.Wait? then step.until else s.clock)
  }

  ghost predicate IsRun(run: seq<System>, steps: seq<Step>) {
    && |run| == |steps| + 1
    && forall i :: 0 <= i < |steps| ==> Can(run[i], steps[i]) && run[i + 1] == Next(run[i], steps[i])
  }

  predicate Init(s: System) {
    s.rows == map[] && s.runs == map[] && s.queueing == multiset{} && s.tails == multiset{}
  }

  // ---- mutual exclusion ----

  /** Every live run has proved itself alive within the stale limit. */
  ghost predicate Timely(s: System) {
    forall r :: r in s.runs ==> s.clock - s.runs[r].lastBeat <= STALE_HEARTBEAT
  }

  /** At most one live run per submission; a live run holds its row, FETCHING and at least as fresh
      as its last heartbeat. */
  ghost predicate Exclusive(s: System) {
    && (forall r :: r in s.runs ==> s.runs[r].submission in s.rows && Holds(s, r))
    && (forall r, q :: r in s.runs && q in s.runs && s.runs[r].submission == s.runs[q].submission ==> r == q)
  }

  predicate Holds(s: System, r: RunId)
    requires r in s.runs && s.runs[r].submission in s.rows
  {
    var row := s.rows[s.runs[r].submission];
    row.status == Fetching && s.runs[r].lastBeat <= row.updatedAt && s.runs[r].lastBeat <= s.clock
  }

  ghost predicate Live(s: System, id: SubmissionId) {
    exists r :: r in s.runs && s.runs[r].submission == id
  }

  /** An unguarded write by somebody who does not hold the row: the answer to a submit that raised, to a
      claim that raised, or to a clean-up that raised after the row was marked fetched. */
  predicate Stray(step: Step) {
    step.SubmitRaised? || step.ClaimRaised? || step.TailRaised?
  }

  ghost predicate FailsLiveRun(s: System, step: Step) {
    Stray(step) && Live(s, step.s)
  }

  lemma RunStillHolds(s: System, step: Step, r: RunId)
    requires Can(s, step) && Timely(s) && Exclusive(s) && !FailsLiveRun(s, step) && r in Next(s, step).runs
    ensures Next(s, step).runs[r].submission in Next(s, step).rows && Holds(Next(s, step), r)
  {
    if r in s.runs {
      assert Holds(s, r) && s.clock - s.runs[r].lastBeat <= STALE_HEARTBEAT;
    }
  }

  lemma StillOneRun(s: System, step: Step, r: RunId, q: RunId)
    requires Can(s, step) && Timely(s) && Exclusive(s)
    requires r in Next(s, step).runs && q in Next(s, step).runs
    requires Next(s, step).runs[r].submission == Next(s, step).runs[q].submission
    ensures r == q
  {
    hide NextRows, Claimable;
    if step.Claim? {
      forall t | t in s.runs ensures !Claimable(s.rows[s.runs[t].submission], s.clock) {
        TimelyRunsAreFresh(s, t);
      }
    }
  }

  /** Every step keeps the lease except those writes, which break it exactly when a run is live. */
  lemma StepKeepsLease(s: System, step: Step)
    requires Can(s, step) && Timely(s) && Exclusive(s)
    ensures Exclusive(Next(s, step)) <==> !FailsLiveRun(s, step)
  {
    var s' := Next(s, step);
    if FailsLiveRun(s, step) {
      var r :| r in s.runs && s.runs[r].submission == step.s;
      assert r in s'.runs && s'.rows[step.s].status == Failed;
    } else {
      hide Next, Can, FailsLiveRun, Timely;
      forall r | r in s'.runs ensures s'.runs[r].submission in s'.rows && Holds(s', r) {
        RunStillHolds(s, step, r);
      }
      forall r, q | r in s'.runs && q in s'.runs && s'.runs[r].submission == s'.runs[q].submission ensures r == q {
        StillOneRun(s, step, r, q);
      }
    }
  }

  ghost predicate NeverFailsLiveRun(run: seq<System>, steps: seq<Step>)
    requires |run| == |steps| + 1
  {
    forall i :: 0 <= i < |steps| ==> !FailsLiveRun(run[i], steps[i])
  }

  /** Mutual exclusion: over every run whose live fetches stay timely, a submission has at most one
      live fetch, which holds a FETCHING row that no claim and no recovery can take. */
  lemma {:induction false} OneRunPerSubmission(run: seq<System>, steps: seq<Step>, k: nat)
    requires IsRun(run, steps) && Init(run[0]) && NeverFailsLiveRun(run, steps) && k < |run|
    requires forall i :: 0 <= i < |run| ==> Timely(run[i])
    ensures Exclusive(run[k])
    ensures forall r :: r in run[k].runs ==>
              run[k].runs[r].submission in run[k].rows && !Claimable(run[k].rows[run[k].runs[r].submission], run[k].clock)
  {
    hide Next, Can, Timely, FailsLiveRun;
    if k > 0 {
      OneRunPerSubmission(run, steps, k - 1);
      StepKeepsLease(run[k - 1], steps[k - 1]);
    }
    forall r | r in run[k].runs ensures !Claimable(run[k].rows[run[k].runs[r].submission], run[k].clock) {
      TimelyRunsAreFresh(run[k], r);
    }
  }

  lemma TimelyRunsAreFresh(s: System, r: RunId)
    requires Timely(s) && Exclusive(s) && r in s.runs
    ensures !Claimable(s.rows[s.runs[r].submission], s.clock)
    ensures forall hasExecutor ::
      Recovered(s.rows[s.runs[r].submission], hasExecutor, s.clock) == s.rows[s.runs[r].submission]
  {
  }

  lemma Append(run: seq<System>, steps: seq<Step>, step: Step)
    requires IsRun(run, steps) && Can(run[|steps|], step)
    ensures IsRun(run + [Next(run[|steps|], step)], steps + [step])
  {
    hide Can, Next;
  }

  /** Run 1 holds submission 0. */
  predicate HeldByOne(s: System) {
    s.rows.Keys == {0} && s.rows[0].status == Fetching && s.runs == map[1 := Run(0, 0)] && s.clock == 0
    && 0 in s.queueing
  }

  lemma FetchedRow() returns (run: seq<System>, steps: seq<Step>)
    ensures IsRun(run, steps) && |steps| == 3 && |run| == 4 && Init(run[0]) && forall i :: 0 <= i < |run| ==> Timely(run[i])
    ensures var s := run[3];
      && s.rows.Keys == {0} && s.rows[0].status == Fetched && s.runs == map[] && s.clock == 0
      && 0 in s.queueing && 0 in s.tails
  {
    var s0 := System(map[], map[], multiset{}, multiset{}, 0);
    var s1 := Next(s0, Create(0));
    var s2 := Next(s1, Claim(0, 0));
    assert s2.rows == map[0 := MarkFetching(Created(0), 0)];
    var s3 := Next(s2, Finish(0));
    assert s3.runs == map[];
    run, steps := [s0, s1, s2, s3], [Create(0), Claim(0, 0), Finish(0)];
  }

  /** Run 1 holds submission 0 while an earlier run of it is still cleaning up: a stray write that met no
      run failed the fetched row in between, and it was retried. */
  lemma ClaimedDuringTail() returns (run: seq<System>, steps: seq<Step>)
    ensures IsRun(run, steps) && |steps| == 6 && |run| == 7 && Init(run[0]) && forall i :: 0 <= i < |run| ==> Timely(run[i])
    ensures HeldByOne(run[6]) && 0 in run[6].tails
  {
    run, steps := FetchedRow();
    var s4 := Next(run[3], ClaimRaised(0));
    Append(run, steps, ClaimRaised(0));
    var s5 := Next(s4, Retry(0));
    Append(run + [s4], steps + [ClaimRaised(0)], Retry(0));
    var s6 := Next(s5, Claim(1, 0));
    Append(run + [s4] + [s5], steps + [ClaimRaised(0)] + [Retry(0)], Claim(1, 0));
    hide IsRun;
    run, steps := run + [s4] + [s5] + [s6], steps + [ClaimRaised(0)] + [Retry(0)] + [Claim(1, 0)];
  }

  /** A state in which run 1 holds submission 0 and the stray write can happen. */
  lemma ClaimedRow(stray: Step) returns (run: seq<System>, steps: seq<Step>)
    requires Stray(stray) && stray.s == 0
    ensures IsRun(run, steps) && |run| == |steps| + 1 && Init(run[0]) && forall i :: 0 <= i < |run| ==> Timely(run[i])
    ensures HeldByOne(run[|steps|]) && Can(run[|steps|], stray)
  {
    if stray.TailRaised? {
      run, steps := ClaimedDuringTail();
    } else {
      var s0 := System(map[], map[], multiset{}, multiset{}, 0);
      var s1 := Next(s0, Create(0));
      var s2 := Next(s1, Claim(1, 0));
      assert s2.rows == map[0 := MarkFetching(Created(0), 0)];
      run, steps := [s0, s1, s2], [Create(0), Claim(1, 0)];
    }
  }

  lemma FailedUnderItsRun(stray: Step) returns (run: seq<System>, steps: seq<Step>)
    requires Stray(stray) && stray.s == 0
    ensures IsRun(run, steps) && |run| == |steps| + 1 && Init(run[0])
    ensures stray in steps && forall i :: 0 <= i < |run| ==> Timely(run[i])
    ensures var s := run[|steps|];
      s.rows.Keys == {0} && s.rows[0].status == Failed && s.runs == map[1 := Run(0, 0)] && s.clock == 0
  {
    run, steps := ClaimedRow(stray);
    var s := Next(run[|steps|], stray);
    Append(run, steps, stray);
    hide IsRun;
    run, steps := run + [s], steps + [stray];
  }

  /** Without that condition exclusion fails, in each of the three ways: the stray write fails the row
      under its run; it is retried, and claimed by a second run. */
  lemma TwoRunsAtOnce(stray: Step) returns (run: seq<System>, steps: seq<Step>)
    requires Stray(stray) && stray.s == 0
    ensures IsRun(run, steps) && Init(run[0]) && (forall i :: 0 <= i < |run| ==> Timely(run[i])) && stray in steps
    ensures var last := run[|steps|];
      1 in last.runs && 2 in last.runs && last.runs[1].submission == last.runs[2].submission
  {
    run, steps := FailedUnderItsRun(stray);
    hide IsRun;
    var s4 := Next(run[|steps|], Retry(0));
    Append(run, steps, Retry(0));
    var s5 := Next(s4, Claim(2, 0));
    Append(run + [s4], steps + [Retry(0)], Claim(2, 0));
    assert s5.runs == map[1 := Run(0, 0), 2 := Run(0, 0)];
    run, steps := run + [s4] + [s5], steps + [Retry(0)] + [Claim(2, 0)];
    LengthOfRun(run, steps);
  }

  lemma LengthOfRun(run: seq<System>, steps: seq<Step>)
    requires IsRun(run, steps)
    ensures |run| == |steps| + 1
  {
  }

  // ---- bounded automatic resumes ----

  predicate Resumes(s: System, step: Step, id: SubmissionId) {
    step.Recover? && id in s.rows && IsResumed(s.rows[id], step.hasExecutor, s.clock)
  }

  predicate Fetches(s: System, step: Step, id: SubmissionId) {
    step.Finish? && step.r in s.runs && s.runs[step.r].submission == id
  }

  /** Automatic resumes of a submission since it was last marked fetched. */
  function ResumesSinceFetched(run: seq<System>, steps: seq<Step>, id: SubmissionId, k: nat): nat
    requires k <= |steps| && |run| == |steps| + 1
  {
    if k == 0 then 0
    else if Fetches(run[k - 1], steps[k - 1], id) then 0
    else ResumesSinceFetched(run, steps, id, k - 1) + (if Resumes(run[k - 1], steps[k - 1], id) then 1 else 0)
  }

  lemma StepCountsResumes(s: System, step: Step, id: SubmissionId)
    requires Can(s, step) && id in Next(s, step).rows
    requires id in s.rows ==> s.rows[id].attempts <= MAX_FETCH_RESUMES
    ensures var attempts := Next(s, step).rows[id].attempts;
      && attempts <= MAX_FETCH_RESUMES
      && attempts == if id !in s.rows || Fetches(s, step, id) then 0
                     else s.rows[id].attempts + (if Resumes(s, step, id) then 1 else 0)
  {
  }

  lemma NoEventsBeforeCreation(s: System, step: Step, id: SubmissionId)
    requires Can(s, step) && id !in s.rows
    ensures !Resumes(s, step, id) && !Fetches(s, step, id)
  {
  }

  lemma RowsStay(s: System, step: Step, id: SubmissionId)
    requires Can(s, step) && id in s.rows
    ensures id in Next(s, step).rows
  {
  }

  /** Auto-resume bound: over every run, manual retries included, `fetch_attempts` is the number of
      automatic resumes since the last successful fetch, and never more than three. */
  lemma {:induction false} ResumesBounded(run: seq<System>, steps: seq<Step>, id: SubmissionId, k: nat)
    requires IsRun(run, steps) && Init(run[0]) && k < |run|
    ensures if id in run[k].rows
            then run[k].rows[id].attempts == ResumesSinceFetched(run, steps, id, k) <= MAX_FETCH_RESUMES
            else ResumesSinceFetched(run, steps, id, k) == 0
  {
    hide Next, Can, Resumes, Fetches;
    if k > 0 {
      ResumesBounded(run, steps, id, k - 1);
      if id !in run[k - 1].rows {
        NoEventsBeforeCreation(run[k - 1], steps[k - 1], id);
      } else {
        RowsStay(run[k - 1], steps[k - 1], id);
      }
      if id in run[k].rows {
        StepCountsResumes(run[k - 1], steps[k - 1], id);
      }
    }
  }

  /** When the resumes are used up, the next recovery pass that finds the run stale fails it. */
  lemma FailsWhenUsedUp(run: seq<System>, steps: seq<Step>, id: SubmissionId, k: nat)
    requires IsRun(run, steps) && Init(run[0]) && k < |steps| && steps[k].Recover?
    requires id in run[k].rows && Stale(run[k].rows[id], run[k].clock)
    ensures id in run[k + 1].rows
    ensures run[k + 1].rows[id].status
         == if steps[k].hasExecutor && ResumesSinceFetched(run, steps, id, k) < MAX_FETCH_RESUMES then Pending else Failed
  {
    hide ResumesSinceFetched, NextRuns, Init;
    ResumesBounded(run, steps, id, k);
  }
}
