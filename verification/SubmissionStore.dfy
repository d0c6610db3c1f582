/** The submissions table, changed in place by the repository and service functions; each method
    is proved against what it writes to every row. */
module SubmissionStore {
  import opened Wrappers
  import M = SubmissionModel
  import opened SubmissionModel

  datatype SubmissionError = NotFound | NotFailed | SubmitRaised

  /** How a delivered fetch task begins. */
  datatype Start = Missing | Skipped | Claimed | ClaimRaised

  lemma Joined(a: seq<SubmissionId>, b: seq<SubmissionId>)
    requires forall i, k :: 0 <= i < k < |a| ==> a[i] != a[k]
    requires forall i, k :: 0 <= i < k < |b| ==> b[i] != b[k]
    requires forall s :: s in a ==> s !in b
    ensures forall i, k :: 0 <= i < k < |a + b| ==> (a + b)[i] != (a + b)[k]
  {
    forall i, k | 0 <= i < k < |a + b| ensures (a + b)[i] != (a + b)[k] {
      if i < |a| <= k {
        assert a[i] in a && b[k - |a|] in b;
      }
    }
  }

  class Store {
    var rows: Rows
    // Fetch tasks handed to the executor.
    var queue: multiset<SubmissionId>

    /** One conditional UPDATE: the atomic claim of the run that is starting. */
    method ClaimForFetch(s: SubmissionId, now: Time) returns (claimed: bool)
      modifies this`rows
      ensures claimed <==> s in old(rows) && Claimable(old(rows)[s], now)
      ensures rows == if claimed then old(rows)[s := MarkFetching(old(rows)[s], now)] else old(rows)
      ensures claimed <==>
        && s in old(rows)
        && (|| old(rows)[s].status == Pending
            || (old(rows)[s].status == Fetching && old(rows)[s].updatedAt < now - 10 * 60))
      ensures claimed ==> rows == old(rows)[s := old(rows)[s].(status := Fetching, updatedAt := now)]
    {
      var cutoff := now - STALE_HEARTBEAT;
      claimed := s in rows && (rows[s].status == Pending || (rows[s].status == Fetching && rows[s].updatedAt < cutoff));
      if claimed {
        rows := rows[s := rows[s].(status := Fetching, updatedAt := now)];
      }
    }

    /** A delivered task up to its claim. An exception on the way is answered by a second transaction that
        fails the row, although this task has never held it. */
    method BeginFetch(s: SubmissionId, claimRaises: bool, now: Time) returns (start: Start)
      modifies this`rows
      ensures claimRaises ==>
        && start == ClaimRaised
        && rows == if s in old(rows) then old(rows)[s := M.MarkFailed(old(rows)[s], "INTERNAL_PROCESSING_ERROR", now)]
                   else old(rows)
      ensures !claimRaises ==>
        && start == (if s !in old(rows) then Missing else if Claimable(old(rows)[s], now) then Claimed else Skipped)
        && rows == if start.Claimed? then old(rows)[s := MarkFetching(old(rows)[s], now)] else old(rows)
    {
      if claimRaises {
        var _ := MarkFailed(s, "INTERNAL_PROCESSING_ERROR", now);
        return ClaimRaised;
      }
      if s !in rows {
        return Missing;
      }
      var claimed := ClaimForFetch(s, now);
      start := if claimed then Claimed else Skipped;
    }

    method MarkFetched(s: SubmissionId, now: Time) returns (found: bool)
      modifies this`rows
      ensures found <==> s in old(rows)
      ensures rows == if found then old(rows)[s := M.MarkFetched(old(rows)[s], now)] else old(rows)
      ensures found ==>
        rows == old(rows)[s := old(rows)[s].(status := Fetched, attempts := 0, fetchedAt := Some(now), updatedAt := now)]
    {
      found := s in rows;
      if found {
        rows := rows[s := rows[s].(status := Fetched, attempts := 0, fetchedAt := Some(now), updatedAt := now)];
      }
    }

    /** Whatever the row's status is. */
    method MarkFailed(s: SubmissionId, code: string, now: Time) returns (found: bool)
      modifies this`rows
      ensures found <==> s in old(rows)
      ensures rows == if found then old(rows)[s := M.MarkFailed(old(rows)[s], code, now)] else old(rows)
      ensures found ==>
        rows == old(rows)[s := old(rows)[s].(status := Failed, errorCode := Some(code), fetchedAt := Some(now),
                                             updatedAt := now)]
    {
      found := s in rows;
      if found {
        rows := rows[s := rows[s].(status := Failed, errorCode := Some(code), fetchedAt := Some(now), updatedAt := now)];
      }
    }

    method MarkPendingForRetry(s: SubmissionId, now: Time) returns (r: Result<(), SubmissionError>)
      modifies this`rows
      ensures r == if s !in old(rows) then Failure(NotFound)
                   else if old(rows)[s].status != Failed then Failure(NotFailed) else Success(())
      ensures rows == if r.Success? then old(rows)[s := M.MarkPendingForRetry(old(rows)[s], now)] else old(rows)
      ensures r.Success? ==>
        rows == old(rows)[s := old(rows)[s].(status := Pending, errorCode := None, fetchedAt := None, updatedAt := now)]
    {
      if s !in rows {
        return Failure(NotFound);
      }
      if rows[s].status != Failed {
        return Failure(NotFailed);
      }
      rows := rows[s := rows[s].(status := Pending, errorCode := None, fetchedAt := None, updatedAt := now)];
      r := Success(());
    }

    /** Retries a FAILED submission; a submit that raises is answered by a second transaction that
        fails the row without looking at it again. */
    method RetrySubmission(s: SubmissionId, submitRaises: bool, now: Time) returns (r: Result<(), SubmissionError>)
      modifies this
      ensures r == if s !in old(rows) then Failure(NotFound)
                   else if old(rows)[s].status != Failed then Failure(NotFailed)
                   else if submitRaises then Failure(SubmitRaised) else Success(())
      ensures r.Success? ==>
        && rows == old(rows)[s := M.MarkPendingForRetry(old(rows)[s], now)]
        && queue == old(queue) + multiset{s}
      ensures r == Failure(SubmitRaised) ==>
        && rows == old(rows)[s := M.MarkFailed(M.MarkPendingForRetry(old(rows)[s], now),
                                                         "INTERNAL_PROCESSING_ERROR", now)]
      ensures r.Failure? ==> queue == old(queue)
      ensures r.Failure? && r.error != SubmitRaised ==> rows == old(rows)
    {
      r := MarkPendingForRetry(s, now);
      if r.Failure? {
        return;
      }
      if submitRaises {
        var _ := MarkFailed(s, "INTERNAL_PROCESSING_ERROR", now);
        return Failure(SubmitRaised);
      }
      queue := queue + multiset{s};
    }

    /** The rows a query selects, in whatever order the database returns them. */
    method Select(ids: set<SubmissionId>) returns (order: seq<SubmissionId>)
      ensures forall s :: s in order <==> s in ids
      ensures forall i, k :: 0 <= i < k < |order| ==> order[i] != order[k]
    {
      order := [];
      var left := ids;
      while left != {}
        invariant left <= ids
        invariant forall s :: s in order <==> s in ids - left
        invariant forall i, k :: 0 <= i < k < |order| ==> order[i] != order[k]
      {
        var s :| s in left;
        assert s !in order;
        order := order + [s];
        left := left - {s};
      }
    }

    /** Every stale row is resumed or failed, exactly once each; `resume` and `failed` say which. */
    method ResumeOrFailStale(now: Time, maxAttempts: nat)
      returns (resume: seq<SubmissionId>, failed: seq<SubmissionId>)
      modifies this`rows
      ensures rows == map s | s in old(rows) :: ResumedOrFailed(old(rows)[s], maxAttempts, now)
      ensures forall s :: s in rows ==>
        var row := old(rows)[s];
        rows[s] == if row.status != Fetching || row.updatedAt >= now - 10 * 60 then row
                   else if row.attempts < maxAttempts
                   then row.(status := Pending, attempts := row.attempts + 1, updatedAt := now)
                   else row.(status := Failed, errorCode := Some("PROCESSING_INTERRUPTED"), fetchedAt := Some(now),
                             updatedAt := now)
      ensures forall s :: s in resume <==> s in old(rows) && Stale(old(rows)[s], now) && old(rows)[s].attempts < maxAttempts
      ensures forall s :: s in failed <==> s in old(rows) && Stale(old(rows)[s], now) && old(rows)[s].attempts >= maxAttempts
      ensures forall i, k :: 0 <= i < k < |resume| ==> resume[i] != resume[k]
    {
      var cutoff := now - STALE_HEARTBEAT;
      var stale := Select(set s | s in rows && rows[s].status == Fetching && rows[s].updatedAt < cutoff);
      resume, failed := [], [];
      for i := 0 to |stale|
        invariant rows.Keys == old(rows).Keys
        invariant forall s :: s in rows ==>
          rows[s] == if s in stale[..i] then ResumedOrFailed(old(rows)[s], maxAttempts, now) else old(rows)[s]
        invariant forall s :: s in resume <==> s in stale[..i] && s in old(rows) && old(rows)[s].attempts < maxAttempts
        invariant forall s :: s in failed <==> s in stale[..i] && s in old(rows) && old(rows)[s].attempts >= maxAttempts
        invariant forall i, k :: 0 <= i < k < |resume| ==> resume[i] != resume[k]
      {
        var s := stale[i];
        assert s in stale && s !in stale[..i] && stale[..i + 1] == stale[..i] + [s];
        var row := rows[s];
        if row.attempts < maxAttempts {
          row := row.(attempts := row.attempts + 1);
          row := row.(status := Pending, updatedAt := now);
          resume := resume + [s];
        } else {
          row := row.(status := Failed, errorCode := Some("PROCESSING_INTERRUPTED"));
          row := row.(fetchedAt := Some(now), updatedAt := now);
          failed := failed + [s];
        }
        assert row == ResumedOrFailed(old(rows)[s], maxAttempts, now);
        rows := rows[s := row];
      }
      assert stale[..|stale|] == stale;
    }

    method RequeueLost(now: Time) returns (lost: seq<SubmissionId>)
      modifies this`rows
      ensures rows == map s | s in old(rows) :: Requeued(old(rows)[s], now)
      ensures forall s :: s in rows ==>
        rows[s] == if old(rows)[s].status == Pending && old(rows)[s].updatedAt < now - 3 * 3600
                   then old(rows)[s].(updatedAt := now) else old(rows)[s]
      ensures forall s :: s in lost <==> s in old(rows) && Lost(old(rows)[s], now)
      ensures forall i, k :: 0 <= i < k < |lost| ==> lost[i] != lost[k]
    {
      var cutoff := now - LOST_PENDING_AFTER;
      lost := Select(set s | s in rows && rows[s].status == Pending && rows[s].updatedAt < cutoff);
      for i := 0 to |lost|
        invariant rows.Keys == old(rows).Keys
        invariant forall s :: s in rows ==> rows[s] == if s in lost[..i] then Requeued(old(rows)[s], now) else old(rows)[s]
      {
        assert lost[i] in lost && lost[i] !in lost[..i] && lost[..i + 1] == lost[..i] + [lost[i]];
        rows := rows[lost[i] := rows[lost[i]].(updatedAt := now)];
      }
      assert lost[..|lost|] == lost;
    }

    /** Hands each task to the executor; one that it refuses is only logged. */
    method SubmitAll(tasks: seq<SubmissionId>, accepts: SubmissionId -> bool)
      requires forall i, k :: 0 <= i < k < |tasks| ==> tasks[i] != tasks[k]
      modifies this`queue
      ensures forall s: SubmissionId :: queue[s] == old(queue)[s] + if s in tasks && accepts(s) then 1 else 0
    {
      for i := 0 to |tasks|
        invariant forall s: SubmissionId :: queue[s] == old(queue)[s] + if s in tasks[..i] && accepts(s) then 1 else 0
      {
        assert tasks[..i + 1] == tasks[..i] + [tasks[i]] && tasks[i] !in tasks[..i];
        if accepts(tasks[i]) {
          queue := queue + multiset{tasks[i]};
        }
      }
      assert tasks[..|tasks|] == tasks;
    }

    /** One recovery pass: afterwards no FETCHING row is stale, no row has waited too long, and each
        row that was resumed or lost has one more task if the executor takes it. */
    method RecoverStaleSubmissions(hasExecutor: bool, accepts: SubmissionId -> bool, now: Time)
      returns (tasks: seq<SubmissionId>, failed: seq<SubmissionId>)
      modifies this
      ensures rows == map s | s in old(rows) :: Recovered(old(rows)[s], hasExecutor, now)
      ensures forall s :: s in rows ==> !Stale(rows[s], now) && (hasExecutor ==> !Lost(rows[s], now))
      ensures forall s :: s in tasks <==> s in old(rows) && GetsTask(old(rows)[s], hasExecutor, now)
      ensures forall s :: s in failed ==> s in rows && rows[s].status == Failed
      ensures forall s: SubmissionId :: queue[s] == old(queue)[s] + if s in tasks && accepts(s) then 1 else 0
      ensures !hasExecutor ==> tasks == [] && queue == old(queue)
      ensures forall s :: s in tasks <==>
        s in old(rows) && hasExecutor && (LostInColumns(old(rows)[s], now) || ResumableInColumns(old(rows)[s], now))
      ensures forall s :: s in rows ==> rows[s] == RecoveredColumns(old(rows)[s], hasExecutor, now)
      ensures forall s :: s in rows && rows[s].status == Pending && rows[s].updatedAt != old(rows)[s].updatedAt ==>
        queue[s] == old(queue)[s] + if accepts(s) then 1 else 0
    {
      hide Recovered, GetsTask, LostInColumns, ResumableInColumns, RecoveredColumns;
      tasks, failed := RecoverRows(hasExecutor, now);
      SubmitAll(tasks, accepts);
      forall s | s in rows
        ensures rows[s] == RecoveredColumns(old(rows)[s], hasExecutor, now)
        ensures rows[s].status == Pending && rows[s].updatedAt != old(rows)[s].updatedAt ==> s in tasks
        ensures s in tasks <==>
          hasExecutor && (LostInColumns(old(rows)[s], now) || ResumableInColumns(old(rows)[s], now))
        ensures !hasExecutor ==> s !in tasks
      {
        InColumns(old(rows)[s], hasExecutor, now);
      }
      if tasks != [] {
        assert tasks[0] in tasks;
      }
    }

    /** The one transaction of the pass. */
    method RecoverRows(hasExecutor: bool, now: Time) returns (tasks: seq<SubmissionId>, failed: seq<SubmissionId>)
      modifies this`rows
      ensures rows == map s | s in old(rows) :: Recovered(old(rows)[s], hasExecutor, now)
      ensures forall s :: s in rows ==> !Stale(rows[s], now) && (hasExecutor ==> !Lost(rows[s], now))
      ensures forall s :: s in tasks <==> s in old(rows) && GetsTask(old(rows)[s], hasExecutor, now)
      ensures forall i, k :: 0 <= i < k < |tasks| ==> tasks[i] != tasks[k]
      ensures forall s :: s in failed ==> s in rows && rows[s].status == Failed
    {
      var resume;
      resume, failed := ResumeOrFailStale(now, if hasExecutor then MAX_FETCH_RESUMES else 0);
      var lost := [];
      if hasExecutor {
        lost := RequeueLost(now);
      }
      tasks := resume + lost;
      Joined(resume, lost);
    }
  }

  // ---- a recovery pass in columns ----

  predicate LostInColumns(row: Submission, now: Time) {
    row.status == Pending && row.updatedAt < now - 3 * 3600
  }

  predicate StaleInColumns(row: Submission, now: Time) {
    row.status == Fetching && row.updatedAt < now - 10 * 60
  }

  predicate ResumableInColumns(row: Submission, now: Time) {
    StaleInColumns(row, now) && row.attempts < 3
  }

  lemma InColumns(row: Submission, hasExecutor: bool, now: Time)
    ensures var r := Recovered(row, hasExecutor, now);
      && r == RecoveredColumns(row, hasExecutor, now)
      && (r.status == Pending && r.updatedAt != row.updatedAt ==> GetsTask(row, hasExecutor, now))
    ensures GetsTask(row, hasExecutor, now) <==> hasExecutor && (LostInColumns(row, now) || ResumableInColumns(row, now))
  {
  }

  function RecoveredColumns(row: Submission, hasExecutor: bool, now: Time): Submission {
    if hasExecutor && ResumableInColumns(row, now)
    then row.(status := Pending, attempts := row.attempts + 1, updatedAt := now)
    else if StaleInColumns(row, now)
    then row.(status := Failed, errorCode := Some("PROCESSING_INTERRUPTED"), fetchedAt := Some(now), updatedAt := now)
    else if hasExecutor && LostInColumns(row, now) then row.(updatedAt := now)
    else row
  }
}
