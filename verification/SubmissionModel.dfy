/** OneDrive submissions as database rows, and what each repository function writes to a row. */
module SubmissionModel {
  import opened Wrappers

  type Time = int // seconds

  type SubmissionId = nat

  const STALE_HEARTBEAT: Time := 600
  const LOST_PENDING_AFTER: Time := 3 * 3600
  const MAX_FETCH_RESUMES: nat := 3

  datatype Status = Pending | Fetching | Fetched | Failed

  datatype Submission = Submission(
    status: Status,
    updatedAt: Time,
    attempts: nat,
    fetchedAt: Option<Time>,
    errorCode: Option<string>)

  type Rows = map<SubmissionId, Submission>

  // ---- what each update writes to a row ----

  function Created(now: Time): Submission {
    Submission(Pending, now, 0, None, None)
  }

  /** A FETCHING row whose run has stopped heartbeating. */
  predicate Stale(row: Submission, now: Time) {
    row.status == Fetching && row.updatedAt < now - STALE_HEARTBEAT
  }

  predicate Lost(row: Submission, now: Time) {
    row.status == Pending && row.updatedAt < now - LOST_PENDING_AFTER
  }

  predicate Claimable(row: Submission, now: Time) {
    row.status == Pending || Stale(row, now)
  }

  function MarkFetching(row: Submission, now: Time): Submission {
    row.(status := Fetching, updatedAt := now)
  }

  function MarkFetched(row: Submission, now: Time): Submission {
    row.(status := Fetched, attempts := 0, fetchedAt := Some(now), updatedAt := now)
  }

  function MarkFailed(row: Submission, code: string, now: Time): Submission {
    row.(status := Failed, errorCode := Some(code), fetchedAt := Some(now), updatedAt := now)
  }

  function MarkPendingForRetry(row: Submission, now: Time): Submission {
    row.(status := Pending, errorCode := None, fetchedAt := None, updatedAt := now)
  }

  /** A stale row is handed back to be run again, a bounded number of times, and then failed. */
  function ResumedOrFailed(row: Submission, maxAttempts: nat, now: Time): Submission {
    if !Stale(row, now) then row
    else if row.attempts < maxAttempts
    then row.(status := Pending, attempts := row.attempts + 1, updatedAt := now)
    else MarkFailed(row, "PROCESSING_INTERRUPTED", now)
  }

  function Requeued(row: Submission, now: Time): Submission {
    if Lost(row, now) then row.(updatedAt := now) else row
  }

  /** What one recovery pass does to a row; without an executor nothing is resumed or requeued. */
  function Recovered(row: Submission, hasExecutor: bool, now: Time): Submission {
    var resumed := ResumedOrFailed(row, if hasExecutor then MAX_FETCH_RESUMES else 0, now);
    if hasExecutor then Requeued(resumed, now) else resumed
  }

  predicate IsResumed(row: Submission, hasExecutor: bool, now: Time) {
    hasExecutor && Stale(row, now) && row.attempts < MAX_FETCH_RESUMES
  }

  predicate GetsTask(row: Submission, hasExecutor: bool, now: Time) {
    IsResumed(row, hasExecutor, now) || (hasExecutor && Lost(row, now))
  }
}
