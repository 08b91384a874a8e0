/** The `jobs` table of gobble and the atomic statements that workers issue
    against it: the versioned UPDATE and DELETE that gorp generates, the INSERT,
    and the unversioned UPDATE of `Unlock`.

    Every member here is one SQL statement.  Module GorpJobs shows that the
    plans gorp builds for `Job` really execute as `CasUpdate` and `CasDelete`;
    module JobQueue interleaves the statements of any number of workers. */
module JobTable {

  /** gobble.Job.  `shouldRetry` has the tag `db:"-"`: it lives in the copy only. */
  datatype Job = Job(
    id: int, workerID: string, payload: string, version: int,
    retryCount: int, activeAt: int, shouldRetry: bool)

  /** The stored columns of a job, other than its key. */
  datatype Row = Row(workerID: string, payload: string, version: int, retryCount: int, activeAt: int)

  type Table = map<int, Row>

  function Store(j: Job): Row {
    Row(j.workerID, j.payload, j.version, j.retryCount, j.activeAt)
  }

  /** What SELECT reads back into a fresh struct. */
  function Load(id: int, r: Row): Job {
    Job(id, r.workerID, r.payload, r.version, r.retryCount, r.activeAt, false)
  }

  /** gobble.NewJob */
  function NewJob(payload: string): Job {
    Job(0, "", payload, 0, 0, 0, false)
  }

  /** The row gorp's INSERT stores: the version argument is the field plus one. */
  function InsertedRow(j: Job): Row {
    Store(j).(version := j.version + 1)
  }

  datatype Outcome =
    | Written(table: Table, job: Job)   // one row matched
    | Unmatched(job: Job)               // no row matched and the version was not positive: gorp reports no error
    | LockError(rowExists: bool)

  predicate Matches(t: Table, j: Job) {
    j.id in t && t[j.id].version == j.version
  }

  function Bumped(j: Job): Job {
    j.(version := j.version + 1)
  }

  /** gorp's versioned UPDATE.  A copy that was never loaded (version 0) is not
      protected: it matches a row of version 1 and is not told when it misses. */
  function CasUpdate(t: Table, j: Job): Outcome {
    if Matches(t, if j.version == 0 then j.(version := 1) else j) then
      Written(t[j.id := Store(Bumped(j))], Bumped(j))
    else if j.version > 0 then LockError(j.id in t)
    else Unmatched(Bumped(j))
  }

  function CasDelete(t: Table, j: Job): Outcome {
    if Matches(t, j) then Written(t - {j.id}, j)
    else if j.version > 0 then LockError(j.id in t)
    else Unmatched(j)
  }

  /** UPDATE jobs SET worker_id = "" WHERE worker_id != "" */
  function Unlocked(t: Table): Table {
    map id | id in t :: t[id].(workerID := "")
  }

  /** The WHERE clause of findJob. */
  predicate Available(r: Row, now: int) {
    r.workerID == "" && r.activeAt <= now
  }

  /** Job.Retry */
  function Retried(j: Job, now: int, duration: int): Job {
    j.(workerID := "", retryCount := j.retryCount + 1, activeAt := now + duration, shouldRetry := true)
  }

  function Pow2(k: nat): (r: nat)
    ensures r >= 1
  {
    if k == 0 then 1 else 2 * Pow2(k - 1)
  }

  const MAX_RETRIES := 10

  /** int64(math.Pow(2, float64(k))): a negative power truncates to zero. */
  function Delay(k: int): nat {
    if k < 0 then 0 else Pow2(k)
  }

  /** DeliveryWorker.retry: the back-off is 2^RetryCount minutes, and after ten
      retries the job is left alone (so that Perform dequeues it). */
  function Backoff(j: Job, now: int): Job {
    if j.retryCount < MAX_RETRIES then Retried(j, now, 60 * Delay(j.retryCount)) else j
  }
}
