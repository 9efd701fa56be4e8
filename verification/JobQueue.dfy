/** The leased, fenced job queue of apps/jobs/queue.py. Times are microseconds; every operation reads the database
    clock once. */
module JobQueue {
  import opened Prelude

  const MINUTE: Time := 60 * 1_000_000
  const JOB_LEASE: Time := 10 * MINUTE
  const MAX_ATTEMPTS := 5

  datatype JobType = RiskReassessment | ReportGeneration | CatalogRefresh | AuditBatchSeal

  datatype Status = Queued | Running | Completed | Failed

  /** The three error columns: the two errors that the code itself writes, with the texts they stand for, and any
      other that a caller may report. */
  datatype ErrorInfo =
    // lease_expired: The worker lease expired before completion. (worker_lease_expired)
    | LeaseExpired
    // job_execution_failed: The background operation failed and may be retried.
    | JobExecutionFailed(fingerprint: string)
    | OtherError(code: string, safeSummary: string, fingerprint: string)

  /** Code, summary and fingerprint are all given. */
  predicate HasDetails(error: ErrorInfo) {
    match error
    case LeaseExpired => true
    case JobExecutionFailed(fingerprint) => fingerprint != ""
    case OtherError(code, safeSummary, fingerprint) => code != "" && safeSummary != "" && fingerprint != ""
  }

  datatype Job = Job(
    organization: Uuid,
    jobType: JobType,
    payloadIsEmpty: bool,
    priority: int,
    status: Status,
    attempts: nat,
    availableAt: Time,
    lockedAt: Option<Time>,
    lockExpiresAt: Option<Time>,
    lockedBy: Option<string>,
    claimToken: Option<Uuid>,
    completedAt: Option<Time>,
    error: Option<ErrorInfo>)

  type Jobs = map<Uuid, Job>

  datatype ClaimedJob = ClaimedJob(
    id: Uuid, organization: Uuid, jobType: JobType, payloadIsEmpty: bool, attempts: nat, claimToken: Uuid)

  datatype QueueError = LostJobLease | MissingErrorDetails

  function NewJob(organization: Uuid, jobType: JobType, payloadIsEmpty: bool, priority: int, now: Time): Job {
    Job(organization, jobType, payloadIsEmpty, priority, Queued, 0, now, None, None, None, None, None, None)
  }

  // ---------------------------------------------------------------- claim

  predicate Claimable(job: Job, now: Time) {
    job.status == Queued && job.availableAt <= now
  }

  /** ORDER BY priority, available_at, id */
  predicate ClaimsBefore(a: Job, aId: Uuid, b: Job, bId: Uuid) {
    a.priority < b.priority
    || (a.priority == b.priority
        && (a.availableAt < b.availableAt || (a.availableAt == b.availableAt && aId <= bId)))
  }

  /** The jobs that a claim may take: SKIP LOCKED passes over rows that other transactions hold. */
  predicate Candidate(jobs: Jobs, now: Time, skipped: set<Uuid>, id: Uuid) {
    id in jobs && id !in skipped && Claimable(jobs[id], now)
  }

  ghost predicate FirstCandidate(jobs: Jobs, now: Time, skipped: set<Uuid>, id: Uuid) {
    && Candidate(jobs, now, skipped, id)
    && forall other :: Candidate(jobs, now, skipped, other) ==> ClaimsBefore(jobs[id], id, jobs[other], other)
  }

  function Take(job: Job, workerId: string, token: Uuid, now: Time, lease: Time): Job {
    job.(status := Running, lockedBy := Some(workerId), lockedAt := Some(now), lockExpiresAt := Some(now + lease),
         claimToken := Some(token), attempts := job.attempts + 1)
  }

  function AsClaimed(job: Job, id: Uuid, token: Uuid): ClaimedJob {
    ClaimedJob(id, job.organization, job.jobType, job.payloadIsEmpty, job.attempts + 1, token)
  }

  /** A claim takes the first candidate, or nothing when there is none. */
  ghost predicate ClaimsNext(
    jobs: Jobs, jobs': Jobs, workerId: string, token: Uuid, now: Time, lease: Time, skipped: set<Uuid>,
    r: Option<ClaimedJob>)
  {
    match r
    case None => jobs' == jobs && forall id :: !Candidate(jobs, now, skipped, id)
    case Some(claimed) =>
      && FirstCandidate(jobs, now, skipped, claimed.id)
      && claimed == AsClaimed(jobs[claimed.id], claimed.id, token)
      && jobs' == jobs[claimed.id := Take(jobs[claimed.id], workerId, token, now, lease)]
  }

  // ------------------------------------------------------- fenced updates

  /** WHERE id = … AND status = 'running' AND locked_by = … AND claim_token = … AND lock_expires_at > now */
  predicate HoldsLease(jobs: Jobs, id: Uuid, workerId: string, token: Uuid, now: Time) {
    && id in jobs
    && jobs[id].status == Running
    && jobs[id].lockedBy == Some(workerId)
    && jobs[id].claimToken == Some(token)
    && jobs[id].lockExpiresAt.Some?
    && jobs[id].lockExpiresAt.value > now
  }

  function Release(job: Job): Job {
    job.(lockedAt := None, lockExpiresAt := None, lockedBy := None, claimToken := None)
  }

  function CompleteRow(job: Job, now: Time): Job {
    Release(job).(status := Completed, completedAt := Some(now), availableAt := now)
  }

  function Complete(jobs: Jobs, id: Uuid, workerId: string, token: Uuid, now: Time): (Jobs, Result<(), QueueError>) {
    if HoldsLease(jobs, id, workerId, token, now) then (jobs[id := CompleteRow(jobs[id], now)], Ok(()))
    else (jobs, Err(LostJobLease))
  }

  function Heartbeat(jobs: Jobs, id: Uuid, workerId: string, token: Uuid, now: Time, lease: Time)
    : (Jobs, Result<(), QueueError>)
  {
    if HoldsLease(jobs, id, workerId, token, now) then
      (jobs[id := jobs[id].(lockExpiresAt := Some(now + lease))], Ok(()))
    else (jobs, Err(LostJobLease))
  }

  function Backoff(attempts: nat): Time {
    match attempts
    case 1 => 1 * MINUTE
    case 2 => 5 * MINUTE
    case 3 => 30 * MINUTE
    case 4 => 120 * MINUTE
    case _ => 0
  }

  /** Back to the queue, or to the terminal state after the fifth attempt. */
  function GiveBack(job: Job, now: Time, delay: Time, error: ErrorInfo): Job {
    Release(job).(
      status := if job.attempts >= 5 then Failed else Queued,
      availableAt := now + delay,
      completedAt := if job.attempts >= 5 then Some(now) else None,
      error := Some(error))
  }

  function Fail(jobs: Jobs, id: Uuid, workerId: string, token: Uuid, now: Time, error: ErrorInfo)
    : (Jobs, Result<(), QueueError>)
  {
    if !HasDetails(error) then (jobs, Err(MissingErrorDetails))
    else if HoldsLease(jobs, id, workerId, token, now) then
      (jobs[id := GiveBack(jobs[id], now, Backoff(jobs[id].attempts), error)], Ok(()))
    else (jobs, Err(LostJobLease))
  }

  /** WHERE status = 'running' AND lock_expires_at < now */
  predicate Expired(job: Job, now: Time) {
    job.status == Running && job.lockExpiresAt.Some? && job.lockExpiresAt.value < now
  }

  function RecoverRow(job: Job, now: Time): Job {
    if Expired(job, now) then GiveBack(job, now, 0, LeaseExpired) else job
  }

  function Recover(jobs: Jobs, now: Time): Jobs {
    map id | id in jobs :: RecoverRow(jobs[id], now)
  }

  function ExpiredIds(jobs: Jobs, now: Time): set<Uuid> {
    set id | id in jobs && Expired(jobs[id], now)
  }

  function Enqueue(jobs: Jobs, id: Uuid, job: Job): Jobs {
    if id in jobs then jobs else jobs[id := job]
  }

  // -------------------------------------------- the effects, by columns

  predicate Unlocked(job: Job) {
    job.lockedAt.None? && job.lockExpiresAt.None? && job.lockedBy.None? && job.claimToken.None?
  }

  /** The columns that are written once. */
  predicate SameTask(a: Job, b: Job) {
    && a.organization == b.organization && a.jobType == b.jobType && a.payloadIsEmpty == b.payloadIsEmpty
    && a.priority == b.priority
  }

  ghost predicate OthersKept(jobs: Jobs, jobs': Jobs, id: Uuid) {
    jobs'.Keys == jobs.Keys && forall other :: other in jobs && other != id ==> jobs'[other] == jobs[other]
  }

  /** A new row: queued, never tried, available at once. */
  ghost predicate Enqueued(
    jobs: Jobs, jobs': Jobs, id: Uuid, organization: Uuid, jobType: JobType, payloadIsEmpty: bool, priority: int,
    now: Time)
  {
    && jobs'.Keys == jobs.Keys + {id}
    && (forall other :: other in jobs ==> other != id && jobs'[other] == jobs[other])
    && var job := jobs'[id];
       && job.organization == organization && job.jobType == jobType && job.payloadIsEmpty == payloadIsEmpty
       && job.priority == priority && job.status == Queued && job.attempts == 0 && job.availableAt == now
       && Unlocked(job) && job.completedAt.None? && job.error.None?
  }

  /** A claim holds the row from now until now + lease, and counts as one more attempt. */
  ghost predicate Claimed(
    jobs: Jobs, jobs': Jobs, c: ClaimedJob, workerId: string, token: Uuid, now: Time, lease: Time)
  {
    && c.id in jobs && OthersKept(jobs, jobs', c.id)
    && var job, job' := jobs[c.id], jobs'[c.id];
       && job.status == Queued && job.availableAt <= now
       && SameTask(job, job') && job'.status == Running && job'.attempts == job.attempts + 1
       && job'.availableAt == job.availableAt && job'.completedAt == job.completedAt && job'.error == job.error
       && job'.lockedAt == Some(now) && job'.lockExpiresAt == Some(now + lease)
       && job'.lockedBy == Some(workerId) && job'.claimToken == Some(token)
       && c.organization == job.organization && c.jobType == job.jobType && c.payloadIsEmpty == job.payloadIsEmpty
       && c.attempts == job'.attempts && c.claimToken == token
  }

  /** Every other row that the claim might have taken has a larger priority number, or the same and became available
      later, or ties in both and has a larger id. */
  ghost predicate ComesFirst(jobs: Jobs, id: Uuid, skipped: set<Uuid>, now: Time)
    requires id in jobs
  {
    && id !in skipped
    && forall other :: other in jobs && other !in skipped && other != id
                       && jobs[other].status == Queued && jobs[other].availableAt <= now ==>
         && jobs[id].priority <= jobs[other].priority
         && (jobs[id].priority == jobs[other].priority ==>
               && jobs[id].availableAt <= jobs[other].availableAt
               && (jobs[id].availableAt == jobs[other].availableAt ==> id < other))
  }

  /** Every queued row is locked elsewhere or not yet available. */
  ghost predicate NoneComes(jobs: Jobs, skipped: set<Uuid>, now: Time) {
    forall id :: id in jobs && jobs[id].status == Queued && id !in skipped ==> now < jobs[id].availableAt
  }

  /** The row runs under this worker and this token, and its lease has not run out. */
  predicate IsHeldBy(jobs: Jobs, id: Uuid, workerId: string, token: Uuid, now: Time) {
    id in jobs && jobs[id].status == Running && jobs[id].lockedBy == Some(workerId)
    && jobs[id].claimToken == Some(token) && jobs[id].lockExpiresAt.Some? && now < jobs[id].lockExpiresAt.value
  }

  ghost predicate CompletedAt(jobs: Jobs, jobs': Jobs, id: Uuid, now: Time) {
    && id in jobs && OthersKept(jobs, jobs', id)
    && var job, job' := jobs[id], jobs'[id];
       && SameTask(job, job') && job'.attempts == job.attempts && job'.error == job.error
       && job'.status == Completed && job'.completedAt == Some(now) && job'.availableAt == now && Unlocked(job')
  }

  /** Only the expiry moves, to now + lease. */
  ghost predicate Renewed(jobs: Jobs, jobs': Jobs, id: Uuid, now: Time, lease: Time) {
    && id in jobs && OthersKept(jobs, jobs', id)
    && jobs'[id].lockExpiresAt == Some(now + lease)
    && jobs'[id] == jobs[id].(lockExpiresAt := jobs'[id].lockExpiresAt)
  }

  /** The row is back in the queue from the given time on, or failed for good at its fifth attempt, without a lock. */
  ghost predicate GivenBack(job: Job, job': Job, now: Time, availableAt: Time, error: ErrorInfo) {
    && SameTask(job, job') && job'.attempts == job.attempts && Unlocked(job')
    && job'.availableAt == availableAt && job'.error == Some(error)
    && (job.attempts < 5 ==> job'.status == Queued && job'.completedAt.None?)
    && (job.attempts >= 5 ==> job'.status == Failed && job'.completedAt == Some(now))
  }

  /** Failures 1 to 4 wait 1, 5, 30 and 120 minutes; later ones do not wait. */
  ghost predicate FailedAt(jobs: Jobs, jobs': Jobs, id: Uuid, now: Time, error: ErrorInfo) {
    && id in jobs && OthersKept(jobs, jobs', id)
    && var n := jobs[id].attempts;
       var delay := if n == 1 then 60 else if n == 2 then 300 else if n == 3 then 1800 else if n == 4 then 7200 else 0;
       GivenBack(jobs[id], jobs'[id], now, now + delay * 1_000_000, error)
  }

  /** Every row that ran with an expiry before now is given back at once; every other row is as it was. */
  ghost predicate Recovered(jobs: Jobs, jobs': Jobs, now: Time) {
    && jobs'.Keys == jobs.Keys
    && forall id :: id in jobs ==> RecoveredRow(jobs[id], jobs'[id], now)
  }

  ghost function ChangedRows(jobs: Jobs, jobs': Jobs): set<Uuid>
    requires jobs.Keys == jobs'.Keys
  {
    set id | id in jobs && jobs'[id] != jobs[id]
  }

  ghost predicate RecoveredRow(job: Job, job': Job, now: Time) {
    if job.status == Running && job.lockExpiresAt.Some? && job.lockExpiresAt.value < now then
      GivenBack(job, job', now, now, LeaseExpired)
    else job' == job
  }

  // ------------------------------------------------------------ the table

  class BackgroundJobs {
    var jobs: Jobs

    constructor ()
      ensures jobs == map[]
    {
      jobs := map[];
    }

    /** Stores a new row; false stands for the primary-key violation of an id that is taken. */
    method EnqueueJob(id: Uuid, organization: Uuid, jobType: JobType, payloadIsEmpty: bool, priority: int, now: Time)
      returns (stored: bool)
      modifies this
      ensures stored == (id !in old(jobs))
      ensures jobs == Enqueue(old(jobs), id, NewJob(organization, jobType, payloadIsEmpty, priority, now))
      ensures if stored then Enqueued(old(jobs), jobs, id, organization, jobType, payloadIsEmpty, priority, now)
              else jobs == old(jobs)
    {
      if id in jobs {
        return false;
      }
      jobs := jobs[id := NewJob(organization, jobType, payloadIsEmpty, priority, now)];
      return true;
    }

    method ClaimNextJob(workerId: string, token: Uuid, now: Time, lease: Time, skipped: set<Uuid>)
      returns (r: Option<ClaimedJob>)
      modifies this
      ensures ClaimsNext(old(jobs), jobs, workerId, token, now, lease, skipped, r)
      ensures r.Some? ==>
                && Claimed(old(jobs), jobs, r.value, workerId, token, now, lease)
                && ComesFirst(old(jobs), r.value.id, skipped, now)
      ensures r.None? ==> jobs == old(jobs) && NoneComes(jobs, skipped, now)
    {
      var rest := jobs.Keys;
      var best: Option<Uuid> := None;
      while rest != {}
        invariant rest <= jobs.Keys
        invariant best.None? ==> forall id :: id in jobs.Keys - rest ==> !Candidate(jobs, now, skipped, id)
        invariant best.Some? ==> Candidate(jobs, now, skipped, best.value)
        invariant best.Some? ==>
          forall id :: id in jobs.Keys - rest && Candidate(jobs, now, skipped, id) ==>
            ClaimsBefore(jobs[best.value], best.value, jobs[id], id)
        invariant unchanged(this)
        decreases rest
      {
        var id :| id in rest;
        rest := rest - {id};
        if Candidate(jobs, now, skipped, id) {
          if best.None? || ClaimsBefore(jobs[id], id, jobs[best.value], best.value) {
            best := Some(id);
          }
        }
      }
      if best.None? {
        assert forall id :: id in jobs ==> !Candidate(jobs, now, skipped, id);
        return None;
      }
      assert forall id :: Candidate(jobs, now, skipped, id) ==>
          ClaimsBefore(jobs[best.value], best.value, jobs[id], id);
      var job := jobs[best.value];
      jobs := jobs[best.value := Take(job, workerId, token, now, lease)];
      return Some(AsClaimed(job, best.value, token));
    }

    method CompleteJobWithFence(id: Uuid, workerId: string, token: Uuid, now: Time)
      returns (r: Result<(), QueueError>)
      modifies this
      ensures (jobs, r) == Complete(old(jobs), id, workerId, token, now)
      ensures r.Ok? <==> IsHeldBy(old(jobs), id, workerId, token, now)
      ensures if r.Ok? then CompletedAt(old(jobs), jobs, id, now) else r.error == LostJobLease && jobs == old(jobs)
    {
      if !HoldsLease(jobs, id, workerId, token, now) {
        return Err(LostJobLease);
      }
      jobs := jobs[id := CompleteRow(jobs[id], now)];
      return Ok(());
    }

    method HeartbeatJobWithFence(id: Uuid, workerId: string, token: Uuid, now: Time, lease: Time)
      returns (r: Result<(), QueueError>)
      modifies this
      ensures (jobs, r) == Heartbeat(old(jobs), id, workerId, token, now, lease)
      ensures r.Ok? <==> IsHeldBy(old(jobs), id, workerId, token, now)
      ensures if r.Ok? then Renewed(old(jobs), jobs, id, now, lease) else r.error == LostJobLease && jobs == old(jobs)
    {
      if !HoldsLease(jobs, id, workerId, token, now) {
        return Err(LostJobLease);
      }
      jobs := jobs[id := jobs[id].(lockExpiresAt := Some(now + lease))];
      return Ok(());
    }

    method FailJobWithFence(id: Uuid, workerId: string, token: Uuid, now: Time, error: ErrorInfo)
      returns (r: Result<(), QueueError>)
      modifies this
      ensures (jobs, r) == Fail(old(jobs), id, workerId, token, now, error)
      ensures r == Err(MissingErrorDetails) <==> !HasDetails(error)
      ensures r.Ok? <==> HasDetails(error) && IsHeldBy(old(jobs), id, workerId, token, now)
      ensures if r.Ok? then FailedAt(old(jobs), jobs, id, now, error) else jobs == old(jobs)
    {
      if !HasDetails(error) {
        return Err(MissingErrorDetails);
      }
      if !HoldsLease(jobs, id, workerId, token, now) {
        return Err(LostJobLease);
      }
      jobs := jobs[id := GiveBack(jobs[id], now, Backoff(jobs[id].attempts), error)];
      return Ok(());
    }

    method RecoverExpiredJobs(now: Time) returns (recovered: nat)
      modifies this
      ensures jobs == Recover(old(jobs), now)
      ensures Recovered(old(jobs), jobs, now)
      ensures recovered == |ChangedRows(old(jobs), jobs)|
    {
      recovered := |ExpiredIds(jobs, now)|;
      assert ExpiredIds(jobs, now) == ChangedRows(jobs, Recover(jobs, now));
      jobs := map id | id in jobs :: RecoverRow(jobs[id], now);
    }
  }
}
