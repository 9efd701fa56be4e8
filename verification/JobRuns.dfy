/** Runs of the job queue: any number of workers, any interleaving, a clock that never goes back, and claim tokens
    that are never drawn twice. */
module JobRuns {
  import opened Prelude
  import opened JobQueue

  datatype Queue = Queue(jobs: Jobs, usedTokens: set<Uuid>, clock: Time)

  datatype Action =
    | EnqueueJob(id: Uuid, organization: Uuid, jobType: JobType, payloadIsEmpty: bool, priority: int)
    | ClaimNextJob(workerId: string, token: Uuid, lease: Time, skipped: set<Uuid>, claimed: Option<ClaimedJob>)
    | HeartbeatJob(id: Uuid, workerId: string, token: Uuid, lease: Time)
    | CompleteJob(id: Uuid, workerId: string, token: Uuid)
    | FailJob(id: Uuid, workerId: string, token: Uuid, error: ErrorInfo)
    | RecoverJobs

  datatype Event = At(now: Time, action: Action)

  ghost predicate JobsNext(jobs: Jobs, now: Time, action: Action, jobs': Jobs) {
    match action
    case EnqueueJob(id, organization, jobType, payloadIsEmpty, priority) =>
      jobs' == Enqueue(jobs, id, NewJob(organization, jobType, payloadIsEmpty, priority, now))
    case ClaimNextJob(workerId, token, lease, skipped, claimed) =>
      ClaimsNext(jobs, jobs', workerId, token, now, lease, skipped, claimed)
    case HeartbeatJob(id, workerId, token, lease) => jobs' == Heartbeat(jobs, id, workerId, token, now, lease).0
    case CompleteJob(id, workerId, token) => jobs' == Complete(jobs, id, workerId, token, now).0
    case FailJob(id, workerId, token, error) => jobs' == Fail(jobs, id, workerId, token, now, error).0
    case RecoverJobs => jobs' == Recover(jobs, now)
  }

  ghost predicate QueueNext(q: Queue, event: Event, q': Queue) {
    && q.clock <= event.now && q'.clock == event.now
    && JobsNext(q.jobs, event.now, event.action, q'.jobs)
    && if event.action.ClaimNextJob? then
         event.action.token !in q.usedTokens && q'.usedTokens == q.usedTokens + {event.action.token}
       else q'.usedTokens == q.usedTokens
  }

  datatype Trace = Trace(states: seq<Queue>, events: seq<Event>)

  ghost predicate IsTrace(trace: Trace) {
    && |trace.states| == |trace.events| + 1
    && forall i :: 0 <= i < |trace.events| ==> StepsAt(trace, i)
  }

  ghost predicate StepsAt(trace: Trace, i: nat)
    requires i < |trace.events| && i + 1 < |trace.states|
  {
    QueueNext(trace.states[i], trace.events[i], trace.states[i + 1])
  }

  // ------------------------------------------------------------- invariant

  predicate Locked(job: Job) {
    job.lockedAt.Some? && job.lockExpiresAt.Some? && job.lockedBy.Some? && job.claimToken.Some?
  }

  /** CHECK background_job_state_consistent, with the bounds on attempts that the operations keep. */
  predicate JobOk(job: Job) {
    match job.status
    case Queued => Unlocked(job) && job.completedAt.None? && job.attempts <= 4
    case Running => Locked(job) && job.completedAt.None? && 1 <= job.attempts <= 5
    case Completed => Unlocked(job) && job.completedAt.Some? && 1 <= job.attempts <= 5
    case Failed => Unlocked(job) && job.completedAt.Some? && job.attempts == 5
  }

  ghost predicate QueueOk(q: Queue) {
    && (forall id :: id in q.jobs ==> JobOk(q.jobs[id]))
    && (forall id :: id in q.jobs && q.jobs[id].claimToken.Some? ==> q.jobs[id].claimToken.value in q.usedTokens)
    && (forall id, other :: id in q.jobs && other in q.jobs && id != other && q.jobs[id].claimToken.Some? ==>
          q.jobs[id].claimToken != q.jobs[other].claimToken)
  }

  const EMPTY_QUEUE := Queue(map[], {}, 0)

  /** What one event may do to one row. */
  ghost predicate RowNext(q: Queue, event: Event, q': Queue, id: Uuid)
    requires id in q.jobs && id in q'.jobs
  {
    var job, job' := q.jobs[id], q'.jobs[id];
    || job' == job
    || (&& event.action.ClaimNextJob? && event.action.claimed.Some? && event.action.claimed.value.id == id
        && Claimable(job, event.now)
        && job' == Take(job, event.action.workerId, event.action.token, event.now, event.action.lease))
    || (&& event.action.HeartbeatJob? && event.action.id == id
        && HoldsLease(q.jobs, id, event.action.workerId, event.action.token, event.now)
        && job' == job.(lockExpiresAt := Some(event.now + event.action.lease)))
    || (&& event.action.CompleteJob? && event.action.id == id
        && HoldsLease(q.jobs, id, event.action.workerId, event.action.token, event.now)
        && job' == CompleteRow(job, event.now))
    || (&& event.action.FailJob? && event.action.id == id
        && HoldsLease(q.jobs, id, event.action.workerId, event.action.token, event.now)
        && job' == GiveBack(job, event.now, Backoff(job.attempts), event.action.error))
    || (&& event.action.RecoverJobs? && Expired(job, event.now)
        && job' == GiveBack(job, event.now, 0, LeaseExpired))
  }

  lemma RowsOnlyMoveAsAllowed(q: Queue, event: Event, q': Queue)
    requires QueueNext(q, event, q')
    ensures q.jobs.Keys <= q'.jobs.Keys
    ensures forall id :: id in q.jobs ==> RowNext(q, event, q', id)
    ensures forall id :: id in q'.jobs && id !in q.jobs ==>
              event.action.EnqueueJob? && event.action.id == id
              && q'.jobs[id] == NewJob(event.action.organization, event.action.jobType, event.action.payloadIsEmpty,
                                       event.action.priority, event.now)
  {
  }

  /** Every event keeps the invariant. */
  lemma EventKeepsQueueOk(q: Queue, event: Event, q': Queue)
    requires QueueOk(q) && QueueNext(q, event, q')
    ensures QueueOk(q')
  {
    RowsOnlyMoveAsAllowed(q, event, q');
    forall id | id in q'.jobs
      ensures JobOk(q'.jobs[id])
      ensures q'.jobs[id].claimToken.Some? ==> q'.jobs[id].claimToken.value in q'.usedTokens
    {
      if id in q.jobs {
        assert RowNext(q, event, q', id);
        assert JobOk(q.jobs[id]);
      }
    }
    forall id, other | id in q'.jobs && other in q'.jobs && id != other && q'.jobs[id].claimToken.Some?
      ensures q'.jobs[id].claimToken != q'.jobs[other].claimToken
    {
      TokensStayApart(q, event, q', id, other);
    }
  }

  lemma TokensStayApart(q: Queue, event: Event, q': Queue, id: Uuid, other: Uuid)
    requires QueueOk(q) && QueueNext(q, event, q')
    requires id in q'.jobs && other in q'.jobs && id != other && q'.jobs[id].claimToken.Some?
    ensures q'.jobs[id].claimToken != q'.jobs[other].claimToken
  {
    RowsOnlyMoveAsAllowed(q, event, q');
    assert id in q.jobs ==> RowNext(q, event, q', id);
    assert other in q.jobs ==> RowNext(q, event, q', other);
    assert id in q.jobs && (q'.jobs[id].claimToken == q.jobs[id].claimToken || event.action.ClaimNextJob?);
  }

  lemma {:induction false} TraceKeepsQueueOk(trace: Trace, n: nat)
    requires IsTrace(trace) && n <= |trace.events|
    requires QueueOk(trace.states[0])
    ensures QueueOk(trace.states[n])
  {
    if n > 0 {
      TraceKeepsQueueOk(trace, n - 1);
      assert StepsAt(trace, n - 1);
      EventKeepsQueueOk(trace.states[n - 1], trace.events[n - 1], trace.states[n]);
    }
  }

  // -------------------------------------------------------- five attempts

  predicate Claims(event: Event, id: Uuid) {
    event.action.ClaimNextJob? && event.action.claimed.Some? && event.action.claimed.value.id == id
  }

  function ClaimCount(events: seq<Event>, id: Uuid): nat {
    if events == [] then 0
    else ClaimCount(events[..|events| - 1], id) + (if Claims(events[|events| - 1], id) then 1 else 0)
  }

  lemma {:induction false} AttemptsCountClaims(trace: Trace, n: nat, id: Uuid)
    requires IsTrace(trace) && n <= |trace.events|
    requires QueueOk(trace.states[0]) && trace.states[0].jobs == map[]
    ensures ClaimCount(trace.events[..n], id)
         == (if id in trace.states[n].jobs then trace.states[n].jobs[id].attempts else 0)
  {
    if n > 0 {
      AttemptsCountClaims(trace, n - 1, id);
      assert StepsAt(trace, n - 1);
      RowsOnlyMoveAsAllowed(trace.states[n - 1], trace.events[n - 1], trace.states[n]);
      assert trace.events[..n][..n - 1] == trace.events[..n - 1];
      assert id in trace.states[n - 1].jobs ==>
        RowNext(trace.states[n - 1], trace.events[n - 1], trace.states[n], id);
      assert Claims(trace.events[n - 1], id) ==>
        FirstCandidate(trace.states[n - 1].jobs, trace.events[n - 1].now, trace.events[n - 1].action.skipped, id);
    }
  }

  /** No job is claimed more than five times, although a claim never looks at the attempts. */
  lemma AtMostFiveClaims(trace: Trace, id: Uuid)
    requires IsTrace(trace) && trace.states[0] == EMPTY_QUEUE
    ensures ClaimCount(trace.events, id) <= MAX_ATTEMPTS
  {
    var n := |trace.events|;
    TraceKeepsQueueOk(trace, n);
    AttemptsCountClaims(trace, n, id);
    assert trace.events[..n] == trace.events;
  }

  // --------------------------------------------------------------- fencing

  /** The token was drawn, and no job carries it any more. */
  ghost predicate DeadToken(q: Queue, token: Uuid) {
    token in q.usedTokens && forall id :: id in q.jobs ==> q.jobs[id].claimToken != Some(token)
  }

  lemma DeadStaysDead(q: Queue, event: Event, q': Queue, token: Uuid)
    requires QueueNext(q, event, q') && DeadToken(q, token)
    ensures DeadToken(q', token)
  {
    RowsOnlyMoveAsAllowed(q, event, q');
    forall id | id in q'.jobs ensures q'.jobs[id].claimToken != Some(token) {
      if id in q.jobs {
        assert RowNext(q, event, q', id);
      }
    }
  }

  /** A heartbeat, completion or failure that carries the token. */
  predicate CarriesToken(action: Action, token: Uuid) {
    (action.HeartbeatJob? || action.CompleteJob? || action.FailJob?) && action.token == token
  }

  lemma DeadTokenChangesNothing(q: Queue, event: Event, q': Queue, token: Uuid)
    requires QueueNext(q, event, q') && DeadToken(q, token) && CarriesToken(event.action, token)
    ensures q'.jobs == q.jobs
  {
  }

  /** The claim of job id under the token is over: completed, failed or recovered. */
  ghost predicate ClaimEnds(q: Queue, q': Queue, id: Uuid, token: Uuid) {
    && id in q.jobs && q.jobs[id].claimToken == Some(token)
    && id in q'.jobs && q'.jobs[id].claimToken != Some(token)
  }

  lemma EndedTokenIsDead(q: Queue, event: Event, q': Queue, id: Uuid, token: Uuid)
    requires QueueOk(q) && QueueNext(q, event, q') && ClaimEnds(q, q', id, token)
    ensures DeadToken(q', token)
  {
    EventKeepsQueueOk(q, event, q');
    RowsOnlyMoveAsAllowed(q, event, q');
    assert RowNext(q, event, q', id);
    forall other | other in q'.jobs ensures q'.jobs[other].claimToken != Some(token) {
      if other in q.jobs {
        assert RowNext(q, event, q', other);
      }
    }
  }

  lemma {:induction false} DeadThroughTrace(trace: Trace, i: nat, j: nat, token: Uuid)
    requires IsTrace(trace) && i <= j <= |trace.events|
    requires DeadToken(trace.states[i], token)
    ensures DeadToken(trace.states[j], token)
  {
    if i < j {
      DeadThroughTrace(trace, i, j - 1, token);
      assert StepsAt(trace, j - 1);
      DeadStaysDead(trace.states[j - 1], trace.events[j - 1], trace.states[j], token);
    }
  }

  /** Once a claim is over, nothing that carries its token changes any job, whatever happened in between. */
  lemma StaleWorkersAreFenced(trace: Trace, i: nat, j: nat, id: Uuid, token: Uuid)
    requires IsTrace(trace) && QueueOk(trace.states[0])
    requires i < j < |trace.events|
    requires ClaimEnds(trace.states[i], trace.states[i + 1], id, token)
    requires CarriesToken(trace.events[j].action, token)
    ensures trace.states[j + 1].jobs == trace.states[j].jobs
  {
    TraceKeepsQueueOk(trace, i);
    assert StepsAt(trace, i) && StepsAt(trace, j);
    EndedTokenIsDead(trace.states[i], trace.events[i], trace.states[i + 1], id, token);
    DeadThroughTrace(trace, i + 1, j, token);
    DeadTokenChangesNothing(trace.states[j], trace.events[j], trace.states[j + 1], token);
  }

  predicate Terminal(job: Job) {
    job.status == Completed || job.status == Failed
  }

  /** A terminal row never changes again, so a job reaches at most one terminal state. */
  lemma {:induction false} TerminalIsAbsorbing(trace: Trace, i: nat, j: nat, id: Uuid)
    requires IsTrace(trace) && QueueOk(trace.states[0])
    requires i <= j <= |trace.events|
    requires id in trace.states[i].jobs && Terminal(trace.states[i].jobs[id])
    ensures id in trace.states[j].jobs && trace.states[j].jobs[id] == trace.states[i].jobs[id]
  {
    if i < j {
      TerminalIsAbsorbing(trace, i, j - 1, id);
      assert StepsAt(trace, j - 1);
      RowsOnlyMoveAsAllowed(trace.states[j - 1], trace.events[j - 1], trace.states[j]);
      assert RowNext(trace.states[j - 1], trace.events[j - 1], trace.states[j], id);
    }
  }

  // ----------------------------------------------------------- live leases

  /** At one instant, recovery and the holder's write exclude each other; at the very instant of expiry neither is
      enabled. */
  lemma RecoveryExcludesTheHolder(jobs: Jobs, id: Uuid, now: Time)
    requires id in jobs && JobOk(jobs[id]) && jobs[id].status == Running
    ensures var job := jobs[id];
            var holds := HoldsLease(jobs, id, job.lockedBy.value, job.claimToken.value, now);
            && !(holds && Expired(job, now))
            && ((!holds && !Expired(job, now)) <==> now == job.lockExpiresAt.value)
  {
  }

  /** A claim under the default lease is its worker's for ten minutes, and open to recovery after that. */
  lemma FreshClaimLastsTenMinutes(q: Queue, event: Event, q': Queue, id: Uuid, later: Time)
    requires QueueNext(q, event, q') && Claims(event, id) && event.action.lease == JOB_LEASE
    ensures id in q'.jobs
    ensures HoldsLease(q'.jobs, id, event.action.workerId, event.action.token, later)
       <==> later < event.now + 10 * 60 * 1_000_000
    ensures Expired(q'.jobs[id], later) <==> later > event.now + 10 * 60 * 1_000_000
  {
  }

  /** The holder ended the claim itself. */
  ghost predicate EndedByHolder(trace: Trace, k: nat, id: Uuid, token: Uuid)
    requires IsTrace(trace) && k < |trace.events|
  {
    && ClaimEnds(trace.states[k], trace.states[k + 1], id, token)
    && (trace.events[k].action.CompleteJob? || trace.events[k].action.FailJob?)
    && trace.events[k].action.id == id && CarriesToken(trace.events[k].action, token)
  }

  /** The claim stands. */
  predicate Stands(q: Queue, id: Uuid, token: Uuid) {
    id in q.jobs && q.jobs[id].claimToken == Some(token) && q.jobs[id].lockExpiresAt.Some?
  }

  /** A heartbeat, completion or failure by the worker that holds the claim. */
  predicate HolderWrites(q: Queue, action: Action, id: Uuid, token: Uuid) {
    && Stands(q, id, token)
    && CarriesToken(action, token) && action.id == id && Some(action.workerId) == q.jobs[id].lockedBy
  }

  /** Whoever looks at state k sees an expiry that the holder beats: its next write, at event m, comes before it. */
  predicate NextWriteInTime(trace: Trace, k: nat, m: nat, id: Uuid, token: Uuid)
    requires k <= m < |trace.events| && m < |trace.states|
  {
    && HolderWrites(trace.states[k], trace.events[m].action, id, token)
    && trace.events[m].now < trace.states[k].jobs[id].lockExpiresAt.value
  }

  /** The holder keeps up from state i to state j: as long as the claim stands, the holder writes again before the
      expiry that the row shows, or that expiry is still ahead at the end. Nothing is asked of other workers. */
  ghost predicate HolderKeepsUp(trace: Trace, i: nat, j: nat, id: Uuid, token: Uuid)
    requires IsTrace(trace) && i <= j <= |trace.events|
  {
    forall k :: i <= k < j && Stands(trace.states[k], id, token) ==> KeepsUpAt(trace, k, j, id, token)
  }

  ghost predicate KeepsUpAt(trace: Trace, k: nat, j: nat, id: Uuid, token: Uuid)
    requires IsTrace(trace) && k <= j <= |trace.events| && Stands(trace.states[k], id, token)
  {
    || trace.states[j].clock <= trace.states[k].jobs[id].lockExpiresAt.value
    || exists m :: k <= m < |trace.events| && NextWriteInTime(trace, k, m, id, token)
  }

  /** Time never goes back. */
  lemma {:induction false} ClockIsMonotone(trace: Trace, k: nat, m: nat)
    requires IsTrace(trace) && k <= m < |trace.events|
    ensures trace.states[k].clock <= trace.events[k].now <= trace.events[m].now == trace.states[m + 1].clock
    decreases m
  {
    assert StepsAt(trace, m);
    if k == m {
    } else {
      ClockIsMonotone(trace, k, m - 1);
    }
  }

  /** No event happens after the expiry that the row shows. */
  predicate BeforeExpiry(trace: Trace, k: nat, id: Uuid, token: Uuid)
    requires k < |trace.events| && k < |trace.states|
  {
    Stands(trace.states[k], id, token) ==> trace.events[k].now <= trace.states[k].jobs[id].lockExpiresAt.value
  }

  /** A write of the holder in time pushes every event before it, by whomever, before the expiry as well. */
  lemma WritesInTimeHoldOffExpiry(trace: Trace, k: nat, j: nat, id: Uuid, token: Uuid)
    requires IsTrace(trace) && k < j <= |trace.events|
    requires Stands(trace.states[k], id, token) ==> KeepsUpAt(trace, k, j, id, token)
    ensures BeforeExpiry(trace, k, id, token)
  {
    if Stands(trace.states[k], id, token) {
      if trace.states[j].clock <= trace.states[k].jobs[id].lockExpiresAt.value {
        ClockIsMonotone(trace, k, j - 1);
      } else {
        var m :| k <= m < |trace.events| && NextWriteInTime(trace, k, m, id, token);
        ClockIsMonotone(trace, k, m);
      }
    }
  }

  lemma ClaimOutlivesEvent(q: Queue, event: Event, q': Queue, id: Uuid, token: Uuid)
    requires QueueOk(q) && QueueNext(q, event, q') && Stands(q, id, token)
    requires event.now <= q.jobs[id].lockExpiresAt.value
    ensures || Stands(q', id, token)
            || (&& ClaimEnds(q, q', id, token) && (event.action.CompleteJob? || event.action.FailJob?)
                && event.action.id == id && CarriesToken(event.action, token))
  {
    RowsOnlyMoveAsAllowed(q, event, q');
    assert RowNext(q, event, q', id);
    assert JobOk(q.jobs[id]);
  }

  /** A claim whose holder keeps up is never recovered, whatever other workers do: it stands, or its holder has
      ended it. */
  lemma RenewedClaimIsNeverRecovered(trace: Trace, i: nat, j: nat, id: Uuid, token: Uuid)
    requires IsTrace(trace) && QueueOk(trace.states[0])
    requires i <= j <= |trace.events|
    requires Stands(trace.states[i], id, token)
    requires HolderKeepsUp(trace, i, j, id, token)
    ensures || Stands(trace.states[j], id, token)
            || exists k :: i <= k < j && EndedByHolder(trace, k, id, token)
  {
    ClaimStandsUntil(trace, i, j, j, id, token);
  }

  lemma {:induction false} ClaimStandsUntil(trace: Trace, i: nat, n: nat, j: nat, id: Uuid, token: Uuid)
    requires IsTrace(trace) && QueueOk(trace.states[0])
    requires i <= n <= j <= |trace.events|
    requires Stands(trace.states[i], id, token)
    requires HolderKeepsUp(trace, i, j, id, token)
    ensures || Stands(trace.states[n], id, token)
            || exists k :: i <= k < n && EndedByHolder(trace, k, id, token)
    decreases n
  {
    if i == n {
    } else {
      ClaimStandsUntil(trace, i, n - 1, j, id, token);
      if Stands(trace.states[n - 1], id, token) {
        TraceKeepsQueueOk(trace, n - 1);
        WritesInTimeHoldOffExpiry(trace, n - 1, j, id, token);
        assert StepsAt(trace, n - 1);
        ClaimOutlivesEvent(trace.states[n - 1], trace.events[n - 1], trace.states[n], id, token);
        if !Stands(trace.states[n], id, token) {
          assert EndedByHolder(trace, n - 1, id, token);
        }
      }
    }
  }

  // --------------------------------------------------------------- backoff

  /** No recovery touches the job between two points: its claims in between end by failure, if they end. */
  ghost predicate NeverRecovered(trace: Trace, i: nat, j: nat, id: Uuid)
    requires IsTrace(trace) && i <= j <= |trace.events|
  {
    forall k :: i <= k < j ==> !RecoveredAt(trace, k, id)
  }

  predicate RecoveredAt(trace: Trace, k: nat, id: Uuid)
    requires k < |trace.events| && k < |trace.states|
  {
    && trace.events[k].action.RecoverJobs?
    && id in trace.states[k].jobs && Expired(trace.states[k].jobs[id], trace.events[k].now)
  }

  /** The delays that a job has waited through when it starts attempt n + 1. */
  function TotalBackoff(n: nat): Time {
    if n == 0 then 0 else TotalBackoff(n - 1) + Backoff(n)
  }

  /** How late a job must be, given how often it failed since its first claim at the time start. */
  predicate Delayed(job: Job, clock: Time, start: Time) {
    && 1 <= job.attempts <= 5
    && clock >= start
    && (job.status == Queued ==> job.availableAt >= start + TotalBackoff(job.attempts))
    && (job.status == Running ==>
          && job.lockedAt.Some?
          && start + TotalBackoff(job.attempts - 1) <= job.lockedAt.value <= clock)
  }

  lemma DelayGrows(q: Queue, event: Event, q': Queue, id: Uuid, start: Time)
    requires id in q.jobs && id in q'.jobs && RowNext(q, event, q', id)
    requires q.clock <= event.now == q'.clock
    requires JobOk(q.jobs[id]) && Delayed(q.jobs[id], q.clock, start)
    requires !(event.action.RecoverJobs? && Expired(q.jobs[id], event.now))
    ensures Delayed(q'.jobs[id], q'.clock, start)
  {
    var attempts := q.jobs[id].attempts;
    assert TotalBackoff(attempts) == TotalBackoff(attempts - 1) + Backoff(attempts);
  }

  lemma {:induction false} BackoffAccumulates(trace: Trace, i: nat, j: nat, id: Uuid)
    requires IsTrace(trace) && QueueOk(trace.states[0])
    requires i < j <= |trace.events|
    requires Claims(trace.events[i], id) && trace.events[i].action.claimed.value.attempts == 1
    requires NeverRecovered(trace, i, j, id)
    ensures id in trace.states[j].jobs
    ensures Delayed(trace.states[j].jobs[id], trace.states[j].clock, trace.events[i].now)
  {
    var q, event, q' := trace.states[j - 1], trace.events[j - 1], trace.states[j];
    assert StepsAt(trace, j - 1);
    if i + 1 < j {
      BackoffAccumulates(trace, i, j - 1, id);
      RowsOnlyMoveAsAllowed(q, event, q');
      TraceKeepsQueueOk(trace, j - 1);
      assert RowNext(q, event, q', id) && JobOk(q.jobs[id]);
      assert !RecoveredAt(trace, j - 1, id);
      DelayGrows(q, event, q', id, trace.events[i].now);
    } else {
      assert FirstCandidate(q.jobs, event.now, event.action.skipped, id);
      assert TotalBackoff(0) == 0;
    }
  }

  /** If the first four claims of a job end by failure, the fifth comes at least 156 minutes after the first. */
  lemma FifthClaimWaits156Minutes(trace: Trace, i: nat, j: nat, id: Uuid)
    requires IsTrace(trace) && QueueOk(trace.states[0])
    requires i < j < |trace.events|
    requires Claims(trace.events[i], id) && trace.events[i].action.claimed.value.attempts == 1
    requires Claims(trace.events[j], id) && trace.events[j].action.claimed.value.attempts == 5
    requires NeverRecovered(trace, i, j, id)
    ensures trace.events[j].now >= trace.events[i].now + 156 * MINUTE
  {
    BackoffAccumulates(trace, i, j, id);
    assert StepsAt(trace, j);
    assert FirstCandidate(trace.states[j].jobs, trace.events[j].now, trace.events[j].action.skipped, id);
    assert TotalBackoff(4) == TotalBackoff(3) + Backoff(4);
    assert TotalBackoff(2) == TotalBackoff(1) + Backoff(2);
    assert TotalBackoff(1) == TotalBackoff(0) + Backoff(1);
  }
}
