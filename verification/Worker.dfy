/** The worker loop of apps/jobs/worker.py, with arbitrary handlers and arbitrary interference by other workers. */
module Worker {
  import opened Prelude
  import opened Hashing
  import opened JobQueue
  import opened JobRuns

  // ------------------------------------------------------ a bound on claims

  ghost predicate JobsOk(jobs: Jobs) {
    forall id :: id in jobs ==> JobOk(jobs[id])
  }

  /** The n-th claim of the row is still to come. */
  predicate MayStillClaim(job: Job, n: int) {
    (job.status == Queued || job.status == Running) && job.attempts < n
  }

  /** The claims still to come; there are 5 - attempts of them for each queued or running row. */
  ghost function ClaimsToCome(jobs: Jobs): set<(Uuid, int)> {
    set id, n | id in jobs && 1 <= n <= MAX_ATTEMPTS && MayStillClaim(jobs[id], n) :: (id, n)
  }

  ghost function ClaimsLeft(jobs: Jobs): nat {
    |ClaimsToCome(jobs)|
  }

  /** A row that may be claimed as often as the table says adds exactly that many claims to the total. */
  lemma ClaimsLeftIsTheSum(jobs: Jobs, id: Uuid)
    requires id in jobs && JobOk(jobs[id])
    ensures ClaimsLeft(jobs) == ClaimsLeft(jobs - {id}) + (if Terminal(jobs[id]) then 0 else 5 - jobs[id].attempts)
  {
    CountClaimsOf(jobs[id], id);
    ClaimsSplit(jobs, id);
  }

  /** The claims of one row that are still to come. */
  ghost function ClaimsOf(job: Job, id: Uuid): set<(Uuid, int)> {
    set n | 1 <= n <= MAX_ATTEMPTS && MayStillClaim(job, n) :: (id, n)
  }

  lemma CountClaimsOf(job: Job, id: Uuid)
    requires JobOk(job)
    ensures |ClaimsOf(job, id)| == if Terminal(job) then 0 else 5 - job.attempts
  {
    if !Terminal(job) {
      PairsAboveMembers(id, job.attempts, 5);
      assert ClaimsOf(job, id) == PairsAbove(id, job.attempts, 5);
    }
  }

  lemma ClaimsSplit(jobs: Jobs, id: Uuid)
    requires id in jobs
    ensures ClaimsToCome(jobs) == ClaimsToCome(jobs - {id}) + ClaimsOf(jobs[id], id)
    ensures ClaimsToCome(jobs - {id}) !! ClaimsOf(jobs[id], id)
  {
  }

  ghost function PairsAbove(id: Uuid, low: int, high: int): set<(Uuid, int)>
    requires low <= high
    decreases high - low
  {
    if low == high then {} else PairsAbove(id, low, high - 1) + {(id, high)}
  }

  lemma {:induction false} PairsAboveMembers(id: Uuid, low: int, high: int)
    requires low <= high
    ensures |PairsAbove(id, low, high)| == high - low
    ensures forall pair :: pair in PairsAbove(id, low, high) <==> pair.0 == id && low < pair.1 <= high
    decreases high - low
  {
    if low != high {
      PairsAboveMembers(id, low, high - 1);
    }
  }

  /** What every operation other than enqueueing does to the table. */
  ghost predicate Shrinks(jobs: Jobs, jobs': Jobs) {
    && jobs'.Keys == jobs.Keys
    && (JobsOk(jobs) ==> JobsOk(jobs'))
    && ClaimsToCome(jobs') <= ClaimsToCome(jobs)
  }

  lemma OperationsShrink(jobs: Jobs, now: Time, action: Action, jobs': Jobs)
    requires JobsNext(jobs, now, action, jobs') && !action.EnqueueJob?
    ensures Shrinks(jobs, jobs')
  {
    if JobsOk(jobs) {
      forall id | id in jobs ensures JobOk(jobs'[id]) {
        assert JobOk(jobs[id]);
      }
    }
  }

  lemma ClaimUsesOneUp(
    jobs: Jobs, jobs': Jobs, workerId: string, token: Uuid, now: Time, lease: Time, skipped: set<Uuid>,
    r: Option<ClaimedJob>)
    requires JobsOk(jobs) && ClaimsNext(jobs, jobs', workerId, token, now, lease, skipped, r) && r.Some?
    ensures jobs'.Keys == jobs.Keys && JobsOk(jobs')
    ensures ClaimsToCome(jobs') < ClaimsToCome(jobs)
  {
    var id := r.value.id;
    assert JobOk(jobs[id]);
    assert (id, jobs[id].attempts + 1) in ClaimsToCome(jobs);
    assert (id, jobs[id].attempts + 1) !in ClaimsToCome(jobs');
  }

  lemma FewerToCome(jobs: Jobs, jobs': Jobs)
    requires ClaimsToCome(jobs) < ClaimsToCome(jobs')
    ensures ClaimsLeft(jobs) < ClaimsLeft(jobs')
  {
    var pair :| pair in ClaimsToCome(jobs') && pair !in ClaimsToCome(jobs);
    SubsetCardinality(ClaimsToCome(jobs), ClaimsToCome(jobs') - {pair});
  }

  // -------------------------------------------------------------- histories

  /** One statement on the table, by the worker at hand or by another, with the table before and after it. */
  datatype Entry = Entry(own: bool, before: Jobs, event: Event, after: Jobs)

  ghost predicate EntryOk(e: Entry) {
    JobsNext(e.before, e.event.now, e.event.action, e.after) && !e.event.action.EnqueueJob?
  }

  /** The statements lead from one table to the other, without a gap. */
  ghost predicate Chained(jobs: Jobs, history: seq<Entry>, jobs': Jobs) {
    if history == [] then jobs' == jobs
    else
      var last := history[|history| - 1];
      EntryOk(last) && last.after == jobs' && Chained(jobs, history[..|history| - 1], last.before)
  }

  ghost predicate IsOwnClaim(e: Entry) {
    e.own && e.event.action.ClaimNextJob? && e.event.action.claimed.Some?
  }

  /** What the worker at hand claimed, in order. */
  ghost function OwnClaims(history: seq<Entry>): seq<ClaimedJob> {
    if history == [] then []
    else
      var last := history[|history| - 1];
      OwnClaims(history[..|history| - 1]) + if IsOwnClaim(last) then [last.event.action.claimed.value] else []
  }

  lemma Extend(jobs: Jobs, history: seq<Entry>, e: Entry)
    requires Chained(jobs, history, e.before) && EntryOk(e)
    ensures Chained(jobs, history + [e], e.after)
    ensures OwnClaims(history + [e])
         == OwnClaims(history) + if IsOwnClaim(e) then [e.event.action.claimed.value] else []
    ensures OwnEntries(history + [e]) == OwnEntries(history) + if e.own then [e] else []
  {
    assert (history + [e])[..|history|] == history;
  }

  /** Along any history, every own claim uses up one of the claims that the rows had left. */
  lemma {:induction false} ClaimsAreBounded(jobs: Jobs, history: seq<Entry>, jobs': Jobs)
    requires Chained(jobs, history, jobs') && JobsOk(jobs)
    ensures jobs'.Keys == jobs.Keys && JobsOk(jobs')
    ensures |OwnClaims(history)| + ClaimsLeft(jobs') <= ClaimsLeft(jobs)
  {
    if history == [] {
    } else {
      var last := history[|history| - 1];
      ClaimsAreBounded(jobs, history[..|history| - 1], last.before);
      EntryUsesUp(last);
    }
  }

  lemma EntryUsesUp(e: Entry)
    requires EntryOk(e) && JobsOk(e.before)
    ensures e.after.Keys == e.before.Keys && JobsOk(e.after)
    ensures ClaimsLeft(e.after) + (if IsOwnClaim(e) then 1 else 0) <= ClaimsLeft(e.before)
  {
    OperationsShrink(e.before, e.event.now, e.event.action, e.after);
    if IsOwnClaim(e) {
      var a := e.event.action;
      ClaimUsesOneUp(e.before, e.after, a.workerId, a.token, e.event.now, a.lease, a.skipped, a.claimed);
      FewerToCome(e.after, e.before);
    } else {
      SubsetCardinality(ClaimsToCome(e.after), ClaimsToCome(e.before));
    }
  }

  // ---------------------------------------------------------- environment

  /** What another worker may do to the queue between two statements of this one. */
  datatype Interference =
    | OtherClaim(workerId: string, token: Uuid, lease: Time, skipped: set<Uuid>)
    | OtherHeartbeat(id: Uuid, workerId: string, token: Uuid, lease: Time)
    | OtherComplete(id: Uuid, workerId: string, token: Uuid)
    | OtherFail(id: Uuid, workerId: string, token: Uuid, error: ErrorInfo)
    | OtherRecover

  type Others = seq<(Time, Interference)>

  /** One statement of another worker. */
  method Act(queue: BackgroundJobs, now: Time, other: Interference) returns (ghost e: Entry)
    modifies queue
    ensures EntryOk(e) && !e.own && e.before == old(queue.jobs) && e.after == queue.jobs
  {
    ghost var before := queue.jobs;
    ghost var action;
    match other {
      case OtherClaim(workerId, token, lease, skipped) =>
        var claimed := queue.ClaimNextJob(workerId, token, now, lease, skipped);
        action := ClaimNextJob(workerId, token, lease, skipped, claimed);
      case OtherHeartbeat(id, workerId, token, lease) =>
        var _ := queue.HeartbeatJobWithFence(id, workerId, token, now, lease);
        action := HeartbeatJob(id, workerId, token, lease);
      case OtherComplete(id, workerId, token) =>
        var _ := queue.CompleteJobWithFence(id, workerId, token, now);
        action := CompleteJob(id, workerId, token);
      case OtherFail(id, workerId, token, error) =>
        var _ := queue.FailJobWithFence(id, workerId, token, now, error);
        action := FailJob(id, workerId, token, error);
      case OtherRecover =>
        var _ := queue.RecoverExpiredJobs(now);
        action := RecoverJobs;
    }
    e := Entry(false, before, At(now, action), queue.jobs);
  }

  method Interfere(queue: BackgroundJobs, others: Others, ghost start: Jobs, ghost past: seq<Entry>)
    returns (ghost history: seq<Entry>)
    requires Chained(start, past, queue.jobs)
    modifies queue
    ensures Chained(start, history, queue.jobs)
    ensures past <= history && OwnClaims(history) == OwnClaims(past) && OwnEntries(history) == OwnEntries(past)
  {
    history := past;
    for i := 0 to |others|
      invariant Chained(start, history, queue.jobs)
      invariant past <= history && OwnClaims(history) == OwnClaims(past) && OwnEntries(history) == OwnEntries(past)
    {
      ghost var e := Act(queue, others[i].0, others[i].1);
      Extend(start, history, e);
      history := history + [e];
    }
  }

  /** One heartbeat of a handler: who comes before it, when it happens, and whether the handler catches the
      LostJobLease that it may raise and goes on. */
  datatype Beat = Beat(others: Others, at: Time, swallowed: bool)

  /** Everything that the loop does not decide in one turn: the clock, the drawn token, the other workers, which
      step of the handler raises, and how often it calls its heartbeat. */
  datatype Turn = Turn(
    beforeClaim: Others, claimAt: Time, token: Uuid, skipped: set<Uuid>,
    handlerExists: bool, prepareRaises: bool,
    heartbeats: seq<Beat>, externalRaises: bool, persistRaises: bool,
    beforeComplete: Others, completeAt: Time,
    beforeFail: Others, failAt: Time, failureDigest: Digest)

  datatype Execution = Executed | LeaseLost | HandlerRaised

  // -------------------------------------------------------------- the loop

  /** A heartbeat, completion or failure under the claim. */
  predicate WritesUnder(action: Action, job: ClaimedJob, workerId: string) {
    && (action.HeartbeatJob? || action.CompleteJob? || action.FailJob?)
    && action.id == job.id && action.workerId == workerId && action.token == job.claimToken
  }

  /** Some step of the handler raises. */
  predicate Raises(turn: Turn) {
    turn.prepareRaises || turn.externalRaises || turn.persistRaises
  }

  /** There is a handler, and all its steps return. */
  predicate Succeeds(turn: Turn) {
    turn.handlerExists && !Raises(turn)
  }

  function BeatEvent(job: ClaimedJob, workerId: string, beat: Beat): Event {
    At(beat.at, HeartbeatJob(job.id, workerId, job.claimToken, JOB_LEASE))
  }

  function CompleteEvent(job: ClaimedJob, workerId: string, turn: Turn): Event {
    At(turn.completeAt, CompleteJob(job.id, workerId, job.claimToken))
  }

  /** A failed round reports nothing of the exception but a digest of its type. */
  function FailEvent(job: ClaimedJob, workerId: string, turn: Turn): Event {
    At(turn.failAt, FailJob(job.id, workerId, job.claimToken, JobExecutionFailed(Hex(turn.failureDigest))))
  }

  /** The holder's own write that ends the claim and leaves the row without a token: completed exactly when the
      handler's steps all returned, otherwise failed after the fifth attempt and queued before it. */
  ghost predicate EndsClaim(e: Entry, job: ClaimedJob, workerId: string, turn: Turn, status: Status) {
    && e.own
    && e.event == (if Succeeds(turn) then CompleteEvent(job, workerId, turn) else FailEvent(job, workerId, turn))
    && HoldsLease(e.before, job.id, workerId, job.claimToken, e.event.now)
    && job.id in e.after && e.after[job.id].status == status && e.after[job.id].claimToken.None?
    && status == (if Succeeds(turn) then Completed else if e.before[job.id].attempts >= 5 then Failed else Queued)
  }

  /** What the worker at hand did, in order. */
  ghost function OwnEntries(history: seq<Entry>): seq<Entry> {
    if history == [] then []
    else
      var last := history[|history| - 1];
      OwnEntries(history[..|history| - 1]) + if last.own then [last] else []
  }

  /** A heartbeat finds the lease gone, and the handler lets the exception pass. */
  predicate Escapes(e: Entry, job: ClaimedJob, workerId: string, beat: Beat) {
    !beat.swallowed && !HoldsLease(e.before, job.id, workerId, job.claimToken, e.event.now)
  }

  /** One heartbeat after the other, and no lost lease escapes. */
  ghost predicate BeatsPass(done: seq<Entry>, job: ClaimedJob, workerId: string, beats: seq<Beat>) {
    |done| == |beats| && forall i :: 0 <= i < |done| ==> BeatPasses(done[i], job, workerId, beats[i])
  }

  ghost predicate BeatPasses(e: Entry, job: ClaimedJob, workerId: string, beat: Beat) {
    e.event == BeatEvent(job, workerId, beat) && !Escapes(e, job, workerId, beat)
  }

  ghost predicate BeatEscapes(done: seq<Entry>, job: ClaimedJob, workerId: string, beats: seq<Beat>)
    requires 1 <= |done| <= |beats|
  {
    var last := |done| - 1;
    && BeatsPass(done[..last], job, workerId, beats[..last])
    && done[last].event == BeatEvent(job, workerId, beats[last]) && Escapes(done[last], job, workerId, beats[last])
  }

  ghost predicate BeatsThenCompletion(done: seq<Entry>, job: ClaimedJob, workerId: string, turn: Turn) {
    && |done| == |turn.heartbeats| + 1
    && BeatsPass(done[..|done| - 1], job, workerId, turn.heartbeats)
    && done[|done| - 1].event == CompleteEvent(job, workerId, turn)
  }

  /** How an execution ends, and what the worker did in it: all heartbeats of the handler up to the first lost lease
      that escapes, and the completion if every step returned. */
  ghost predicate ExecutionDid(r: Execution, done: seq<Entry>, job: ClaimedJob, workerId: string, turn: Turn) {
    match r
    case Executed => !Raises(turn) && BeatsThenCompletion(done, job, workerId, turn)
    case HandlerRaised =>
      Raises(turn) && if turn.prepareRaises then done == [] else BeatsPass(done, job, workerId, turn.heartbeats)
    case LeaseLost =>
      if 1 <= |done| <= |turn.heartbeats| then
        !turn.prepareRaises && BeatEscapes(done, job, workerId, turn.heartbeats)
      else !Raises(turn) && BeatsThenCompletion(done, job, workerId, turn)
  }

  /** An own write that finds the lease gone and changes nothing. */
  ghost predicate FindsLeaseLost(e: Entry, job: ClaimedJob, workerId: string) {
    && e.own && WritesUnder(e.event.action, job, workerId)
    && !HoldsLease(e.before, job.id, workerId, job.claimToken, e.event.now)
    && e.after == e.before
  }

  ghost predicate LastEnds(history: seq<Entry>, job: ClaimedJob, workerId: string, turn: Turn, status: Status) {
    history != [] && EndsClaim(history[|history| - 1], job, workerId, turn, status)
  }

  ghost predicate LastFindsLeaseLost(history: seq<Entry>, job: ClaimedJob, workerId: string) {
    history != [] && FindsLeaseLost(history[|history| - 1], job, workerId)
  }

  lemma OneMoreBeat(done: seq<Entry>, e: Entry, job: ClaimedJob, workerId: string, beats: seq<Beat>, i: nat)
    requires i < |beats| && BeatsPass(done, job, workerId, beats[..i])
    requires e.event == BeatEvent(job, workerId, beats[i])
    ensures if Escapes(e, job, workerId, beats[i]) then BeatEscapes(done + [e], job, workerId, beats)
            else BeatsPass(done + [e], job, workerId, beats[..i + 1])
  {
    assert (done + [e])[..i] == done;
    if !Escapes(e, job, workerId, beats[i]) {
      assert BeatPasses(e, job, workerId, beats[i]);
      assert forall k :: 0 <= k < i ==> (done + [e])[k] == done[k] && beats[..i + 1][k] == beats[..i][k];
    }
  }

  /** One heartbeat. */
  method SendHeartbeat(
    queue: BackgroundJobs, job: ClaimedJob, workerId: string, beat: Beat, ghost start: Jobs, ghost past: seq<Entry>
  ) returns (lost: bool, ghost history: seq<Entry>, ghost e: Entry)
    requires Chained(start, past, queue.jobs)
    modifies queue
    ensures Chained(start, history, queue.jobs)
    ensures past <= history && OwnClaims(history) == OwnClaims(past)
    ensures OwnEntries(history) == OwnEntries(past) + [e]
    ensures |past| < |history| && history[|history| - 1] == e && e.event == BeatEvent(job, workerId, beat)
    ensures lost == !HoldsLease(e.before, job.id, workerId, job.claimToken, e.event.now)
    ensures lost ==> FindsLeaseLost(e, job, workerId)
  {
    history := Interfere(queue, beat.others, start, past);
    ghost var before := queue.jobs;
    var beaten := queue.HeartbeatJobWithFence(job.id, workerId, job.claimToken, beat.at, JOB_LEASE);
    e := Entry(true, before, BeatEvent(job, workerId, beat), queue.jobs);
    Extend(start, history, e);
    return beaten.Err?, history + [e], e;
  }

  /** The heartbeats that a handler sends while it works. */
  method SendHeartbeats(
    queue: BackgroundJobs, job: ClaimedJob, workerId: string, turn: Turn, ghost start: Jobs, ghost past: seq<Entry>
  ) returns (escaped: bool, ghost history: seq<Entry>, ghost done: seq<Entry>)
    requires Chained(start, past, queue.jobs)
    modifies queue
    ensures Chained(start, history, queue.jobs)
    ensures past <= history && OwnClaims(history) == OwnClaims(past)
    ensures OwnEntries(history) == OwnEntries(past) + done
    ensures !escaped ==> BeatsPass(done, job, workerId, turn.heartbeats)
    ensures escaped ==> |past| < |history| && LastFindsLeaseLost(history, job, workerId)
    ensures escaped ==> 1 <= |done| <= |turn.heartbeats| && BeatEscapes(done, job, workerId, turn.heartbeats)
  {
    history := past;
    done := [];
    for i := 0 to |turn.heartbeats|
      invariant Chained(start, history, queue.jobs)
      invariant past <= history && OwnClaims(history) == OwnClaims(past)
      invariant OwnEntries(history) == OwnEntries(past) + done
      invariant BeatsPass(done, job, workerId, turn.heartbeats[..i])
    {
      var lost;
      ghost var e;
      lost, history, e := SendHeartbeat(queue, job, workerId, turn.heartbeats[i], start, history);
      OneMoreBeat(done, e, job, workerId, turn.heartbeats, i);
      done := done + [e];
      if lost && !turn.heartbeats[i].swallowed {
        return true, history, done;
      }
    }
    assert turn.heartbeats[..|turn.heartbeats|] == turn.heartbeats;
    return false, history, done;
  }

  /** The completion of a job whose handler returned. */
  method CompleteTurn(
    queue: BackgroundJobs, job: ClaimedJob, workerId: string, turn: Turn, ghost start: Jobs, ghost past: seq<Entry>
  ) returns (completed: bool, ghost history: seq<Entry>, ghost e: Entry)
    requires Chained(start, past, queue.jobs)
    requires Succeeds(turn)
    modifies queue
    ensures Chained(start, history, queue.jobs)
    ensures past <= history && OwnClaims(history) == OwnClaims(past)
    ensures OwnEntries(history) == OwnEntries(past) + [e]
    ensures |past| < |history| && history[|history| - 1] == e && e.event == CompleteEvent(job, workerId, turn)
    ensures if completed then EndsClaim(e, job, workerId, turn, Completed) else FindsLeaseLost(e, job, workerId)
  {
    history := Interfere(queue, turn.beforeComplete, start, past);
    ghost var before := queue.jobs;
    var r := queue.CompleteJobWithFence(job.id, workerId, job.claimToken, turn.completeAt);
    e := Entry(true, before, CompleteEvent(job, workerId, turn), queue.jobs);
    Extend(start, history, e);
    return r.Ok?, history + [e], e;
  }

  method ExecuteClaimedJob(
    queue: BackgroundJobs, job: ClaimedJob, workerId: string, turn: Turn, ghost start: Jobs, ghost past: seq<Entry>
  ) returns (r: Execution, ghost history: seq<Entry>, ghost done: seq<Entry>)
    requires Chained(start, past, queue.jobs)
    requires turn.handlerExists
    modifies queue
    ensures Chained(start, history, queue.jobs)
    ensures past <= history && OwnClaims(history) == OwnClaims(past)
    ensures OwnEntries(history) == OwnEntries(past) + done && ExecutionDid(r, done, job, workerId, turn)
    ensures r == Executed ==> |past| < |history| && LastEnds(history, job, workerId, turn, Completed)
    ensures r == LeaseLost ==> |past| < |history| && LastFindsLeaseLost(history, job, workerId)
  {
    history, done := past, [];
    if turn.prepareRaises {
      return HandlerRaised, history, done;
    }
    var escaped;
    escaped, history, done := SendHeartbeats(queue, job, workerId, turn, start, history);
    if escaped {
      return LeaseLost, history, done;
    }
    if turn.externalRaises || turn.persistRaises {
      return HandlerRaised, history, done;
    }
    var completed;
    ghost var e;
    completed, history, e := CompleteTurn(queue, job, workerId, turn, start, history);
    assert (done + [e])[..|done|] == done;
    done := done + [e];
    return if completed then Executed else LeaseLost, history, done;
  }

  datatype DrainError = MaxJobsTooSmall | LostLeaseEscaped

  /** The failure of a job whose handler is missing or raised. */
  method FailTurn(
    queue: BackgroundJobs, job: ClaimedJob, workerId: string, turn: Turn, ghost start: Jobs, ghost past: seq<Entry>
  ) returns (ended: Option<Status>, ghost history: seq<Entry>)
    requires Chained(start, past, queue.jobs)
    requires !Succeeds(turn)
    modifies queue
    ensures Chained(start, history, queue.jobs)
    ensures past <= history && |past| < |history| && OwnClaims(history) == OwnClaims(past)
    ensures ended.Some? ==> LastEnds(history, job, workerId, turn, ended.value)
    ensures ended.None? ==> LastFindsLeaseLost(history, job, workerId)
  {
    history := Interfere(queue, turn.beforeFail, start, past);
    ghost var before := queue.jobs;
    var failed := queue.FailJobWithFence(
      job.id, workerId, job.claimToken, turn.failAt, JobExecutionFailed(Hex(turn.failureDigest)));
    ghost var e := Entry(true, before, FailEvent(job, workerId, turn), queue.jobs);
    Extend(start, history, e);
    history := history + [e];
    if failed.Err? {
      return None, history;
    }
    return Some(queue.jobs[job.id].status), history;
  }

  /** One turn after its claim: run the handler, and give the job back if it raised. None stands for LostJobLease. */
  method RunTurn(
    queue: BackgroundJobs, job: ClaimedJob, workerId: string, turn: Turn, ghost start: Jobs, ghost past: seq<Entry>
  ) returns (ended: Option<Status>, ghost history: seq<Entry>)
    requires Chained(start, past, queue.jobs)
    modifies queue
    ensures Chained(start, history, queue.jobs)
    ensures past <= history && |past| < |history| && OwnClaims(history) == OwnClaims(past)
    ensures ended.Some? ==> LastEnds(history, job, workerId, turn, ended.value)
    ensures ended.None? ==> LastFindsLeaseLost(history, job, workerId)
  {
    history := past;
    var execution := HandlerRaised;
    if turn.handlerExists {
      ghost var done;
      execution, history, done := ExecuteClaimedJob(queue, job, workerId, turn, start, history);
    }
    match execution {
      case Executed =>
        return Some(Completed), history;
      case LeaseLost =>
        return None, history;
      case HandlerRaised =>
        ended, history := FailTurn(queue, job, workerId, turn, start, history);
    }
  }

  ghost predicate NothingToClaim(jobs: Jobs, turn: Turn) {
    forall id :: !Candidate(jobs, turn.claimAt, turn.skipped, id)
  }

  /** A claimed job, the status in which its turn left it, and the places of the two statements in the history. */
  datatype Ending = Ending(job: ClaimedJob, status: Status, claimedAt: nat, endedAt: nat)

  ghost predicate IsClaimOf(e: Entry, job: ClaimedJob, workerId: string, turn: Turn) {
    e.own && e.event == At(turn.claimAt, ClaimNextJob(workerId, turn.token, JOB_LEASE, turn.skipped, Some(job)))
  }

  ghost predicate TurnEnded(history: seq<Entry>, workerId: string, turn: Turn, ending: Ending) {
    && ending.claimedAt < ending.endedAt < |history|
    && IsClaimOf(history[ending.claimedAt], ending.job, workerId, turn)
    && EndsClaim(history[ending.endedAt], ending.job, workerId, turn, ending.status)
  }

  lemma ClaimThenEnd(
    claimed: seq<Entry>, history: seq<Entry>, job: ClaimedJob, workerId: string, turn: Turn, status: Status)
    requires claimed != [] && IsClaimOf(claimed[|claimed| - 1], job, workerId, turn)
    requires claimed <= history && |claimed| < |history| && LastEnds(history, job, workerId, turn, status)
    ensures TurnEnded(history, workerId, turn, Ending(job, status, |claimed| - 1, |history| - 1))
  {
    assert history[|claimed| - 1] == claimed[|claimed| - 1];
  }

  ghost function JobsOf(endings: seq<Ending>): seq<ClaimedJob> {
    seq(|endings|, i requires 0 <= i < |endings| => endings[i].job)
  }

  /** Every claimed job left its own turn completed, requeued or failed, before the next job was claimed. */
  ghost predicate AllEnded(history: seq<Entry>, workerId: string, turns: nat -> Turn, endings: seq<Ending>) {
    && (forall i :: 0 <= i < |endings| ==> TurnEnded(history, workerId, turns(i), endings[i]))
    && (forall i, j :: 0 <= i < j < |endings| ==> endings[i].endedAt < endings[j].claimedAt)
  }

  lemma AllStayEnded(
    history: seq<Entry>, history': seq<Entry>, workerId: string, turns: nat -> Turn, endings: seq<Ending>)
    requires AllEnded(history, workerId, turns, endings) && history <= history'
    ensures AllEnded(history', workerId, turns, endings)
  {
    forall i | 0 <= i < |endings| ensures TurnEnded(history', workerId, turns(i), endings[i]) {
      assert TurnEnded(history, workerId, turns(i), endings[i]);
      assert history'[endings[i].claimedAt] == history[endings[i].claimedAt];
      assert history'[endings[i].endedAt] == history[endings[i].endedAt];
    }
  }

  lemma OneMoreEnded(
    history: seq<Entry>, history': seq<Entry>, workerId: string, turns: nat -> Turn, endings: seq<Ending>,
    ending: Ending)
    requires AllEnded(history, workerId, turns, endings) && history <= history'
    requires |history| <= ending.claimedAt && TurnEnded(history', workerId, turns(|endings|), ending)
    ensures AllEnded(history', workerId, turns, endings + [ending])
    ensures JobsOf(endings + [ending]) == JobsOf(endings) + [ending.job]
  {
    AllStayEnded(history, history', workerId, turns, endings);
    forall i | 0 <= i < |endings| ensures endings[i].endedAt < ending.claimedAt {
      assert TurnEnded(history, workerId, turns(i), endings[i]);
    }
  }

  /** The claim that opens a round. */
  method ClaimJob(
    queue: BackgroundJobs, workerId: string, turn: Turn, ghost start: Jobs, ghost past: seq<Entry>
  ) returns (job: Option<ClaimedJob>, ghost history: seq<Entry>)
    requires Chained(start, past, queue.jobs)
    modifies queue
    ensures Chained(start, history, queue.jobs)
    ensures past <= history && |past| < |history|
    ensures job.None? ==> NothingToClaim(queue.jobs, turn) && OwnClaims(history) == OwnClaims(past)
    ensures job.Some? ==> OwnClaims(history) == OwnClaims(past) + [job.value]
    ensures job.Some? ==> IsClaimOf(history[|history| - 1], job.value, workerId, turn)
  {
    history := Interfere(queue, turn.beforeClaim, start, past);
    ghost var before := queue.jobs;
    job := queue.ClaimNextJob(workerId, turn.token, turn.claimAt, JOB_LEASE, turn.skipped);
    ghost var e := Entry(
      true, before, At(turn.claimAt, ClaimNextJob(workerId, turn.token, JOB_LEASE, turn.skipped, job)), queue.jobs);
    Extend(start, history, e);
    history := history + [e];
  }

  /** One round of the loop. The job is None when there is nothing to claim, the status when the lease was lost. */
  method TakeTurn(
    queue: BackgroundJobs, workerId: string, turn: Turn, ghost start: Jobs, ghost past: seq<Entry>
  ) returns (job: Option<ClaimedJob>, status: Option<Status>, ghost claimedAt: nat, ghost history: seq<Entry>)
    requires Chained(start, past, queue.jobs)
    modifies queue
    ensures Chained(start, history, queue.jobs)
    ensures past <= history && |past| <= claimedAt
    ensures job.None? ==> NothingToClaim(queue.jobs, turn) && OwnClaims(history) == OwnClaims(past)
    ensures job.Some? ==> OwnClaims(history) == OwnClaims(past) + [job.value]
    ensures job.Some? && status.Some? ==>
              TurnEnded(history, workerId, turn, Ending(job.value, status.value, claimedAt, |history| - 1))
    ensures job.Some? && status.None? ==> LastFindsLeaseLost(history, job.value, workerId)
  {
    ghost var claimed: seq<Entry>;
    job, claimed := ClaimJob(queue, workerId, turn, start, past);
    status, history, claimedAt := None, claimed, |claimed| - 1;
    if job.Some? {
      status, history := RunTurn(queue, job.value, workerId, turn, start, claimed);
      if status.Some? {
        ClaimThenEnd(claimed, history, job.value, workerId, turn, status.value);
      }
    }
  }

  ghost predicate StartsWithRecovery(history: seq<Entry>, recoverAt: Time) {
    history != [] && history[0].own && history[0].event == At(recoverAt, RecoverJobs)
  }

  lemma StartStays(history: seq<Entry>, history': seq<Entry>, recoverAt: Time)
    requires StartsWithRecovery(history, recoverAt) && history <= history'
    ensures StartsWithRecovery(history', recoverAt)
  {
    assert history'[0] == history[0];
  }

  /** No history that starts from these rows has more own claims than the bound. */
  ghost predicate ClaimsBoundedBy(start: Jobs, bound: nat) {
    forall history, jobs :: Chained(start, history, jobs) ==> |OwnClaims(history)| <= bound
  }

  lemma ClaimsLeftBounds(start: Jobs)
    requires JobsOk(start)
    ensures ClaimsBoundedBy(start, ClaimsLeft(start))
  {
    forall history, jobs | Chained(start, history, jobs) ensures |OwnClaims(history)| <= ClaimsLeft(start) {
      ClaimsAreBounded(start, history, jobs);
    }
  }

  /** The endings are those of all own claims so far, in order. */
  ghost predicate Accounted(history: seq<Entry>, workerId: string, turns: nat -> Turn, endings: seq<Ending>) {
    OwnClaims(history) == JobsOf(endings) && AllEnded(history, workerId, turns, endings)
  }

  /** There is one more claim, and the last statement found its lease gone. */
  ghost predicate OneLeaseLost(history: seq<Entry>, workerId: string, turns: nat -> Turn, endings: seq<Ending>) {
    && AllEnded(history, workerId, turns, endings)
    && exists job :: OwnClaims(history) == JobsOf(endings) + [job] && LastFindsLeaseLost(history, job, workerId)
  }

  lemma TurnWasIdle(
    before: seq<Entry>, history: seq<Entry>, workerId: string, turns: nat -> Turn, endings: seq<Ending>)
    requires Accounted(before, workerId, turns, endings) && before <= history
    requires OwnClaims(history) == OwnClaims(before)
    ensures Accounted(history, workerId, turns, endings) && |OwnClaims(history)| == |endings|
  {
    AllStayEnded(before, history, workerId, turns, endings);
  }

  lemma TurnLostItsLease(
    before: seq<Entry>, history: seq<Entry>, workerId: string, turns: nat -> Turn, endings: seq<Ending>,
    job: ClaimedJob)
    requires Accounted(before, workerId, turns, endings) && before <= history
    requires OwnClaims(history) == OwnClaims(before) + [job] && LastFindsLeaseLost(history, job, workerId)
    ensures OneLeaseLost(history, workerId, turns, endings) && |OwnClaims(history)| == |endings| + 1
  {
    AllStayEnded(before, history, workerId, turns, endings);
  }

  lemma TurnIsAccounted(
    before: seq<Entry>, history: seq<Entry>, workerId: string, turns: nat -> Turn, endings: seq<Ending>,
    ending: Ending)
    requires Accounted(before, workerId, turns, endings) && before <= history
    requires OwnClaims(history) == OwnClaims(before) + [ending.job]
    requires |before| <= ending.claimedAt && TurnEnded(history, workerId, turns(|endings|), ending)
    ensures Accounted(history, workerId, turns, endings + [ending]) && |OwnClaims(history)| == |endings| + 1
  {
    OneMoreEnded(before, history, workerId, turns, endings, ending);
  }

  /** The while loop. */
  method TakeTurns(
    queue: BackgroundJobs, workerId: string, maxJobs: Option<int>, turns: nat -> Turn,
    ghost start: Jobs, ghost past: seq<Entry>, ghost bound: nat
  ) returns (r: Result<nat, DrainError>, ghost history: seq<Entry>, ghost endings: seq<Ending>)
    requires maxJobs.Some? ==> maxJobs.value >= 1
    requires Chained(start, past, queue.jobs) && OwnClaims(past) == [] && ClaimsBoundedBy(start, bound)
    modifies queue
    ensures r != Err(MaxJobsTooSmall)
    ensures Chained(start, history, queue.jobs) && past <= history
    ensures maxJobs.Some? ==> |OwnClaims(history)| <= maxJobs.value
    ensures r.Ok? ==> Accounted(history, workerId, turns, endings) && r.value == |OwnClaims(history)|
    ensures r.Ok? && (maxJobs.None? || r.value < maxJobs.value) ==>
              NothingToClaim(queue.jobs, turns(r.value))
    ensures r == Err(LostLeaseEscaped) ==> OneLeaseLost(history, workerId, turns, endings)
  {
    endings := [];
    history := past;
    var processed: nat := 0;
    while maxJobs.None? || processed < maxJobs.value
      invariant Chained(start, history, queue.jobs) && past <= history
      invariant maxJobs.Some? ==> processed <= maxJobs.value
      invariant processed == |endings| == |OwnClaims(history)| && Accounted(history, workerId, turns, endings)
      decreases bound - processed
    {
      ghost var before := history;
      var job, status;
      ghost var claimedAt;
      job, status, claimedAt, history := TakeTurn(queue, workerId, turns(processed), start, before);
      if job.None? {
        TurnWasIdle(before, history, workerId, turns, endings);
        return Ok(processed), history, endings;
      }
      if status.None? {
        TurnLostItsLease(before, history, workerId, turns, endings, job.value);
        return Err(LostLeaseEscaped), history, endings;
      }
      ghost var ending := Ending(job.value, status.value, claimedAt, |history| - 1);
      TurnIsAccounted(before, history, workerId, turns, endings, ending);
      endings := endings + [ending];
      processed := processed + 1;
    }
    return Ok(processed), history, endings;
  }

  /** The recovery that opens a drain. */
  method RecoverFirst(queue: BackgroundJobs, recoverAt: Time) returns (ghost history: seq<Entry>)
    modifies queue
    ensures Chained(old(queue.jobs), history, queue.jobs)
    ensures StartsWithRecovery(history, recoverAt) && OwnClaims(history) == []
  {
    ghost var start := queue.jobs;
    var _ := queue.RecoverExpiredJobs(recoverAt);
    ghost var e := Entry(true, start, At(recoverAt, RecoverJobs), queue.jobs);
    Extend(start, [], e);
    history := [] + [e];
  }

  /** Drains the queue. The ghost results tell all that happened to the table meanwhile, statement by statement, and
      how each claimed job left its turn. Whatever the handlers and the other workers do, it stops: every turn uses up
      one of the finitely many claims that the rows have left. */
  method DrainQueue(
    queue: BackgroundJobs, workerId: string, recoverAt: Time, maxJobs: Option<int>, turns: nat -> Turn
  ) returns (r: Result<nat, DrainError>, ghost history: seq<Entry>, ghost endings: seq<Ending>)
    requires JobsOk(queue.jobs)
    modifies queue
    ensures r == Err(MaxJobsTooSmall) <==> maxJobs.Some? && maxJobs.value < 1
    ensures if r == Err(MaxJobsTooSmall) then history == []
            else StartsWithRecovery(history, recoverAt)
    ensures Chained(old(queue.jobs), history, queue.jobs)
    ensures queue.jobs.Keys == old(queue.jobs.Keys) && JobsOk(queue.jobs)
    ensures |OwnClaims(history)| + ClaimsLeft(queue.jobs) <= ClaimsLeft(old(queue.jobs))
    ensures maxJobs.Some? && maxJobs.value >= 1 ==> |OwnClaims(history)| <= maxJobs.value
    ensures r.Ok? ==> Accounted(history, workerId, turns, endings) && r.value == |OwnClaims(history)|
    ensures r.Ok? && (maxJobs.None? || r.value < maxJobs.value) ==>
              NothingToClaim(queue.jobs, turns(r.value))
    ensures r == Err(LostLeaseEscaped) ==> OneLeaseLost(history, workerId, turns, endings)
  {
    endings := [];
    history := [];
    if maxJobs.Some? && maxJobs.value < 1 {
      return Err(MaxJobsTooSmall), history, endings;
    }

    ghost var start := queue.jobs;
    ghost var past := RecoverFirst(queue, recoverAt);
    ClaimsLeftBounds(start);
    r, history, endings := TakeTurns(queue, workerId, maxJobs, turns, start, past, ClaimsLeft(start));
    StartStays(past, history, recoverAt);
    ClaimsAreBounded(start, history, queue.jobs);
  }
}
