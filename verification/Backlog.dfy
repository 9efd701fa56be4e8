/** The seam: events are appended together with seal jobs, workers claim the jobs and run sealing transactions for
    them, and complete a job only after its transaction committed. */
module Backlog {
  import opened Prelude
  import opened Hashing
  import opened AuditTables
  import opened Sealing
  import opened Verification
  import opened LedgerInvariant
  import opened LedgerRuns
  import opened LedgerGuarantees
  import opened JobQueue
  import opened JobRuns

  /** How far a worker got with a claimed job; the last phase outlives the claim itself, since persisting is not
      fenced. */
  datatype Phase = Claimed | HeartbeatSent | Persisting | Persisted

  datatype WorkerClaim = WorkerClaim(jobId: Uuid, organization: Uuid, jobType: JobType, phase: Phase)

  /** Ledger, queue, and the bookkeeping of the proof: for each seal job the index of the event it was enqueued
      with, what each claim token stands for, and the jobs for which some transaction committed. Claim tokens
      serve as transaction names. */
  datatype World = World(
    ledger: Ledger,
    queue: Queue,
    born: map<Uuid, nat>,
    claims: map<Uuid, WorkerClaim>,
    persisted: set<Uuid>)

  const EMPTY_WORLD := World(EMPTY_LEDGER, EMPTY_QUEUE, map[], map[], {})

  datatype WorldStep =
    | AppendWithJob(row: EventRow, jobId: Uuid)
    | QueueOnly(action: Action)
    | SendHeartbeat(token: Uuid, workerId: string, lease: Time)
    | BeginPersist(token: Uuid)
    | LockForPersist(token: Uuid)
    | CommitPersist(token: Uuid, blockId: Uuid)
    | AbandonPersist(token: Uuid)
    | CompleteClaim(token: Uuid, workerId: string)

  const SEAL_PRIORITY := 100

  /** Queue actions that are not part of the life of a seal job as the handler drives it: completing one needs the
      worker to have persisted, and only append enqueues one. */
  predicate FreeAction(w: World, action: Action) {
    match action
    case EnqueueJob(_, _, jobType, _, _) => jobType != AuditBatchSeal
    case CompleteJob(id, _, _) => id in w.queue.jobs && w.queue.jobs[id].jobType != AuditBatchSeal
    case _ => true
  }

  function Registered(w: World, action: Action): map<Uuid, WorkerClaim> {
    if action.ClaimNextJob? && action.claimed.Some? then
      var claimed := action.claimed.value;
      w.claims[action.token := WorkerClaim(claimed.id, claimed.organization, claimed.jobType, Claimed)]
    else w.claims
  }

  predicate InPhase(w: World, token: Uuid, phase: Phase) {
    token in w.claims && w.claims[token].jobType == AuditBatchSeal && w.claims[token].phase == phase
  }

  function SetPhase(w: World, token: Uuid, phase: Phase): map<Uuid, WorkerClaim>
    requires token in w.claims
  {
    w.claims[token := w.claims[token].(phase := phase)]
  }

  ghost predicate WorldNext(codec: Codec, w: World, now: Time, step: WorldStep, w': World) {
    match step
    case AppendWithJob(row, jobId) =>
      && Appendable(codec, w.ledger.tables, row) && jobId !in w.queue.jobs
      && w'.ledger == LedgerNext(codec, w.ledger, Append(row))
      && QueueNext(w.queue, At(now, EnqueueJob(jobId, row.organization, AuditBatchSeal, true, SEAL_PRIORITY)), w'.queue)
      && w'.born == w.born[jobId := |w.ledger.tables.events|]
      && w'.claims == w.claims && w'.persisted == w.persisted
    case QueueOnly(action) =>
      && FreeAction(w, action)
      && QueueNext(w.queue, At(now, action), w'.queue)
      && w' == w.(queue := w'.queue, claims := Registered(w, action))
    case SendHeartbeat(token, workerId, lease) =>
      && InPhase(w, token, Claimed)
      && QueueNext(w.queue, At(now, HeartbeatJob(w.claims[token].jobId, workerId, token, lease)), w'.queue)
      && HoldsLease(w.queue.jobs, w.claims[token].jobId, workerId, token, now)
      && w' == w.(queue := w'.queue, claims := SetPhase(w, token, HeartbeatSent))
    case BeginPersist(token) =>
      && InPhase(w, token, HeartbeatSent) && token !in w.ledger.open
      && w' == w.(ledger := LedgerNext(codec, w.ledger,
                                       Begin(token, w.claims[token].organization, MAX_EVENTS_PER_BLOCK)),
                  claims := SetPhase(w, token, Persisting))
    case LockForPersist(token) =>
      && InPhase(w, token, Persisting)
      && w' == w.(ledger := LedgerNext(codec, w.ledger, LockHead(token)))
    case CommitPersist(token, blockId) =>
      && InPhase(w, token, Persisting) && token in w.ledger.open && w.ledger.open[token].locked
      && w'.ledger == LedgerNext(codec, w.ledger, Commit(token, blockId))
      && (if OutcomeOf(codec, w.ledger.tables, w.ledger.open[token], blockId).RolledBack? then
            w' == w.(ledger := w'.ledger)
          else
            w' == w.(ledger := w'.ledger, claims := SetPhase(w, token, Persisted),
                     persisted := w.persisted + {w.claims[token].jobId}))
    case AbandonPersist(token) =>
      && InPhase(w, token, Persisting)
      && w' == w.(ledger := LedgerNext(codec, w.ledger, Rollback(token)))
    case CompleteClaim(token, workerId) =>
      && InPhase(w, token, Persisted)
      && QueueNext(w.queue, At(now, CompleteJob(w.claims[token].jobId, workerId, token)), w'.queue)
      && w' == w.(queue := w'.queue)
  }

  // --------------------------------------------------------------- counting

  /** Unsealed events of a tenant from index k on. */
  function UnsealedFrom(t: Tables, organization: Uuid, k: nat): nat
    requires k <= |t.events|
  {
    |Filter(t.events[k..], IsUnsealed(organization))|
  }

  predicate SealJob(job: Job, organization: Uuid) {
    job.organization == organization && job.jobType == AuditBatchSeal
  }

  /** A seal job that no transaction has served yet, enqueued with event k or later. */
  predicate Pending(w: World, organization: Uuid, k: nat, id: Uuid) {
    && id in w.queue.jobs && SealJob(w.queue.jobs[id], organization) && w.queue.jobs[id].status != Completed
    && id !in w.persisted
    && id in w.born && w.born[id] >= k
  }

  function PendingIds(w: World, organization: Uuid, k: nat): set<Uuid> {
    set id | id in w.queue.jobs && Pending(w, organization, k, id)
  }

  /** From event k on, every unsealed event has a pending job of its own. */
  predicate Covered(w: World, organization: Uuid, k: nat) {
    k <= |w.ledger.tables.events| && UnsealedFrom(w.ledger.tables, organization, k) <= |PendingIds(w, organization, k)|
  }

  /** The snapshot still shows the current chain head, so the transaction may yet commit. */
  predicate MayCommit(w: World, token: Uuid)
    requires token in w.ledger.open
  {
    var x := w.ledger.open[token];
    Lookup(w.ledger.tables.heads, x.organization) == Lookup(x.snapshot.heads, x.organization)
  }

  // -------------------------------------------------------------- invariant

  ghost predicate BooksOk(w: World) {
    && (forall id :: id in w.born ==> id in w.queue.jobs && w.born[id] < |w.ledger.tables.events|)
    && (forall id :: id in w.queue.jobs && w.queue.jobs[id].jobType == AuditBatchSeal ==> id in w.born)
    && w.persisted <= w.queue.jobs.Keys
  }

  ghost predicate ClaimOk(w: World, token: Uuid)
    requires token in w.claims
  {
    var claim := w.claims[token];
    && token in w.queue.usedTokens
    && claim.jobId in w.queue.jobs
    && w.queue.jobs[claim.jobId].organization == claim.organization
    && w.queue.jobs[claim.jobId].jobType == claim.jobType
    && (claim.phase == Persisted ==> claim.jobId in w.persisted)
  }

  ghost predicate ClaimsOk(w: World) {
    forall token :: token in w.claims ==> ClaimOk(w, token)
  }

  ghost predicate OpenOk(w: World, token: Uuid)
    requires token in w.ledger.open
  {
    var x := w.ledger.open[token];
    && InPhase(w, token, Persisting)
    && x.organization == w.claims[token].organization
    && x.maxEvents >= 1
    && w.claims[token].jobId in w.born
    && w.born[w.claims[token].jobId] < |x.snapshot.events|
    && |x.snapshot.events| <= |w.ledger.tables.events|
    && (MayCommit(w, token) ==> Covered(w, x.organization, |x.snapshot.events|))
  }

  ghost predicate OpensOk(w: World) {
    forall token :: token in w.ledger.open ==> OpenOk(w, token)
  }

  ghost predicate AllCovered(w: World) {
    forall organization :: Covered(w, organization, 0)
  }

  ghost predicate WorldOk(codec: Codec, w: World) {
    LedgerOk(codec, w.ledger) && BooksOk(w) && ClaimsOk(w) && OpensOk(w) && AllCovered(w)
  }

  // -------------------------------------------------- the rows of the queue

  /** What no operation changes about a job, and that only a completion completes it. */
  lemma JobIdentityStays(q: Queue, event: JobRuns.Event, q': Queue, id: Uuid)
    requires QueueNext(q, event, q') && id in q.jobs
    ensures id in q'.jobs
    ensures q'.jobs[id].organization == q.jobs[id].organization && q'.jobs[id].jobType == q.jobs[id].jobType
    ensures q'.jobs[id].status == Completed && q.jobs[id].status != Completed ==>
              event.action.CompleteJob? && event.action.id == id
  {
    RowsOnlyMoveAsAllowed(q, event, q');
    assert RowNext(q, event, q', id);
  }

  // ----------------------------------------------------------- cover, moved

  lemma CoverGrowsWithPending(w: World, w': World, organization: Uuid, k: nat)
    requires Covered(w, organization, k)
    requires k <= |w'.ledger.tables.events|
    requires UnsealedFrom(w'.ledger.tables, organization, k) <= UnsealedFrom(w.ledger.tables, organization, k)
    requires forall id :: Pending(w, organization, k, id) ==> Pending(w', organization, k, id)
    ensures Covered(w', organization, k)
  {
    SubsetCardinality(PendingIds(w, organization, k), PendingIds(w', organization, k));
  }

  lemma AppendAddsUnsealed(t: Tables, t': Tables, row: EventRow, organization: Uuid, k: nat)
    requires k <= |t.events| && t'.events == t.events + [row] && IsUnsealed(row.organization)(row)
    ensures UnsealedFrom(t', organization, k)
         == UnsealedFrom(t, organization, k) + (if row.organization == organization then 1 else 0)
  {
    assert (t.events + [row])[k..] == t.events[k..] + [row];
    FilterAppend(t.events[k..], [row], IsUnsealed(organization));
    assert [row][..0] == [];
  }

  lemma AppendAddsPending(w: World, w': World, tenant: Uuid, jobId: Uuid, organization: Uuid, k: nat)
    requires k <= |w.ledger.tables.events|
    requires jobId !in w.queue.jobs && jobId !in w.persisted
    requires w'.born == w.born[jobId := |w.ledger.tables.events|] && w'.persisted == w.persisted
    requires w'.queue.jobs.Keys == w.queue.jobs.Keys + {jobId}
    requires forall id :: id in w.queue.jobs ==> w'.queue.jobs[id] == w.queue.jobs[id]
    requires SealJob(w'.queue.jobs[jobId], tenant) && w'.queue.jobs[jobId].status == Queued
    ensures |PendingIds(w', organization, k)|
         >= |PendingIds(w, organization, k)| + (if tenant == organization then 1 else 0)
  {
    var before, after := PendingIds(w, organization, k), PendingIds(w', organization, k);
    PendingIdsStay(w, w', jobId, organization, k);
    if tenant == organization {
      assert Pending(w', organization, k, jobId);
      SubsetCardinality(before + {jobId}, after);
    } else {
      SubsetCardinality(before, after);
    }
  }

  lemma PendingIdsStay(w: World, w': World, jobId: Uuid, organization: Uuid, k: nat)
    requires jobId !in w.queue.jobs
    requires w'.born == w.born[jobId := |w.ledger.tables.events|] && w'.persisted == w.persisted
    requires w'.queue.jobs.Keys == w.queue.jobs.Keys + {jobId}
    requires forall id :: id in w.queue.jobs ==> w'.queue.jobs[id] == w.queue.jobs[id]
    ensures PendingIds(w, organization, k) <= PendingIds(w', organization, k)
    ensures jobId !in PendingIds(w, organization, k)
  {
    forall id | id in PendingIds(w, organization, k) ensures id in PendingIds(w', organization, k) {
      PendingStays(w, w', jobId, organization, k, id);
    }
  }

  lemma PendingStays(w: World, w': World, jobId: Uuid, organization: Uuid, k: nat, id: Uuid)
    requires jobId !in w.queue.jobs && Pending(w, organization, k, id)
    requires id in w'.queue.jobs && w'.queue.jobs[id] == w.queue.jobs[id]
    requires w'.born == w.born[jobId := |w.ledger.tables.events|] && w'.persisted == w.persisted
    ensures id != jobId && Pending(w', organization, k, id)
  {
  }

  // ------------------------------------------------------------------ steps

  lemma AppendKeepsCover(codec: Codec, w: World, now: Time, row: EventRow, jobId: Uuid, w': World)
    requires BooksOk(w) && WorldNext(codec, w, now, AppendWithJob(row, jobId), w')
    ensures forall organization, k: nat :: k <= |w.ledger.tables.events| && Covered(w, organization, k) ==>
              Covered(w', organization, k)
  {
    forall organization, k: nat | k <= |w.ledger.tables.events| && Covered(w, organization, k)
      ensures Covered(w', organization, k)
    {
      AppendAddsUnsealed(w.ledger.tables, w'.ledger.tables, row, organization, k);
      AppendAddsPending(w, w', row.organization, jobId, organization, k);
    }
  }

  predicate StaysUnserved(jobs: Jobs, jobs': Jobs, id: Uuid)
    requires id in jobs
  {
    && id in jobs'
    && jobs'[id].organization == jobs[id].organization && jobs'[id].jobType == jobs[id].jobType
    && (jobs'[id].status == Completed && jobs[id].jobType == AuditBatchSeal ==> jobs[id].status == Completed)
  }

  /** Steps that leave the ledger's tables alone keep every cover, as long as they serve no pending job. */
  lemma SameTablesKeepCover(w: World, w': World)
    requires w'.ledger.tables == w.ledger.tables
    requires w'.born == w.born && w'.persisted == w.persisted
    requires forall id :: id in w.queue.jobs && id !in w.persisted ==> StaysUnserved(w.queue.jobs, w'.queue.jobs, id)
    ensures forall organization, k: nat :: Covered(w, organization, k) ==> Covered(w', organization, k)
  {
    forall organization, k: nat | Covered(w, organization, k) ensures Covered(w', organization, k) {
      CoverGrowsWithPending(w, w', organization, k);
    }
  }

  lemma QueueStepKeepsCover(codec: Codec, w: World, now: Time, step: WorldStep, w': World)
    requires BooksOk(w) && ClaimsOk(w) && WorldNext(codec, w, now, step, w')
    requires step.QueueOnly? || step.SendHeartbeat? || step.CompleteClaim?
    ensures forall organization, k: nat :: Covered(w, organization, k) ==> Covered(w', organization, k)
  {
    var event := match step
      case QueueOnly(action) => At(now, action)
      case SendHeartbeat(token, workerId, lease) => At(now, HeartbeatJob(w.claims[token].jobId, workerId, token, lease))
      case CompleteClaim(token, workerId) => At(now, CompleteJob(w.claims[token].jobId, workerId, token));
    assert QueueNext(w.queue, event, w'.queue);
    assert step.CompleteClaim? ==> ClaimOk(w, step.token);
    forall id | id in w.queue.jobs && id !in w.persisted
      ensures StaysUnserved(w.queue.jobs, w'.queue.jobs, id)
    {
      JobIdentityStays(w.queue, event, w'.queue, id);
    }
    SameTablesKeepCover(w, w');
  }

  // ---------------------------------------------------- the commit of a seal

  /** The rows of a tenant that its transaction's snapshot shows, none of them unsealed. */
  lemma NothingUnsealedBelow(snapshot: Tables, t: Tables, organization: Uuid, limit: nat)
    requires limit >= 1 && Fresh(snapshot, t, organization)
    requires HeadSequence(snapshot, organization) == HeadSequence(t, organization)
    requires SelectUnsealed(snapshot, organization, limit) == []
    ensures forall k :: 0 <= k <= |snapshot.events| ==>
              UnsealedFrom(t, organization, k) == UnsealedFrom(t, organization, |snapshot.events|)
  {
    var p, s := IsUnsealed(organization), |snapshot.events|;
    var unsealed := Filter(snapshot.events, p);
    assert |Sort(unsealed, EventLe)| == |unsealed|;
    FilterMembers(snapshot.events, p);
    assert unsealed == [];
    forall i | 0 <= i < s ensures !p(t.events[i]) {
      assert snapshot.events[i] !in unsealed;
      assert snapshot.events[i] in snapshot.events;
      assert SameCommitted(snapshot.events[i], t.events[i]);
    }
    forall k | 0 <= k <= s ensures UnsealedFrom(t, organization, k) == UnsealedFrom(t, organization, s) {
      assert t.events[k..] == t.events[k..s] + t.events[s..];
      FilterAppend(t.events[k..s], t.events[s..], p);
      FilterNone(t.events[k..s], p);
    }
  }

  /** A transaction that found nothing serves its job without sealing; the events above its snapshot have jobs
      above it. */
  lemma EmptyCommitKeepsCover(w: World, w': World, token: Uuid, organization: Uuid, k: nat)
    requires token in w.ledger.open && token in w.claims && w.ledger.open[token].maxEvents >= 1
    requires OpenOk(w, token) && MayCommit(w, token)
    requires TransactionOk(w.ledger, token)
    requires SelectUnsealed(w.ledger.open[token].snapshot, w.ledger.open[token].organization,
                            w.ledger.open[token].maxEvents) == []
    requires w'.ledger.tables.events == w.ledger.tables.events
    requires w'.queue == w.queue && w'.born == w.born && w'.persisted == w.persisted + {w.claims[token].jobId}
    requires ClaimOk(w, token)
    requires Covered(w, organization, k)
    ensures Covered(w', organization, k)
  {
    var x, job := w.ledger.open[token], w.claims[token].jobId;
    var s := |x.snapshot.events|;
    if organization == x.organization && k <= s {
      NothingUnsealedBelow(x.snapshot, w.ledger.tables, organization, x.maxEvents);
      assert Covered(w, organization, s);
      forall id | id in PendingIds(w, organization, s) ensures id in PendingIds(w', organization, k) {
        assert Pending(w, organization, s, id);
        assert id != job;
        assert Pending(w', organization, k, id);
      }
      SubsetCardinality(PendingIds(w, organization, s), PendingIds(w', organization, k));
    } else {
      forall id | Pending(w, organization, k, id) ensures Pending(w', organization, k, id) {
        assert id != job;
      }
      CoverGrowsWithPending(w, w', organization, k);
    }
  }

  /** A transaction that sealed its batch serves one job and takes at least one event off the tenant's list. */
  lemma SealingCommitKeepsCover(w: World, w': World, token: Uuid, batch: nat)
    requires token in w.claims && batch >= 1
    requires UnsealedFrom(w.ledger.tables, w.claims[token].organization, 0)
          == UnsealedFrom(w'.ledger.tables, w.claims[token].organization, 0) + batch
    requires w'.queue == w.queue && w'.born == w.born && w'.persisted == w.persisted + {w.claims[token].jobId}
    requires Covered(w, w.claims[token].organization, 0)
    ensures Covered(w', w.claims[token].organization, 0)
  {
    var organization, job := w.claims[token].organization, w.claims[token].jobId;
    forall id | id in PendingIds(w, organization, 0) - {job} ensures id in PendingIds(w', organization, 0) {
      assert Pending(w, organization, 0, id);
      assert Pending(w', organization, 0, id);
    }
    SubsetCardinality(PendingIds(w, organization, 0) - {job}, PendingIds(w', organization, 0));
  }

  /** Other tenants are not touched. */
  lemma OtherTenantKeepsCover(w: World, w': World, token: Uuid, organization: Uuid, k: nat)
    requires ClaimsOk(w) && token in w.claims && organization != w.claims[token].organization
    requires |w'.ledger.tables.events| == |w.ledger.tables.events|
    requires forall i :: 0 <= i < |w.ledger.tables.events| ==>
               SameCommitted(w.ledger.tables.events[i], w'.ledger.tables.events[i])
    requires forall i :: 0 <= i < |w.ledger.tables.events| && w.ledger.tables.events[i].organization == organization ==>
               w'.ledger.tables.events[i] == w.ledger.tables.events[i]
    requires w'.queue == w.queue && w'.born == w.born && w'.persisted == w.persisted + {w.claims[token].jobId}
    requires Covered(w, organization, k)
    ensures Covered(w', organization, k)
  {
    var events, events' := w.ledger.tables.events, w'.ledger.tables.events;
    var p := IsUnsealed(organization);
    forall i | 0 <= i < |events[k..]|
      ensures p(events[k..][i]) == p(events'[k..][i]) && (p(events[k..][i]) ==> events[k..][i] == events'[k..][i])
    {
      assert SameCommitted(events[k + i], events'[k + i]);
    }
    FilterPointwise(events[k..], events'[k..], p);
    assert ClaimOk(w, token);
    forall id | Pending(w, organization, k, id) ensures Pending(w', organization, k, id) {
      assert id != w.claims[token].jobId;
    }
    CoverGrowsWithPending(w, w', organization, k);
  }

  /** After a commit, the transactions that may still commit could before, and belong to other tenants if a block
      was written. */
  lemma CommitDoomsItsRivals(codec: Codec, s: Ledger, txn: nat, blockId: Uuid, other: nat)
    requires LedgerOk(codec, s) && txn in s.open && s.open[txn].locked
    requires other in s.open
    requires Lookup(CommitTables(codec, s.tables, s.open[txn], blockId).heads, s.open[other].organization)
          == Lookup(s.open[other].snapshot.heads, s.open[other].organization)
    ensures Lookup(s.tables.heads, s.open[other].organization)
         == Lookup(s.open[other].snapshot.heads, s.open[other].organization)
    ensures OutcomeOf(codec, s.tables, s.open[txn], blockId).SealedBlock? ==>
              s.open[other].organization != s.open[txn].organization
  {
    var x, y := s.open[txn], s.open[other];
    assert TransactionOk(s, txn) && TransactionOk(s, other);
    if y.organization != x.organization {
      CommitKeepsTables(codec, s.tables, x, blockId);
    } else {
      CommitMovesHead(codec, s.tables, x, blockId);
      assert HeadSequence(y.snapshot, y.organization) <= HeadSequence(s.tables, y.organization);
    }
  }

  lemma CommitMovesHead(codec: Codec, t: Tables, txn: SealTransaction, blockId: Uuid)
    requires Consistent(codec, t)
    requires Fresh(txn.snapshot, t, txn.organization)
    requires Lookup(t.heads, txn.organization) == Lookup(txn.snapshot.heads, txn.organization)
    ensures var t' := CommitTables(codec, t, txn, blockId);
            match OutcomeOf(codec, t, txn, blockId)
            case NothingToSeal => t' == EnsureChainHead(t, txn.organization)
            case RolledBack(_) => t' == t
            case SealedBlock(_) =>
              && HeadSequence(t', txn.organization) == HeadSequence(t, txn.organization) + 1
              && UnsealedFrom(t, txn.organization, 0)
                 == UnsealedFrom(t', txn.organization, 0)
                    + |SelectUnsealed(txn.snapshot, txn.organization, txn.maxEvents)|
  {
    var organization := txn.organization;
    var t' := EnsureChainHead(t, organization);
    var rows := SelectUnsealed(txn.snapshot, organization, txn.maxEvents);
    if rows != [] {
      HolderHasBatch(codec, t, txn);
      match WriteBlock(codec, t', organization, t'.heads[organization], rows, blockId)
      case Err(_) =>
      case Ok((written, block)) =>
        WriteKeepsTables(codec, t', organization, t'.heads[organization], rows, blockId, written, block);
        assert t.events[0..] == t.events && written.events[0..] == written.events;
    }
  }

  /** What CommitPersist did to the world, given what its transaction did to the tables. */
  ghost predicate Served(w: World, w': World, token: Uuid)
    requires token in w.claims
  {
    w'.queue == w.queue && w'.born == w.born && w'.persisted == w.persisted + {w.claims[token].jobId}
  }

  lemma SealedBlockKeepsCover(
    codec: Codec, w: World, token: Uuid, blockId: Uuid, w': World, organization: Uuid, k: nat)
    requires token in w.claims && token in w.ledger.open && ClaimsOk(w) && Served(w, w', token)
    requires var x := w.ledger.open[token];
             && Consistent(codec, w.ledger.tables)
             && Fresh(x.snapshot, w.ledger.tables, x.organization)
             && Lookup(w.ledger.tables.heads, x.organization) == Lookup(x.snapshot.heads, x.organization)
             && x.organization == w.claims[token].organization
             && OutcomeOf(codec, w.ledger.tables, x, blockId).SealedBlock?
             && w'.ledger.tables == CommitTables(codec, w.ledger.tables, x, blockId)
    requires Covered(w, organization, k)
    requires k == 0 || organization != w.ledger.open[token].organization
    ensures Covered(w', organization, k)
  {
    var x := w.ledger.open[token];
    if organization == x.organization {
      CommitMovesHead(codec, w.ledger.tables, x, blockId);
      SealingCommitKeepsCover(w, w', token, |SelectUnsealed(x.snapshot, organization, x.maxEvents)|);
    } else {
      CommitKeepsTables(codec, w.ledger.tables, x, blockId);
      CommitKeepsOtherRows(codec, w.ledger.tables, x, blockId, organization);
      OtherTenantKeepsCover(w, w', token, organization, k);
    }
  }

  lemma EmptyBatchKeepsCover(
    codec: Codec, w: World, token: Uuid, blockId: Uuid, w': World, organization: Uuid, k: nat)
    requires token in w.claims && token in w.ledger.open && Served(w, w', token)
    requires TransactionOk(w.ledger, token) && OpenOk(w, token) && ClaimOk(w, token) && MayCommit(w, token)
    requires SelectUnsealed(w.ledger.open[token].snapshot, w.ledger.open[token].organization,
                            w.ledger.open[token].maxEvents) == []
    requires w'.ledger.tables == CommitTables(codec, w.ledger.tables, w.ledger.open[token], blockId)
    requires Covered(w, organization, k)
    ensures Covered(w', organization, k)
  {
    EmptyCommitKeepsCover(w, w', token, organization, k);
  }

  lemma CommitKeepsOtherRows(codec: Codec, t: Tables, txn: SealTransaction, blockId: Uuid, organization: Uuid)
    requires Advances(t, CommitTables(codec, t, txn, blockId))
    requires Lookup(CommitTables(codec, t, txn, blockId).heads, organization) == Lookup(t.heads, organization)
    ensures forall i :: 0 <= i < |t.events| && t.events[i].organization == organization ==>
              CommitTables(codec, t, txn, blockId).events[i] == t.events[i]
  {
    assert HeadSequence(CommitTables(codec, t, txn, blockId), organization) == HeadSequence(t, organization);
  }

  // ------------------------------------------------- the invariant, step by step

  /** The ledger step inside a world step, if there is one. */
  function LedgerStepOf(w: World, step: WorldStep): Option<LedgerStep> {
    match step
    case AppendWithJob(row, _) => Some(Append(row))
    case BeginPersist(token) =>
      if token in w.claims then Some(Begin(token, w.claims[token].organization, MAX_EVENTS_PER_BLOCK)) else None
    case LockForPersist(token) => Some(LockHead(token))
    case CommitPersist(token, blockId) => Some(Commit(token, blockId))
    case AbandonPersist(token) => Some(Rollback(token))
    case _ => None
  }

  lemma LedgerFollows(codec: Codec, w: World, now: Time, step: WorldStep, w': World)
    requires WorldNext(codec, w, now, step, w')
    ensures match LedgerStepOf(w, step)
            case None => w'.ledger == w.ledger
            case Some(ledgerStep) => w'.ledger == LedgerNext(codec, w.ledger, ledgerStep)
    ensures step.CommitPersist? ==> step.token in w.ledger.open && w.ledger.open[step.token].locked
  {
  }

  lemma LedgerStaysOk(codec: Codec, w: World, now: Time, step: WorldStep, w': World)
    requires LedgerOk(codec, w.ledger) && WorldNext(codec, w, now, step, w')
    ensures LedgerOk(codec, w'.ledger)
    ensures |w.ledger.tables.events| <= |w'.ledger.tables.events|
    ensures match LedgerStepOf(w, step)
            case None => w'.ledger == w.ledger
            case Some(ledgerStep) => w'.ledger == LedgerNext(codec, w.ledger, ledgerStep)
  {
    LedgerFollows(codec, w, now, step, w');
    match LedgerStepOf(w, step)
    case None =>
    case Some(ledgerStep) =>
      StepKeepsLedgerOk(codec, w.ledger, ledgerStep);
      TablesAdvance(codec, w.ledger, ledgerStep);
  }

  /** The queue event inside a world step; steps without one leave the queue as it is. */
  function QueueEventOf(w: World, now: Time, step: WorldStep): Option<JobRuns.Event> {
    match step
    case AppendWithJob(row, jobId) =>
      Some(At(now, EnqueueJob(jobId, row.organization, AuditBatchSeal, true, SEAL_PRIORITY)))
    case QueueOnly(action) => Some(At(now, action))
    case SendHeartbeat(token, workerId, lease) =>
      if token in w.claims then Some(At(now, HeartbeatJob(w.claims[token].jobId, workerId, token, lease))) else None
    case CompleteClaim(token, workerId) =>
      if token in w.claims then Some(At(now, CompleteJob(w.claims[token].jobId, workerId, token))) else None
    case _ => None
  }

  lemma QueueStepOf(codec: Codec, w: World, now: Time, step: WorldStep, w': World)
    requires WorldNext(codec, w, now, step, w')
    ensures match QueueEventOf(w, now, step)
            case None => w'.queue == w.queue
            case Some(event) => QueueNext(w.queue, event, w'.queue)
  {
  }

  lemma JobStays(codec: Codec, w: World, now: Time, step: WorldStep, w': World, id: Uuid)
    requires WorldNext(codec, w, now, step, w') && id in w.queue.jobs
    ensures id in w'.queue.jobs
    ensures w'.queue.jobs[id].organization == w.queue.jobs[id].organization
    ensures w'.queue.jobs[id].jobType == w.queue.jobs[id].jobType
  {
    QueueStepOf(codec, w, now, step, w');
    match QueueEventOf(w, now, step)
    case None =>
    case Some(event) => JobIdentityStays(w.queue, event, w'.queue, id);
  }

  lemma NewJobsOf(codec: Codec, w: World, now: Time, step: WorldStep, w': World, id: Uuid)
    requires WorldNext(codec, w, now, step, w') && id in w'.queue.jobs && id !in w.queue.jobs
    ensures w'.queue.jobs[id].jobType == AuditBatchSeal ==> id in w'.born
  {
    QueueStepOf(codec, w, now, step, w');
    RowsOnlyMoveAsAllowed(w.queue, QueueEventOf(w, now, step).value, w'.queue);
  }

  lemma BirthsStayOk(codec: Codec, w: World, now: Time, step: WorldStep, w': World)
    requires LedgerOk(codec, w.ledger) && BooksOk(w) && WorldNext(codec, w, now, step, w')
    requires |w.ledger.tables.events| <= |w'.ledger.tables.events|
    ensures forall id :: id in w'.born ==> id in w'.queue.jobs && w'.born[id] < |w'.ledger.tables.events|
  {
    forall id | id in w'.born ensures id in w'.queue.jobs && w'.born[id] < |w'.ledger.tables.events| {
      if id in w.queue.jobs {
        JobStays(codec, w, now, step, w', id);
      }
    }
  }

  lemma BooksStayOk(codec: Codec, w: World, now: Time, step: WorldStep, w': World)
    requires LedgerOk(codec, w.ledger) && BooksOk(w) && ClaimsOk(w) && WorldNext(codec, w, now, step, w')
    ensures BooksOk(w')
  {
    LedgerStaysOk(codec, w, now, step, w');
    BirthsStayOk(codec, w, now, step, w');
    SealJobsAreBorn(codec, w, now, step, w');
    PersistedStay(codec, w, now, step, w');
  }

  lemma SealJobsAreBorn(codec: Codec, w: World, now: Time, step: WorldStep, w': World)
    requires BooksOk(w) && WorldNext(codec, w, now, step, w')
    ensures forall id :: id in w'.queue.jobs && w'.queue.jobs[id].jobType == AuditBatchSeal ==> id in w'.born
  {
    forall id | id in w'.queue.jobs && w'.queue.jobs[id].jobType == AuditBatchSeal ensures id in w'.born {
      if id in w.queue.jobs {
        JobStays(codec, w, now, step, w', id);
      } else {
        NewJobsOf(codec, w, now, step, w', id);
      }
    }
  }

  lemma PersistedStay(codec: Codec, w: World, now: Time, step: WorldStep, w': World)
    requires BooksOk(w) && ClaimsOk(w) && WorldNext(codec, w, now, step, w')
    ensures w'.persisted <= w'.queue.jobs.Keys
  {
    forall id | id in w'.persisted ensures id in w'.queue.jobs {
      if step.CommitPersist? {
        assert ClaimOk(w, step.token);
      }
      JobStays(codec, w, now, step, w', id);
    }
  }

  lemma NewClaimOk(w: World, now: Time, action: Action, w': World)
    requires QueueNext(w.queue, At(now, action), w'.queue) && action.ClaimNextJob? && action.claimed.Some?
    requires w'.claims == Registered(w, action)
    ensures action.token in w'.claims && ClaimOk(w', action.token)
    ensures w'.claims[action.token].phase == Claimed
  {
    var id := action.claimed.value.id;
    assert FirstCandidate(w.queue.jobs, now, action.skipped, id);
  }

  lemma ClaimStaysOk(codec: Codec, w: World, now: Time, step: WorldStep, w': World, token: Uuid)
    requires ClaimsOk(w) && WorldNext(codec, w, now, step, w') && token in w'.claims
    ensures ClaimOk(w', token)
  {
    QueueStepOf(codec, w, now, step, w');
    if step.QueueOnly? && step.action.ClaimNextJob? && step.action.claimed.Some? && step.action.token == token {
      NewClaimOk(w, now, step.action, w');
    } else {
      assert ClaimOk(w, token);
      assert w'.claims[token].jobId == w.claims[token].jobId;
      JobStays(codec, w, now, step, w', w.claims[token].jobId);
      assert step.CommitPersist? && w'.claims[token].phase == Persisted && w.claims[token].phase != Persisted ==>
        token == step.token;
    }
  }

  /** The claims of open transactions are in the middle of persisting, so the step that moves another claim, or
      registers a new one, does not touch them. */
  lemma OpenClaimStays(codec: Codec, w: World, now: Time, step: WorldStep, w': World, token: Uuid)
    requires ClaimsOk(w) && OpensOk(w) && WorldNext(codec, w, now, step, w')
    requires token in w.ledger.open && token in w'.ledger.open
    requires step.CommitPersist? ==> step.token != token
    ensures token in w.claims && token in w'.claims && w'.claims[token] == w.claims[token]
  {
    assert OpenOk(w, token);
    assert ClaimOk(w, token);
  }

  /** The transaction of a CommitPersist step sealed a block or found nothing; otherwise the step only closes it. */
  predicate Serves(codec: Codec, w: World, step: WorldStep) {
    && step.CommitPersist? && step.token in w.ledger.open
    && !OutcomeOf(codec, w.ledger.tables, w.ledger.open[step.token], step.blockId).RolledBack?
  }

  lemma StepWithoutCommitKeepsCover(
    codec: Codec, w: World, now: Time, step: WorldStep, w': World, organization: Uuid, k: nat)
    requires BooksOk(w) && ClaimsOk(w) && WorldNext(codec, w, now, step, w')
    requires !Serves(codec, w, step)
    requires Covered(w, organization, k)
    ensures Covered(w', organization, k)
  {
    match step {
      case AppendWithJob(row, jobId) =>
        AppendKeepsCover(codec, w, now, row, jobId, w');
      case QueueOnly(_) =>
        QueueStepKeepsCover(codec, w, now, step, w');
      case SendHeartbeat(_, _, _) =>
        QueueStepKeepsCover(codec, w, now, step, w');
      case CompleteClaim(_, _) =>
        QueueStepKeepsCover(codec, w, now, step, w');
      case CommitPersist(token, blockId) =>
        RolledBackTables(codec, w.ledger.tables, w.ledger.open[token], blockId);
        SameTablesKeepCover(w, w');
      case _ =>
        SameTablesKeepCover(w, w');
    }
  }

  lemma RolledBackTables(codec: Codec, t: Tables, txn: SealTransaction, blockId: Uuid)
    requires OutcomeOf(codec, t, txn, blockId).RolledBack?
    ensures CommitTables(codec, t, txn, blockId) == t
  {
  }

  lemma ServingStep(codec: Codec, w: World, now: Time, step: WorldStep, w': World)
    requires WorldNext(codec, w, now, step, w') && Serves(codec, w, step)
    ensures step.token in w.claims && step.token in w.ledger.open && w.ledger.open[step.token].locked
    ensures Served(w, w', step.token)
    ensures w'.ledger.tables == CommitTables(codec, w.ledger.tables, w.ledger.open[step.token], step.blockId)
  {
  }

  lemma ServingStepKeepsCover(codec: Codec, w: World, now: Time, step: WorldStep, w': World, organization: Uuid, k: nat)
    requires LedgerOk(codec, w.ledger) && ClaimsOk(w) && OpensOk(w)
    requires WorldNext(codec, w, now, step, w') && Serves(codec, w, step)
    requires Covered(w, organization, k)
    requires k == 0 || !SealsFor(codec, w, step, organization)
    ensures Covered(w', organization, k)
  {
    ServingStep(codec, w, now, step, w');
    ServingCommitKeepsCover(codec, w, step.token, step.blockId, w', organization, k);
  }

  /** The step writes a block of this tenant. */
  predicate SealsFor(codec: Codec, w: World, step: WorldStep, organization: Uuid) {
    && step.CommitPersist? && step.token in w.ledger.open
    && w.ledger.open[step.token].organization == organization
    && OutcomeOf(codec, w.ledger.tables, w.ledger.open[step.token], step.blockId).SealedBlock?
  }

  lemma ServingCommitKeepsCover(
    codec: Codec, w: World, token: Uuid, blockId: Uuid, w': World, organization: Uuid, k: nat)
    requires Consistent(codec, w.ledger.tables) && TransactionsOk(w.ledger) && ClaimsOk(w) && OpensOk(w)
    requires token in w.claims && token in w.ledger.open && w.ledger.open[token].locked
    requires Served(w, w', token)
    requires w'.ledger.tables == CommitTables(codec, w.ledger.tables, w.ledger.open[token], blockId)
    requires Serves(codec, w, CommitPersist(token, blockId))
    requires Covered(w, organization, k)
    requires k == 0 || !SealsFor(codec, w, CommitPersist(token, blockId), organization)
    ensures Covered(w', organization, k)
  {
    assert TransactionOk(w.ledger, token) && OpenOk(w, token) && ClaimOk(w, token);
    match OutcomeOf(codec, w.ledger.tables, w.ledger.open[token], blockId) {
      case SealedBlock(_) =>
        SealedBlockKeepsCover(codec, w, token, blockId, w', organization, k);
      case NothingToSeal =>
        EmptyOutcome(codec, w.ledger.tables, w.ledger.open[token], blockId);
        EmptyBatchKeepsCover(codec, w, token, blockId, w', organization, k);
      case RolledBack(_) =>
    }
  }

  lemma EmptyOutcome(codec: Codec, t: Tables, txn: SealTransaction, blockId: Uuid)
    requires OutcomeOf(codec, t, txn, blockId).NothingToSeal?
    ensures SelectUnsealed(txn.snapshot, txn.organization, txn.maxEvents) == []
    ensures CommitTables(codec, t, txn, blockId).events == t.events
  {
  }

  lemma AllStayCovered(codec: Codec, w: World, now: Time, step: WorldStep, w': World)
    requires WorldOk(codec, w) && WorldNext(codec, w, now, step, w')
    ensures AllCovered(w')
  {
    forall organization ensures Covered(w', organization, 0) {
      assert Covered(w, organization, 0);
      if Serves(codec, w, step) {
        ServingStepKeepsCover(codec, w, now, step, w', organization, 0);
      } else {
        StepWithoutCommitKeepsCover(codec, w, now, step, w', organization, 0);
      }
    }
  }

  // --------------------------------------------- cover above open snapshots

  lemma OnlyCommitsMoveHeads(codec: Codec, w: World, now: Time, step: WorldStep, w': World)
    requires WorldNext(codec, w, now, step, w') && !step.CommitPersist?
    ensures w'.ledger.tables.heads == w.ledger.tables.heads
  {
  }

  /** A transaction that may commit after the step could before it. */
  lemma MayCommitBefore(codec: Codec, w: World, now: Time, step: WorldStep, w': World, token: Uuid)
    requires LedgerOk(codec, w.ledger) && WorldNext(codec, w, now, step, w')
    requires token in w.ledger.open && token in w'.ledger.open
    requires w'.ledger.open[token].snapshot == w.ledger.open[token].snapshot
    requires w'.ledger.open[token].organization == w.ledger.open[token].organization
    requires MayCommit(w', token)
    ensures MayCommit(w, token)
    ensures !SealsFor(codec, w, step, w.ledger.open[token].organization)
  {
    if step.CommitPersist? {
      CommittedTables(codec, w, now, step.token, step.blockId, w');
      CommitDoomsItsRivals(codec, w.ledger, step.token, step.blockId, token);
    } else {
      OnlyCommitsMoveHeads(codec, w, now, step, w');
    }
  }

  lemma CommittedTables(codec: Codec, w: World, now: Time, token: Uuid, blockId: Uuid, w': World)
    requires WorldNext(codec, w, now, CommitPersist(token, blockId), w')
    ensures token in w.ledger.open && w.ledger.open[token].locked
    ensures w'.ledger.tables == CommitTables(codec, w.ledger.tables, w.ledger.open[token], blockId)
  {
  }

  lemma OpenTransactionStays(codec: Codec, w: World, now: Time, step: WorldStep, w': World, token: Uuid)
    requires OpensOk(w) && WorldNext(codec, w, now, step, w')
    requires token in w.ledger.open && token in w'.ledger.open
    ensures w'.ledger.open[token].snapshot == w.ledger.open[token].snapshot
    ensures w'.ledger.open[token].organization == w.ledger.open[token].organization
    ensures w'.ledger.open[token].maxEvents == w.ledger.open[token].maxEvents
    ensures step.CommitPersist? ==> step.token != token
  {
    LedgerFollows(codec, w, now, step, w');
    match LedgerStepOf(w, step)
    case None =>
    case Some(ledgerStep) => OpenStays(codec, w.ledger, ledgerStep, token);
  }

  lemma OpenStays(codec: Codec, s: Ledger, step: LedgerStep, txn: nat)
    requires txn in s.open && txn in LedgerNext(codec, s, step).open
    ensures var x, x' := s.open[txn], LedgerNext(codec, s, step).open[txn];
            x'.snapshot == x.snapshot && x'.organization == x.organization && x'.maxEvents == x.maxEvents
    ensures step.Commit? && s.open[txn].locked ==> step.txn != txn
  {
  }

  lemma OldOpenStaysOk(codec: Codec, w: World, now: Time, step: WorldStep, w': World, token: Uuid)
    requires LedgerOk(codec, w.ledger) && BooksOk(w) && ClaimsOk(w) && OpensOk(w)
    requires WorldNext(codec, w, now, step, w')
    requires token in w.ledger.open && token in w'.ledger.open
    requires |w.ledger.tables.events| <= |w'.ledger.tables.events|
    ensures OpenOk(w', token)
  {
    var x := w.ledger.open[token];
    OpenTransactionStays(codec, w, now, step, w', token);
    OpenClaimStays(codec, w, now, step, w', token);
    assert OpenOk(w, token) && ClaimOk(w, token);
    BornStays(codec, w, now, step, w', w.claims[token].jobId);
    if MayCommit(w', token) {
      MayCommitBefore(codec, w, now, step, w', token);
      if Serves(codec, w, step) {
        ServingStepKeepsCover(codec, w, now, step, w', x.organization, |x.snapshot.events|);
      } else {
        StepWithoutCommitKeepsCover(codec, w, now, step, w', x.organization, |x.snapshot.events|);
      }
    }
  }

  lemma BornStays(codec: Codec, w: World, now: Time, step: WorldStep, w': World, id: Uuid)
    requires WorldNext(codec, w, now, step, w') && id in w.queue.jobs && id in w.born
    ensures id in w'.born && w'.born[id] == w.born[id]
  {
  }

  /** A new transaction's snapshot is the present, above which there is nothing to cover. */
  lemma NewOpenIsOk(codec: Codec, w: World, now: Time, step: WorldStep, w': World, token: Uuid)
    requires BooksOk(w) && ClaimsOk(w) && WorldNext(codec, w, now, step, w')
    requires token !in w.ledger.open && token in w'.ledger.open
    ensures OpenOk(w', token)
  {
    OnlyBeginOpens(codec, w, now, step, w', token);
    assert ClaimOk(w, token);
    var events := w'.ledger.tables.events;
    assert events[|events|..] == [];
  }

  lemma OnlyBeginOpens(codec: Codec, w: World, now: Time, step: WorldStep, w': World, token: Uuid)
    requires WorldNext(codec, w, now, step, w')
    requires token !in w.ledger.open && token in w'.ledger.open
    ensures step == BeginPersist(token)
  {
  }

  /** Every step of every worker keeps the invariant of the seam. */
  lemma WorldStaysOk(codec: Codec, w: World, now: Time, step: WorldStep, w': World)
    requires WorldOk(codec, w) && WorldNext(codec, w, now, step, w')
    ensures WorldOk(codec, w')
  {
    LedgerStaysOk(codec, w, now, step, w');
    BooksStayOk(codec, w, now, step, w');
    AllStayCovered(codec, w, now, step, w');
    forall token | token in w'.claims ensures ClaimOk(w', token) {
      ClaimStaysOk(codec, w, now, step, w', token);
    }
    forall token | token in w'.ledger.open ensures OpenOk(w', token) {
      if token in w.ledger.open {
        OldOpenStaysOk(codec, w, now, step, w', token);
      } else {
        NewOpenIsOk(codec, w, now, step, w', token);
      }
    }
  }

  // ------------------------------------------------------------ behaviours

  datatype Behavior = Behavior(worlds: seq<World>, times: seq<Time>, steps: seq<WorldStep>)

  ghost predicate IsBehavior(codec: Codec, b: Behavior) {
    && |b.worlds| == |b.steps| + 1 && |b.times| == |b.steps|
    && b.worlds[0] == EMPTY_WORLD
    && forall i :: 0 <= i < |b.steps| ==> WorldStepsAt(codec, b, i)
  }

  ghost predicate WorldStepsAt(codec: Codec, b: Behavior, i: nat)
    requires i < |b.steps| && |b.worlds| == |b.steps| + 1 && |b.times| == |b.steps|
  {
    WorldNext(codec, b.worlds[i], b.times[i], b.steps[i], b.worlds[i + 1])
  }

  lemma EmptyWorldOk(codec: Codec)
    ensures WorldOk(codec, EMPTY_WORLD)
  {
    EmptyLedgerOk(codec);
  }

  lemma {:induction false} BehaviorStaysOk(codec: Codec, b: Behavior, n: nat)
    requires IsBehavior(codec, b) && n < |b.worlds|
    ensures WorldOk(codec, b.worlds[n])
  {
    if n == 0 {
      EmptyWorldOk(codec);
    } else {
      BehaviorStaysOk(codec, b, n - 1);
      assert WorldStepsAt(codec, b, n - 1);
      WorldStaysOk(codec, b.worlds[n - 1], b.times[n - 1], b.steps[n - 1], b.worlds[n]);
    }
  }

  function Unsealed(w: World, organization: Uuid): seq<EventRow> {
    Filter(w.ledger.tables.events, IsUnsealed(organization))
  }

  function IncompleteSealJobs(w: World, organization: Uuid): set<Uuid> {
    set id | id in w.queue.jobs && SealJob(w.queue.jobs[id], organization) && w.queue.jobs[id].status != Completed
  }

  /** In every reachable state a tenant has at most as many unsealed events as seal jobs that are not completed, and
      even as seal jobs that no transaction has served yet. */
  lemma BacklogIsCovered(codec: Codec, b: Behavior, n: nat, organization: Uuid)
    requires IsBehavior(codec, b) && n < |b.worlds|
    ensures |Unsealed(b.worlds[n], organization)|
         <= |IncompleteSealJobs(b.worlds[n], organization) - b.worlds[n].persisted|
    ensures |Unsealed(b.worlds[n], organization)| <= |IncompleteSealJobs(b.worlds[n], organization)|
  {
    var w := b.worlds[n];
    BehaviorStaysOk(codec, b, n);
    assert Covered(w, organization, 0);
    assert w.ledger.tables.events[0..] == w.ledger.tables.events;
    var incomplete := IncompleteSealJobs(w, organization);
    forall id | id in PendingIds(w, organization, 0) ensures id in incomplete - w.persisted {
      assert Pending(w, organization, 0, id);
    }
    SubsetCardinality(PendingIds(w, organization, 0), incomplete - w.persisted);
    SubsetCardinality(incomplete - w.persisted, incomplete);
  }

  lemma SealedHistoryHasBlocks(codec: Codec, t: Tables, organization: Uuid, i: nat)
    requires Consistent(codec, t)
    requires i < |t.events| && t.events[i].organization == organization
    requires Filter(t.events, IsUnsealed(organization)) == []
    ensures Filter(t.blocks, OfTenant(organization)) != []
  {
    FilterMembers(t.events, IsUnsealed(organization));
    assert t.events[i] in t.events;
    assert t.events[i] !in Filter(t.events, IsUnsealed(organization));
    assert RowConsistentAt(codec, t, i);
    var j :| 0 <= j < |t.blocks| && t.blocks[j].id == t.events[i].batchBlock.value
          && t.blocks[j].organization == organization;
    FilterMembers(t.blocks, OfTenant(organization));
    assert t.blocks[j] in Filter(t.blocks, OfTenant(organization));
  }

  /** When all seal jobs of a tenant are completed, all its events are sealed, and its history verifies as VALID. */
  lemma CompletedJobsSealEverything(codec: Codec, b: Behavior, n: nat, organization: Uuid)
    requires IsBehavior(codec, b) && n < |b.worlds|
    requires forall id :: id in b.worlds[n].queue.jobs && SealJob(b.worlds[n].queue.jobs[id], organization) ==>
               b.worlds[n].queue.jobs[id].status == Completed
    ensures Unsealed(b.worlds[n], organization) == []
    ensures (exists i :: 0 <= i < |b.worlds[n].ledger.tables.events|
                         && b.worlds[n].ledger.tables.events[i].organization == organization) ==>
              var verdict := VerifyTables(codec, b.worlds[n].ledger.tables, organization);
              verdict.Ok? && verdict.value.status == Valid
  {
    var w := b.worlds[n];
    BacklogIsCovered(codec, b, n, organization);
    assert IncompleteSealJobs(w, organization) == {};
    BehaviorStaysOk(codec, b, n);
    if i :| 0 <= i < |w.ledger.tables.events| && w.ledger.tables.events[i].organization == organization {
      SealedHistoryHasBlocks(codec, w.ledger.tables, organization, i);
      VerdictOnConsistent(codec, w.ledger.tables, organization);
    }
  }
}
