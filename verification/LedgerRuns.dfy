/** Interleavings of appends and sealing transactions. A sealing transaction runs under REPEATABLE READ: it
    reads a snapshot, takes the row lock on the tenant's chain head (and is aborted if that row changed since
    the snapshot), and commits. Steps that are not enabled leave the ledger as it is. */
module LedgerRuns {
  import opened Prelude
  import opened Hashing
  import opened AuditTables
  import opened Sealing
  import opened SealEffect
  import opened LedgerInvariant
  import opened SealSafety

  datatype SealTransaction = SealTransaction(
    organization: Uuid, maxEvents: nat, snapshot: Tables, locked: bool)

  /** The committed tables, the open sealing transactions, and who holds the lock on which chain head. */
  datatype Ledger = Ledger(tables: Tables, open: map<nat, SealTransaction>, locks: map<Uuid, nat>)

  const EMPTY_LEDGER := Ledger(EMPTY_TABLES, map[], map[])

  datatype LedgerStep =
    | Append(row: EventRow)
    | Begin(txn: nat, organization: Uuid, maxEvents: int)
    | LockHead(txn: nat)
    | Commit(txn: nat, blockId: Uuid)
    | Rollback(txn: nat)

  predicate Appendable(codec: Codec, t: Tables, row: EventRow) {
    && SealColumnsNull(row)
    && Canonicalizable(codec, row)
    && forall i :: 0 <= i < |t.events| ==> t.events[i].id != row.id
  }

  function Close(s: Ledger, txn: nat): Ledger
    requires txn in s.open
  {
    var organization := s.open[txn].organization;
    s.(open := s.open - {txn}, locks := if s.open[txn].locked then s.locks - {organization} else s.locks)
  }

  /** The tables after the COMMIT of a transaction that holds the head lock; an error rolls it back. */
  function CommitTables(codec: Codec, t: Tables, txn: SealTransaction, blockId: Uuid): Tables {
    var t' := EnsureChainHead(t, txn.organization);
    var rows := SelectUnsealed(txn.snapshot, txn.organization, txn.maxEvents);
    if rows == [] then t'
    else
      match WriteBlock(codec, t', txn.organization, t'.heads[txn.organization], rows, blockId)
      case Err(_) => t
      case Ok((written, _)) => written
  }

  function LedgerNext(codec: Codec, s: Ledger, step: LedgerStep): Ledger {
    match step
    case Append(row) =>
      if Appendable(codec, s.tables, row) then s.(tables := AppendRow(s.tables, row)) else s
    case Begin(txn, organization, maxEvents) =>
      if txn in s.open || maxEvents < 1 || maxEvents > MAX_EVENTS_PER_BLOCK then s
      else s.(open := s.open[txn := SealTransaction(organization, maxEvents, s.tables, false)])
    case LockHead(txn) =>
      if txn !in s.open || s.open[txn].locked || s.open[txn].organization in s.locks then s
      else
        var organization := s.open[txn].organization;
        if Lookup(s.tables.heads, organization) != Lookup(s.open[txn].snapshot.heads, organization) then Close(s, txn)
        else s.(open := s.open[txn := s.open[txn].(locked := true)], locks := s.locks[organization := txn])
    case Commit(txn, blockId) =>
      if txn !in s.open || !s.open[txn].locked then s
      else Close(s, txn).(tables := CommitTables(codec, s.tables, s.open[txn], blockId))
    case Rollback(txn) =>
      if txn !in s.open then s else Close(s, txn)
  }

  function Run(codec: Codec, s: Ledger, steps: seq<LedgerStep>): Ledger {
    if steps == [] then s
    else LedgerNext(codec, Run(codec, s, steps[..|steps| - 1]), steps[|steps| - 1])
  }

  // ------------------------------------------------------- write-once rows

  /** Nothing that t holds for good is lost or changed in t'. */
  ghost predicate Extends(t: Tables, t': Tables) {
    && |t.events| <= |t'.events|
    && (forall i :: 0 <= i < |t.events| ==> SameCommitted(t.events[i], t'.events[i]))
    && (forall i :: 0 <= i < |t.events| && t.events[i].batchBlock.Some? ==> t'.events[i] == t.events[i])
    && t.blocks <= t'.blocks
    && t.heads.Keys <= t'.heads.Keys
    && (forall organization :: HeadSequence(t, organization) <= HeadSequence(t', organization))
  }

  function HeadSequence(t: Tables, organization: Uuid): int {
    if organization in t.heads then t.heads[organization].lastBlockSequence else 0
  }

  lemma ExtendsTransitively(a: Tables, b: Tables, c: Tables)
    requires Extends(a, b) && Extends(b, c)
    ensures Extends(a, c)
  {
    forall i | 0 <= i < |a.events|
      ensures SameCommitted(a.events[i], c.events[i])
      ensures a.events[i].batchBlock.Some? ==> c.events[i] == a.events[i]
    {
      assert SameCommitted(a.events[i], b.events[i]) && SameCommitted(b.events[i], c.events[i]);
    }
    forall organization ensures HeadSequence(a, organization) <= HeadSequence(c, organization) {
      assert HeadSequence(a, organization) <= HeadSequence(b, organization);
    }
  }

  /** The rows of a tenant with the same head are the rows of the snapshot. */
  ghost predicate Fresh(snapshot: Tables, t: Tables, organization: Uuid) {
    && Extends(snapshot, t)
    && (HeadSequence(snapshot, organization) == HeadSequence(t, organization) ==>
          forall i :: 0 <= i < |snapshot.events| && snapshot.events[i].organization == organization ==>
            t.events[i] == snapshot.events[i])
  }

  /** What one change of the tables may do to a tenant. */
  ghost predicate Advances(t: Tables, t': Tables) {
    && Extends(t, t')
    && forall organization ::
         HeadSequence(t, organization) == HeadSequence(t', organization) ==>
           forall i :: 0 <= i < |t.events| && t.events[i].organization == organization ==> t'.events[i] == t.events[i]
  }

  lemma FreshAfterAdvance(snapshot: Tables, t: Tables, t': Tables, organization: Uuid)
    requires Fresh(snapshot, t, organization) && Advances(t, t')
    ensures Fresh(snapshot, t', organization)
  {
    ExtendsTransitively(snapshot, t, t');
    if HeadSequence(snapshot, organization) == HeadSequence(t', organization) {
      assert HeadSequence(t, organization) <= HeadSequence(t', organization);
      assert HeadSequence(snapshot, organization) <= HeadSequence(t, organization);
      forall i | 0 <= i < |snapshot.events| && snapshot.events[i].organization == organization
        ensures t'.events[i] == snapshot.events[i]
      {
        assert t.events[i] == snapshot.events[i];
      }
    }
  }

  lemma AppendAdvances(t: Tables, row: EventRow)
    ensures Advances(t, AppendRow(t, row))
  {
  }

  lemma EnsureAdvances(t: Tables, organization: Uuid)
    ensures Advances(t, EnsureChainHead(t, organization))
  {
  }

  lemma WriteAdvances(
    t: Tables, organization: Uuid, rows: seq<EventRow>, leaves: seq<Bytes>, t': Tables, block: BlockRow)
    requires |leaves| == |rows| && Batch(t, organization, rows)
    requires Wrote(t, t', organization, rows, leaves, block)
    requires block.blockSequence == HeadSequence(t, organization) + 1
    ensures Advances(t, t')
  {
    forall i | 0 <= i < |t.events|
      ensures SameCommitted(t.events[i], t'.events[i])
      ensures t.events[i].batchBlock.Some? || t.events[i].organization != organization ==> t'.events[i] == t.events[i]
    {
      MarkedRow(t, organization, rows, leaves, block.id, t'.events, i);
      if t.events[i] in rows {
        var k :| 0 <= k < |rows| && rows[k] == t.events[i];
        assert t'.events[i] == Marked(rows, leaves, block.id)[k];
      }
    }
    forall tenant
      ensures HeadSequence(t, tenant) <= HeadSequence(t', tenant)
      ensures HeadSequence(t, tenant) == HeadSequence(t', tenant) ==> tenant != organization
    {
    }
  }

  // ------------------------------------------------------------- invariant

  ghost predicate TransactionOk(s: Ledger, txn: nat)
    requires txn in s.open
  {
    var x := s.open[txn];
    && Fresh(x.snapshot, s.tables, x.organization)
    && (x.locked ==>
          && x.organization in s.locks && s.locks[x.organization] == txn
          && Lookup(s.tables.heads, x.organization) == Lookup(x.snapshot.heads, x.organization))
  }

  ghost predicate TransactionsOk(s: Ledger) {
    forall txn :: txn in s.open ==> TransactionOk(s, txn)
  }

  ghost predicate LockOk(s: Ledger, organization: Uuid)
    requires organization in s.locks
  {
    && s.locks[organization] in s.open
    && s.open[s.locks[organization]].organization == organization
    && s.open[s.locks[organization]].locked
  }

  ghost predicate LocksOk(s: Ledger) {
    forall organization :: organization in s.locks ==> LockOk(s, organization)
  }

  ghost predicate LedgerOk(codec: Codec, s: Ledger) {
    Consistent(codec, s.tables) && TransactionsOk(s) && LocksOk(s)
  }

  lemma PrefixHasUniqueIds(snapshot: Tables, t: Tables)
    requires Extends(snapshot, t) && UniqueEventIds(t.events)
    ensures UniqueEventIds(snapshot.events)
  {
    forall i, j | 0 <= i < j < |snapshot.events| ensures snapshot.events[i].id != snapshot.events[j].id {
      assert SameCommitted(snapshot.events[i], t.events[i]) && SameCommitted(snapshot.events[j], t.events[j]);
    }
  }

  /** What the transaction selected from its snapshot may be sealed in the current tables. */
  lemma SnapshotBatch(snapshot: Tables, t: Tables, organization: Uuid, limit: nat)
    requires UniqueEventIds(t.events)
    requires Fresh(snapshot, t, organization)
    requires HeadSequence(snapshot, organization) == HeadSequence(t, organization)
    ensures Batch(t, organization, SelectUnsealed(snapshot, organization, limit))
    ensures forall k, i :: (0 <= k < |SelectUnsealed(snapshot, organization, limit)|
              && |snapshot.events| <= i < |t.events|) ==>
              SelectUnsealed(snapshot, organization, limit)[k] != t.events[i]
  {
    PrefixHasUniqueIds(snapshot, t);
    SelectionIsOldest(snapshot, organization, limit);
    var rows := SelectUnsealed(snapshot, organization, limit);
    forall k | 0 <= k < |rows|
      ensures rows[k] in t.events
      ensures forall i :: |snapshot.events| <= i < |t.events| ==> rows[k] != t.events[i]
    {
      var j :| 0 <= j < |snapshot.events| && snapshot.events[j] == rows[k];
      assert t.events[j] == rows[k];
    }
  }

  lemma EnsureKeepsConsistent(codec: Codec, t: Tables, organization: Uuid)
    requires Consistent(codec, t)
    ensures Consistent(codec, EnsureChainHead(t, organization))
  {
    var t' := EnsureChainHead(t, organization);
    forall i | 0 <= i < |t'.events| ensures RowConsistentAt(codec, t', i) {
      assert RowConsistentAt(codec, t, i);
    }
    forall tenant ensures TenantConsistent(codec, t', tenant) {
      assert TenantConsistent(codec, t, tenant);
      var blocks := Filter(t.blocks, OfTenant(tenant));
      forall i | 0 <= i < |blocks|
        ensures BlockEvents(t, tenant, blocks[i].id) == BlockEvents(t', tenant, blocks[i].id) {}
      ChainCarriesOver(codec, t, t', tenant, blocks);
    }
  }

  lemma WriteKeepsTables(
    codec: Codec, t: Tables, organization: Uuid, head: ChainHead, rows: seq<EventRow>, blockId: Uuid, written: Tables,
    block: BlockRow)
    requires rows != [] && Consistent(codec, t) && Batch(t, organization, rows)
    requires WriteBlock(codec, t, organization, head, rows, blockId) == Ok((written, block))
    ensures Consistent(codec, written)
    ensures Advances(t, written)
    ensures forall tenant :: tenant != organization ==> Lookup(written.heads, tenant) == Lookup(t.heads, tenant)
    ensures HeadSequence(written, organization) == HeadSequence(t, organization) + 1
    ensures |Filter(t.events, IsUnsealed(organization))| == |Filter(written.events, IsUnsealed(organization))| + |rows|
    ensures |written.events| == |t.events|
  {
    var leaves := WriteByParts(codec, t, organization, head, rows, blockId, written, block);
    SealKeepsConsistent(codec, t, organization, head, rows, leaves, written, block);
    WriteAdvances(t, organization, rows, leaves, written, block);
    WriteMovesOneHead(t, organization, rows, leaves, written, block);
  }

  /** The facts about a successful write that the invariant needs. */
  lemma WriteByParts(
    codec: Codec, t: Tables, organization: Uuid, head: ChainHead, rows: seq<EventRow>, blockId: Uuid, written: Tables,
    block: BlockRow) returns (leaves: seq<Bytes>)
    requires rows != [] && UniqueEventIds(t.events) && Batch(t, organization, rows)
    requires WriteBlock(codec, t, organization, head, rows, blockId) == Ok((written, block))
    ensures |leaves| == |rows| && LeafHashesOfRows(codec, rows) == Ok(leaves)
    ensures BuildBlock(codec, organization, head, rows, leaves, block.id) == Ok(block)
    ensures Lookup(t.heads, organization) == Some(head)
    ensures Wrote(t, written, organization, rows, leaves, block)
    ensures block.blockSequence == HeadSequence(t, organization) + 1
    ensures |Filter(t.events, IsUnsealed(organization))| == |Filter(written.events, IsUnsealed(organization))| + |rows|
  {
    var written', block';
    leaves, written', block' := WriteBlockWrote(codec, t, organization, head, rows, blockId);
    BuiltBlock(codec, organization, head, rows, leaves, blockId);
  }

  lemma WriteMovesOneHead(
    t: Tables, organization: Uuid, rows: seq<EventRow>, leaves: seq<Bytes>, t': Tables, block: BlockRow)
    requires |leaves| == |rows| && Wrote(t, t', organization, rows, leaves, block)
    ensures forall tenant :: tenant != organization ==> Lookup(t'.heads, tenant) == Lookup(t.heads, tenant)
    ensures HeadSequence(t', organization) == block.blockSequence
    ensures |t'.events| == |t.events|
  {
  }

  /** The holder of the head lock may seal its batch in the tables of the moment. */
  lemma HolderHasBatch(codec: Codec, t: Tables, txn: SealTransaction)
    requires Consistent(codec, t)
    requires Fresh(txn.snapshot, t, txn.organization)
    requires Lookup(t.heads, txn.organization) == Lookup(txn.snapshot.heads, txn.organization)
    ensures var t' := EnsureChainHead(t, txn.organization);
            var rows := SelectUnsealed(txn.snapshot, txn.organization, txn.maxEvents);
            && Consistent(codec, t')
            && Advances(t, t')
            && Batch(t', txn.organization, rows)
            && forall k, i :: 0 <= k < |rows| && |txn.snapshot.events| <= i < |t'.events| ==> rows[k] != t'.events[i]
  {
    var t' := EnsureChainHead(t, txn.organization);
    EnsureKeepsConsistent(codec, t, txn.organization);
    EnsureAdvances(t, txn.organization);
    FreshAfterAdvance(txn.snapshot, t, t', txn.organization);
    SnapshotBatch(txn.snapshot, t', txn.organization, txn.maxEvents);
  }

  /** A commit by the holder of the head lock. */
  lemma CommitKeepsTables(codec: Codec, t: Tables, txn: SealTransaction, blockId: Uuid)
    requires Consistent(codec, t)
    requires Fresh(txn.snapshot, t, txn.organization)
    requires Lookup(t.heads, txn.organization) == Lookup(txn.snapshot.heads, txn.organization)
    ensures Consistent(codec, CommitTables(codec, t, txn, blockId))
    ensures Advances(t, CommitTables(codec, t, txn, blockId))
    ensures forall tenant :: tenant != txn.organization ==>
              Lookup(CommitTables(codec, t, txn, blockId).heads, tenant) == Lookup(t.heads, tenant)
    ensures |CommitTables(codec, t, txn, blockId).events| == |t.events|
  {
    var organization := txn.organization;
    var t' := EnsureChainHead(t, organization);
    var rows := SelectUnsealed(txn.snapshot, organization, txn.maxEvents);
    HolderHasBatch(codec, t, txn);
    if rows != [] {
      match WriteBlock(codec, t', organization, t'.heads[organization], rows, blockId)
      case Err(_) =>
      case Ok((written, block)) =>
        WriteKeepsTables(codec, t', organization, t'.heads[organization], rows, blockId, written, block);
        AdvancesTransitively(t, t', written);
    }
  }

  lemma AdvancesTransitively(a: Tables, b: Tables, c: Tables)
    requires Advances(a, b) && Advances(b, c)
    ensures Advances(a, c)
  {
    ExtendsTransitively(a, b, c);
    forall organization | HeadSequence(a, organization) == HeadSequence(c, organization)
      ensures forall i :: 0 <= i < |a.events| && a.events[i].organization == organization ==> c.events[i] == a.events[i]
    {
      assert HeadSequence(a, organization) <= HeadSequence(b, organization) <= HeadSequence(c, organization);
      forall i | 0 <= i < |a.events| && a.events[i].organization == organization ensures c.events[i] == a.events[i] {
        assert b.events[i] == a.events[i];
      }
    }
  }

  /** The only head that a step changes is that of the committing transaction's tenant. */
  ghost predicate TouchesHeadOnlyOf(s: Ledger, s': Ledger, step: LedgerStep) {
    forall tenant :: Lookup(s'.tables.heads, tenant) != Lookup(s.tables.heads, tenant) ==>
      step.Commit? && step.txn in s.open && s.open[step.txn].locked && s.open[step.txn].organization == tenant
  }

  lemma TablesAdvance(codec: Codec, s: Ledger, step: LedgerStep)
    requires LedgerOk(codec, s)
    ensures Consistent(codec, LedgerNext(codec, s, step).tables)
    ensures Advances(s.tables, LedgerNext(codec, s, step).tables)
    ensures TouchesHeadOnlyOf(s, LedgerNext(codec, s, step), step)
  {
    match step {
      case Append(row) =>
        if Appendable(codec, s.tables, row) {
          AppendKeepsConsistent(codec, s.tables, row);
          AppendAdvances(s.tables, row);
        }
      case Commit(txn, blockId) =>
        if txn in s.open && s.open[txn].locked {
          assert TransactionOk(s, txn);
          CommitKeepsTables(codec, s.tables, s.open[txn], blockId);
        }
      case _ =>
    }
  }

  lemma OldTransaction(codec: Codec, s: Ledger, step: LedgerStep, txn: nat)
    requires TransactionsOk(s)
    requires var s' := LedgerNext(codec, s, step); txn in s.open && txn in s'.open
    ensures var s' := LedgerNext(codec, s, step);
            var x, x' := s.open[txn], s'.open[txn];
            && x'.(locked := x.locked) == x
            && (x'.locked ==>
                  && x.organization in s'.locks && s'.locks[x.organization] == txn
                  && Lookup(s.tables.heads, x.organization) == Lookup(x.snapshot.heads, x.organization)
                  && !(step.Commit? && step.txn in s.open && s.open[step.txn].locked
                       && s.open[step.txn].organization == x.organization))
  {
    assert TransactionOk(s, txn);
    assert (step.Commit? || step.Rollback? || step.LockHead?) && step.txn in s.open ==> TransactionOk(s, step.txn);
  }

  lemma TransactionStaysOk(codec: Codec, s: Ledger, step: LedgerStep, txn: nat)
    requires TransactionsOk(s)
    requires var s' := LedgerNext(codec, s, step);
             Advances(s.tables, s'.tables) && TouchesHeadOnlyOf(s, s', step) && txn in s'.open
    ensures TransactionOk(LedgerNext(codec, s, step), txn)
  {
    var s' := LedgerNext(codec, s, step);
    if txn in s.open {
      var x := s.open[txn];
      OldTransaction(codec, s, step, txn);
      assert TransactionOk(s, txn);
      FreshAfterAdvance(x.snapshot, s.tables, s'.tables, x.organization);
    } else {
      NewTransaction(codec, s, step, txn);
    }
  }

  lemma NewTransaction(codec: Codec, s: Ledger, step: LedgerStep, txn: nat)
    requires var s' := LedgerNext(codec, s, step); txn !in s.open && txn in s'.open
    ensures TransactionOk(LedgerNext(codec, s, step), txn)
  {
  }

  lemma ClosingKeepsLocks(s: Ledger, txn: nat)
    requires TransactionsOk(s) && LocksOk(s) && txn in s.open
    ensures LocksOk(Close(s, txn))
  {
    var s' := Close(s, txn);
    assert TransactionOk(s, txn);
    forall organization | organization in s'.locks ensures LockOk(s', organization) {
      assert LockOk(s, organization);
    }
  }

  lemma LockingKeepsLocks(codec: Codec, s: Ledger, txn: nat)
    requires TransactionsOk(s) && LocksOk(s)
    ensures LocksOk(LedgerNext(codec, s, LockHead(txn)))
  {
    var s' := LedgerNext(codec, s, LockHead(txn));
    if s' == s {
    } else if txn !in s'.open {
      ClosingKeepsLocks(s, txn);
    } else {
      forall organization | organization in s'.locks ensures LockOk(s', organization) {
        assert organization in s.locks ==> LockOk(s, organization);
      }
    }
  }

  lemma LocksStayOk(codec: Codec, s: Ledger, step: LedgerStep)
    requires TransactionsOk(s) && LocksOk(s)
    ensures LocksOk(LedgerNext(codec, s, step))
  {
    match step
    case LockHead(txn) => LockingKeepsLocks(codec, s, txn);
    case Commit(txn, _) => if txn in s.open { ClosingKeepsLocks(s, txn); }
    case Rollback(txn) => if txn in s.open { ClosingKeepsLocks(s, txn); }
    case _ =>
  }

  /** Every step, whoever takes it, keeps the invariant. */
  lemma StepKeepsLedgerOk(codec: Codec, s: Ledger, step: LedgerStep)
    requires LedgerOk(codec, s)
    ensures LedgerOk(codec, LedgerNext(codec, s, step))
  {
    var s' := LedgerNext(codec, s, step);
    TablesAdvance(codec, s, step);
    LocksStayOk(codec, s, step);
    forall txn | txn in s'.open ensures TransactionOk(s', txn) {
      TransactionStaysOk(codec, s, step, txn);
    }
  }

  /** Every reachable ledger, under every interleaving. */
  lemma {:induction false} RunKeepsLedgerOk(codec: Codec, s: Ledger, steps: seq<LedgerStep>)
    requires LedgerOk(codec, s)
    ensures LedgerOk(codec, Run(codec, s, steps))
  {
    if steps == [] {
    } else {
      RunKeepsLedgerOk(codec, s, steps[..|steps| - 1]);
      StepKeepsLedgerOk(codec, Run(codec, s, steps[..|steps| - 1]), steps[|steps| - 1]);
    }
  }

  lemma EmptyLedgerOk(codec: Codec)
    ensures LedgerOk(codec, EMPTY_LEDGER)
  {
    forall organization ensures TenantConsistent(codec, EMPTY_TABLES, organization) {
    }
  }
}
