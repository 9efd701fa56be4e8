/** What the invariant and the interleavings mean: writer and verifier agree, sealing transactions extend the
    chain one block at a time, and sealed rows partition what was appended. */
module LedgerGuarantees {
  import opened Prelude
  import opened Hashing
  import opened Merkle
  import opened AuditTables
  import opened Sealing
  import opened SealEffect
  import opened Verification
  import opened LedgerInvariant
  import opened SealSafety
  import opened LedgerRuns

  // ------------------------------------------------ the verdict of a run

  lemma SequencesCount(codec: Codec, t: Tables, organization: Uuid, blocks: seq<BlockRow>)
    requires TenantConsistent(codec, t, organization) && blocks == Filter(t.blocks, OfTenant(organization))
    ensures forall i :: 0 <= i < |blocks| ==> blocks[i].blockSequence == i + 1
  {
    forall i | 0 <= i < |blocks| ensures blocks[i].blockSequence == i + 1 {
      ChainIntactAt(codec, t, organization, blocks, i);
    }
  }

  lemma SequenceOrderIsTotal()
    ensures TotalPreorder(SequenceLe)
  {
  }

  lemma CountedIsSorted(blocks: seq<BlockRow>)
    requires forall i :: 0 <= i < |blocks| ==> blocks[i].blockSequence == i + 1
    ensures Sorted(blocks, SequenceLe) && NoTies(blocks, SequenceLe)
  {
  }

  lemma TenantBlocksInOrder(codec: Codec, t: Tables, organization: Uuid)
    requires TenantConsistent(codec, t, organization)
    ensures TenantBlocks(t, organization) == Filter(t.blocks, OfTenant(organization))
  {
    var blocks := Filter(t.blocks, OfTenant(organization));
    SequencesCount(codec, t, organization, blocks);
    SequenceOrderIsTotal();
    CountedIsSorted(blocks);
    SortOfSorted(blocks, SequenceLe);
  }

  lemma {:induction false} AwaitingIsUnsealed(events: seq<EventRow>, organization: Uuid)
    requires forall i :: 0 <= i < |events| ==> SealColumnsAgree(events[i])
    ensures Filter(events, AwaitsSealing(organization)) == Filter(events, IsUnsealed(organization))
  {
    if events == [] {
    } else {
      AwaitingIsUnsealed(events[..|events| - 1], organization);
    }
  }

  /** On a consistent ledger the verifier reports, with the true number of blocks and of sealed events: VALID if
      there is a block and nothing waits, INCOMPLETE otherwise, and never INVALID or an exception. */
  lemma VerdictOnConsistent(codec: Codec, t: Tables, organization: Uuid)
    requires Consistent(codec, t)
    ensures var verdict := VerifyTables(codec, t, organization);
            && verdict.Ok?
            && verdict.value.status != Invalid
            && (verdict.value.status == Valid <==>
                  Filter(t.blocks, OfTenant(organization)) != [] && Filter(t.events, IsUnsealed(organization)) == [])
            && verdict.value.blocksChecked == |Filter(t.blocks, OfTenant(organization))|
            && verdict.value.eventsChecked == |Filter(t.events, IsSealed(organization))|
  {
    var blocks := Filter(t.blocks, OfTenant(organization));
    assert TenantConsistent(codec, t, organization);
    TenantBlocksInOrder(codec, t, organization);
    NoFaultMeaning(Checker(codec, t, organization), blocks);
    SequencesCount(codec, t, organization, Filter(t.blocks, OfTenant(organization)));
    forall i | 0 <= i < |t.events| ensures SealColumnsAgree(t.events[i]) {
      assert RowConsistentAt(codec, t, i);
    }
    AwaitingIsUnsealed(t.events, organization);
  }

  /** Writer and verifier agree after every interleaving of appends and sealing transactions. */
  lemma WriterAndVerifierAgree(codec: Codec, steps: seq<LedgerStep>, organization: Uuid)
    ensures var t := Run(codec, EMPTY_LEDGER, steps).tables;
            var verdict := VerifyTables(codec, t, organization);
            && verdict.Ok?
            && verdict.value.status != Invalid
            && (verdict.value.status == Valid <==>
                  Filter(t.blocks, OfTenant(organization)) != [] && Filter(t.events, IsUnsealed(organization)) == [])
            && verdict.value.blocksChecked == |Filter(t.blocks, OfTenant(organization))|
            && verdict.value.eventsChecked == |Filter(t.events, IsSealed(organization))|
  {
    EmptyLedgerOk(codec);
    RunKeepsLedgerOk(codec, EMPTY_LEDGER, steps);
    VerdictOnConsistent(codec, Run(codec, EMPTY_LEDGER, steps).tables, organization);
  }

  // ---------------------------------------------------- concurrent sealers

  /** What one commit did: nothing to seal, a rollback, or one more block with exactly the snapshot's batch. */
  datatype CommitOutcome = NothingToSeal | RolledBack(error: SealError) | SealedBlock(block: BlockRow)

  function OutcomeOf(codec: Codec, t: Tables, txn: SealTransaction, blockId: Uuid): CommitOutcome {
    var t' := EnsureChainHead(t, txn.organization);
    var rows := SelectUnsealed(txn.snapshot, txn.organization, txn.maxEvents);
    if rows == [] then NothingToSeal
    else
      match WriteBlock(codec, t', txn.organization, t'.heads[txn.organization], rows, blockId)
      case Err(error) => RolledBack(error)
      case Ok((_, block)) => SealedBlock(block)
  }

  lemma WriteAddsTheBatch(
    codec: Codec, t: Tables, organization: Uuid, rows: seq<EventRow>, blockId: Uuid, t': Tables, block: BlockRow)
    requires rows != [] && Consistent(codec, t) && Batch(t, organization, rows) && organization in t.heads
    requires WriteBlock(codec, t, organization, t.heads[organization], rows, blockId) == Ok((t', block))
    ensures t'.blocks == t.blocks + [block]
    ensures block.organization == organization
    ensures block.blockSequence == |Filter(t.blocks, OfTenant(organization))| + 1
    ensures EventIds(BlockEvents(t', organization, block.id)) == EventIds(rows)
    ensures |t'.events| == |t.events|
    ensures forall i :: 0 <= i < |t.events| && t.events[i] !in rows ==> t'.events[i] == t.events[i]
  {
    var leaves, written, block' := WriteBlockWrote(codec, t, organization, t.heads[organization], rows, blockId);
    BuiltBlock(codec, organization, t.heads[organization], rows, leaves, blockId);
    NoEventInNewBlock(codec, t, block);
    NewBlockHoldsTheBatch(t, organization, rows, leaves, blockId, t');
    assert EventIds(Marked(rows, leaves, blockId)) == EventIds(rows);
    assert TenantConsistent(codec, t, organization);
  }

  /** Nothing to seal and rollbacks add no block; a seal adds one block, the next of its tenant, which holds the
      snapshot's oldest unsealed events and nothing that was appended later. */
  ghost predicate ExtendsByOutcome(t: Tables, t': Tables, txn: SealTransaction, outcome: CommitOutcome) {
    var rows := SelectUnsealed(txn.snapshot, txn.organization, txn.maxEvents);
    match outcome
    case NothingToSeal => rows == [] && t'.events == t.events && t'.blocks == t.blocks
    case RolledBack(_) => t' == t
    case SealedBlock(block) =>
      && t'.blocks == t.blocks + [block]
      && block.organization == txn.organization
      && block.blockSequence == |Filter(t.blocks, OfTenant(txn.organization))| + 1
      && EventIds(BlockEvents(t', txn.organization, block.id)) == EventIds(rows)
      && |t'.events| == |t.events|
      && (forall i :: |txn.snapshot.events| <= i < |t.events| ==> t'.events[i] == t.events[i])
  }

  /** Sealing transactions of one tenant extend its chain one block at a time. */
  lemma CommitExtendsByOneBlock(codec: Codec, s: Ledger, txn: nat, blockId: Uuid)
    requires LedgerOk(codec, s) && txn in s.open && s.open[txn].locked
    ensures ExtendsByOutcome(s.tables, LedgerNext(codec, s, Commit(txn, blockId)).tables, s.open[txn],
                             OutcomeOf(codec, s.tables, s.open[txn], blockId))
  {
    var x := s.open[txn];
    assert TransactionOk(s, txn);
    CommitHasOutcome(codec, s.tables, x, blockId);
  }

  lemma CommitHasOutcome(codec: Codec, t: Tables, txn: SealTransaction, blockId: Uuid)
    requires Consistent(codec, t)
    requires Fresh(txn.snapshot, t, txn.organization)
    requires Lookup(t.heads, txn.organization) == Lookup(txn.snapshot.heads, txn.organization)
    ensures ExtendsByOutcome(t, CommitTables(codec, t, txn, blockId), txn, OutcomeOf(codec, t, txn, blockId))
  {
    var t' := EnsureChainHead(t, txn.organization);
    var rows := SelectUnsealed(txn.snapshot, txn.organization, txn.maxEvents);
    HolderHasBatch(codec, t, txn);
    if rows != [] {
      match WriteBlock(codec, t', txn.organization, t'.heads[txn.organization], rows, blockId)
      case Err(_) =>
      case Ok((written, block)) =>
        WriteAddsTheBatch(codec, t', txn.organization, rows, blockId, written, block);
        forall i | |txn.snapshot.events| <= i < |t'.events| ensures written.events[i] == t'.events[i] {
          assert t'.events[i] !in rows;
        }
    }
  }

  lemma HashesAreHexDigests(codec: Codec, t: Tables, organization: Uuid, i: nat)
    requires TenantConsistent(codec, t, organization)
    requires i <= |Filter(t.blocks, OfTenant(organization))|
    ensures var previous := PreviousHash(Filter(t.blocks, OfTenant(organization)), i);
            previous.Some? ==> |previous.value| == 64
    ensures var blocks := Filter(t.blocks, OfTenant(organization));
            i < |blocks| ==> |blocks[i].merkleRoot| == 64 && |blocks[i].blockHash| == 64
  {
    var blocks := Filter(t.blocks, OfTenant(organization));
    if i > 0 {
      BlockHashesAreHexDigests(codec, t, organization, blocks, i - 1);
    }
    if i < |blocks| {
      BlockHashesAreHexDigests(codec, t, organization, blocks, i);
    }
  }

  lemma BlockHashesAreHexDigests(codec: Codec, t: Tables, organization: Uuid, blocks: seq<BlockRow>, i: nat)
    requires ChainIntact(codec, t, organization, blocks) && i < |blocks|
    ensures |blocks[i].merkleRoot| == 64 && |blocks[i].blockHash| == 64
  {
    ChainIntactAt(codec, t, organization, blocks, i);
    RootExists(codec, LeafHashesOfRows(codec, BlockEvents(t, organization, blocks[i].id)).value);
  }

  lemma HeadIsWellFormed(codec: Codec, t: Tables, organization: Uuid)
    requires TenantConsistent(codec, t, organization) && organization in t.heads
    ensures var head := t.heads[organization];
            && head.lastBlockSequence == |Filter(t.blocks, OfTenant(organization))|
            && (head.lastBlockHash.Some? ==> |head.lastBlockHash.value| == 64)
  {
    HashesAreHexDigests(codec, t, organization, |Filter(t.blocks, OfTenant(organization))|);
  }

  lemma BuildFailsOnlyToEncode(
    codec: Codec, organization: Uuid, head: ChainHead, rows: seq<EventRow>, leaves: seq<Bytes>, blockId: Uuid)
    requires rows != [] && |leaves| == |rows|
    requires forall k :: 0 <= k < |leaves| ==> |leaves[k]| == 32
    requires head.lastBlockSequence >= 0
    requires head.lastBlockHash.Some? ==> |head.lastBlockHash.value| == 64
    requires BuildBlock(codec, organization, head, rows, leaves, blockId).Err?
    ensures BuildBlock(codec, organization, head, rows, leaves, blockId).error == Tree(NotCanonicalizable)
  {
    RootExists(codec, leaves);
  }

  lemma BatchIsCanonicalizable(codec: Codec, t: Tables, organization: Uuid, rows: seq<EventRow>)
    requires RowsConsistent(codec, t) && Batch(t, organization, rows)
    ensures forall k :: 0 <= k < |rows| ==> Canonicalizable(codec, rows[k])
  {
    forall k | 0 <= k < |rows| ensures Canonicalizable(codec, rows[k]) {
      var j :| 0 <= j < |t.events| && t.events[j] == rows[k];
      assert RowConsistentAt(codec, t, j);
    }
  }

  lemma WriteFailure(codec: Codec, t: Tables, organization: Uuid, rows: seq<EventRow>, blockId: Uuid)
    requires rows != [] && Consistent(codec, t) && Batch(t, organization, rows) && organization in t.heads
    requires WriteBlock(codec, t, organization, t.heads[organization], rows, blockId).Err?
    ensures var error := WriteBlock(codec, t, organization, t.heads[organization], rows, blockId).error;
            || error == Tree(NotCanonicalizable)
            || (error == DuplicateBlock && exists i :: 0 <= i < |t.blocks| && t.blocks[i].id == blockId)
  {
    BatchIsCanonicalizable(codec, t, organization, rows);
    LeavesExist(codec, rows);
    var leaves := LeafHashesOfRows(codec, rows).value;
    assert TenantConsistent(codec, t, organization);
    HeadIsWellFormed(codec, t, organization);
    var head := t.heads[organization];
    if BuildBlock(codec, organization, head, rows, leaves, blockId).Err? {
      BuildFailsOnlyToEncode(codec, organization, head, rows, leaves, blockId);
    } else {
      MarkingABatch(t, organization, rows, leaves, blockId);
      BuiltBlock(codec, organization, head, rows, leaves, blockId);
      SequenceIsNew(codec, t, organization, head.lastBlockSequence + 1);
    }
  }

  /** The exclusivity errors of the source never happen: the lock and the snapshot rule them out. A rollback has
      one of two causes: the block id was taken, or the block envelope has no canonical encoding. */
  lemma CommitNeverLosesExclusivity(codec: Codec, s: Ledger, txn: nat, blockId: Uuid)
    requires LedgerOk(codec, s) && txn in s.open && s.open[txn].locked
    requires OutcomeOf(codec, s.tables, s.open[txn], blockId).RolledBack?
    ensures var error := OutcomeOf(codec, s.tables, s.open[txn], blockId).error;
            || error == Tree(NotCanonicalizable)
            || (error == DuplicateBlock && exists i :: 0 <= i < |s.tables.blocks| && s.tables.blocks[i].id == blockId)
  {
    var x := s.open[txn];
    assert TransactionOk(s, txn);
    HolderHasBatch(codec, s.tables, x);
    WriteFailure(codec, EnsureChainHead(s.tables, x.organization), x.organization,
                 SelectUnsealed(x.snapshot, x.organization, x.maxEvents), blockId);
  }

  lemma SequenceIsNew(codec: Codec, t: Tables, organization: Uuid, sequence: int)
    requires TenantConsistent(codec, t, organization)
    requires sequence > |Filter(t.blocks, OfTenant(organization))|
    ensures forall i :: 0 <= i < |t.blocks| && t.blocks[i].organization == organization ==>
              t.blocks[i].blockSequence != sequence
  {
    var blocks := Filter(t.blocks, OfTenant(organization));
    SequencesCount(codec, t, organization, Filter(t.blocks, OfTenant(organization)));
    FilterMembers(t.blocks, OfTenant(organization));
    forall i | 0 <= i < |t.blocks| && t.blocks[i].organization == organization
      ensures t.blocks[i].blockSequence != sequence
    {
      assert t.blocks[i] in blocks;
    }
  }

  /** No sequence number of a tenant is used twice. */
  lemma NoSequenceTwice(codec: Codec, t: Tables)
    requires Consistent(codec, t)
    ensures forall i, j :: 0 <= i < j < |t.blocks| && t.blocks[i].organization == t.blocks[j].organization ==>
              t.blocks[i].blockSequence != t.blocks[j].blockSequence
  {
    forall i, j | 0 <= i < j < |t.blocks| && t.blocks[i].organization == t.blocks[j].organization
      ensures t.blocks[i].blockSequence != t.blocks[j].blockSequence
    {
      var organization := t.blocks[i].organization;
      assert TenantConsistent(codec, t, organization);
      SequencesCount(codec, t, organization, Filter(t.blocks, OfTenant(organization)));
      FilterMembers(t.blocks, OfTenant(organization));
      var blocks := Filter(t.blocks, OfTenant(organization));
      assert t.blocks[i] in blocks && t.blocks[j] in blocks;
      var k :| 0 <= k < |blocks| && blocks[k] == t.blocks[i];
      var m :| 0 <= m < |blocks| && blocks[m] == t.blocks[j];
      assert t.blocks[i].id != t.blocks[j].id;
    }
  }

  /** What the caller gets back for an outcome. */
  function ResultOf(outcome: CommitOutcome): Result<Option<SealedAuditBlock>, SealError> {
    match outcome
    case NothingToSeal => Ok(None)
    case RolledBack(error) => Err(error)
    case SealedBlock(block) => Ok(Some(Sealed(block)))
  }

  /** The sealing transaction that runs alone is the three steps in a row, with the result of their outcome; with a
      limit that it refuses it does nothing. */
  lemma AloneIsBeginLockCommit(codec: Codec, s: Ledger, txn: nat, organization: Uuid, maxEvents: int, blockId: Uuid)
    requires txn !in s.open && organization !in s.locks
    ensures Run(codec, s, [Begin(txn, organization, maxEvents), LockHead(txn), Commit(txn, blockId)]).tables
         == SealTables(codec, s.tables, organization, maxEvents, blockId).0
    ensures SealTables(codec, s.tables, organization, maxEvents, blockId).1
         == if maxEvents < 1 then Err(MaxEventsTooSmall)
            else if maxEvents > MAX_EVENTS_PER_BLOCK then Err(MaxEventsTooLarge)
            else ResultOf(OutcomeOf(codec, s.tables, SealTransaction(organization, maxEvents, s.tables, true), blockId))
  {
    var begin, lock, commit := Begin(txn, organization, maxEvents), LockHead(txn), Commit(txn, blockId);
    assert [begin, lock, commit][..2] == [begin, lock];
    assert [begin, lock][..1] == [begin];
    assert [begin][..0] == [];
    assert Run(codec, s, [begin]) == LedgerNext(codec, s, begin);
    assert Run(codec, s, [begin, lock]) == LedgerNext(codec, Run(codec, s, [begin]), lock);
    if 1 <= maxEvents <= MAX_EVENTS_PER_BLOCK {
      var t' := EnsureChainHead(s.tables, organization);
      assert SelectUnsealed(t', organization, maxEvents) == SelectUnsealed(s.tables, organization, maxEvents);
    }
  }

  // ---------------------------------------------------- write-once history

  /** Over a run, sealed rows, blocks and appended columns never change. */
  lemma {:induction false} RunExtends(codec: Codec, s: Ledger, steps: seq<LedgerStep>)
    requires LedgerOk(codec, s)
    ensures Extends(s.tables, Run(codec, s, steps).tables)
  {
    if steps == [] {
    } else {
      var before := Run(codec, s, steps[..|steps| - 1]);
      RunExtends(codec, s, steps[..|steps| - 1]);
      RunKeepsLedgerOk(codec, s, steps[..|steps| - 1]);
      TablesAdvance(codec, before, steps[|steps| - 1]);
      ExtendsTransitively(s.tables, before.tables, Run(codec, s, steps).tables);
    }
  }

  /** The rows that the appends of a run stored, in order. */
  function Appended(codec: Codec, s: Ledger, steps: seq<LedgerStep>): seq<EventRow> {
    if steps == [] then []
    else
      var n := |steps| - 1;
      var step := steps[n];
      Appended(codec, s, steps[..n])
      + (if step.Append? && Appendable(codec, Run(codec, s, steps[..n]).tables, step.row) then [step.row] else [])
  }

  /** The event table holds exactly the appended events, whatever was sealed meanwhile. */
  lemma {:induction false} RunKeepsExactlyAppended(codec: Codec, steps: seq<LedgerStep>)
    ensures var t := Run(codec, EMPTY_LEDGER, steps).tables;
            var rows := Appended(codec, EMPTY_LEDGER, steps);
            |t.events| == |rows| && forall i :: 0 <= i < |rows| ==> SameCommitted(rows[i], t.events[i])
  {
    if steps == [] {
    } else {
      var n := |steps| - 1;
      var before := Run(codec, EMPTY_LEDGER, steps[..n]);
      RunKeepsExactlyAppended(codec, steps[..n]);
      EmptyLedgerOk(codec);
      RunKeepsLedgerOk(codec, EMPTY_LEDGER, steps[..n]);
      StepAddsAppended(codec, before, steps[n]);
    }
  }

  lemma StepAddsAppended(codec: Codec, s: Ledger, step: LedgerStep)
    requires LedgerOk(codec, s)
    ensures var t' := LedgerNext(codec, s, step).tables;
            var added := if step.Append? && Appendable(codec, s.tables, step.row) then [step.row] else [];
            && |t'.events| == |s.tables.events| + |added|
            && (forall i :: 0 <= i < |s.tables.events| ==> SameCommitted(s.tables.events[i], t'.events[i]))
            && (added != [] ==> t'.events[|s.tables.events|] == step.row)
  {
    TablesAdvance(codec, s, step);
    if step.Commit? && step.txn in s.open && s.open[step.txn].locked {
      assert TransactionOk(s, step.txn);
      CommitKeepsTables(codec, s.tables, s.open[step.txn], step.blockId);
    }
  }

  /** Every event is unsealed, or stands in exactly one block, at its recorded position. */
  lemma SealedEventsArePartitioned(codec: Codec, t: Tables, i: nat)
    requires Consistent(codec, t) && i < |t.events|
    ensures var row := t.events[i];
            if SealColumnsNull(row) then
              forall b: Uuid :: row !in BlockEvents(t, row.organization, b)
            else
              && SealColumnsAgree(row)
              && BlockStored(t.blocks, row.organization, row.batchBlock.value)
              && (forall b: Uuid :: row in BlockEvents(t, row.organization, b) <==> b == row.batchBlock.value)
              && row.batchPosition.value < |BlockEvents(t, row.organization, row.batchBlock.value)|
              && BlockEvents(t, row.organization, row.batchBlock.value)[row.batchPosition.value] == row
  {
    var row := t.events[i];
    assert RowConsistentAt(codec, t, i);
    forall b: Uuid ensures row in BlockEvents(t, row.organization, b) <==> row.batchBlock == Some(b) {
      BlockEventsMembers(t, row.organization, b);
    }
    if !SealColumnsNull(row) {
      PositionInBlock(codec, t, row);
    }
  }

  lemma BlockEventsMembers(t: Tables, organization: Uuid, blockId: Uuid)
    ensures forall row :: row in BlockEvents(t, organization, blockId) <==>
              row in t.events && InBlock(organization, blockId)(row)
  {
    var found := Filter(t.events, InBlock(organization, blockId));
    FilterMembers(t.events, InBlock(organization, blockId));
    SortPermutes(found, PositionLe);
    MultisetMembers(Sort(found, PositionLe), found);
  }

  lemma PositionsCount(codec: Codec, t: Tables, organization: Uuid, blockId: Uuid)
    requires TenantConsistent(codec, t, organization) && BlockStored(t.blocks, organization, blockId)
    ensures var events := BlockEvents(t, organization, blockId);
            forall m :: 0 <= m < |events| ==> events[m].batchPosition == Some(m)
  {
    var blocks := Filter(t.blocks, OfTenant(organization));
    FilterMembers(t.blocks, OfTenant(organization));
    var j :| 0 <= j < |t.blocks| && t.blocks[j].id == blockId && t.blocks[j].organization == organization;
    assert t.blocks[j] in blocks;
    var k :| 0 <= k < |blocks| && blocks[k] == t.blocks[j];
    ChainIntactAt(codec, t, organization, blocks, k);
  }

  lemma PositionInBlock(codec: Codec, t: Tables, row: EventRow)
    requires Consistent(codec, t) && row in t.events
    requires SealColumnsAgree(row) && !SealColumnsNull(row)
    requires BlockStored(t.blocks, row.organization, row.batchBlock.value)
    ensures var events := BlockEvents(t, row.organization, row.batchBlock.value);
            row.batchPosition.value < |events| && events[row.batchPosition.value] == row
  {
    assert TenantConsistent(codec, t, row.organization);
    PositionsCount(codec, t, row.organization, row.batchBlock.value);
    BlockEventsMembers(t, row.organization, row.batchBlock.value);
    var events := BlockEvents(t, row.organization, row.batchBlock.value);
    var m :| 0 <= m < |events| && events[m] == row;
  }
}
