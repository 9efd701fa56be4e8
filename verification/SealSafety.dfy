/** Writing a block for a batch keeps the ledger consistent: the writer meets every check of the verifier. */
module SealSafety {
  import opened Prelude
  import opened Hashing
  import opened Merkle
  import opened AuditTables
  import opened Sealing
  import opened SealEffect
  import opened Verification
  import opened LedgerInvariant

  // ---------------------------------------------------------------- leaves

  lemma {:induction false} SameEnvelopes(codec: Codec, a: seq<EventRow>, b: seq<EventRow>)
    requires |a| == |b|
    requires forall k :: 0 <= k < |a| ==> EventEnvelopeOf(codec, a[k]) == EventEnvelopeOf(codec, b[k])
    ensures Envelopes(codec, a) == Envelopes(codec, b)
  {
    if a == [] {
    } else {
      SameEnvelopes(codec, a[..|a| - 1], b[..|b| - 1]);
    }
  }

  lemma {:induction false} LeavesExist(codec: Codec, rows: seq<EventRow>)
    requires forall k :: 0 <= k < |rows| ==> Canonicalizable(codec, rows[k])
    ensures LeafHashesOfRows(codec, rows).Ok?
    ensures forall k :: 0 <= k < |rows| ==> |LeafHashesOfRows(codec, rows).value[k]| == 32
  {
    if rows == [] {
    } else {
      LeavesExist(codec, rows[..|rows| - 1]);
      LeavesOfPrefix(codec, rows);
    }
  }

  // ------------------------------------------------------ the block's events

  /** Row j of the tables before and after, as far as membership in a block goes. */
  lemma MarkedRow(
    t: Tables, organization: Uuid, rows: seq<EventRow>, leaves: seq<Bytes>, blockId: Uuid,
    events': seq<EventRow>, j: nat)
    requires |leaves| == |rows| && Batch(t, organization, rows)
    requires MarksExactly(t.events, events', rows, leaves, blockId)
    requires j < |t.events|
    ensures t.events[j] in rows ==>
              && IsUnsealed(organization)(t.events[j])
              && events'[j] in Marked(rows, leaves, blockId)
              && events'[j].organization == organization
              && events'[j].batchBlock == Some(blockId)
              && events'[j].id == t.events[j].id
              && SameCommitted(t.events[j], events'[j])
              && !SealColumnsNull(events'[j]) && SealColumnsAgree(events'[j])
    ensures t.events[j] !in rows ==> events'[j] == t.events[j]
  {
    if t.events[j] in rows {
      var k :| 0 <= k < |rows| && rows[k] == t.events[j];
      assert events'[j] == Marked(rows, leaves, blockId)[k];
    }
  }

  lemma OtherBlocksKeepTheirEvents(
    t: Tables, organization: Uuid, rows: seq<EventRow>, leaves: seq<Bytes>, blockId: Uuid, t': Tables,
    tenant: Uuid, other: Uuid)
    requires |leaves| == |rows| && Batch(t, organization, rows)
    requires MarksExactly(t.events, t'.events, rows, leaves, blockId)
    requires other != blockId
    ensures BlockEvents(t', tenant, other) == BlockEvents(t, tenant, other)
  {
    var p := InBlock(tenant, other);
    forall j | 0 <= j < |t.events|
      ensures p(t.events[j]) == p(t'.events[j]) && (p(t.events[j]) ==> t.events[j] == t'.events[j])
    {
      MarkedRow(t, organization, rows, leaves, blockId, t'.events, j);
    }
    FilterPointwise(t.events, t'.events, p);
  }

  lemma PositionOrderIsTotal()
    ensures TotalPreorder(PositionLe)
  {
  }

  lemma MarkedIsInPositionOrder(rows: seq<EventRow>, leaves: seq<Bytes>, blockId: Uuid)
    requires |leaves| == |rows|
    ensures Sorted(Marked(rows, leaves, blockId), PositionLe)
    ensures NoTies(Marked(rows, leaves, blockId), PositionLe)
    ensures Distinct(Marked(rows, leaves, blockId))
  {
    var marked := Marked(rows, leaves, blockId);
    assert forall k :: 0 <= k < |marked| ==> marked[k].batchPosition == Some(k);
  }

  lemma UniqueIdsAreDistinct(events: seq<EventRow>)
    requires UniqueEventIds(events)
    ensures Distinct(events)
  {
  }

  lemma MarkingKeepsIds(
    t: Tables, organization: Uuid, rows: seq<EventRow>, leaves: seq<Bytes>, blockId: Uuid, events': seq<EventRow>)
    requires |leaves| == |rows| && Batch(t, organization, rows)
    requires UniqueEventIds(t.events)
    requires MarksExactly(t.events, events', rows, leaves, blockId)
    ensures forall j :: 0 <= j < |t.events| ==> events'[j].id == t.events[j].id
    ensures UniqueEventIds(events')
  {
    forall j | 0 <= j < |t.events| ensures events'[j].id == t.events[j].id {
      MarkedRow(t, organization, rows, leaves, blockId, events', j);
    }
  }

  /** The new block holds exactly the batch, in batch order. */
  lemma NewBlockHoldsTheBatch(
    t: Tables, organization: Uuid, rows: seq<EventRow>, leaves: seq<Bytes>, blockId: Uuid, t': Tables)
    requires |leaves| == |rows| && Batch(t, organization, rows)
    requires UniqueEventIds(t.events)
    requires MarksExactly(t.events, t'.events, rows, leaves, blockId)
    requires forall j :: 0 <= j < |t.events| ==> t.events[j].batchBlock != Some(blockId)
    ensures BlockEvents(t', organization, blockId) == Marked(rows, leaves, blockId)
  {
    var p := InBlock(organization, blockId);
    var marked := Marked(rows, leaves, blockId);
    var found := Filter(t'.events, p);
    FilterMembers(t'.events, p);
    MarkingKeepsIds(t, organization, rows, leaves, blockId, t'.events);
    UniqueIdsAreDistinct(t'.events);
    FilterDistinct(t'.events, p);
    MarkedIsInPositionOrder(rows, leaves, blockId);
    forall x ensures x in found <==> x in marked {
      if x in found {
        var j :| 0 <= j < |t'.events| && t'.events[j] == x;
        MarkedRow(t, organization, rows, leaves, blockId, t'.events, j);
      }
      if x in marked {
        var k :| 0 <= k < |marked| && marked[k] == x;
        var j :| 0 <= j < |t.events| && t.events[j] == rows[k];
        assert t'.events[j] == x;
        assert t'.events[j] in t'.events;
      }
    }
    MultisetOfDistinct(found, marked);
    PositionOrderIsTotal();
    SortSorts(found, PositionLe);
    SortPermutes(found, PositionLe);
    SortedUnique(marked, Sort(found, PositionLe), PositionLe);
  }

  /** Its event k is row k of the batch in all appended columns, and carries leaf k, the block's id and the position. */
  lemma NewBlockByColumns(
    t: Tables, organization: Uuid, rows: seq<EventRow>, leaves: seq<Bytes>, blockId: Uuid, t': Tables, k: nat)
    requires |leaves| == |rows| && Batch(t, organization, rows) && k < |rows|
    requires UniqueEventIds(t.events)
    requires MarksExactly(t.events, t'.events, rows, leaves, blockId)
    requires forall j :: 0 <= j < |t.events| ==> t.events[j].batchBlock != Some(blockId)
    ensures |BlockEvents(t', organization, blockId)| == |rows|
    ensures var event := BlockEvents(t', organization, blockId)[k];
            && SameCommitted(rows[k], event) && event.nodeHash == Some(Hex(leaves[k]))
            && event.batchBlock == Some(blockId) && event.batchPosition == Some(k)
  {
    NewBlockHoldsTheBatch(t, organization, rows, leaves, blockId, t');
  }

  lemma MarkedInCanonicalOrder(rows: seq<EventRow>, leaves: seq<Bytes>, blockId: Uuid)
    requires |leaves| == |rows|
    requires Sorted(rows, EventLe) && UniqueEventIds(rows)
    ensures InCanonicalOrder(Marked(rows, leaves, blockId))
  {
    var marked := Marked(rows, leaves, blockId);
    NoEventTies(marked);
    EventOrderIsTotal();
    SortOfSorted(marked, EventLe);
  }

  // --------------------------------------------------------- the new block

  /** The table changes of a successful WriteBlock. */
  ghost predicate Wrote(
    t: Tables, t': Tables, organization: Uuid, rows: seq<EventRow>, leaves: seq<Bytes>, block: BlockRow)
    requires |leaves| == |rows|
  {
    && MarksExactly(t.events, t'.events, rows, leaves, block.id)
    && t'.blocks == t.blocks + [block]
    && !BlockKeyTaken(t.blocks, block)
    && block.organization == organization
    && t'.heads == t.heads[organization := ChainHead(block.blockSequence, Some(block.blockHash))]
  }

  lemma WriteBlockWrote(
    codec: Codec, t: Tables, organization: Uuid, head: ChainHead, rows: seq<EventRow>, blockId: Uuid)
    returns (leaves: seq<Bytes>, t': Tables, block: BlockRow)
    requires rows != []
    requires UniqueEventIds(t.events) && Batch(t, organization, rows)
    requires WriteBlock(codec, t, organization, head, rows, blockId).Ok?
    ensures WriteBlock(codec, t, organization, head, rows, blockId) == Ok((t', block))
    ensures |leaves| == |rows|
    ensures Wrote(t, t', organization, rows, leaves, block)
    ensures block.id == blockId
    ensures LeafHashesOfRows(codec, rows) == Ok(leaves)
    ensures BuildBlock(codec, organization, head, rows, leaves, blockId) == Ok(block)
    ensures Lookup(t.heads, organization) == Some(head)
    ensures |Filter(t.events, IsUnsealed(organization))| == |Filter(t'.events, IsUnsealed(organization))| + |rows|
  {
    leaves := LeafHashesOfRows(codec, rows).value;
    t', block := WriteBlock(codec, t, organization, head, rows, blockId).value.0,
                 WriteBlock(codec, t, organization, head, rows, blockId).value.1;
    BuiltBlock(codec, organization, head, rows, leaves, blockId);
    MarkingABatch(t, organization, rows, leaves, blockId);
  }

  lemma BuiltBlock(
    codec: Codec, organization: Uuid, head: ChainHead, rows: seq<EventRow>, leaves: seq<Bytes>, blockId: Uuid)
    requires rows != []
    requires BuildBlock(codec, organization, head, rows, leaves, blockId).Ok?
    ensures var block := BuildBlock(codec, organization, head, rows, leaves, blockId).value;
            && block.id == blockId
            && block.organization == organization
            && block.blockSequence == head.lastBlockSequence + 1
            && block.algorithmVersion == ALGORITHM_VERSION
            && block.canonicalizationVersion == CANONICALIZATION_VERSION
            && block.eventCount == |rows|
            && block.firstEventId == rows[0].id
            && block.lastEventId == rows[|rows| - 1].id
            && block.previousBlockHash == head.lastBlockHash
            && CheckHashes(codec, organization, block, leaves).None?
  {
  }

  lemma MarkedLeaves(codec: Codec, rows: seq<EventRow>, leaves: seq<Bytes>, blockId: Uuid)
    requires |leaves| == |rows| && LeafHashesOfRows(codec, rows) == Ok(leaves)
    ensures CheckLeaves(codec, Marked(rows, leaves, blockId)) == Ok(leaves)
  {
    var events := Marked(rows, leaves, blockId);
    SameEnvelopes(codec, events, rows);
    CheckLeavesMeaning(codec, events);
  }

  lemma NewBlockPasses(
    codec: Codec, t': Tables, organization: Uuid, head: ChainHead, rows: seq<EventRow>, leaves: seq<Bytes>,
    block: BlockRow)
    requires rows != [] && |leaves| == |rows|
    requires LeafHashesOfRows(codec, rows) == Ok(leaves)
    requires BuildBlock(codec, organization, head, rows, leaves, block.id) == Ok(block)
    requires UniqueEventIds(rows) && Sorted(rows, EventLe)
    requires BlockEvents(t', organization, block.id) == Marked(rows, leaves, block.id)
    ensures CheckBlock(codec, t', organization, block, head.lastBlockSequence + 1, head.lastBlockHash).None?
  {
    BuiltBlock(codec, organization, head, rows, leaves, block.id);
    MarkedInCanonicalOrder(rows, leaves, block.id);
    MarkedLeaves(codec, rows, leaves, block.id);
  }

  // ------------------------------------------------------------- invariant

  lemma RowsStayConsistent(
    codec: Codec, t: Tables, organization: Uuid, rows: seq<EventRow>, leaves: seq<Bytes>, t': Tables,
    block: BlockRow, j: nat)
    requires |leaves| == |rows|
    requires Batch(t, organization, rows) && Wrote(t, t', organization, rows, leaves, block)
    requires j < |t.events| && RowConsistent(codec, t, t.events[j])
    ensures RowConsistent(codec, t', t'.events[j])
  {
    MarkedRow(t, organization, rows, leaves, block.id, t'.events, j);
    assert t'.blocks[|t.blocks|] == block;
    if t.events[j] in rows {
      assert BlockStored(t'.blocks, organization, block.id);
    } else if t.events[j].batchBlock.Some? {
      var i :| 0 <= i < |t.blocks| && t.blocks[i].id == t.events[j].batchBlock.value
            && t.blocks[i].organization == t.events[j].organization;
      assert t'.blocks[i] == t.blocks[i];
    }
  }

  lemma NoEventInNewBlock(codec: Codec, t: Tables, block: BlockRow)
    requires Consistent(codec, t) && !BlockKeyTaken(t.blocks, block)
    ensures forall j :: 0 <= j < |t.events| ==> t.events[j].batchBlock != Some(block.id)
  {
    forall j | 0 <= j < |t.events| ensures t.events[j].batchBlock != Some(block.id) {
      assert RowConsistentAt(codec, t, j);
    }
  }

  lemma SealedCountGrows(
    t: Tables, organization: Uuid, rows: seq<EventRow>, leaves: seq<Bytes>, blockId: Uuid, t': Tables,
    tenant: Uuid)
    requires |leaves| == |rows| && Batch(t, organization, rows) && UniqueEventIds(t.events)
    requires MarksExactly(t.events, t'.events, rows, leaves, blockId)
    requires forall j :: 0 <= j < |t.events| ==> SealColumnsAgree(t.events[j])
    requires |Filter(t.events, IsUnsealed(organization))| == |Filter(t'.events, IsUnsealed(organization))| + |rows|
    ensures |Filter(t'.events, IsSealed(tenant))|
         == |Filter(t.events, IsSealed(tenant))| + (if tenant == organization then |rows| else 0)
  {
    forall j | 0 <= j < |t.events|
      ensures t'.events[j].organization == t.events[j].organization
      ensures SealColumnsAgree(t'.events[j])
      ensures tenant != organization ==> IsSealed(tenant)(t'.events[j]) == IsSealed(tenant)(t.events[j])
    {
      MarkedRow(t, organization, rows, leaves, blockId, t'.events, j);
    }
    if tenant == organization {
      SealedAndUnsealed(t.events, organization);
      SealedAndUnsealed(t'.events, organization);
      FilterCount(t.events, t'.events, OwnedBy(organization));
    } else {
      FilterCount(t.events, t'.events, IsSealed(tenant));
    }
  }

  function OwnedBy(organization: Uuid): EventRow -> bool {
    (row: EventRow) => row.organization == organization
  }

  lemma {:induction false} SealedAndUnsealed(events: seq<EventRow>, organization: Uuid)
    requires forall j :: 0 <= j < |events| ==> SealColumnsAgree(events[j])
    ensures |Filter(events, OwnedBy(organization))|
         == |Filter(events, IsSealed(organization))| + |Filter(events, IsUnsealed(organization))|
  {
    if events == [] {
    } else {
      SealedAndUnsealed(events[..|events| - 1], organization);
    }
  }

  lemma OldBlocksKeepTheirEvents(
    t: Tables, organization: Uuid, rows: seq<EventRow>, leaves: seq<Bytes>, t': Tables, block: BlockRow, tenant: Uuid)
    requires |leaves| == |rows| && Batch(t, organization, rows)
    requires Wrote(t, t', organization, rows, leaves, block)
    ensures var blocks := Filter(t.blocks, OfTenant(tenant));
            forall i :: 0 <= i < |blocks| ==>
              BlockEvents(t, tenant, blocks[i].id) == BlockEvents(t', tenant, blocks[i].id)
  {
    var blocks := Filter(t.blocks, OfTenant(tenant));
    FilterMembers(t.blocks, OfTenant(tenant));
    forall i | 0 <= i < |blocks|
      ensures BlockEvents(t, tenant, blocks[i].id) == BlockEvents(t', tenant, blocks[i].id)
    {
      assert blocks[i] in t.blocks;
      OtherBlocksKeepTheirEvents(t, organization, rows, leaves, block.id, t', tenant, blocks[i].id);
    }
  }

  lemma TenantBlocksAfter(t: Tables, t': Tables, block: BlockRow, tenant: Uuid)
    requires t'.blocks == t.blocks + [block]
    ensures Filter(t'.blocks, OfTenant(tenant))
         == Filter(t.blocks, OfTenant(tenant)) + (if block.organization == tenant then [block] else [])
  {
    FilterAppend(t.blocks, [block], OfTenant(tenant));
    assert [block][..0] == [];
  }

  lemma SealKeepsOwnChain(
    codec: Codec, t: Tables, organization: Uuid, head: ChainHead, rows: seq<EventRow>, leaves: seq<Bytes>,
    t': Tables, block: BlockRow)
    requires rows != [] && |leaves| == |rows|
    requires Consistent(codec, t) && Batch(t, organization, rows)
    requires Wrote(t, t', organization, rows, leaves, block)
    requires LeafHashesOfRows(codec, rows) == Ok(leaves)
    requires BuildBlock(codec, organization, head, rows, leaves, block.id) == Ok(block)
    requires Lookup(t.heads, organization) == Some(head)
    ensures var blocks' := Filter(t'.blocks, OfTenant(organization));
            && ChainIntact(codec, t', organization, blocks')
            && HeadFits(t', organization, blocks')
            && EventsIn(t', organization, blocks')
               == EventsIn(t, organization, Filter(t.blocks, OfTenant(organization))) + |rows|
  {
    var blocks := Filter(t.blocks, OfTenant(organization));
    var n := |blocks|;
    assert TenantConsistent(codec, t, organization);
    TenantBlocksAfter(t, t', block, organization);
    var blocks' := Filter(t'.blocks, OfTenant(organization));
    assert blocks'[..n] == blocks;
    OldBlocksKeepTheirEvents(t, organization, rows, leaves, t', block, organization);
    ChainCarriesOver(codec, t, t', organization, blocks);
    NoEventInNewBlock(codec, t, block);
    NewBlockHoldsTheBatch(t, organization, rows, leaves, block.id, t');
    NewBlockPasses(codec, t', organization, head, rows, leaves, block);
    BuiltBlock(codec, organization, head, rows, leaves, block.id);
    assert head == ChainHead(n, PreviousHash(blocks, n));
    assert PreviousHash(blocks', n) == PreviousHash(blocks, n);
    assert PassesAt(Checker(codec, t', organization), blocks', n);
    AllPassOfPrefix(Checker(codec, t', organization), blocks', n);
  }

  lemma SealKeepsOtherTenant(
    codec: Codec, t: Tables, organization: Uuid, rows: seq<EventRow>, leaves: seq<Bytes>, t': Tables,
    block: BlockRow, tenant: Uuid)
    requires |leaves| == |rows| && tenant != organization
    requires Batch(t, organization, rows) && TenantConsistent(codec, t, tenant)
    requires Wrote(t, t', organization, rows, leaves, block)
    requires |Filter(t'.events, IsSealed(tenant))| == |Filter(t.events, IsSealed(tenant))|
    ensures TenantConsistent(codec, t', tenant)
  {
    var blocks := Filter(t.blocks, OfTenant(tenant));
    TenantBlocksAfter(t, t', block, tenant);
    OldBlocksKeepTheirEvents(t, organization, rows, leaves, t', block, tenant);
    ChainCarriesOver(codec, t, t', tenant, blocks);
  }

  lemma SealedCountAfter(
    codec: Codec, t: Tables, organization: Uuid, rows: seq<EventRow>, leaves: seq<Bytes>, t': Tables,
    block: BlockRow, tenant: Uuid)
    requires |leaves| == |rows| && UniqueEventIds(t.events) && RowsConsistent(codec, t)
    requires Batch(t, organization, rows) && Wrote(t, t', organization, rows, leaves, block)
    requires |Filter(t.events, IsUnsealed(organization))| == |Filter(t'.events, IsUnsealed(organization))| + |rows|
    ensures |Filter(t'.events, IsSealed(tenant))|
         == |Filter(t.events, IsSealed(tenant))| + (if tenant == organization then |rows| else 0)
  {
    forall j | 0 <= j < |t.events| ensures SealColumnsAgree(t.events[j]) {
      assert RowConsistentAt(codec, t, j);
    }
    SealedCountGrows(t, organization, rows, leaves, block.id, t', tenant);
  }

  lemma SealKeepsRows(
    codec: Codec, t: Tables, organization: Uuid, rows: seq<EventRow>, leaves: seq<Bytes>, t': Tables, block: BlockRow)
    requires |leaves| == |rows|
    requires UniqueEventIds(t.events) && UniqueBlockIds(t.blocks)
    requires Batch(t, organization, rows) && Wrote(t, t', organization, rows, leaves, block)
    requires RowsConsistent(codec, t)
    ensures UniqueEventIds(t'.events) && UniqueBlockIds(t'.blocks)
    ensures RowsConsistent(codec, t')
  {
    MarkingKeepsIds(t, organization, rows, leaves, block.id, t'.events);
    forall j | 0 <= j < |t'.events| ensures RowConsistentAt(codec, t', j) {
      assert RowConsistentAt(codec, t, j);
      RowsStayConsistent(codec, t, organization, rows, leaves, t', block, j);
    }
  }

  /** The transaction seals its whole batch, and leaves every other row and every other tenant's chain alone. */
  lemma SealKeepsConsistent(
    codec: Codec, t: Tables, organization: Uuid, head: ChainHead, rows: seq<EventRow>, leaves: seq<Bytes>,
    t': Tables, block: BlockRow)
    requires rows != [] && |leaves| == |rows|
    requires Consistent(codec, t) && Batch(t, organization, rows)
    requires Wrote(t, t', organization, rows, leaves, block)
    requires LeafHashesOfRows(codec, rows) == Ok(leaves)
    requires BuildBlock(codec, organization, head, rows, leaves, block.id) == Ok(block)
    requires Lookup(t.heads, organization) == Some(head)
    requires |Filter(t.events, IsUnsealed(organization))| == |Filter(t'.events, IsUnsealed(organization))| + |rows|
    ensures Consistent(codec, t')
  {
    SealKeepsRows(codec, t, organization, rows, leaves, t', block);
    SealKeepsOwnChain(codec, t, organization, head, rows, leaves, t', block);
    forall tenant ensures TenantConsistent(codec, t', tenant) {
      SealedCountAfter(codec, t, organization, rows, leaves, t', block, tenant);
      assert TenantConsistent(codec, t, tenant);
      if tenant != organization {
        SealKeepsOtherTenant(codec, t, organization, rows, leaves, t', block, tenant);
      }
    }
  }
}
