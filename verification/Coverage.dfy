/** Which rows of a tenant a VALID verdict covers. */
module Coverage {
  import opened Prelude
  import opened Hashing
  import opened AuditTables
  import opened Sealing
  import opened Verification
  import opened LedgerInvariant
  import opened TamperEvidence

  /** The row stands among the events of some block of its tenant. */
  ghost predicate Covered(t: Tables, organization: Uuid, row: EventRow) {
    exists b: nat :: b < |TenantBlocks(t, organization)| && InEventsOf(t, organization, b, row)
  }

  ghost predicate InEventsOf(t: Tables, organization: Uuid, b: nat, row: EventRow)
    requires b < |TenantBlocks(t, organization)|
  {
    row in BlockEvents(t, organization, TenantBlocks(t, organization)[b].id)
  }

  /** Every row of the tenant that names a block names one of the tenant. */
  ghost predicate NoOrphans(t: Tables, organization: Uuid) {
    forall i :: 0 <= i < |t.events| && t.events[i].organization == organization && t.events[i].batchBlock.Some? ==>
      BlockStored(t.blocks, organization, t.events[i].batchBlock.value)
  }

  lemma BlockEventsHold(t: Tables, organization: Uuid, blockId: Uuid, row: EventRow)
    ensures row in BlockEvents(t, organization, blockId)
       <==> row in t.events && row.organization == organization && row.batchBlock == Some(blockId)
  {
    var selected := Filter(t.events, InBlock(organization, blockId));
    FilterMembers(t.events, InBlock(organization, blockId));
    SortPermutes(selected, PositionLe);
    MultisetMembers(selected, BlockEvents(t, organization, blockId));
  }

  /** A stored block of the tenant is one of the blocks that the verifier walks. */
  lemma TenantBlocksHold(t: Tables, organization: Uuid, blockId: Uuid)
    ensures BlockStored(t.blocks, organization, blockId)
       <==> exists b: nat :: b < |TenantBlocks(t, organization)| && TenantBlocks(t, organization)[b].id == blockId
  {
    var blocks := TenantBlocks(t, organization);
    var selected := Filter(t.blocks, OfTenant(organization));
    FilterMembers(t.blocks, OfTenant(organization));
    SortPermutes(selected, SequenceLe);
    MultisetMembers(selected, blocks);
    if BlockStored(t.blocks, organization, blockId) {
      var j :| 0 <= j < |t.blocks| && t.blocks[j].id == blockId && t.blocks[j].organization == organization;
      assert t.blocks[j] in blocks;
      var b: nat :| b < |blocks| && blocks[b] == t.blocks[j];
    }
    if b: nat :| b < |blocks| && blocks[b].id == blockId {
      assert blocks[b] in blocks;
      assert blocks[b] in t.blocks;
    }
  }

  lemma RowCoveredExactly(t: Tables, organization: Uuid, row: EventRow)
    requires row in t.events && row.organization == organization
    ensures Covered(t, organization, row)
       <==> row.batchBlock.Some? && BlockStored(t.blocks, organization, row.batchBlock.value)
  {
    var blocks := TenantBlocks(t, organization);
    if b: nat :| b < |blocks| && InEventsOf(t, organization, b, row) {
      BlockEventsHold(t, organization, blocks[b].id, row);
      TenantBlocksHold(t, organization, blocks[b].id);
    }
    if row.batchBlock.Some? && BlockStored(t.blocks, organization, row.batchBlock.value) {
      TenantBlocksHold(t, organization, row.batchBlock.value);
      var b: nat :| b < |blocks| && blocks[b].id == row.batchBlock.value;
      BlockEventsHold(t, organization, blocks[b].id, row);
      assert InEventsOf(t, organization, b, row);
    }
  }

  lemma NothingWaits(codec: Codec, t: Tables, organization: Uuid, i: nat)
    requires VerifiesValid(codec, t, organization)
    requires i < |t.events| && t.events[i].organization == organization
    ensures t.events[i].batchBlock.Some?
  {
    ValidMeaning(codec, t, organization);
    assert !AwaitsSealing(organization)(t.events[i]);
  }

  /** A VALID verdict covers every event of the tenant exactly when each names a block of the tenant. */
  lemma ValidCoversExactly(codec: Codec, t: Tables, organization: Uuid)
    requires VerifiesValid(codec, t, organization)
    ensures NoOrphans(t, organization)
       <==> forall row :: row in t.events && row.organization == organization ==> Covered(t, organization, row)
  {
    forall row | row in t.events && row.organization == organization
      ensures row.batchBlock.Some?
      ensures Covered(t, organization, row) <==> BlockStored(t.blocks, organization, row.batchBlock.value)
    {
      var i: nat :| i < |t.events| && t.events[i] == row;
      NothingWaits(codec, t, organization, i);
      RowCoveredExactly(t, organization, row);
    }
    if NoOrphans(t, organization) {
      forall row | row in t.events && row.organization == organization ensures Covered(t, organization, row) {
        var i: nat :| i < |t.events| && t.events[i] == row;
        assert BlockStored(t.blocks, organization, t.events[i].batchBlock.value);
      }
    } else {
      var i: nat :| i < |t.events| && t.events[i].organization == organization && t.events[i].batchBlock.Some?
        && !BlockStored(t.blocks, organization, t.events[i].batchBlock.value);
      assert t.events[i] in t.events;
    }
  }

  function WithRow(t: Tables, row: EventRow): Tables {
    t.(events := t.events + [row])
  }

  /** The condition is needed: a row that names no block of its tenant does not change a VALID verdict. */
  lemma OrphanKeepsVerdict(codec: Codec, t: Tables, organization: Uuid, row: EventRow)
    requires VerifiesValid(codec, t, organization)
    requires row.organization == organization && row.batchBlock.Some?
    requires !BlockStored(t.blocks, organization, row.batchBlock.value)
    ensures VerifyTables(codec, WithRow(t, row), organization) == VerifyTables(codec, t, organization)
    ensures !Covered(WithRow(t, row), organization, row)
  {
    var t' := WithRow(t, row);
    var blocks := TenantBlocks(t, organization);
    ValidMeaning(codec, t, organization);
    forall i | 0 <= i < |blocks|
      ensures BlockEvents(t, organization, blocks[i].id) == BlockEvents(t', organization, blocks[i].id)
    {
      TenantBlocksHold(t, organization, blocks[i].id);
      OtherBlocksUnmoved(t, row, organization, blocks[i].id);
    }
    ChainCarriesOver(codec, t, t', organization, blocks);
    forall i | 0 <= i < |t'.events| ensures !AwaitsSealing(organization)(t'.events[i]) {
      if i < |t.events| {
        assert !AwaitsSealing(organization)(t.events[i]);
      }
    }
    ValidMeaning(codec, t', organization);
    SameReport(codec, t, t', organization);
    assert t'.events[|t.events|] == row;
    RowCoveredExactly(t', organization, row);
  }

  lemma OtherBlocksUnmoved(t: Tables, row: EventRow, organization: Uuid, blockId: Uuid)
    requires row.batchBlock != Some(blockId)
    ensures BlockEvents(WithRow(t, row), organization, blockId) == BlockEvents(t, organization, blockId)
  {
    FilterAppend(t.events, [row], InBlock(organization, blockId));
    FilterNone([row], InBlock(organization, blockId));
  }

  /** Two VALID verdicts on the same blocks report the same counts. */
  lemma SameReport(codec: Codec, t: Tables, t': Tables, organization: Uuid)
    requires VerifiesValid(codec, t, organization) && VerifiesValid(codec, t', organization)
    requires TenantBlocks(t, organization) == TenantBlocks(t', organization)
    requires EventsIn(t, organization, TenantBlocks(t, organization))
          == EventsIn(t', organization, TenantBlocks(t', organization))
    ensures VerifyTables(codec, t, organization) == VerifyTables(codec, t', organization)
  {
    ValidReport(codec, t, organization);
    ValidReport(codec, t', organization);
  }

  lemma ValidReport(codec: Codec, t: Tables, organization: Uuid)
    requires VerifiesValid(codec, t, organization)
    ensures var blocks := TenantBlocks(t, organization);
            VerifyTables(codec, t, organization)
            == Ok(AuditVerification(Valid, |blocks|, EventsIn(t, organization, blocks), AllVerified))
  {
    ValidMeaning(codec, t, organization);
    NoFaultMeaning(Checker(codec, t, organization), TenantBlocks(t, organization));
  }

  /** The ledger's own writes meet the condition. */
  lemma ConsistentHasNoOrphans(codec: Codec, t: Tables, organization: Uuid)
    requires Consistent(codec, t)
    ensures NoOrphans(t, organization)
  {
    forall i | 0 <= i < |t.events| && t.events[i].organization == organization && t.events[i].batchBlock.Some?
      ensures BlockStored(t.blocks, organization, t.events[i].batchBlock.value)
    {
      assert RowConsistentAt(codec, t, i);
    }
  }

  // --------------------------------------------------- the whole event table

  /** Some event of the tenant commits to the same envelope, identifier included. */
  ghost predicate HasCounterpart(codec: Codec, row: EventRow, t: Tables, organization: Uuid) {
    exists k :: 0 <= k < |t.events| && t.events[k].organization == organization
      && EventEnvelopeOf(codec, t.events[k]) == EventEnvelopeOf(codec, row)
  }

  ghost predicate AllHaveCounterparts(codec: Codec, t: Tables, t': Tables, organization: Uuid) {
    forall i :: 0 <= i < |t.events| && t.events[i].organization == organization ==>
      HasCounterpart(codec, t.events[i], t', organization)
  }

  lemma CoveredHasCounterpart(codec: Codec, t: Tables, t': Tables, organization: Uuid, row: EventRow, n: nat)
    requires Covered(t, organization, row)
    requires n == |TenantBlocks(t, organization)|
    requires SamePrefix(codec, t, TenantBlocks(t, organization), t', TenantBlocks(t', organization), organization, n)
    ensures HasCounterpart(codec, row, t', organization)
  {
    var blocks, blocks' := TenantBlocks(t, organization), TenantBlocks(t', organization);
    var b: nat :| b < |blocks| && InEventsOf(t, organization, b, row);
    assert SameBlock(codec, t, blocks[b], t', blocks'[b], organization);
    var events, events' :=
      BlockEvents(t, organization, blocks[b].id), BlockEvents(t', organization, blocks'[b].id);
    var k: nat :| k < |events| && events[k] == row;
    assert EventEnvelopeOf(codec, events[k]) == EventEnvelopeOf(codec, events'[k]);
    assert events'[k] in events';
    BlockEventsHold(t', organization, blocks'[b].id, events'[k]);
    var m :| 0 <= m < |t'.events| && t'.events[m] == events'[k];
  }

  lemma PrefixBothWays(
    codec: Codec, t: Tables, blocks: seq<BlockRow>, t': Tables, blocks': seq<BlockRow>, organization: Uuid, n: nat)
    requires SamePrefix(codec, t, blocks, t', blocks', organization, n)
    ensures SamePrefix(codec, t', blocks', t, blocks, organization, n)
  {
    forall k | 0 <= k < n ensures SameBlock(codec, t', blocks'[k], t, blocks[k], organization) {
      assert SameBlock(codec, t, blocks[k], t', blocks'[k], organization);
    }
  }

  lemma AllCoveredHaveCounterparts(codec: Codec, t: Tables, t': Tables, organization: Uuid, n: nat)
    requires VerifiesValid(codec, t, organization) && NoOrphans(t, organization)
    requires n == |TenantBlocks(t, organization)|
    requires SamePrefix(codec, t, TenantBlocks(t, organization), t', TenantBlocks(t', organization), organization, n)
    ensures AllHaveCounterparts(codec, t, t', organization)
  {
    ValidCoversExactly(codec, t, organization);
    forall i | 0 <= i < |t.events| && t.events[i].organization == organization
      ensures HasCounterpart(codec, t.events[i], t', organization)
    {
      assert t.events[i] in t.events;
      CoveredHasCounterpart(codec, t, t', organization, t.events[i], n);
    }
  }

  /** Two stores that verify VALID under one head hash, in which every event names a block of its tenant, hold the
      same events of the tenant, or a collision of SHA-256 comes out of them. */
  lemma EveryEventIsPinned(codec: Codec, organization: Uuid, t: Tables, t': Tables)
    requires FaithfulEncoding(codec)
    requires VerifiesValid(codec, t, organization) && VerifiesValid(codec, t', organization)
    requires HeadHash(t, organization) == HeadHash(t', organization)
    requires NoOrphans(t, organization) && NoOrphans(t', organization)
    ensures var blocks, blocks' := TenantBlocks(t, organization), TenantBlocks(t', organization);
            && blocks != [] && blocks' != []
            && (|| FoundCollision(codec, FindChainCollision(codec, organization, t, blocks, |blocks| - 1,
                                                            t', blocks', |blocks'| - 1))
                || (AllHaveCounterparts(codec, t, t', organization) && AllHaveCounterparts(codec, t', t, organization)))
  {
    var blocks, blocks' := TenantBlocks(t, organization), TenantBlocks(t', organization);
    TamperingIsEvident(codec, organization, t, t');
    if SamePrefix(codec, t, blocks, t', blocks', organization, |blocks|) && |blocks'| == |blocks| {
      PrefixBothWays(codec, t, blocks, t', blocks', organization, |blocks|);
      AllCoveredHaveCounterparts(codec, t, t', organization, |blocks|);
      AllCoveredHaveCounterparts(codec, t', t, organization, |blocks|);
    }
  }
}
