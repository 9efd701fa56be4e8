/** The invariant of the ledger: what every committed state of the audit tables satisfies. */
module LedgerInvariant {
  import opened Prelude
  import opened Hashing
  import opened AuditTables
  import opened Verification

  function IsSealed(organization: Uuid): EventRow -> bool {
    (row: EventRow) => row.organization == organization && row.batchBlock.Some?
  }

  /** CHECK audit_event_seal_state_consistent */
  predicate SealColumnsAgree(row: EventRow) {
    SealColumnsNull(row) || (row.nodeHash.Some? && row.batchBlock.Some? && row.batchPosition.Some?)
  }

  /** What append_audit_event made sure of before it stored the row. */
  predicate Canonicalizable(codec: Codec, row: EventRow) {
    row.data.JObject? && EventEnvelopeOf(codec, row).Ok? && codec.canonicalJson(EventEnvelopeOf(codec, row).value).Some?
  }

  ghost predicate UniqueBlockIds(blocks: seq<BlockRow>) {
    forall i, j :: 0 <= i < j < |blocks| ==> blocks[i].id != blocks[j].id
  }

  ghost predicate BlockStored(blocks: seq<BlockRow>, organization: Uuid, blockId: Uuid) {
    exists j :: 0 <= j < |blocks| && blocks[j].id == blockId && blocks[j].organization == organization
  }

  ghost predicate RowConsistent(codec: Codec, t: Tables, row: EventRow) {
    && SealColumnsAgree(row)
    && Canonicalizable(codec, row)
    && (row.batchBlock.Some? ==> BlockStored(t.blocks, row.organization, row.batchBlock.value))
  }

  /** The head row of a tenant records the length of its chain and the hash of its last block. */
  predicate HeadFits(t: Tables, organization: Uuid, blocks: seq<BlockRow>) {
    if organization in t.heads then
      t.heads[organization] == ChainHead(|blocks|, PreviousHash(blocks, |blocks|))
    else blocks == []
  }

  ghost predicate TenantConsistent(codec: Codec, t: Tables, organization: Uuid) {
    var blocks := Filter(t.blocks, OfTenant(organization));
    && ChainIntact(codec, t, organization, blocks)
    && HeadFits(t, organization, blocks)
    && EventsIn(t, organization, blocks) == |Filter(t.events, IsSealed(organization))|
  }

  ghost predicate RowsConsistent(codec: Codec, t: Tables) {
    forall i :: 0 <= i < |t.events| ==> RowConsistentAt(codec, t, i)
  }

  ghost predicate RowConsistentAt(codec: Codec, t: Tables, i: nat)
    requires i < |t.events|
  {
    RowConsistent(codec, t, t.events[i])
  }

  ghost predicate Consistent(codec: Codec, t: Tables) {
    && UniqueEventIds(t.events)
    && UniqueBlockIds(t.blocks)
    && RowsConsistent(codec, t)
    && (forall organization :: TenantConsistent(codec, t, organization))
  }

  // ------------------------------------------------------ carrying a chain over

  lemma {:induction false} CountCarriesOver(t: Tables, t': Tables, organization: Uuid, blocks: seq<BlockRow>)
    requires forall i :: 0 <= i < |blocks| ==>
      BlockEvents(t, organization, blocks[i].id) == BlockEvents(t', organization, blocks[i].id)
    ensures EventsIn(t, organization, blocks) == EventsIn(t', organization, blocks)
  {
    if blocks == [] {
    } else {
      CountCarriesOver(t, t', organization, blocks[..|blocks| - 1]);
    }
  }

  lemma CheckCarriesOver(
    codec: Codec, t: Tables, t': Tables, organization: Uuid, block: BlockRow, sequence: int, previous: Option<string>)
    requires BlockEvents(t, organization, block.id) == BlockEvents(t', organization, block.id)
    ensures CheckBlock(codec, t, organization, block, sequence, previous)
         == CheckBlock(codec, t', organization, block, sequence, previous)
  {
  }

  /** A chain stays intact as long as the events of its blocks stay as they are. */
  lemma ChainCarriesOver(codec: Codec, t: Tables, t': Tables, organization: Uuid, blocks: seq<BlockRow>)
    requires ChainIntact(codec, t, organization, blocks)
    requires forall i :: 0 <= i < |blocks| ==>
      BlockEvents(t, organization, blocks[i].id) == BlockEvents(t', organization, blocks[i].id)
    ensures ChainIntact(codec, t', organization, blocks)
    ensures EventsIn(t, organization, blocks) == EventsIn(t', organization, blocks)
  {
    CountCarriesOver(t, t', organization, blocks);
    forall i | 0 <= i < |blocks| ensures PassesAt(Checker(codec, t', organization), blocks, i) {
      CheckCarriesOver(codec, t, t', organization, blocks[i], i + 1, PreviousHash(blocks, i));
      assert PassesAt(Checker(codec, t, organization), blocks, i);
    }
  }

  // ---------------------------------------------------------------- append

  function AppendRow(t: Tables, row: EventRow): Tables {
    t.(events := t.events + [row])
  }

  lemma AppendKeepsBlockEvents(t: Tables, row: EventRow, organization: Uuid, blockId: Uuid)
    requires SealColumnsNull(row)
    ensures BlockEvents(AppendRow(t, row), organization, blockId) == BlockEvents(t, organization, blockId)
  {
    var p := InBlock(organization, blockId);
    FilterAppend(t.events, [row], p);
    FilterNone([row], p);
    assert Filter(t.events, p) + [] == Filter(t.events, p);
  }

  lemma AppendKeepsTenant(codec: Codec, t: Tables, row: EventRow, organization: Uuid)
    requires TenantConsistent(codec, t, organization)
    requires SealColumnsNull(row)
    ensures TenantConsistent(codec, AppendRow(t, row), organization)
  {
    var t' := AppendRow(t, row);
    var blocks := Filter(t.blocks, OfTenant(organization));
    forall i | 0 <= i < |blocks|
      ensures BlockEvents(t, organization, blocks[i].id) == BlockEvents(t', organization, blocks[i].id)
    {
      AppendKeepsBlockEvents(t, row, organization, blocks[i].id);
    }
    ChainCarriesOver(codec, t, t', organization, blocks);
    FilterAppend(t.events, [row], IsSealed(organization));
    FilterNone([row], IsSealed(organization));
  }

  lemma AppendKeepsConsistent(codec: Codec, t: Tables, row: EventRow)
    requires Consistent(codec, t)
    requires SealColumnsNull(row) && Canonicalizable(codec, row)
    requires forall i :: 0 <= i < |t.events| ==> t.events[i].id != row.id
    ensures Consistent(codec, AppendRow(t, row))
  {
    var t' := AppendRow(t, row);
    forall i | 0 <= i < |t'.events| ensures RowConsistentAt(codec, t', i) {
      if i < |t.events| {
        assert RowConsistentAt(codec, t, i);
      }
    }
    forall organization ensures TenantConsistent(codec, t', organization) {
      AppendKeepsTenant(codec, t, row, organization);
    }
  }
}
