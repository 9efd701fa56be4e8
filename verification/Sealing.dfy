/** The sealing transaction of apps/audit/sealing.py: as functions from tables to tables, and as the
    method that works on stored tables and is proved to do what the functions say. */
module Sealing {
  import opened Prelude
  import opened Hashing
  import opened Merkle
  import opened AuditTables

  const MAX_EVENTS_PER_BLOCK := 1000

  datatype SealError =
    | MaxEventsTooSmall
    | MaxEventsTooLarge
    | Envelope(envelope: EnvelopeError)
    | Tree(tree: MerkleError)
    | DuplicateBlock
    | EventExclusivityLost
    | HeadExclusivityLost

  datatype SealedAuditBlock = SealedAuditBlock(
    id: Uuid,
    organizationId: Uuid,
    blockSequence: int,
    eventCount: nat,
    firstEventId: Uuid,
    lastEventId: Uuid,
    merkleRoot: string,
    previousBlockHash: Option<string>,
    blockHash: string)

  function Sealed(block: BlockRow): SealedAuditBlock {
    SealedAuditBlock(block.id, block.organization, block.blockSequence, block.eventCount, block.firstEventId,
                     block.lastEventId, block.merkleRoot, block.previousBlockHash, block.blockHash)
  }

  /** Each field of the result is the column of that name. */
  predicate Describes(r: SealedAuditBlock, block: BlockRow) {
    && r.id == block.id && r.organizationId == block.organization && r.blockSequence == block.blockSequence
    && r.eventCount == block.eventCount && r.firstEventId == block.firstEventId && r.lastEventId == block.lastEventId
    && r.merkleRoot == block.merkleRoot && r.previousBlockHash == block.previousBlockHash
    && r.blockHash == block.blockHash
  }

  function EnsureChainHead(t: Tables, organization: Uuid): Tables {
    if organization in t.heads then t
    else t.(heads := t.heads[organization := ChainHead(0, None)])
  }

  // ------------------------------------------------------ building a block

  function Envelopes(codec: Codec, rows: seq<EventRow>): (r: Result<seq<Envelope>, SealError>)
    ensures r.Ok? ==> |r.value| == |rows|
  {
    if rows == [] then Ok([])
    else
      match Envelopes(codec, rows[..|rows| - 1])
      case Err(error) => Err(error)
      case Ok(envelopes) =>
        match EventEnvelopeOf(codec, rows[|rows| - 1])
        case Err(error) => Err(Envelope(error))
        case Ok(envelope) => Ok(envelopes + [envelope])
  }

  function Leaves(codec: Codec, envelopes: seq<Envelope>): (r: Result<seq<Bytes>, SealError>)
    ensures r.Ok? ==> |r.value| == |envelopes|
  {
    if envelopes == [] then Ok([])
    else
      match Leaves(codec, envelopes[..|envelopes| - 1])
      case Err(error) => Err(error)
      case Ok(leaves) =>
        match HashLeaf(codec, envelopes[|envelopes| - 1])
        case Err(error) => Err(Tree(error))
        case Ok(leaf) => Ok(leaves + [leaf])
  }

  /** The leaf hashes of the selected rows. */
  function LeafHashesOfRows(codec: Codec, rows: seq<EventRow>): (r: Result<seq<Bytes>, SealError>)
    ensures r.Ok? ==> |r.value| == |rows|
  {
    match Envelopes(codec, rows)
    case Err(error) => Err(error)
    case Ok(envelopes) => Leaves(codec, envelopes)
  }

  function BuildBlock(
    codec: Codec, organization: Uuid, head: ChainHead, rows: seq<EventRow>, leaves: seq<Bytes>, blockId: Uuid
  ): Result<BlockRow, SealError>
    requires rows != []
  {
    match MerkleRootFromHashes(codec, leaves)
    case Err(error) => Err(Tree(error))
    case Ok(root) =>
      var first, last := rows[0].id, rows[|rows| - 1].id;
      match BuildBlockEnvelope(organization, head.lastBlockSequence + 1, |rows|, first, last, Hex(root),
                               head.lastBlockHash)
      case Err(error) => Err(Tree(error))
      case Ok(envelope) =>
        match HashBlock(codec, envelope)
        case Err(error) => Err(Tree(error))
        case Ok(hash) =>
          Ok(BlockRow(blockId, organization, head.lastBlockSequence + 1, ALGORITHM_VERSION,
                      CANONICALIZATION_VERSION, |rows|, first, last, Hex(root), head.lastBlockHash, Hex(hash)))
  }

  // ------------------------------------------------------ writing a block

  /** WHERE id = … AND organization_id = … AND the three seal columns are NULL */
  function Sealable(organization: Uuid, eventId: Uuid): EventRow -> bool {
    (row: EventRow) => row.id == eventId && IsUnsealed(organization)(row)
  }

  function SetSeal(row: EventRow, nodeHash: string, blockId: Uuid, position: nat): EventRow {
    row.(nodeHash := Some(nodeHash), batchBlock := Some(blockId), batchPosition := Some(position))
  }

  function UpdateEvent(
    events: seq<EventRow>, organization: Uuid, eventId: Uuid, nodeHash: string, blockId: Uuid, position: nat
  ): (r: seq<EventRow>)
    ensures |r| == |events|
    ensures forall i :: 0 <= i < |r| ==>
      r[i] == if Sealable(organization, eventId)(events[i]) then SetSeal(events[i], nodeHash, blockId, position)
              else events[i]
  {
    seq(|events|, i requires 0 <= i < |events| =>
      if Sealable(organization, eventId)(events[i]) then SetSeal(events[i], nodeHash, blockId, position)
      else events[i])
  }

  /** Identifiers are unique, so one UPDATE seals at most one row, keeps the columns that append wrote of every row,
      and leaves the tenant with one unsealed row less exactly when it finds its row. */
  lemma UpdateSealsOneRow(
    events: seq<EventRow>, organization: Uuid, eventId: Uuid, nodeHash: string, blockId: Uuid, position: nat)
    requires UniqueEventIds(events)
    ensures var r := UpdateEvent(events, organization, eventId, nodeHash, blockId, position);
            var found := |Filter(events, Sealable(organization, eventId))|;
            && EventIds(r) == EventIds(events)
            && (forall i :: 0 <= i < |events| ==> SameCommitted(events[i], r[i]))
            && (forall i :: 0 <= i < |events| && r[i] != events[i] ==> events[i].id == eventId)
            && found <= 1
            && |Filter(r, IsUnsealed(organization))| == |Filter(events, IsUnsealed(organization))| - found
  {
    var p := Sealable(organization, eventId);
    if i: nat :| i < |events| && p(events[i]) {
      forall k | 0 <= k < |events| && k != i ensures !p(events[k]) {
        assert events[k].id != events[i].id;
      }
      FilterOnly(events, p, i);
      SealsRowAt(events, organization, eventId, nodeHash, blockId, position, i);
    } else {
      FilterNone(events, p);
      assert UpdateEvent(events, organization, eventId, nodeHash, blockId, position) == events;
    }
  }

  lemma SealsRowAt(
    events: seq<EventRow>, organization: Uuid, eventId: Uuid, nodeHash: string, blockId: Uuid, position: nat, i: nat)
    requires i < |events| && Sealable(organization, eventId)(events[i])
    requires forall k :: 0 <= k < |events| && k != i ==> !Sealable(organization, eventId)(events[k])
    ensures var r := UpdateEvent(events, organization, eventId, nodeHash, blockId, position);
            |Filter(events, IsUnsealed(organization))| == |Filter(r, IsUnsealed(organization))| + 1
  {
    var r := UpdateEvent(events, organization, eventId, nodeHash, blockId, position);
    FilterFlip(r, events, IsUnsealed(organization), i);
  }

  /** The update loop: one UPDATE per selected row, which must hit exactly one row. */
  function MarkEvents(
    events: seq<EventRow>, organization: Uuid, rows: seq<EventRow>, leaves: seq<Bytes>, blockId: Uuid
  ): (r: Result<seq<EventRow>, SealError>)
    requires |leaves| == |rows|
  {
    if rows == [] then Ok(events)
    else
      var position := |rows| - 1;
      match MarkEvents(events, organization, rows[..position], leaves[..position], blockId)
      case Err(error) => Err(error)
      case Ok(marked) =>
        if |Filter(marked, Sealable(organization, rows[position].id))| != 1 then Err(EventExclusivityLost)
        else Ok(UpdateEvent(marked, organization, rows[position].id, Hex(leaves[position]), blockId, position))
  }

  lemma {:induction false} MarkEventsStopsAtError(
    events: seq<EventRow>, organization: Uuid, rows: seq<EventRow>, leaves: seq<Bytes>, blockId: Uuid, k: nat)
    requires |leaves| == |rows| && k <= |rows|
    requires MarkEvents(events, organization, rows[..k], leaves[..k], blockId).Err?
    ensures MarkEvents(events, organization, rows, leaves, blockId)
         == MarkEvents(events, organization, rows[..k], leaves[..k], blockId)
  {
    if k == |rows| {
      assert rows[..k] == rows && leaves[..k] == leaves;
    } else {
      var init := |rows| - 1;
      assert rows[..init][..k] == rows[..k] && leaves[..init][..k] == leaves[..k];
      MarkEventsStopsAtError(events, organization, rows[..init], leaves[..init], blockId, k);
    }
  }

  /** The writes of a sealing transaction: the block, the rows it took, and the head by compare-and-set. */
  function WriteBlock(
    codec: Codec, t: Tables, organization: Uuid, head: ChainHead, rows: seq<EventRow>, blockId: Uuid
  ): Result<(Tables, BlockRow), SealError>
    requires rows != []
  {
    match LeafHashesOfRows(codec, rows)
    case Err(error) => Err(error)
    case Ok(leaves) =>
      match BuildBlock(codec, organization, head, rows, leaves, blockId)
      case Err(error) => Err(error)
      case Ok(block) =>
        if BlockKeyTaken(t.blocks, block) then Err(DuplicateBlock)
        else
          match MarkEvents(t.events, organization, rows, leaves, blockId)
          case Err(error) => Err(error)
          case Ok(events) =>
            if Lookup(t.heads, organization) != Some(head) then Err(HeadExclusivityLost)
            else
              Ok((Tables(events, t.blocks + [block],
                         t.heads[organization := ChainHead(block.blockSequence, Some(block.blockHash))]),
                  block))
  }

  /** The primary key, and UNIQUE (organization, block_sequence). */
  predicate BlockKeyTaken(blocks: seq<BlockRow>, block: BlockRow) {
    exists i :: 0 <= i < |blocks| &&
      (blocks[i].id == block.id ||
       (blocks[i].organization == block.organization && blocks[i].blockSequence == block.blockSequence))
  }

  /** One whole sealing transaction that no other transaction overlaps. An error undoes everything. */
  function SealTables(codec: Codec, t: Tables, organization: Uuid, maxEvents: int, blockId: Uuid)
    : (Tables, Result<Option<SealedAuditBlock>, SealError>)
  {
    if maxEvents < 1 then (t, Err(MaxEventsTooSmall))
    else if maxEvents > MAX_EVENTS_PER_BLOCK then (t, Err(MaxEventsTooLarge))
    else
      var t' := EnsureChainHead(t, organization);
      var rows := SelectUnsealed(t', organization, maxEvents);
      if rows == [] then (t', Ok(None))
      else
        match WriteBlock(codec, t', organization, t'.heads[organization], rows, blockId)
        case Err(error) => (t, Err(error))
        case Ok((written, block)) => (written, Ok(Some(Sealed(block))))
  }

  /** The update loop of the sealing transaction. */
  method MarkSelected(
    events: seq<EventRow>, organization: Uuid, rows: seq<EventRow>, leaves: seq<Bytes>, blockId: Uuid
  ) returns (r: Result<seq<EventRow>, SealError>)
    requires |leaves| == |rows|
    ensures r == MarkEvents(events, organization, rows, leaves, blockId)
  {
    var marked := events;
    var position := 0;
    while position < |rows|
      invariant position <= |rows|
      invariant MarkEvents(events, organization, rows[..position], leaves[..position], blockId) == Ok(marked)
    {
      assert rows[..position + 1][..position] == rows[..position];
      assert leaves[..position + 1][..position] == leaves[..position];
      if |Filter(marked, Sealable(organization, rows[position].id))| != 1 {
        MarkEventsStopsAtError(events, organization, rows, leaves, blockId, position + 1);
        return Err(EventExclusivityLost);
      }
      marked := UpdateEvent(marked, organization, rows[position].id, Hex(leaves[position]), blockId, position);
      position := position + 1;
    }
    assert rows[..position] == rows && leaves[..position] == leaves;
    return Ok(marked);
  }

  /** The part of the transaction that follows the SELECT of a non-empty batch. */
  method WriteSelected(
    codec: Codec, t: Tables, organization: Uuid, head: ChainHead, rows: seq<EventRow>, blockId: Uuid
  ) returns (r: Result<(Tables, BlockRow), SealError>)
    requires rows != []
    ensures r == WriteBlock(codec, t, organization, head, rows, blockId)
  {
    var leafResult := LeafHashesOfRows(codec, rows);
    if leafResult.Err? {
      return Err(leafResult.error);
    }
    var leaves := leafResult.value;
    var blockResult := BuildBlock(codec, organization, head, rows, leaves, blockId);
    if blockResult.Err? {
      return Err(blockResult.error);
    }
    var block := blockResult.value;
    if BlockKeyTaken(t.blocks, block) {
      return Err(DuplicateBlock);
    }
    var marked := MarkSelected(t.events, organization, rows, leaves, blockId);
    if marked.Err? {
      return Err(marked.error);
    }
    if organization !in t.heads || t.heads[organization] != head {
      return Err(HeadExclusivityLost);
    }
    var heads := t.heads[organization := ChainHead(block.blockSequence, Some(block.blockHash))];
    return Ok((Tables(marked.value, t.blocks + [block], heads), block));
  }

  // ------------------------------------------------------------ the store

  class AuditStore {
    const codec: Codec
    var events: seq<EventRow>
    var blocks: seq<BlockRow>
    var heads: map<Uuid, ChainHead>

    constructor (codec: Codec)
      ensures this.codec == codec && Contents() == EMPTY_TABLES
    {
      this.codec := codec;
      events, blocks, heads := [], [], map[];
    }

    ghost function Contents(): Tables
      reads this
    {
      Tables(events, blocks, heads)
    }

    method SealTenantAuditEvents(organization: Uuid, maxEvents: int, blockId: Uuid)
      returns (r: Result<Option<SealedAuditBlock>, SealError>)
      modifies this
      ensures (Contents(), r) == SealTables(codec, old(Contents()), organization, maxEvents, blockId)
      ensures maxEvents < 1 ==> r == Err(MaxEventsTooSmall)
      ensures maxEvents > 1000 ==> r == Err(MaxEventsTooLarge)
      ensures r.Err? ==> Contents() == old(Contents())
      ensures r.Ok? && r.value.Some? ==>
                && |blocks| == |old(blocks)| + 1 && blocks[..|old(blocks)|] == old(blocks)
                && Describes(r.value.value, blocks[|old(blocks)|]) && blocks[|old(blocks)|].id == blockId
    {
      if maxEvents < 1 {
        return Err(MaxEventsTooSmall);
      }
      if maxEvents > MAX_EVENTS_PER_BLOCK {
        return Err(MaxEventsTooLarge);
      }

      // Inside the transaction: nothing is stored before it commits.
      var t := EnsureChainHead(Tables(events, blocks, heads), organization);
      var rows := SelectUnsealed(t, organization, maxEvents);
      if rows == [] {
        heads := t.heads;
        return Ok(None);
      }
      var written := WriteSelected(codec, t, organization, t.heads[organization], rows, blockId);
      if written.Err? {
        return Err(written.error);
      }
      var (t', block) := written.value;
      events, blocks, heads := t'.events, t'.blocks, t'.heads;
      return Ok(Some(Sealed(block)));
    }
  }
}
