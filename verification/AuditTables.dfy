/** The three audit tables and the queries that sealing and verification run over them. */
module AuditTables {
  import opened Prelude
  import opened Hashing

  datatype EventRow = EventRow(
    id: Uuid,
    organization: Uuid,
    occurredAt: Time,
    actorUserId: Option<Uuid>,
    eventType: string,
    entityType: string,
    entityId: Option<Uuid>,
    data: Json,
    nodeHash: Option<string>,
    batchBlock: Option<Uuid>,
    batchPosition: Option<nat>)

  datatype BlockRow = BlockRow(
    id: Uuid,
    organization: Uuid,
    blockSequence: int,
    algorithmVersion: string,
    canonicalizationVersion: string,
    eventCount: nat,
    firstEventId: Uuid,
    lastEventId: Uuid,
    merkleRoot: string,
    previousBlockHash: Option<string>,
    blockHash: string)

  datatype ChainHead = ChainHead(lastBlockSequence: int, lastBlockHash: Option<string>)

  /** Rows of every tenant, in the order their transactions committed. */
  datatype Tables = Tables(events: seq<EventRow>, blocks: seq<BlockRow>, heads: map<Uuid, ChainHead>)

  const EMPTY_TABLES := Tables([], [], map[])

  datatype EnvelopeError = DataNotJson | DataNotAnObject

  /** The object that event data stands for: itself, or what its text decodes to. Text is decoded once. */
  function ObjectOf(codec: Codec, data: Json): (r: Result<Json, EnvelopeError>)
    ensures r.Ok? ==> r.value.JObject?
  {
    if data.JString? then
      match codec.parseJson(data.text)
      case None => Err(DataNotJson)
      case Some(decoded) => if decoded.JObject? then Ok(decoded) else Err(DataNotAnObject)
    else if data.JObject? then Ok(data)
    else Err(DataNotAnObject)
  }

  lemma ObjectOfMeaning(codec: Codec, data: Json, meant: Json)
    ensures ObjectOf(codec, data) == Ok(meant) <==>
              meant.JObject? && (data == meant || (data.JString? && codec.parseJson(data.text) == Some(meant)))
    ensures ObjectOf(codec, data) == Err(DataNotJson) <==> data.JString? && codec.parseJson(data.text).None?
  {
  }

  function EventEnvelopeOf(codec: Codec, row: EventRow): Result<Envelope, EnvelopeError> {
    match ObjectOf(codec, row.data)
    case Err(error) => Err(error)
    case Ok(data) =>
      Ok(EventEnvelope(1, row.organization, row.id, row.occurredAt, row.actorUserId, row.eventType,
                       row.entityType, row.entityId, data))
  }

  /** The envelope commits to every column that append wrote, each under its own name, and to the decoded data. */
  lemma EnvelopeOfColumns(codec: Codec, row: EventRow)
    ensures EventEnvelopeOf(codec, row).Ok? <==> ObjectOf(codec, row.data).Ok?
    ensures EventEnvelopeOf(codec, row).Ok? ==>
              var e := EventEnvelopeOf(codec, row).value;
              && e.EventEnvelope? && e.schemaVersion == 1
              && e.organizationId == row.organization && e.eventId == row.id && e.occurredAt == row.occurredAt
              && e.actorUserId == row.actorUserId && e.eventType == row.eventType
              && e.entityType == row.entityType && e.entityId == row.entityId
              && Ok(e.data) == ObjectOf(codec, row.data)
  {
  }

  // -------------------------------------------------------------- queries

  predicate SealColumnsNull(row: EventRow) {
    row.nodeHash.None? && row.batchBlock.None? && row.batchPosition.None?
  }

  function IsUnsealed(organization: Uuid): EventRow -> bool {
    (row: EventRow) => row.organization == organization && SealColumnsNull(row)
  }

  function InBlock(organization: Uuid, blockId: Uuid): EventRow -> bool {
    (row: EventRow) => row.organization == organization && row.batchBlock == Some(blockId)
  }

  function AwaitsSealing(organization: Uuid): EventRow -> bool {
    (row: EventRow) => row.organization == organization && row.batchBlock.None?
  }

  function OfTenant(organization: Uuid): BlockRow -> bool {
    (block: BlockRow) => block.organization == organization
  }

  /** ORDER BY occurred_at, id */
  predicate EventLe(a: EventRow, b: EventRow) {
    a.occurredAt < b.occurredAt || (a.occurredAt == b.occurredAt && a.id <= b.id)
  }

  /** Earlier in time, or at the same time under a smaller id. */
  predicate Earlier(a: EventRow, b: EventRow) {
    a.occurredAt < b.occurredAt || (a.occurredAt == b.occurredAt && a.id < b.id)
  }

  /** ORDER BY batch_position, with NULL last */
  predicate PositionLe(a: EventRow, b: EventRow) {
    b.batchPosition.None? || (a.batchPosition.Some? && a.batchPosition.value <= b.batchPosition.value)
  }

  /** ORDER BY block_sequence */
  predicate SequenceLe(a: BlockRow, b: BlockRow) {
    a.blockSequence <= b.blockSequence
  }

  function Take<T>(rows: seq<T>, limit: nat): seq<T> {
    if |rows| <= limit then rows else rows[..limit]
  }

  /** The oldest unsealed events of a tenant. */
  function SelectUnsealed(t: Tables, organization: Uuid, limit: nat): seq<EventRow> {
    Take(Sort(Filter(t.events, IsUnsealed(organization)), EventLe), limit)
  }

  function BlockEvents(t: Tables, organization: Uuid, blockId: Uuid): seq<EventRow> {
    Sort(Filter(t.events, InBlock(organization, blockId)), PositionLe)
  }

  function TenantBlocks(t: Tables, organization: Uuid): seq<BlockRow> {
    Sort(Filter(t.blocks, OfTenant(organization)), SequenceLe)
  }

  function EventIds(rows: seq<EventRow>): (ids: seq<Uuid>)
    ensures |ids| == |rows|
    ensures forall i :: 0 <= i < |ids| ==> ids[i] == rows[i].id
  {
    seq(|rows|, i requires 0 <= i < |rows| => rows[i].id)
  }

  /** The columns that append wrote are equal. */
  predicate SameCommitted(a: EventRow, b: EventRow) {
    b.(nodeHash := a.nodeHash, batchBlock := a.batchBlock, batchPosition := a.batchPosition) == a
  }

  /** The primary key of audit_events. */
  ghost predicate UniqueEventIds(rows: seq<EventRow>) {
    forall i, j :: 0 <= i < j < |rows| ==> rows[i].id != rows[j].id
  }
}
