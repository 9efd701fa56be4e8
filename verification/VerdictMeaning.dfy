/** What every verdict of the verifier means, in terms of the stored columns. */
module VerdictMeaning {
  import opened Prelude
  import opened Hashing
  import opened Merkle
  import opened AuditTables
  import opened Sealing
  import opened Verification
  import opened VerifierFaults

  // ------------------------------------------------------------ membership

  /** The events of a block are the tenant's rows that name it, each as often as it is stored, by batch position. */
  lemma BlockEventsMeaning(t: Tables, organization: Uuid, blockId: Uuid)
    ensures var events := BlockEvents(t, organization, blockId);
            && Sorted(events, PositionLe)
            && forall row ::
                 multiset(events)[row]
                 == if row.organization == organization && row.batchBlock == Some(blockId) then multiset(t.events)[row]
                    else 0
  {
    var p := InBlock(organization, blockId);
    assert TotalPreorder(PositionLe);
    SortSorts(Filter(t.events, p), PositionLe);
    SortPermutes(Filter(t.events, p), PositionLe);
    forall row ensures multiset(Filter(t.events, p))[row] == if p(row) then multiset(t.events)[row] else 0 {
      FilterCounts(t.events, p, row);
    }
  }

  /** The blocks of a tenant are its stored rows, each as often as it is stored, by sequence number. */
  lemma TenantBlocksMeaning(t: Tables, organization: Uuid)
    ensures var blocks := TenantBlocks(t, organization);
            && (forall i, j :: 0 <= i < j < |blocks| ==> blocks[i].blockSequence <= blocks[j].blockSequence)
            && forall row ::
                 multiset(blocks)[row] == if row.organization == organization then multiset(t.blocks)[row] else 0
  {
    var p := OfTenant(organization);
    assert TotalPreorder(SequenceLe);
    SortSorts(Filter(t.blocks, p), SequenceLe);
    SortPermutes(Filter(t.blocks, p), SequenceLe);
    forall row ensures multiset(Filter(t.blocks, p))[row] == if p(row) then multiset(t.blocks)[row] else 0 {
      FilterCounts(t.blocks, p, row);
    }
  }

  /** Position after position, and each event earlier than the next. */
  ghost predicate InTimeOrder(events: seq<EventRow>) {
    && (forall k :: 0 <= k < |events| ==> events[k].batchPosition == Some(k))
    && forall i, j :: 0 <= i < j < |events| ==> Earlier(events[i], events[j])
  }

  lemma CanonicalOrderMeaning(events: seq<EventRow>)
    requires UniqueEventIds(events)
    ensures InCanonicalOrder(events) <==> InTimeOrder(events)
  {
    var sorted := Sort(events, EventLe);
    assert TotalPreorder(EventLe) && NoTies(events, EventLe);
    SortSorts(events, EventLe);
    SortPermutes(events, EventLe);
    MultisetMembers(sorted, events);
    if InCanonicalOrder(events) {
      forall k | 0 <= k < |events| ensures sorted[k] == events[k] {
        assert EventIds(events)[k] == EventIds(sorted)[k];
        assert sorted[k] in sorted;
        assert sorted[k] in events;
      }
    }
    if InTimeOrder(events) {
      SortOfSorted(events, EventLe);
    }
  }

  // ---------------------------------------------------------------- leaves

  /** The event at k is the first that the leaf loop does not get past. */
  ghost predicate FirstBad(codec: Codec, events: seq<EventRow>, k: nat) {
    k < |events| && LeavesPassBefore(codec, events, k) && !LeafPasses(codec, events[k])
  }

  /** The event's envelope has no canonical encoding. */
  predicate Unencodable(codec: Codec, event: EventRow) {
    ObjectOf(codec, event.data).Ok? && codec.canonicalJson(EventEnvelopeOf(codec, event).value).None?
  }

  /** The event's envelope has another hash than the stored one. */
  ghost predicate WrongHash(codec: Codec, event: EventRow) {
    && ObjectOf(codec, event.data).Ok?
    && HashLeaf(codec, EventEnvelopeOf(codec, event).value).Ok?
    && event.nodeHash != Some(Hex(HashLeaf(codec, EventEnvelopeOf(codec, event).value).value))
  }

  lemma BadLeafFails(codec: Codec, events: seq<EventRow>, k: nat)
    requires FirstBad(codec, events, k)
    ensures CheckLeaves(codec, events)
         == Err(if ObjectOf(codec, events[k].data).Err? then Raised(SealingErrorEscaped)
                else if Unencodable(codec, events[k]) then Reported(Invalid, MaterialNotCanonicalizable)
                else Reported(Invalid, LeafHashFailed))
  {
    LeafLoopRaisesExactly(codec, events[..k]);
    assert LeavesPassBefore(codec, events[..k], k);
    assert events[..k + 1][..k] == events[..k];
    CheckLeavesStopsAtFault(codec, events, k + 1);
  }

  lemma {:induction false} FindBadLeaf(codec: Codec, events: seq<EventRow>, n: nat) returns (k: nat)
    requires n <= |events| && !LeavesPassBefore(codec, events, n)
    ensures FirstBad(codec, events, k)
    decreases n
  {
    if LeavesPassBefore(codec, events, n - 1) {
      k := n - 1;
    } else {
      k := FindBadLeaf(codec, events, n - 1);
    }
  }

  // ------------------------------------------------------------- one block

  predicate VersionsExpected(block: BlockRow) {
    block.algorithmVersion == ALGORITHM_VERSION && block.canonicalizationVersion == CANONICALIZATION_VERSION
  }

  /** Count, sequence number, versions, linkage, order and boundaries are right. */
  ghost predicate ReachesLeaves(events: seq<EventRow>, block: BlockRow, sequence: int, previous: Option<string>) {
    ReachesEvents(events, block, sequence, previous) && events != [] && BoundariesMatch(events, block)
  }

  /** The recomputed root, as text. */
  ghost function RootText(codec: Codec, events: seq<EventRow>): string
    requires LeavesIntact(codec, events) && events != []
  {
    RootOfLeavesExists(codec, events);
    Hex(MerkleRootFromHashes(codec, LeafHashesOfRows(codec, events).value).value)
  }

  lemma RootOfLeavesExists(codec: Codec, events: seq<EventRow>)
    requires LeafHashesOfRows(codec, events).Ok? && events != []
    ensures MerkleRootFromHashes(codec, LeafHashesOfRows(codec, events).value).Ok?
    ensures |MerkleRootFromHashes(codec, LeafHashesOfRows(codec, events).value).value| == 32
  {
    LeavesAreDigests(codec, events);
    RootExists(codec, LeafHashesOfRows(codec, events).value);
  }

  lemma {:induction false} LeavesAreDigests(codec: Codec, events: seq<EventRow>)
    requires LeafHashesOfRows(codec, events).Ok?
    ensures forall k :: 0 <= k < |events| ==> |LeafHashesOfRows(codec, events).value[k]| == 32
  {
    if events == [] {
    } else {
      LeavesOfPrefix(codec, events);
      LeavesAreDigests(codec, events[..|events| - 1]);
    }
  }

  /** The document that a block with this root commits to. */
  function BlockDocument(codec: Codec, organization: Uuid, block: BlockRow, root: string): Option<Bytes> {
    codec.canonicalJson(
      BlockEnvelope(BLOCK_VERSION, organization, block.blockSequence, block.eventCount, block.firstEventId,
                    block.lastEventId, root, block.previousBlockHash))
  }

  /** The envelope accepts the block's sequence number and its predecessor's hash, and it encodes. */
  ghost predicate BlockEncodes(codec: Codec, organization: Uuid, block: BlockRow, root: string) {
    && block.blockSequence >= 1
    && (block.previousBlockHash.Some? ==> |block.previousBlockHash.value| == 64)
    && BlockDocument(codec, organization, block, root).Some?
  }

  /** Events that are in order under a row that fits them are rejected for this reason. */
  ghost predicate ContentsFailFor(
    codec: Codec, organization: Uuid, block: BlockRow, events: seq<EventRow>, reason: Reason)
    requires events != []
  {
    match reason
    case LeafHashFailed => exists k: nat :: FirstBad(codec, events, k) && WrongHash(codec, events[k])
    case MaterialNotCanonicalizable =>
      || (exists k: nat :: FirstBad(codec, events, k) && Unencodable(codec, events[k]))
      || (LeavesIntact(codec, events) && !BlockEncodes(codec, organization, block, RootText(codec, events)))
    case MerkleRootFailed =>
      && LeavesIntact(codec, events) && BlockEncodes(codec, organization, block, RootText(codec, events))
      && block.merkleRoot != RootText(codec, events)
    case BlockHashFailed =>
      && LeavesIntact(codec, events) && BlockEncodes(codec, organization, block, RootText(codec, events))
      && block.merkleRoot == RootText(codec, events)
      && block.blockHash != Hex(codec.sha256([2] + BlockDocument(codec, organization, block, block.merkleRoot).value))
    case _ => false
  }

  /** The row does not fit its events or its place in the chain. */
  ghost predicate RowFailsFor(
    events: seq<EventRow>, block: BlockRow, sequence: int, previous: Option<string>, reason: Reason)
  {
    match reason
    case EventMaterialMissing => |events| != block.eventCount
    case SequenceContinuityFailed => |events| == block.eventCount && block.blockSequence != sequence
    case UnexpectedVersions =>
      |events| == block.eventCount && block.blockSequence == sequence && !VersionsExpected(block)
    case LinkageFailed =>
      && |events| == block.eventCount && block.blockSequence == sequence && VersionsExpected(block)
      && block.previousBlockHash != previous
    case MembershipOrderFailed =>
      && |events| == block.eventCount && block.blockSequence == sequence && VersionsExpected(block)
      && block.previousBlockHash == previous && !InCanonicalOrder(events)
    case BoundariesFailed =>
      ReachesEvents(events, block, sequence, previous) && events != [] && !BoundariesMatch(events, block)
    case _ => false
  }

  /** The block is rejected for this reason: the check that gives it fails, and those before it pass. */
  ghost predicate FailsFor(
    codec: Codec, t: Tables, organization: Uuid, block: BlockRow, sequence: int, previous: Option<string>,
    reason: Reason)
  {
    var events := BlockEvents(t, organization, block.id);
    || RowFailsFor(events, block, sequence, previous, reason)
    || (&& ReachesLeaves(events, block, sequence, previous)
        && ContentsFailFor(codec, organization, block, events, reason))
  }

  function StatusOf(reason: Reason): VerificationStatus {
    if reason == EventMaterialMissing then Incomplete else Invalid
  }

  lemma OneBadLeaf(codec: Codec, events: seq<EventRow>, k: nat)
    requires FirstBad(codec, events, k)
    ensures forall m: nat :: FirstBad(codec, events, m) ==> m == k
  {
  }

  lemma IntactHasNoBadLeaf(codec: Codec, events: seq<EventRow>)
    requires LeavesIntact(codec, events)
    ensures forall m: nat :: !FirstBad(codec, events, m)
  {
    CheckLeavesMeaning(codec, events);
    LeafLoopRaisesExactly(codec, events);
  }

  /** The checks after the leaf loop. */
  lemma HashStage(codec: Codec, organization: Uuid, block: BlockRow, leaves: seq<Bytes>, root: string)
    requires block.eventCount >= 1 && |root| == 64
    requires MerkleRootFromHashes(codec, leaves).Ok? && root == Hex(MerkleRootFromHashes(codec, leaves).value)
    ensures CheckHashes(codec, organization, block, leaves)
         == if !BlockEncodes(codec, organization, block, root) then Some(NOT_CANONICALIZABLE)
            else if block.merkleRoot != root then Some(Reported(Invalid, MerkleRootFailed))
            else if block.blockHash != Hex(codec.sha256([2] + BlockDocument(codec, organization, block, root).value))
              then Some(Reported(Invalid, BlockHashFailed))
            else None
  {
  }

  /** What the leaf loop and the checks after it make of the events. */
  function ContentsFault(codec: Codec, organization: Uuid, block: BlockRow, events: seq<EventRow>): Option<Fault> {
    var checked := CheckLeaves(codec, events);
    if checked.Err? then Some(checked.error) else CheckHashes(codec, organization, block, checked.value)
  }

  /** The reason that a bad leaf gives, if it does not raise. */
  lemma LeafFailsFor(
    codec: Codec, organization: Uuid, block: BlockRow, events: seq<EventRow>, k: nat, reason: Reason)
    requires FirstBad(codec, events, k)
    ensures ContentsFailFor(codec, organization, block, events, reason) <==>
              && ObjectOf(codec, events[k].data).Ok?
              && reason == if Unencodable(codec, events[k]) then MaterialNotCanonicalizable else LeafHashFailed
  {
    LeafLoopRaisesExactly(codec, events);
    CheckLeavesMeaning(codec, events);
    OneBadLeaf(codec, events, k);
  }

  /** The reason that a wrong root or hash gives. */
  lemma RootFailsFor(codec: Codec, organization: Uuid, block: BlockRow, events: seq<EventRow>, reason: Reason)
    requires events != [] && LeavesIntact(codec, events)
    ensures var root := RootText(codec, events);
            ContentsFailFor(codec, organization, block, events, reason) <==>
              if !BlockEncodes(codec, organization, block, root) then reason == MaterialNotCanonicalizable
              else if block.merkleRoot != root then reason == MerkleRootFailed
              else
                && reason == BlockHashFailed
                && block.blockHash != Hex(codec.sha256([2] + BlockDocument(codec, organization, block, root).value))
  {
    IntactHasNoBadLeaf(codec, events);
  }

  lemma HashesRejected(codec: Codec, organization: Uuid, block: BlockRow, events: seq<EventRow>, reason: Reason)
    requires events != [] && block.eventCount == |events| && LeavesIntact(codec, events)
    ensures var fault := CheckHashes(codec, organization, block, LeafHashesOfRows(codec, events).value);
            && (fault == Some(Reported(Invalid, reason))
                <==> ContentsFailFor(codec, organization, block, events, reason))
            && (fault.Some? ==> fault.value.Reported? && fault.value.status == Invalid
                                && fault.value.reason != EventMaterialMissing)
  {
    RootOfLeavesExists(codec, events);
    HashStage(codec, organization, block, LeafHashesOfRows(codec, events).value, RootText(codec, events));
    RootFailsFor(codec, organization, block, events, reason);
  }

  lemma ContentsRejected(
    codec: Codec, organization: Uuid, block: BlockRow, events: seq<EventRow>, status: VerificationStatus,
    reason: Reason)
    requires events != [] && block.eventCount == |events|
    ensures ContentsFault(codec, organization, block, events) == Some(Reported(status, reason))
       <==> ContentsFailFor(codec, organization, block, events, reason) && status == StatusOf(reason)
  {
    LeafLoopRaisesExactly(codec, events);
    CheckLeavesMeaning(codec, events);
    if LeavesIntact(codec, events) {
      HashesRejected(codec, organization, block, events, reason);
    } else {
      var k := FindBadLeaf(codec, events, |events|);
      BadLeafFails(codec, events, k);
      LeafFailsFor(codec, organization, block, events, k, reason);
    }
  }

  lemma AtTheContents(
    codec: Codec, t: Tables, organization: Uuid, block: BlockRow, sequence: int, previous: Option<string>)
    requires ReachesLeaves(BlockEvents(t, organization, block.id), block, sequence, previous)
    ensures CheckBlock(codec, t, organization, block, sequence, previous)
         == ContentsFault(codec, organization, block, BlockEvents(t, organization, block.id))
  {
  }

  lemma AtTheRow(
    codec: Codec, t: Tables, organization: Uuid, block: BlockRow, sequence: int, previous: Option<string>,
    status: VerificationStatus, reason: Reason)
    requires !ReachesLeaves(BlockEvents(t, organization, block.id), block, sequence, previous)
    ensures CheckBlock(codec, t, organization, block, sequence, previous) == Some(Reported(status, reason))
       <==> && RowFailsFor(BlockEvents(t, organization, block.id), block, sequence, previous, reason)
            && status == StatusOf(reason)
  {
  }

  lemma RowFailsOrReaches(
    events: seq<EventRow>, block: BlockRow, sequence: int, previous: Option<string>, reason: Reason)
    requires ReachesLeaves(events, block, sequence, previous)
    ensures !RowFailsFor(events, block, sequence, previous, reason)
  {
  }

  /** A block is reported with a status and a reason exactly when it fails for that reason; only missing events make
      the status INCOMPLETE. */
  lemma RejectedExactly(
    codec: Codec, t: Tables, organization: Uuid, block: BlockRow, sequence: int, previous: Option<string>,
    status: VerificationStatus, reason: Reason)
    ensures CheckBlock(codec, t, organization, block, sequence, previous) == Some(Reported(status, reason))
       <==> && FailsFor(codec, t, organization, block, sequence, previous, reason)
            && status == StatusOf(reason)
  {
    var events := BlockEvents(t, organization, block.id);
    if ReachesLeaves(events, block, sequence, previous) {
      AtTheContents(codec, t, organization, block, sequence, previous);
      ContentsRejected(codec, organization, block, events, status, reason);
      RowFailsOrReaches(events, block, sequence, previous, reason);
    } else {
      AtTheRow(codec, t, organization, block, sequence, previous, status, reason);
    }
  }

  // ------------------------------------------------------------- the chain

  ghost predicate IntactAt(codec: Codec, t: Tables, organization: Uuid, i: nat)
    requires i < |TenantBlocks(t, organization)|
  {
    var blocks := TenantBlocks(t, organization);
    BlockIntact(codec, t, organization, blocks[i], i + 1, PreviousHash(blocks, i))
  }

  /** The first n blocks of the tenant are intact. */
  ghost predicate IntactBefore(codec: Codec, t: Tables, organization: Uuid, n: nat)
    requires n <= |TenantBlocks(t, organization)|
  {
    forall i :: 0 <= i < n ==> IntactAt(codec, t, organization, i)
  }

  function CountOf(block: BlockRow): int { block.eventCount }

  /** The events that the first n blocks count. */
  function EventsCounted(t: Tables, organization: Uuid, n: nat): int
    requires n <= |TenantBlocks(t, organization)|
  {
    SumOver(TenantBlocks(t, organization)[..n], CountOf)
  }

  ghost predicate Waits(t: Tables, organization: Uuid) {
    exists i :: 0 <= i < |t.events| && t.events[i].organization == organization && t.events[i].batchBlock.None?
  }

  /** There are blocks and a head. */
  predicate HasChain(t: Tables, organization: Uuid) {
    TenantBlocks(t, organization) != [] && organization in t.heads
  }

  /** All blocks are intact, and the counters say so. */
  ghost predicate ReachesEnd(codec: Codec, t: Tables, organization: Uuid, v: AuditVerification) {
    && HasChain(t, organization)
    && v.blocksChecked == |TenantBlocks(t, organization)|
    && IntactBefore(codec, t, organization, v.blocksChecked)
    && v.eventsChecked == EventsCounted(t, organization, v.blocksChecked)
  }

  /** The first block that is not intact fails for this reason, and the counters are those of the blocks before it. */
  ghost predicate StopsAt(codec: Codec, t: Tables, organization: Uuid, v: AuditVerification) {
    var blocks := TenantBlocks(t, organization);
    && HasChain(t, organization)
    && v.blocksChecked < |blocks|
    && IntactBefore(codec, t, organization, v.blocksChecked)
    && v.eventsChecked == EventsCounted(t, organization, v.blocksChecked)
    && FailsFor(codec, t, organization, blocks[v.blocksChecked], v.blocksChecked + 1,
                PreviousHash(blocks, v.blocksChecked), v.reason)
  }

  /** What a report says of the tables, reason by reason. */
  ghost predicate IsVerdict(codec: Codec, t: Tables, organization: Uuid, v: AuditVerification) {
    || IsVerdictOnChain(codec, t, organization, v)
    || (v.status == StatusOf(v.reason) && StopsAt(codec, t, organization, v))
  }

  /** The reports that do not speak of one block. */
  ghost predicate IsVerdictOnChain(codec: Codec, t: Tables, organization: Uuid, v: AuditVerification) {
    match v.reason
    case NoSealedMaterial =>
      v == AuditVerification(Incomplete, 0, 0, v.reason) && TenantBlocks(t, organization) == []
    case ChainHeadMissing =>
      && v == AuditVerification(Incomplete, 0, 0, v.reason)
      && TenantBlocks(t, organization) != [] && organization !in t.heads
    case HeadMismatch =>
      && v.status == Invalid && ReachesEnd(codec, t, organization, v)
      && !HeadMatches(t, organization, TenantBlocks(t, organization))
    case EventsAwaitSealing =>
      && v.status == Incomplete && ReachesEnd(codec, t, organization, v)
      && HeadMatches(t, organization, TenantBlocks(t, organization)) && Waits(t, organization)
    case AllVerified =>
      && v.status == Valid && ReachesEnd(codec, t, organization, v)
      && HeadMatches(t, organization, TenantBlocks(t, organization)) && !Waits(t, organization)
    case _ => false
  }

  lemma IntactBeforePasses(codec: Codec, t: Tables, organization: Uuid, n: nat)
    requires n <= |TenantBlocks(t, organization)|
    ensures IntactBefore(codec, t, organization, n)
       <==> AllPass(Checker(codec, t, organization), TenantBlocks(t, organization)[..n])
  {
    var blocks := TenantBlocks(t, organization);
    var check := Checker(codec, t, organization);
    forall i | 0 <= i < n ensures IntactAt(codec, t, organization, i) <==> PassesAt(check, blocks[..n], i) {
      CheckBlockMeaning(codec, t, organization, blocks[i], i + 1, PreviousHash(blocks, i));
      assert blocks[..n][i] == blocks[i] && PreviousHash(blocks[..n], i) == PreviousHash(blocks, i);
    }
  }

  predicate CountsRight(t: Tables, organization: Uuid, block: BlockRow) {
    |BlockEvents(t, organization, block.id)| == block.eventCount
  }

  lemma {:induction false} CountsAddUp(t: Tables, organization: Uuid, blocks: seq<BlockRow>)
    requires forall i :: 0 <= i < |blocks| ==> CountsRight(t, organization, blocks[i])
    ensures EventsIn(t, organization, blocks) == SumOver(blocks, CountOf)
  {
    if blocks == [] {
    } else {
      assert CountsRight(t, organization, blocks[|blocks| - 1]);
      CountsAddUp(t, organization, blocks[..|blocks| - 1]);
    }
  }

  /** Intact blocks hold as many events as they count. */
  lemma IntactBlocksCount(codec: Codec, t: Tables, organization: Uuid, n: nat)
    requires n <= |TenantBlocks(t, organization)| && IntactBefore(codec, t, organization, n)
    ensures EventsIn(t, organization, TenantBlocks(t, organization)[..n]) == EventsCounted(t, organization, n)
  {
    forall i | 0 <= i < n ensures CountsRight(t, organization, TenantBlocks(t, organization)[i]) {
      assert IntactAt(codec, t, organization, i);
    }
    CountsAddUp(t, organization, TenantBlocks(t, organization)[..n]);
  }

  lemma WaitingRows(t: Tables, organization: Uuid)
    ensures Filter(t.events, AwaitsSealing(organization)) != [] <==> Waits(t, organization)
  {
    var p := AwaitsSealing(organization);
    FilterMembers(t.events, p);
    if Waits(t, organization) {
      var i :| 0 <= i < |t.events| && t.events[i].organization == organization && t.events[i].batchBlock.None?;
      assert t.events[i] in Filter(t.events, p);
    } else {
      FilterNone(t.events, p);
    }
  }

  /** What the verifier does with the first fault, and without one. */
  lemma VerifierByFault(codec: Codec, t: Tables, organization: Uuid, v: AuditVerification)
    requires HasChain(t, organization)
    ensures var blocks := TenantBlocks(t, organization);
            var found := FirstFault(Checker(codec, t, organization), blocks);
            VerifyTables(codec, t, organization) == Ok(v) <==>
              match found
              case Some((i, fault)) =>
                && fault == Reported(v.status, v.reason) && v.blocksChecked == i
                && v.eventsChecked == EventsIn(t, organization, blocks[..i])
              case None =>
                && v.blocksChecked == |blocks| && v.eventsChecked == EventsIn(t, organization, blocks)
                && if !HeadMatches(t, organization, blocks) then v.status == Invalid && v.reason == HeadMismatch
                   else if Waits(t, organization) then v.status == Incomplete && v.reason == EventsAwaitSealing
                   else v.status == Valid && v.reason == AllVerified
  {
    WaitingRows(t, organization);
  }

  lemma FaultIsVerdict(codec: Codec, t: Tables, organization: Uuid, i: nat, fault: Fault, v: AuditVerification)
    requires HasChain(t, organization)
    requires FirstFault(Checker(codec, t, organization), TenantBlocks(t, organization)) == Some((i, fault))
    ensures IsVerdict(codec, t, organization, v) <==>
              && fault == Reported(v.status, v.reason) && v.blocksChecked == i
              && v.eventsChecked == EventsIn(t, organization, TenantBlocks(t, organization)[..i])
  {
    FirstFaultMeaning(Checker(codec, t, organization), TenantBlocks(t, organization));
    IntactBeforePasses(codec, t, organization, i);
    NotIntactAt(codec, t, organization, i);
    NotOnChain(codec, t, organization, v);
    FaultStops(codec, t, organization, i, fault, v);
  }

  lemma NotOnChain(codec: Codec, t: Tables, organization: Uuid, v: AuditVerification)
    requires HasChain(t, organization)
    requires !IntactBefore(codec, t, organization, |TenantBlocks(t, organization)|)
    ensures !IsVerdictOnChain(codec, t, organization, v)
  {
  }

  lemma FaultStops(codec: Codec, t: Tables, organization: Uuid, i: nat, fault: Fault, v: AuditVerification)
    requires HasChain(t, organization)
    requires i < |TenantBlocks(t, organization)| && IntactBefore(codec, t, organization, i)
    requires var blocks := TenantBlocks(t, organization);
             CheckBlock(codec, t, organization, blocks[i], i + 1, PreviousHash(blocks, i)) == Some(fault)
    ensures v.status == StatusOf(v.reason) && StopsAt(codec, t, organization, v) <==>
              && fault == Reported(v.status, v.reason) && v.blocksChecked == i
              && v.eventsChecked == EventsIn(t, organization, TenantBlocks(t, organization)[..i])
  {
    var blocks := TenantBlocks(t, organization);
    IntactBlocksCount(codec, t, organization, i);
    NotIntactAt(codec, t, organization, i);
    RejectedExactly(codec, t, organization, blocks[i], i + 1, PreviousHash(blocks, i), v.status, v.reason);
    if StopsAt(codec, t, organization, v) {
      StopIsRejected(codec, t, organization, v);
    }
  }

  lemma NotIntactAt(codec: Codec, t: Tables, organization: Uuid, i: nat)
    requires i < |TenantBlocks(t, organization)|
    requires var blocks := TenantBlocks(t, organization);
             CheckBlock(codec, t, organization, blocks[i], i + 1, PreviousHash(blocks, i)).Some?
    ensures !IntactAt(codec, t, organization, i)
    ensures forall n: nat :: i < n <= |TenantBlocks(t, organization)| ==> !IntactBefore(codec, t, organization, n)
  {
    var blocks := TenantBlocks(t, organization);
    CheckBlockMeaning(codec, t, organization, blocks[i], i + 1, PreviousHash(blocks, i));
  }

  lemma StopIsRejected(codec: Codec, t: Tables, organization: Uuid, v: AuditVerification)
    requires StopsAt(codec, t, organization, v)
    ensures !IntactAt(codec, t, organization, v.blocksChecked)
    ensures forall n: nat :: v.blocksChecked < n <= |TenantBlocks(t, organization)| ==>
              !IntactBefore(codec, t, organization, n)
  {
    var blocks := TenantBlocks(t, organization);
    var n := v.blocksChecked;
    RejectedExactly(codec, t, organization, blocks[n], n + 1, PreviousHash(blocks, n), StatusOf(v.reason), v.reason);
    NotIntactAt(codec, t, organization, n);
  }

  lemma EndIsVerdict(codec: Codec, t: Tables, organization: Uuid, v: AuditVerification)
    requires HasChain(t, organization)
    requires FirstFault(Checker(codec, t, organization), TenantBlocks(t, organization)).None?
    ensures var blocks := TenantBlocks(t, organization);
            IsVerdict(codec, t, organization, v) <==>
              && v.blocksChecked == |blocks| && v.eventsChecked == EventsIn(t, organization, blocks)
              && if !HeadMatches(t, organization, blocks) then v.status == Invalid && v.reason == HeadMismatch
                 else if Waits(t, organization) then v.status == Incomplete && v.reason == EventsAwaitSealing
                 else v.status == Valid && v.reason == AllVerified
  {
    var blocks := TenantBlocks(t, organization);
    NoFaultMeaning(Checker(codec, t, organization), blocks);
    assert blocks[..|blocks|] == blocks;
    IntactBeforePasses(codec, t, organization, |blocks|);
    IntactBlocksCount(codec, t, organization, |blocks|);
    NeverStops(codec, t, organization, v);
  }

  lemma NeverStops(codec: Codec, t: Tables, organization: Uuid, v: AuditVerification)
    requires IntactBefore(codec, t, organization, |TenantBlocks(t, organization)|)
    ensures !StopsAt(codec, t, organization, v)
  {
    if StopsAt(codec, t, organization, v) {
      StopIsRejected(codec, t, organization, v);
    }
  }

  /** The verifier reports exactly what is so: status, reason and both counters. */
  lemma VerdictExactly(codec: Codec, t: Tables, organization: Uuid, v: AuditVerification)
    ensures VerifyTables(codec, t, organization) == Ok(v) <==> IsVerdict(codec, t, organization, v)
  {
    if HasChain(t, organization) {
      VerifierByFault(codec, t, organization, v);
      var found := FirstFault(Checker(codec, t, organization), TenantBlocks(t, organization));
      if found.Some? {
        FaultIsVerdict(codec, t, organization, found.value.0, found.value.1, v);
      } else {
        EndIsVerdict(codec, t, organization, v);
      }
    }
  }

  // ------------------------------------------------------- status by status

  /** The first block that is not intact. */
  ghost predicate FirstBroken(codec: Codec, t: Tables, organization: Uuid, n: nat) {
    && n < |TenantBlocks(t, organization)|
    && IntactBefore(codec, t, organization, n) && !IntactAt(codec, t, organization, n)
  }

  ghost predicate BrokenRaises(codec: Codec, t: Tables, organization: Uuid, n: nat)
    requires n < |TenantBlocks(t, organization)|
  {
    var blocks := TenantBlocks(t, organization);
    BlockRaises(codec, t, organization, blocks[n], n + 1, PreviousHash(blocks, n))
  }

  predicate Answers(r: Result<AuditVerification, VerifierException>, status: VerificationStatus) {
    r.Ok? && r.value.status == status
  }

  /** INCOMPLETE: no block, no head, the first block that is not intact holds another number of events than it counts,
      or everything is intact, the head matches, and an event waits. */
  ghost predicate IsIncomplete(codec: Codec, t: Tables, organization: Uuid) {
    var blocks := TenantBlocks(t, organization);
    || blocks == []
    || organization !in t.heads
    || (exists n: nat :: FirstBroken(codec, t, organization, n) && !CountsRight(t, organization, blocks[n]))
    || (&& IntactBefore(codec, t, organization, |blocks|)
        && HeadMatches(t, organization, blocks) && Waits(t, organization))
  }

  /** INVALID: the first block that is not intact holds as many events as it counts and does not raise, or everything
      is intact and the head does not match. */
  ghost predicate IsInvalid(codec: Codec, t: Tables, organization: Uuid) {
    var blocks := TenantBlocks(t, organization);
    && HasChain(t, organization)
    && (|| (exists n: nat ::
              && FirstBroken(codec, t, organization, n) && CountsRight(t, organization, blocks[n])
              && !BrokenRaises(codec, t, organization, n))
        || (IntactBefore(codec, t, organization, |blocks|) && !HeadMatches(t, organization, blocks)))
  }

  lemma IncompleteExactly(codec: Codec, t: Tables, organization: Uuid)
    ensures Answers(VerifyTables(codec, t, organization), Incomplete) <==> IsIncomplete(codec, t, organization)
  {
    var r := VerifyTables(codec, t, organization);
    if Answers(r, Incomplete) {
      VerdictExactly(codec, t, organization, r.value);
      IncompleteVerdict(codec, t, organization, r.value);
    }
    if IsIncomplete(codec, t, organization) {
      var v := IncompleteReport(codec, t, organization);
      VerdictExactly(codec, t, organization, v);
    }
  }

  lemma IncompleteVerdict(codec: Codec, t: Tables, organization: Uuid, v: AuditVerification)
    requires IsVerdict(codec, t, organization, v) && v.status == Incomplete
    ensures IsIncomplete(codec, t, organization)
  {
    if StopsAt(codec, t, organization, v) {
      StopIsRejected(codec, t, organization, v);
      assert FirstBroken(codec, t, organization, v.blocksChecked);
    }
  }

  lemma IncompleteReport(codec: Codec, t: Tables, organization: Uuid) returns (v: AuditVerification)
    requires IsIncomplete(codec, t, organization)
    ensures IsVerdict(codec, t, organization, v) && v.status == Incomplete
  {
    var blocks := TenantBlocks(t, organization);
    if blocks == [] {
      v := AuditVerification(Incomplete, 0, 0, NoSealedMaterial);
    } else if organization !in t.heads {
      v := AuditVerification(Incomplete, 0, 0, ChainHeadMissing);
    } else if n: nat :| FirstBroken(codec, t, organization, n) && !CountsRight(t, organization, blocks[n]) {
      v := StopReport(codec, t, organization, n, EventMaterialMissing);
    } else {
      IntactBlocksCount(codec, t, organization, |blocks|);
      v := AuditVerification(Incomplete, |blocks|, EventsIn(t, organization, blocks[..|blocks|]), EventsAwaitSealing);
      assert IsVerdictOnChain(codec, t, organization, v);
    }
  }

  /** The report on a block that fails. */
  lemma StopReport(codec: Codec, t: Tables, organization: Uuid, n: nat, reason: Reason) returns (v: AuditVerification)
    requires HasChain(t, organization)
    requires n < |TenantBlocks(t, organization)| && IntactBefore(codec, t, organization, n)
    requires var blocks := TenantBlocks(t, organization);
             FailsFor(codec, t, organization, blocks[n], n + 1, PreviousHash(blocks, n), reason)
    ensures v.status == StatusOf(reason) && v.reason == reason && StopsAt(codec, t, organization, v)
  {
    IntactBlocksCount(codec, t, organization, n);
    v := AuditVerification(
      StatusOf(reason), n, EventsIn(t, organization, TenantBlocks(t, organization)[..n]), reason);
  }

  lemma InvalidExactly(codec: Codec, t: Tables, organization: Uuid)
    ensures Answers(VerifyTables(codec, t, organization), Invalid) <==> IsInvalid(codec, t, organization)
  {
    var r := VerifyTables(codec, t, organization);
    if Answers(r, Invalid) {
      VerdictExactly(codec, t, organization, r.value);
      InvalidVerdict(codec, t, organization, r.value);
    }
    if IsInvalid(codec, t, organization) {
      var v := InvalidReport(codec, t, organization);
      VerdictExactly(codec, t, organization, v);
    }
  }

  lemma InvalidVerdict(codec: Codec, t: Tables, organization: Uuid, v: AuditVerification)
    requires IsVerdict(codec, t, organization, v) && v.status == Invalid
    ensures IsInvalid(codec, t, organization)
  {
    if v.reason != HeadMismatch {
      var blocks := TenantBlocks(t, organization);
      var n := v.blocksChecked;
      StopIsRejected(codec, t, organization, v);
      RejectedExactly(codec, t, organization, blocks[n], n + 1, PreviousHash(blocks, n), v.status, v.reason);
      BlockRaisesExactly(codec, t, organization, blocks[n], n + 1, PreviousHash(blocks, n));
      assert FirstBroken(codec, t, organization, n) && CountsRight(t, organization, blocks[n]);
    }
  }

  lemma InvalidReport(codec: Codec, t: Tables, organization: Uuid) returns (v: AuditVerification)
    requires IsInvalid(codec, t, organization)
    ensures IsVerdict(codec, t, organization, v) && v.status == Invalid
  {
    var blocks := TenantBlocks(t, organization);
    if IntactBefore(codec, t, organization, |blocks|) {
      IntactBlocksCount(codec, t, organization, |blocks|);
      v := AuditVerification(Invalid, |blocks|, EventsIn(t, organization, blocks[..|blocks|]), HeadMismatch);
      assert IsVerdictOnChain(codec, t, organization, v);
    } else {
      var n: nat :| && FirstBroken(codec, t, organization, n) && CountsRight(t, organization, blocks[n])
                    && !BrokenRaises(codec, t, organization, n);
      var reason := BrokenFailsFor(codec, t, organization, n);
      v := StopReport(codec, t, organization, n, reason);
    }
  }

  lemma BrokenFailsFor(codec: Codec, t: Tables, organization: Uuid, n: nat) returns (reason: Reason)
    requires FirstBroken(codec, t, organization, n)
    requires CountsRight(t, organization, TenantBlocks(t, organization)[n])
    requires !BrokenRaises(codec, t, organization, n)
    ensures var blocks := TenantBlocks(t, organization);
            FailsFor(codec, t, organization, blocks[n], n + 1, PreviousHash(blocks, n), reason)
    ensures reason != EventMaterialMissing
  {
    var blocks := TenantBlocks(t, organization);
    var block, previous := blocks[n], PreviousHash(blocks, n);
    CheckBlockMeaning(codec, t, organization, block, n + 1, previous);
    BlockRaisesExactly(codec, t, organization, block, n + 1, previous);
    var fault := CheckBlock(codec, t, organization, block, n + 1, previous).value;
    reason := fault.reason;
    RejectedExactly(codec, t, organization, block, n + 1, previous, fault.status, reason);
  }
}
