/** The verifier of apps/audit/verification.py, on one state of the tables. */
module Verification {
  import opened Prelude
  import opened Hashing
  import opened Merkle
  import opened AuditTables
  import opened Sealing

  datatype VerificationStatus = Valid | Invalid | Incomplete

  /** The reasons that a report gives, with the texts they stand for. */
  datatype Reason =
    | NoSealedMaterial           // No sealed audit chain material exists.
    | ChainHeadMissing           // The tenant chain head is missing.
    | EventMaterialMissing       // A sealed block is missing committed event material.
    | SequenceContinuityFailed   // Block sequence continuity failed.
    | UnexpectedVersions         // A block uses unexpected cryptographic versions.
    | LinkageFailed              // Previous-block linkage failed.
    | MembershipOrderFailed      // Event membership order failed.
    | BoundariesFailed           // Block event boundaries failed.
    | LeafHashFailed             // A committed event leaf hash failed.
    | MaterialNotCanonicalizable // Committed audit material is not canonicalizable.
    | MerkleRootFailed           // Merkle root verification failed.
    | BlockHashFailed            // Block hash verification failed.
    | HeadMismatch               // The chain head does not match the final block.
    | EventsAwaitSealing         // The tenant has audit events awaiting sealing.
    | AllVerified                // All committed audit chain material verified.

  datatype AuditVerification = AuditVerification(
    status: VerificationStatus, blocksChecked: nat, eventsChecked: nat, reason: Reason)

  /** Exceptions that the verifier does not turn into a report. */
  datatype VerifierException = IndexOutOfRange | SealingErrorEscaped

  datatype Fault =
    | Reported(status: VerificationStatus, reason: Reason)
    | Raised(exception: VerifierException)

  const NOT_CANONICALIZABLE := Reported(Invalid, MaterialNotCanonicalizable)

  // ------------------------------------------------------------ one block

  /** The leaf loop: recompute every leaf and compare it with the stored one. */
  function CheckLeaves(codec: Codec, events: seq<EventRow>): (r: Result<seq<Bytes>, Fault>)
    ensures r.Ok? ==> |r.value| == |events|
  {
    if events == [] then Ok([])
    else
      match CheckLeaves(codec, events[..|events| - 1])
      case Err(fault) => Err(fault)
      case Ok(leaves) =>
        var event := events[|events| - 1];
        match EventEnvelopeOf(codec, event)
        case Err(_) => Err(Raised(SealingErrorEscaped))
        case Ok(envelope) =>
          match HashLeaf(codec, envelope)
          case Err(_) => Err(NOT_CANONICALIZABLE)
          case Ok(leaf) =>
            if event.nodeHash != Some(Hex(leaf)) then
              Err(Reported(Invalid, LeafHashFailed))
            else Ok(leaves + [leaf])
  }

  predicate InCanonicalOrder(events: seq<EventRow>) {
    && (forall k :: 0 <= k < |events| ==> events[k].batchPosition == Some(k))
    && EventIds(events) == EventIds(Sort(events, EventLe))
  }

  function CheckHashes(codec: Codec, organization: Uuid, block: BlockRow, leaves: seq<Bytes>): Option<Fault> {
    match MerkleRootFromHashes(codec, leaves)
    case Err(_) => Some(NOT_CANONICALIZABLE)
    case Ok(root) =>
      match BuildBlockEnvelope(organization, block.blockSequence, block.eventCount, block.firstEventId,
                               block.lastEventId, Hex(root), block.previousBlockHash)
      case Err(_) => Some(NOT_CANONICALIZABLE)
      case Ok(envelope) =>
        match HashBlock(codec, envelope)
        case Err(_) => Some(NOT_CANONICALIZABLE)
        case Ok(hash) =>
          if block.merkleRoot != Hex(root) then Some(Reported(Invalid, MerkleRootFailed))
          else if block.blockHash != Hex(hash) then Some(Reported(Invalid, BlockHashFailed))
          else None
  }

  function CheckBlock(
    codec: Codec, t: Tables, organization: Uuid, block: BlockRow, sequence: int, previous: Option<string>
  ): Option<Fault> {
    var events := BlockEvents(t, organization, block.id);
    if |events| != block.eventCount then
      Some(Reported(Incomplete, EventMaterialMissing))
    else if block.blockSequence != sequence then Some(Reported(Invalid, SequenceContinuityFailed))
    else if block.algorithmVersion != ALGORITHM_VERSION
         || block.canonicalizationVersion != CANONICALIZATION_VERSION then
      Some(Reported(Invalid, UnexpectedVersions))
    else if block.previousBlockHash != previous then Some(Reported(Invalid, LinkageFailed))
    else if !InCanonicalOrder(events) then Some(Reported(Invalid, MembershipOrderFailed))
    else if events == [] then Some(Raised(IndexOutOfRange))
    else if block.firstEventId != events[0].id || block.lastEventId != events[|events| - 1].id then
      Some(Reported(Invalid, BoundariesFailed))
    else
      match CheckLeaves(codec, events)
      case Err(fault) => Some(fault)
      case Ok(leaves) => CheckHashes(codec, organization, block, leaves)
  }

  // ------------------------------------------------------------ the chain

  function PreviousHash(blocks: seq<BlockRow>, i: nat): Option<string>
    requires i <= |blocks|
  {
    if i == 0 then None else Some(blocks[i - 1].blockHash)
  }

  function EventsIn(t: Tables, organization: Uuid, blocks: seq<BlockRow>): nat {
    if blocks == [] then 0 else
      EventsIn(t, organization, blocks[..|blocks| - 1])
      + |BlockEvents(t, organization, blocks[|blocks| - 1].id)|
  }

  /** What the block loop does with one row: its expected sequence number and predecessor hash are given. */
  type BlockCheck = (BlockRow, int, Option<string>) -> Option<Fault>

  function Checker(codec: Codec, t: Tables, organization: Uuid): BlockCheck {
    (block, sequence, previous) => CheckBlock(codec, t, organization, block, sequence, previous)
  }

  /** The first block that fails, and how. */
  function FirstFault(check: BlockCheck, blocks: seq<BlockRow>): (r: Option<(nat, Fault)>)
    ensures r.Some? ==> r.value.0 < |blocks|
  {
    if blocks == [] then None
    else
      var i := |blocks| - 1;
      match FirstFault(check, blocks[..i])
      case Some(found) => Some(found)
      case None =>
        match check(blocks[i], i + 1, PreviousHash(blocks, i))
        case Some(fault) => Some((i, fault))
        case None => None
  }

  function Report(fault: Fault, blocksChecked: nat, eventsChecked: nat): Result<AuditVerification, VerifierException> {
    match fault
    case Reported(status, reason) => Ok(AuditVerification(status, blocksChecked, eventsChecked, reason))
    case Raised(exception) => Err(exception)
  }

  function VerifyTables(codec: Codec, t: Tables, organization: Uuid): Result<AuditVerification, VerifierException> {
    var blocks := TenantBlocks(t, organization);
    if blocks == [] then
      Ok(AuditVerification(Incomplete, 0, 0, NoSealedMaterial))
    else if organization !in t.heads then
      Ok(AuditVerification(Incomplete, 0, 0, ChainHeadMissing))
    else
      match FirstFault(Checker(codec, t, organization), blocks)
      case Some((i, fault)) => Report(fault, i, EventsIn(t, organization, blocks[..i]))
      case None =>
        var head, last := t.heads[organization], blocks[|blocks| - 1];
        var checked := EventsIn(t, organization, blocks);
        if head.lastBlockSequence != last.blockSequence || head.lastBlockHash != Some(last.blockHash) then
          Ok(AuditVerification(Invalid, |blocks|, checked, HeadMismatch))
        else if Filter(t.events, AwaitsSealing(organization)) != [] then
          Ok(AuditVerification(Incomplete, |blocks|, checked, EventsAwaitSealing))
        else
          Ok(AuditVerification(Valid, |blocks|, checked, AllVerified))
  }

  // ------------------------------------------------------------- the loops

  lemma {:induction false} FirstFaultIsFirst(check: BlockCheck, blocks: seq<BlockRow>, k: nat)
    requires k <= |blocks|
    requires FirstFault(check, blocks[..k]).Some?
    ensures FirstFault(check, blocks) == FirstFault(check, blocks[..k])
  {
    if k == |blocks| {
      assert blocks[..k] == blocks;
    } else {
      assert blocks[..|blocks| - 1][..k] == blocks[..k];
      FirstFaultIsFirst(check, blocks[..|blocks| - 1], k);
    }
  }

  lemma {:induction false} CheckLeavesStopsAtFault(codec: Codec, events: seq<EventRow>, k: nat)
    requires k <= |events|
    requires CheckLeaves(codec, events[..k]).Err?
    ensures CheckLeaves(codec, events) == CheckLeaves(codec, events[..k])
  {
    if k == |events| {
      assert events[..k] == events;
    } else {
      assert events[..|events| - 1][..k] == events[..k];
      CheckLeavesStopsAtFault(codec, events[..|events| - 1], k);
    }
  }

  method RecomputeLeaves(codec: Codec, events: seq<EventRow>) returns (r: Result<seq<Bytes>, Fault>)
    ensures r == CheckLeaves(codec, events)
  {
    var leaves := [];
    var k := 0;
    while k < |events|
      invariant k <= |events|
      invariant CheckLeaves(codec, events[..k]) == Ok(leaves)
    {
      assert events[..k + 1][..k] == events[..k];
      var envelope := EventEnvelopeOf(codec, events[k]);
      if envelope.Err? {
        CheckLeavesStopsAtFault(codec, events, k + 1);
        return Err(Raised(SealingErrorEscaped));
      }
      var leaf := HashLeaf(codec, envelope.value);
      if leaf.Err? {
        CheckLeavesStopsAtFault(codec, events, k + 1);
        return Err(NOT_CANONICALIZABLE);
      }
      if events[k].nodeHash != Some(Hex(leaf.value)) {
        CheckLeavesStopsAtFault(codec, events, k + 1);
        return Err(Reported(Invalid, LeafHashFailed));
      }
      leaves := leaves + [leaf.value];
      k := k + 1;
    }
    assert events[..k] == events;
    return Ok(leaves);
  }

  /** The body of the block loop up to its counters. */
  method InspectBlock(
    codec: Codec, events: seq<EventRow>, organization: Uuid, block: BlockRow, sequence: int, previous: Option<string>,
    ghost t: Tables
  ) returns (r: Option<Fault>)
    requires events == BlockEvents(t, organization, block.id)
    ensures r == CheckBlock(codec, t, organization, block, sequence, previous)
  {
    if |events| != block.eventCount {
      return Some(Reported(Incomplete, EventMaterialMissing));
    }
    if block.blockSequence != sequence {
      return Some(Reported(Invalid, SequenceContinuityFailed));
    }
    if block.algorithmVersion != ALGORITHM_VERSION || block.canonicalizationVersion != CANONICALIZATION_VERSION {
      return Some(Reported(Invalid, UnexpectedVersions));
    }
    if block.previousBlockHash != previous {
      return Some(Reported(Invalid, LinkageFailed));
    }
    if !InCanonicalOrder(events) {
      return Some(Reported(Invalid, MembershipOrderFailed));
    }
    if events == [] {
      return Some(Raised(IndexOutOfRange));
    }
    if block.firstEventId != events[0].id || block.lastEventId != events[|events| - 1].id {
      return Some(Reported(Invalid, BoundariesFailed));
    }
    var leaves := RecomputeLeaves(codec, events);
    if leaves.Err? {
      return Some(leaves.error);
    }
    return CheckHashes(codec, organization, block, leaves.value);
  }

  /** The block loop: the report or exception of the first block that fails, or the counters after all of them. */
  method ReplayBlocks(store: AuditStore, organization: Uuid, blocks: seq<BlockRow>)
    returns (failed: Option<(nat, Fault)>, blocksChecked: nat, eventsChecked: nat)
    ensures failed == FirstFault(Checker(store.codec, store.Contents(), organization), blocks)
    ensures blocksChecked == if failed.Some? then failed.value.0 else |blocks|
    ensures blocksChecked <= |blocks|
    ensures eventsChecked == EventsIn(store.Contents(), organization, blocks[..blocksChecked])
  {
    ghost var t := store.Contents();
    ghost var check := Checker(store.codec, t, organization);
    blocksChecked, eventsChecked := 0, 0;
    var previousBlockHash: Option<string> := None;
    while blocksChecked < |blocks|
      invariant blocksChecked <= |blocks|
      invariant previousBlockHash == PreviousHash(blocks, blocksChecked)
      invariant eventsChecked == EventsIn(t, organization, blocks[..blocksChecked])
      invariant FirstFault(check, blocks[..blocksChecked]).None?
    {
      var i := blocksChecked;
      assert blocks[..i + 1][..i] == blocks[..i];
      var block := blocks[i];
      var events := Sort(Filter(store.events, InBlock(organization, block.id)), PositionLe);
      var fault := InspectBlock(store.codec, events, organization, block, i + 1, previousBlockHash, t);
      FirstFaultStep(check, blocks, i, fault);
      if fault.Some? {
        return Some((i, fault.value)), blocksChecked, eventsChecked;
      }
      blocksChecked := blocksChecked + 1;
      eventsChecked := eventsChecked + |events|;
      previousBlockHash := Some(block.blockHash);
    }
    assert blocks[..blocksChecked] == blocks;
    return None, blocksChecked, eventsChecked;
  }

  lemma FirstFaultStep(check: BlockCheck, blocks: seq<BlockRow>, i: nat, fault: Option<Fault>)
    requires i < |blocks| && FirstFault(check, blocks[..i]).None?
    requires fault == check(blocks[i], i + 1, PreviousHash(blocks, i))
    ensures fault.None? ==> FirstFault(check, blocks[..i + 1]).None?
    ensures fault.Some? ==> FirstFault(check, blocks) == Some((i, fault.value))
  {
    assert blocks[..i + 1][..i] == blocks[..i];
    assert PreviousHash(blocks[..i + 1], i) == PreviousHash(blocks, i);
    if fault.Some? {
      FirstFaultIsFirst(check, blocks, i + 1);
    }
  }

  method VerifyTenantAuditHistory(store: AuditStore, organization: Uuid)
    returns (r: Result<AuditVerification, VerifierException>)
    ensures r == VerifyTables(store.codec, store.Contents(), organization)
  {
    var blocks := Sort(Filter(store.blocks, OfTenant(organization)), SequenceLe);
    if blocks == [] {
      return Ok(AuditVerification(Incomplete, 0, 0, NoSealedMaterial));
    }
    if organization !in store.heads {
      return Ok(AuditVerification(Incomplete, 0, 0, ChainHeadMissing));
    }
    var head := store.heads[organization];

    var failed, blocksChecked, eventsChecked := ReplayBlocks(store, organization, blocks);
    if failed.Some? {
      return Report(failed.value.1, blocksChecked, eventsChecked);
    }
    assert blocks[..blocksChecked] == blocks;

    var last := blocks[|blocks| - 1];
    if head.lastBlockSequence != last.blockSequence || head.lastBlockHash != Some(last.blockHash) {
      return Ok(AuditVerification(Invalid, blocksChecked, eventsChecked, HeadMismatch));
    }
    if Filter(store.events, AwaitsSealing(organization)) != [] {
      return Ok(AuditVerification(Incomplete, blocksChecked, eventsChecked, EventsAwaitSealing));
    }
    return Ok(AuditVerification(Valid, blocksChecked, eventsChecked, AllVerified));
  }

  // ------------------------------------------------- what the checks mean

  /** A block row and its events as an untouched sealing run leaves them. */
  ghost predicate BlockIntact(
    codec: Codec, t: Tables, organization: Uuid, block: BlockRow, sequence: int, previous: Option<string>)
  {
    var events := BlockEvents(t, organization, block.id);
    && |events| == block.eventCount
    && events != []
    && block.blockSequence == sequence
    && block.algorithmVersion == ALGORITHM_VERSION
    && block.canonicalizationVersion == CANONICALIZATION_VERSION
    && block.previousBlockHash == previous
    && InCanonicalOrder(events)
    && block.firstEventId == events[0].id
    && block.lastEventId == events[|events| - 1].id
    && LeavesIntact(codec, events)
    && RootAndHashIntact(codec, organization, block, LeafHashesOfRows(codec, events).value)
  }

  ghost predicate LeavesIntact(codec: Codec, events: seq<EventRow>) {
    && LeafHashesOfRows(codec, events).Ok?
    && forall k :: 0 <= k < |events| ==> events[k].nodeHash == Some(Hex(LeafHashesOfRows(codec, events).value[k]))
  }

  ghost predicate RootAndHashIntact(codec: Codec, organization: Uuid, block: BlockRow, leaves: seq<Bytes>) {
    && MerkleRootFromHashes(codec, leaves).Ok?
    && block.merkleRoot == Hex(MerkleRootFromHashes(codec, leaves).value)
    && var envelope := BuildBlockEnvelope(organization, block.blockSequence, block.eventCount, block.firstEventId,
                                          block.lastEventId, block.merkleRoot, block.previousBlockHash);
       && envelope.Ok?
       && HashBlock(codec, envelope.value).Ok?
       && block.blockHash == Hex(HashBlock(codec, envelope.value).value)
  }

  lemma {:induction false} CheckLeavesMeaning(codec: Codec, events: seq<EventRow>)
    ensures CheckLeaves(codec, events).Ok? <==> LeavesIntact(codec, events)
    ensures CheckLeaves(codec, events).Ok? ==>
              LeafHashesOfRows(codec, events) == Ok(CheckLeaves(codec, events).value)
  {
    if events == [] {
    } else {
      var n := |events| - 1;
      CheckLeavesMeaning(codec, events[..n]);
      LeavesIntactSplits(codec, events);
      LeavesOfPrefix(codec, events);
    }
  }

  lemma LeavesIntactSplits(codec: Codec, events: seq<EventRow>)
    requires events != []
    ensures var n := |events| - 1;
            LeavesIntact(codec, events) <==>
              && LeavesIntact(codec, events[..n])
              && LeafHashesOfRows(codec, events).Ok?
              && events[n].nodeHash == Some(Hex(LeafHashesOfRows(codec, events).value[n]))
  {
    var n := |events| - 1;
    LeavesOfPrefix(codec, events);
    if LeafHashesOfRows(codec, events).Ok? {
      var leaves := LeafHashesOfRows(codec, events).value;
      assert forall k :: 0 <= k < n ==>
          events[..n][k] == events[k] && LeafHashesOfRows(codec, events[..n]).value[k] == leaves[k];
    }
  }

  /** Leaf hashing works row by row. */
  lemma LeavesOfPrefix(codec: Codec, rows: seq<EventRow>)
    requires rows != []
    ensures var n := |rows| - 1;
            LeafHashesOfRows(codec, rows).Ok? <==>
              && LeafHashesOfRows(codec, rows[..n]).Ok?
              && EventEnvelopeOf(codec, rows[n]).Ok?
              && HashLeaf(codec, EventEnvelopeOf(codec, rows[n]).value).Ok?
    ensures var n := |rows| - 1;
            LeafHashesOfRows(codec, rows).Ok? ==>
              LeafHashesOfRows(codec, rows).value
              == LeafHashesOfRows(codec, rows[..n]).value
                 + [HashLeaf(codec, EventEnvelopeOf(codec, rows[n]).value).value]
  {
    var n := |rows| - 1;
    if Envelopes(codec, rows).Ok? {
      var envelopes := Envelopes(codec, rows).value;
      assert envelopes[..n] == Envelopes(codec, rows[..n]).value;
    }
  }

  lemma CheckHashesMeaning(codec: Codec, organization: Uuid, block: BlockRow, leaves: seq<Bytes>)
    ensures CheckHashes(codec, organization, block, leaves).None?
       <==> RootAndHashIntact(codec, organization, block, leaves)
  {
  }

  lemma CheckBlockSplits(
    codec: Codec, t: Tables, organization: Uuid, block: BlockRow, sequence: int, previous: Option<string>)
    ensures var events := BlockEvents(t, organization, block.id);
            CheckBlock(codec, t, organization, block, sequence, previous).None? <==>
              && |events| == block.eventCount
              && events != []
              && block.blockSequence == sequence
              && block.algorithmVersion == ALGORITHM_VERSION
              && block.canonicalizationVersion == CANONICALIZATION_VERSION
              && block.previousBlockHash == previous
              && InCanonicalOrder(events)
              && block.firstEventId == events[0].id
              && block.lastEventId == events[|events| - 1].id
              && CheckLeaves(codec, events).Ok?
              && CheckHashes(codec, organization, block, CheckLeaves(codec, events).value).None?
  {
  }

  /** A block passes every check exactly when it is intact. */
  lemma CheckBlockMeaning(
    codec: Codec, t: Tables, organization: Uuid, block: BlockRow, sequence: int, previous: Option<string>)
    ensures CheckBlock(codec, t, organization, block, sequence, previous).None?
       <==> BlockIntact(codec, t, organization, block, sequence, previous)
  {
    var events := BlockEvents(t, organization, block.id);
    CheckBlockSplits(codec, t, organization, block, sequence, previous);
    CheckLeavesMeaning(codec, events);
    if CheckLeaves(codec, events).Ok? {
      CheckHashesMeaning(codec, organization, block, CheckLeaves(codec, events).value);
    }
  }

  /** Every row passes the checks at its own place in the chain. */
  ghost predicate AllPass(check: BlockCheck, blocks: seq<BlockRow>) {
    forall i :: 0 <= i < |blocks| ==> PassesAt(check, blocks, i)
  }

  ghost predicate PassesAt(check: BlockCheck, blocks: seq<BlockRow>, i: nat)
    requires i < |blocks|
  {
    check(blocks[i], i + 1, PreviousHash(blocks, i)).None?
  }

  lemma AllPassOfPrefix(check: BlockCheck, blocks: seq<BlockRow>, n: nat)
    requires |blocks| == n + 1
    ensures AllPass(check, blocks) <==> AllPass(check, blocks[..n]) && PassesAt(check, blocks, n)
  {
    var init := blocks[..n];
    forall i | 0 <= i < n ensures PassesAt(check, init, i) <==> PassesAt(check, blocks, i) {
      assert init[i] == blocks[i] && PreviousHash(init, i) == PreviousHash(blocks, i);
    }
    if AllPass(check, init) && PassesAt(check, blocks, n) {
      forall i | 0 <= i < |blocks| ensures PassesAt(check, blocks, i) {
        if i < n {
          assert PassesAt(check, init, i);
        }
      }
    }
    if AllPass(check, blocks) {
      forall i | 0 <= i < n ensures PassesAt(check, init, i) {
        assert PassesAt(check, blocks, i);
      }
    }
  }

  lemma {:induction false} NoFaultMeaning(check: BlockCheck, blocks: seq<BlockRow>)
    ensures FirstFault(check, blocks).None? <==> AllPass(check, blocks)
  {
    if blocks == [] {
    } else {
      var n := |blocks| - 1;
      NoFaultMeaning(check, blocks[..n]);
      AllPassOfPrefix(check, blocks, n);
      assert PassesAt(check, blocks, n) <==> check(blocks[n], n + 1, PreviousHash(blocks, n)).None?;
    }
  }

  ghost predicate ChainIntact(codec: Codec, t: Tables, organization: Uuid, blocks: seq<BlockRow>) {
    AllPass(Checker(codec, t, organization), blocks)
  }

  lemma ChainIntactAt(codec: Codec, t: Tables, organization: Uuid, blocks: seq<BlockRow>, i: nat)
    requires ChainIntact(codec, t, organization, blocks) && i < |blocks|
    ensures BlockIntact(codec, t, organization, blocks[i], i + 1, PreviousHash(blocks, i))
  {
    assert PassesAt(Checker(codec, t, organization), blocks, i);
    CheckBlockMeaning(codec, t, organization, blocks[i], i + 1, PreviousHash(blocks, i));
  }

  ghost predicate HeadMatches(t: Tables, organization: Uuid, blocks: seq<BlockRow>)
    requires blocks != []
  {
    && organization in t.heads
    && t.heads[organization] == ChainHead(blocks[|blocks| - 1].blockSequence, Some(blocks[|blocks| - 1].blockHash))
  }

  /** The verifier answers VALID exactly for a non-empty intact chain that ends at the head and leaves no
      event of the tenant unsealed. */
  lemma ValidMeaning(codec: Codec, t: Tables, organization: Uuid)
    ensures (VerifyTables(codec, t, organization).Ok? && VerifyTables(codec, t, organization).value.status == Valid)
       <==> var blocks := TenantBlocks(t, organization);
            && blocks != []
            && ChainIntact(codec, t, organization, blocks)
            && HeadMatches(t, organization, blocks)
            && (forall i :: 0 <= i < |t.events| ==> !AwaitsSealing(organization)(t.events[i]))
  {
    var blocks := TenantBlocks(t, organization);
    var check := Checker(codec, t, organization);
    NoFaultMeaning(check, blocks);
    if FirstFault(check, blocks).Some? {
      forall block, sequence, previous | check(block, sequence, previous).Some?
        ensures !ClaimsValid(check(block, sequence, previous).value)
      {
        CheckIsNeverValid(codec, t, organization, block, sequence, previous);
      }
      FaultIsNeverValid(check, blocks);
    }
    var waiting := Filter(t.events, AwaitsSealing(organization));
    if forall i :: 0 <= i < |t.events| ==> !AwaitsSealing(organization)(t.events[i]) {
      FilterNone(t.events, AwaitsSealing(organization));
    } else {
      var i :| 0 <= i < |t.events| && AwaitsSealing(organization)(t.events[i]);
      FilterMembers(t.events, AwaitsSealing(organization));
      assert t.events[i] in waiting;
    }
  }

  lemma {:induction false} FaultIsNeverValid(check: BlockCheck, blocks: seq<BlockRow>)
    requires forall block, sequence, previous ::
      check(block, sequence, previous).Some? ==> !ClaimsValid(check(block, sequence, previous).value)
    requires FirstFault(check, blocks).Some?
    ensures !ClaimsValid(FirstFault(check, blocks).value.1)
  {
    var i := |blocks| - 1;
    if FirstFault(check, blocks[..i]).Some? {
      FaultIsNeverValid(check, blocks[..i]);
    }
  }

  predicate ClaimsValid(fault: Fault) {
    fault.Reported? && fault.status == Valid
  }

  lemma CheckIsNeverValid(
    codec: Codec, t: Tables, organization: Uuid, block: BlockRow, sequence: int, previous: Option<string>)
    requires CheckBlock(codec, t, organization, block, sequence, previous).Some?
    ensures !ClaimsValid(CheckBlock(codec, t, organization, block, sequence, previous).value)
  {
    LeafFaultIsNeverValid(codec, BlockEvents(t, organization, block.id));
  }

  lemma {:induction false} LeafFaultIsNeverValid(codec: Codec, events: seq<EventRow>)
    ensures CheckLeaves(codec, events).Err? ==> !ClaimsValid(CheckLeaves(codec, events).error)
  {
    if events == [] {
    } else {
      LeafFaultIsNeverValid(codec, events[..|events| - 1]);
    }
  }
}
