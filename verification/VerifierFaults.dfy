/** When the verifier raises instead of reporting. */
module VerifierFaults {
  import opened Prelude
  import opened Hashing
  import opened Merkle
  import opened AuditTables
  import opened Sealing
  import opened Verification

  // ------------------------------------------------------------- one block

  /** The leaf loop gets past this event. */
  ghost predicate LeafPasses(codec: Codec, event: EventRow) {
    && ObjectOf(codec, event.data).Ok?
    && HashLeaf(codec, EventEnvelopeOf(codec, event).value).Ok?
    && event.nodeHash == Some(Hex(HashLeaf(codec, EventEnvelopeOf(codec, event).value).value))
  }

  ghost predicate LeavesPassBefore(codec: Codec, events: seq<EventRow>, k: nat)
    requires k <= |events|
  {
    forall j :: 0 <= j < k ==> LeafPasses(codec, events[j])
  }

  /** The first event that does not pass holds data that is neither an object nor text that decodes to one. */
  ghost predicate LeavesRaise(codec: Codec, events: seq<EventRow>) {
    exists k: nat :: k < |events| && LeavesPassBefore(codec, events, k) && ObjectOf(codec, events[k].data).Err?
  }

  /** The leaf loop raises exactly then; it returns leaves exactly when every event passes. */
  lemma {:induction false} LeafLoopRaisesExactly(codec: Codec, events: seq<EventRow>)
    ensures CheckLeaves(codec, events).Ok? <==> LeavesPassBefore(codec, events, |events|)
    ensures CheckLeaves(codec, events).Err? && CheckLeaves(codec, events).error.Raised?
       <==> LeavesRaise(codec, events)
    ensures LeavesRaise(codec, events) ==> CheckLeaves(codec, events).error == Raised(SealingErrorEscaped)
  {
    if events == [] {
    } else {
      var n := |events| - 1;
      LeafLoopRaisesExactly(codec, events[..n]);
      LeavesRaiseSplits(codec, events);
    }
  }

  lemma LeavesRaiseSplits(codec: Codec, events: seq<EventRow>)
    requires events != []
    ensures var n := |events| - 1;
            && (LeavesRaise(codec, events) <==>
                  LeavesRaise(codec, events[..n])
                  || (LeavesPassBefore(codec, events[..n], n) && ObjectOf(codec, events[n].data).Err?))
            && (LeavesPassBefore(codec, events, n + 1) <==>
                  LeavesPassBefore(codec, events[..n], n) && LeafPasses(codec, events[n]))
  {
    var n := |events| - 1;
    var init := events[..n];
    assert forall j :: 0 <= j < n ==> init[j] == events[j];
    if LeavesRaise(codec, events) {
      var k: nat :| k < |events| && LeavesPassBefore(codec, events, k) && ObjectOf(codec, events[k].data).Err?;
      assert LeavesPassBefore(codec, init, k);
    }
    if LeavesRaise(codec, init) {
      var k: nat :| k < n && LeavesPassBefore(codec, init, k) && ObjectOf(codec, init[k].data).Err?;
      assert LeavesPassBefore(codec, events, k) && ObjectOf(codec, events[k].data).Err?;
    }
    if LeavesPassBefore(codec, init, n) {
      assert LeavesPassBefore(codec, events, n);
    }
  }

  /** The checks that come before the events are looked at one by one. */
  predicate ReachesEvents(
    events: seq<EventRow>, block: BlockRow, sequence: int, previous: Option<string>)
  {
    && |events| == block.eventCount
    && block.blockSequence == sequence
    && block.algorithmVersion == ALGORITHM_VERSION
    && block.canonicalizationVersion == CANONICALIZATION_VERSION
    && block.previousBlockHash == previous
    && InCanonicalOrder(events)
  }

  predicate BoundariesMatch(events: seq<EventRow>, block: BlockRow)
    requires events != []
  {
    block.firstEventId == events[0].id && block.lastEventId == events[|events| - 1].id
  }

  ghost predicate BlockRaises(
    codec: Codec, t: Tables, organization: Uuid, block: BlockRow, sequence: int, previous: Option<string>)
  {
    var events := BlockEvents(t, organization, block.id);
    && ReachesEvents(events, block, sequence, previous)
    && (events == [] || (BoundariesMatch(events, block) && LeavesRaise(codec, events)))
  }

  predicate IsRaised(fault: Option<Fault>) {
    fault.Some? && fault.value.Raised?
  }

  /** A block raises exactly when the checks before its events pass, and it has no events, or its boundaries match
      and its leaf loop raises. */
  lemma BlockRaisesExactly(
    codec: Codec, t: Tables, organization: Uuid, block: BlockRow, sequence: int, previous: Option<string>)
    ensures IsRaised(CheckBlock(codec, t, organization, block, sequence, previous))
       <==> BlockRaises(codec, t, organization, block, sequence, previous)
    ensures BlockRaises(codec, t, organization, block, sequence, previous) ==>
              CheckBlock(codec, t, organization, block, sequence, previous)
              == Some(Raised(if block.eventCount == 0 then IndexOutOfRange else SealingErrorEscaped))
  {
    EventChecksRaise(codec, t, organization, block, sequence, previous);
    LeafLoopRaisesExactly(codec, BlockEvents(t, organization, block.id));
  }

  /** The checks before the events never raise, and neither do those after the leaf loop. */
  lemma EventChecksRaise(
    codec: Codec, t: Tables, organization: Uuid, block: BlockRow, sequence: int, previous: Option<string>)
    ensures var events := BlockEvents(t, organization, block.id);
            var fault := CheckBlock(codec, t, organization, block, sequence, previous);
            if !ReachesEvents(events, block, sequence, previous) then !IsRaised(fault)
            else if events == [] then fault == Some(Raised(IndexOutOfRange))
            else if BoundariesMatch(events, block) && CheckLeaves(codec, events).Err? then
              fault == Some(CheckLeaves(codec, events).error)
            else !IsRaised(fault)
  {
    var events := BlockEvents(t, organization, block.id);
    if CheckLeaves(codec, events).Ok? {
      HashChecksNeverRaise(codec, organization, block, CheckLeaves(codec, events).value);
    }
  }

  lemma HashChecksNeverRaise(codec: Codec, organization: Uuid, block: BlockRow, leaves: seq<Bytes>)
    ensures !IsRaised(CheckHashes(codec, organization, block, leaves))
  {
  }

  // -------------------------------------------------------------- the chain

  /** The first fault is that of the first row that does not pass. */
  lemma {:induction false} FirstFaultMeaning(check: BlockCheck, blocks: seq<BlockRow>)
    ensures FirstFault(check, blocks).Some? ==>
              var (i, fault) := FirstFault(check, blocks).value;
              AllPass(check, blocks[..i]) && check(blocks[i], i + 1, PreviousHash(blocks, i)) == Some(fault)
  {
    if blocks == [] {
    } else {
      var n := |blocks| - 1;
      var init := blocks[..n];
      FirstFaultMeaning(check, init);
      NoFaultMeaning(check, init);
      if FirstFault(check, init).Some? {
        var i := FirstFault(check, init).value.0;
        assert init[..i] == blocks[..i] && init[i] == blocks[i] && PreviousHash(init, i) == PreviousHash(blocks, i);
      }
    }
  }

  lemma FaultAt(check: BlockCheck, blocks: seq<BlockRow>, i: nat)
    requires i < |blocks| && AllPass(check, blocks[..i])
    requires check(blocks[i], i + 1, PreviousHash(blocks, i)).Some?
    ensures FirstFault(check, blocks) == Some((i, check(blocks[i], i + 1, PreviousHash(blocks, i)).value))
  {
    NoFaultMeaning(check, blocks[..i]);
    assert blocks[..i + 1][..i] == blocks[..i];
    assert PreviousHash(blocks[..i + 1], i) == PreviousHash(blocks, i);
    FirstFaultIsFirst(check, blocks, i + 1);
  }

  /** Some block raises and all blocks before it pass. */
  ghost predicate ChainRaises(codec: Codec, t: Tables, organization: Uuid, blocks: seq<BlockRow>, i: nat)
    requires i < |blocks|
  {
    && AllPass(Checker(codec, t, organization), blocks[..i])
    && BlockRaises(codec, t, organization, blocks[i], i + 1, PreviousHash(blocks, i))
  }

  lemma RaisesByFirstFault(codec: Codec, t: Tables, organization: Uuid)
    ensures var found := FirstFault(Checker(codec, t, organization), TenantBlocks(t, organization));
            VerifyTables(codec, t, organization).Err?
            <==> organization in t.heads && found.Some? && found.value.1.Raised?
  {
  }

  /** The verifier raises exactly when the head exists and the first block that does not pass raises. */
  lemma VerifierRaisesExactly(codec: Codec, t: Tables, organization: Uuid)
    ensures VerifyTables(codec, t, organization).Err? <==>
              && organization in t.heads
              && exists i: nat :: i < |TenantBlocks(t, organization)|
                   && ChainRaises(codec, t, organization, TenantBlocks(t, organization), i)
  {
    var blocks := TenantBlocks(t, organization);
    var check := Checker(codec, t, organization);
    RaisesByFirstFault(codec, t, organization);
    var found := FirstFault(check, blocks);
    if found.Some? && found.value.1.Raised? {
      FirstFaultRaises(codec, t, organization, blocks);
    }
    if i: nat :| i < |blocks| && ChainRaises(codec, t, organization, blocks, i) {
      RaisingBlockIsFirst(codec, t, organization, blocks, i);
    }
  }

  lemma FirstFaultRaises(codec: Codec, t: Tables, organization: Uuid, blocks: seq<BlockRow>)
    requires var found := FirstFault(Checker(codec, t, organization), blocks);
             found.Some? && found.value.1.Raised?
    ensures ChainRaises(codec, t, organization, blocks, FirstFault(Checker(codec, t, organization), blocks).value.0)
  {
    FirstFaultMeaning(Checker(codec, t, organization), blocks);
    var i := FirstFault(Checker(codec, t, organization), blocks).value.0;
    BlockRaisesExactly(codec, t, organization, blocks[i], i + 1, PreviousHash(blocks, i));
  }

  lemma RaisingBlockIsFirst(codec: Codec, t: Tables, organization: Uuid, blocks: seq<BlockRow>, i: nat)
    requires i < |blocks| && ChainRaises(codec, t, organization, blocks, i)
    ensures var found := FirstFault(Checker(codec, t, organization), blocks);
            found.Some? && found.value.1.Raised?
  {
    BlockRaisesExactly(codec, t, organization, blocks[i], i + 1, PreviousHash(blocks, i));
    FaultAt(Checker(codec, t, organization), blocks, i);
  }

  /** The table constraint that a block counts at least one event leaves one kind of exception. */
  lemma OnlyTheSealingErrorEscapes(codec: Codec, t: Tables, organization: Uuid)
    requires forall i :: 0 <= i < |t.blocks| ==> t.blocks[i].eventCount >= 1
    ensures VerifyTables(codec, t, organization) != Err(IndexOutOfRange)
  {
    var blocks := TenantBlocks(t, organization);
    if VerifyTables(codec, t, organization).Err? {
      FirstFaultMeaning(Checker(codec, t, organization), blocks);
      var i := FirstFault(Checker(codec, t, organization), blocks).value.0;
      BlockRaisesExactly(codec, t, organization, blocks[i], i + 1, PreviousHash(blocks, i));
      TenantBlockStored(t, organization, i);
    }
  }

  lemma TenantBlockStored(t: Tables, organization: Uuid, i: nat)
    requires i < |TenantBlocks(t, organization)|
    ensures TenantBlocks(t, organization)[i] in t.blocks
    ensures TenantBlocks(t, organization)[i].organization == organization
  {
    SortPermutes(Filter(t.blocks, OfTenant(organization)), SequenceLe);
    MultisetMembers(Filter(t.blocks, OfTenant(organization)), TenantBlocks(t, organization));
    FilterMembers(t.blocks, OfTenant(organization));
    assert TenantBlocks(t, organization)[i] in TenantBlocks(t, organization);
  }

  /** One sealed event, under a block that is right in everything but its hashes. */
  function OneEventTables(organization: Uuid, data: Json): Tables {
    Tables(
      [EventRow(1, organization, 0, None, "rule.created", "rule", None, data, Some(""), Some(2), Some(0))],
      [BlockRow(2, organization, 1, ALGORITHM_VERSION, CANONICALIZATION_VERSION, 1, 1, 1, "", None, "")],
      map[organization := ChainHead(1, Some(""))])
  }

  lemma OneEventIsReached(organization: Uuid, data: Json)
    ensures var t := OneEventTables(organization, data);
            && BlockEvents(t, organization, 2) == t.events && TenantBlocks(t, organization) == t.blocks
            && ReachesEvents(t.events, t.blocks[0], 1, None) && BoundariesMatch(t.events, t.blocks[0])
  {
    var t := OneEventTables(organization, data);
    var event, block := t.events[0], t.blocks[0];
    assert t.events[..0] == [] && t.blocks[..0] == [];
    assert Filter(t.events, InBlock(organization, 2)) == [event];
    assert Filter(t.blocks, OfTenant(organization)) == [block];
    assert Sort([event], EventLe) == [event];
  }

  /** There the verifier raises exactly when the data is neither an object nor text that decodes to one, and reports
      INVALID otherwise. */
  lemma DataDecides(codec: Codec, organization: Uuid, data: Json)
    ensures var r := VerifyTables(codec, OneEventTables(organization, data), organization);
            if ObjectOf(codec, data).Err? then r == Err(SealingErrorEscaped) else r.Ok? && r.value.status == Invalid
  {
    var t := OneEventTables(organization, data);
    var event, block := t.events[0], t.blocks[0];
    OneEventIsReached(organization, data);
    OneLeaf(codec, event);
    FaultAt(Checker(codec, t, organization), t.blocks, 0);
  }

  lemma OneLeaf(codec: Codec, event: EventRow)
    requires event.nodeHash == Some("")
    ensures CheckLeaves(codec, [event]).Err?
    ensures if ObjectOf(codec, event.data).Err? then CheckLeaves(codec, [event]).error == Raised(SealingErrorEscaped)
            else CheckLeaves(codec, [event]).error.Reported? && CheckLeaves(codec, [event]).error.status == Invalid
  {
    assert [event][..0] == [];
    if ObjectOf(codec, event.data).Ok? && HashLeaf(codec, EventEnvelopeOf(codec, event).value).Ok? {
      assert |Hex(HashLeaf(codec, EventEnvelopeOf(codec, event).value).value)| == 64;
    }
  }

  /** So it happens. */
  lemma NullDataRaises(codec: Codec, organization: Uuid)
    ensures VerifyTables(codec, OneEventTables(organization, JNull), organization) == Err(SealingErrorEscaped)
  {
    DataDecides(codec, organization, JNull);
  }
}
