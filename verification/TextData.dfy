/** Event data that is stored as text. The verifier reads data through its decoding, so a VALID verdict pins the
    stored column up to that decoding and no further. */
module TextData {
  import opened Prelude
  import opened Hashing
  import opened AuditTables
  import opened Sealing
  import opened Verification
  import opened LedgerInvariant
  import opened TamperEvidence
  import opened Coverage

  /** The rows agree in every column but the data, and their data stands for the same object, or for none. */
  predicate SameRead(codec: Codec, a: EventRow, b: EventRow) {
    b.(data := a.data) == a && ObjectOf(codec, a.data) == ObjectOf(codec, b.data)
  }

  function ReadsAs(codec: Codec): (EventRow, EventRow) -> bool {
    (a: EventRow, b: EventRow) => SameRead(codec, a, b)
  }

  ghost predicate AllSameRead(codec: Codec, a: seq<EventRow>, b: seq<EventRow>) {
    Related(a, b, ReadsAs(codec))
  }

  // ------------------------------------------------------- queries read alike

  lemma BlockEventsReadAlike(codec: Codec, t: Tables, t': Tables, organization: Uuid, blockId: Uuid)
    requires AllSameRead(codec, t.events, t'.events)
    ensures AllSameRead(codec, BlockEvents(t, organization, blockId), BlockEvents(t', organization, blockId))
  {
    var p := InBlock(organization, blockId);
    FilterRelated(t.events, t'.events, ReadsAs(codec), p);
    SortRelated(Filter(t.events, p), Filter(t'.events, p), ReadsAs(codec), PositionLe);
  }

  // -------------------------------------------------------- checks read alike

  lemma {:induction false} LeavesReadAlike(codec: Codec, a: seq<EventRow>, b: seq<EventRow>)
    requires AllSameRead(codec, a, b)
    ensures CheckLeaves(codec, a) == CheckLeaves(codec, b)
  {
    if a == [] {
    } else {
      var n := |a| - 1;
      LeavesReadAlike(codec, a[..n], b[..n]);
      assert SameRead(codec, a[n], b[n]);
      assert EventEnvelopeOf(codec, a[n]) == EventEnvelopeOf(codec, b[n]);
    }
  }

  lemma OrderReadsAlike(codec: Codec, a: seq<EventRow>, b: seq<EventRow>)
    requires AllSameRead(codec, a, b)
    ensures InCanonicalOrder(a) == InCanonicalOrder(b)
  {
    SortRelated(a, b, ReadsAs(codec), EventLe);
    SameIds(codec, a, b);
    SameIds(codec, Sort(a, EventLe), Sort(b, EventLe));
    assert forall k :: 0 <= k < |a| ==> SameRead(codec, a[k], b[k]);
  }

  lemma SameIds(codec: Codec, a: seq<EventRow>, b: seq<EventRow>)
    requires AllSameRead(codec, a, b)
    ensures EventIds(a) == EventIds(b)
  {
    assert forall k :: 0 <= k < |a| ==> SameRead(codec, a[k], b[k]);
  }

  lemma BlockReadsAlike(
    codec: Codec, t: Tables, t': Tables, organization: Uuid, block: BlockRow, sequence: int, previous: Option<string>)
    requires AllSameRead(codec, t.events, t'.events)
    ensures CheckBlock(codec, t, organization, block, sequence, previous)
         == CheckBlock(codec, t', organization, block, sequence, previous)
  {
    var events, events' := BlockEvents(t, organization, block.id), BlockEvents(t', organization, block.id);
    BlockEventsReadAlike(codec, t, t', organization, block.id);
    EventsReadAlike(codec, events, events');
  }

  /** All that the verifier takes from the events of a block. */
  lemma EventsReadAlike(codec: Codec, a: seq<EventRow>, b: seq<EventRow>)
    requires AllSameRead(codec, a, b)
    ensures |a| == |b|
    ensures InCanonicalOrder(a) == InCanonicalOrder(b)
    ensures CheckLeaves(codec, a) == CheckLeaves(codec, b)
    ensures a != [] ==> a[0].id == b[0].id && a[|a| - 1].id == b[|b| - 1].id
  {
    OrderReadsAlike(codec, a, b);
    LeavesReadAlike(codec, a, b);
    if a != [] {
      assert SameRead(codec, a[0], b[0]) && SameRead(codec, a[|a| - 1], b[|b| - 1]);
    }
  }

  ghost predicate ChecksAgree(check: BlockCheck, check': BlockCheck) {
    forall block, sequence, previous :: check(block, sequence, previous) == check'(block, sequence, previous)
  }

  lemma {:induction false} FaultsAgree(check: BlockCheck, check': BlockCheck, blocks: seq<BlockRow>)
    requires ChecksAgree(check, check')
    ensures FirstFault(check, blocks) == FirstFault(check', blocks)
  {
    if blocks == [] {
    } else {
      FaultsAgree(check, check', blocks[..|blocks| - 1]);
    }
  }

  lemma {:induction false} CountsReadAlike(
    codec: Codec, t: Tables, t': Tables, organization: Uuid, blocks: seq<BlockRow>)
    requires AllSameRead(codec, t.events, t'.events)
    ensures EventsIn(t, organization, blocks) == EventsIn(t', organization, blocks)
  {
    if blocks == [] {
    } else {
      CountsReadAlike(codec, t, t', organization, blocks[..|blocks| - 1]);
      BlockEventsReadAlike(codec, t, t', organization, blocks[|blocks| - 1].id);
    }
  }

  /** Two stores whose rows differ only in the form of their event data get one verdict, whatever it is. */
  lemma DataIsReadThroughItsDecoding(codec: Codec, t: Tables, t': Tables, organization: Uuid)
    requires t'.blocks == t.blocks && t'.heads == t.heads && AllSameRead(codec, t.events, t'.events)
    ensures VerifyTables(codec, t, organization) == VerifyTables(codec, t', organization)
  {
    var check, check' := Checker(codec, t, organization), Checker(codec, t', organization);
    forall block, sequence, previous ensures check(block, sequence, previous) == check'(block, sequence, previous) {
      BlockReadsAlike(codec, t, t', organization, block, sequence, previous);
    }
    var blocks := TenantBlocks(t, organization);
    FaultsAgree(check, check', blocks);
    CountsReadAlike(codec, t, t', organization, blocks);
    if FirstFault(check, blocks).Some? {
      CountsReadAlike(codec, t, t', organization, blocks[..FirstFault(check, blocks).value.0]);
    }
    FilterRelated(t.events, t'.events, ReadsAs(codec), AwaitsSealing(organization));
  }

  function WithText(t: Tables, i: nat, text: string): Tables
    requires i < |t.events|
  {
    t.(events := t.events[i := t.events[i].(data := JString(text))])
  }

  /** In particular, an event's object may be replaced by text that decodes to it without any verdict noticing. */
  lemma TextKeepsVerdict(codec: Codec, t: Tables, organization: Uuid, i: nat, text: string)
    requires i < |t.events| && t.events[i].data.JObject?
    requires codec.parseJson(text) == Some(t.events[i].data)
    ensures WithText(t, i, text) != t
    ensures VerifyTables(codec, WithText(t, i, text), organization) == VerifyTables(codec, t, organization)
  {
    var t' := WithText(t, i, text);
    assert t'.events[i].data != t.events[i].data;
    forall k | 0 <= k < |t.events| ensures SameRead(codec, t.events[k], t'.events[k]) {
      assert k != i ==> t'.events[k] == t.events[k];
    }
    DataIsReadThroughItsDecoding(codec, t, t', organization);
  }

  // ----------------------------------------------------- what VALID does pin

  /** The committed columns are equal, the data up to its decoding. */
  predicate AgreesUpToDecoding(codec: Codec, a: EventRow, b: EventRow) {
    && SameCommitted(a, b.(data := a.data))
    && ObjectOf(codec, a.data).Ok? && ObjectOf(codec, a.data) == ObjectOf(codec, b.data)
  }

  ghost predicate AllAgreeUpToDecoding(codec: Codec, t: Tables, t': Tables, organization: Uuid) {
    forall i :: 0 <= i < |t.events| && t.events[i].organization == organization ==>
      AgreeingRow(codec, t.events[i], t')
  }

  ghost predicate AgreeingRow(codec: Codec, row: EventRow, t: Tables) {
    exists k :: 0 <= k < |t.events| && AgreesUpToDecoding(codec, row, t.events[k])
  }

  /** The tenant's data is stored as objects, which is how append stores it. */
  ghost predicate StoredAsObjects(t: Tables, organization: Uuid) {
    forall i :: 0 <= i < |t.events| && t.events[i].organization == organization ==> t.events[i].data.JObject?
  }

  ghost predicate AllStoredAlike(t: Tables, t': Tables, organization: Uuid) {
    forall i :: 0 <= i < |t.events| && t.events[i].organization == organization ==> StoredRow(t.events[i], t')
  }

  ghost predicate StoredRow(row: EventRow, t: Tables) {
    exists k :: 0 <= k < |t.events| && SameCommitted(row, t.events[k])
  }

  lemma CoveredRowDecodes(codec: Codec, t: Tables, organization: Uuid, row: EventRow)
    requires VerifiesValid(codec, t, organization) && Covered(t, organization, row)
    ensures ObjectOf(codec, row.data).Ok?
  {
    var blocks := ValidHistory(codec, organization, t);
    var b: nat :| b < |blocks| && InEventsOf(t, organization, b, row);
    ChainIntactAt(codec, t, organization, blocks, b);
    var events := BlockEvents(t, organization, blocks[b].id);
    var k: nat :| k < |events| && events[k] == row;
    RowOfLeavesDecodes(codec, events, k);
  }

  lemma RowOfLeavesDecodes(codec: Codec, events: seq<EventRow>, k: nat)
    requires LeafHashesOfRows(codec, events).Ok? && k < |events|
    ensures EventEnvelopeOf(codec, events[k]).Ok?
  {
    LeavesOfDocuments(codec, events);
  }

  lemma CounterpartsAgree(codec: Codec, t: Tables, t': Tables, organization: Uuid)
    requires VerifiesValid(codec, t, organization) && NoOrphans(t, organization)
    requires AllHaveCounterparts(codec, t, t', organization)
    ensures AllAgreeUpToDecoding(codec, t, t', organization)
    ensures StoredAsObjects(t, organization) && StoredAsObjects(t', organization) ==>
              AllStoredAlike(t, t', organization)
  {
    ValidCoversExactly(codec, t, organization);
    forall i | 0 <= i < |t.events| && t.events[i].organization == organization
      ensures AgreeingRow(codec, t.events[i], t')
      ensures StoredAsObjects(t, organization) && StoredAsObjects(t', organization) ==> StoredRow(t.events[i], t')
    {
      var row := t.events[i];
      assert row in t.events;
      CoveredRowDecodes(codec, t, organization, row);
      assert HasCounterpart(codec, row, t', organization);
      var k :| 0 <= k < |t'.events| && t'.events[k].organization == organization
        && EventEnvelopeOf(codec, t'.events[k]) == EventEnvelopeOf(codec, row);
      assert AgreesUpToDecoding(codec, row, t'.events[k]);
      if StoredAsObjects(t, organization) && StoredAsObjects(t', organization) {
        assert SameCommitted(row, t'.events[k]);
      }
    }
  }

  /** A consistent ledger stores objects, because append stores nothing else. */
  lemma ConsistentStoresObjects(codec: Codec, t: Tables, organization: Uuid)
    requires Consistent(codec, t)
    ensures StoredAsObjects(t, organization)
  {
    forall i | 0 <= i < |t.events| && t.events[i].organization == organization ensures t.events[i].data.JObject? {
      assert RowConsistentAt(codec, t, i);
    }
  }

  /** Two VALID stores without orphans, under one head hash: their events agree in every committed column, the data
      up to its decoding, and in the data column itself where both store objects; or a collision comes out of them. */
  lemma DataIsPinnedUpToDecoding(codec: Codec, organization: Uuid, t: Tables, t': Tables)
    requires FaithfulEncoding(codec)
    requires VerifiesValid(codec, t, organization) && VerifiesValid(codec, t', organization)
    requires HeadHash(t, organization) == HeadHash(t', organization)
    requires NoOrphans(t, organization) && NoOrphans(t', organization)
    ensures var blocks, blocks' := TenantBlocks(t, organization), TenantBlocks(t', organization);
            && blocks != [] && blocks' != []
            && (|| FoundCollision(codec, FindChainCollision(codec, organization, t, blocks, |blocks| - 1,
                                                            t', blocks', |blocks'| - 1))
                || (&& AllAgreeUpToDecoding(codec, t, t', organization)
                    && AllAgreeUpToDecoding(codec, t', t, organization)
                    && (StoredAsObjects(t, organization) && StoredAsObjects(t', organization) ==>
                          AllStoredAlike(t, t', organization) && AllStoredAlike(t', t, organization))))
  {
    EveryEventIsPinned(codec, organization, t, t');
    if AllHaveCounterparts(codec, t, t', organization) && AllHaveCounterparts(codec, t', t, organization) {
      CounterpartsAgree(codec, t, t', organization);
      CounterpartsAgree(codec, t', t, organization);
    }
  }
}
