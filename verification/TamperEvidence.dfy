/** Two histories of one tenant that end in one block hash are one history, or their owner can be shown two
    different inputs with one SHA-256 hash. The tables here are arbitrary: whoever rewrote them may have changed
    any row of any table. */
module TamperEvidence {
  import opened Prelude
  import opened Hashing
  import opened Merkle
  import opened AuditTables
  import opened Sealing
  import opened Verification

  // ------------------------------------------------------------- documents

  function DocumentOf(codec: Codec, row: EventRow): Bytes {
    match EventEnvelopeOf(codec, row)
    case Err(_) => []
    case Ok(envelope) =>
      match codec.canonicalJson(envelope)
      case None => []
      case Some(document) => document
  }

  function Documents(codec: Codec, events: seq<EventRow>): (documents: seq<Bytes>)
    ensures |documents| == |events|
    ensures forall k :: 0 <= k < |documents| ==> documents[k] == DocumentOf(codec, events[k])
  {
    seq(|events|, k requires 0 <= k < |events| => DocumentOf(codec, events[k]))
  }

  function EnvelopeOfBlock(organization: Uuid, block: BlockRow): Envelope {
    BlockEnvelope(BLOCK_VERSION, organization, block.blockSequence, block.eventCount, block.firstEventId,
                  block.lastEventId, block.merkleRoot, block.previousBlockHash)
  }

  function DocumentOfBlock(codec: Codec, organization: Uuid, block: BlockRow): Bytes {
    match codec.canonicalJson(EnvelopeOfBlock(organization, block))
    case None => []
    case Some(document) => document
  }

  lemma {:induction false} LeavesOfDocuments(codec: Codec, events: seq<EventRow>)
    requires LeafHashesOfRows(codec, events).Ok?
    ensures LeafHashesOfRows(codec, events).value == LeafHashes(codec, Documents(codec, events))
    ensures forall k :: 0 <= k < |events| ==>
              && EventEnvelopeOf(codec, events[k]).Ok?
              && codec.canonicalJson(EventEnvelopeOf(codec, events[k]).value) == Some(DocumentOf(codec, events[k]))
  {
    if events == [] {
    } else {
      var n := |events| - 1;
      LeavesOfPrefix(codec, events);
      LeavesOfDocuments(codec, events[..n]);
      var leaves := LeafHashesOfRows(codec, events).value;
      var expected := LeafHashes(codec, Documents(codec, events));
      var init := LeafHashes(codec, Documents(codec, events[..n]));
      assert forall k :: 0 <= k < n ==> events[..n][k] == events[k];
      assert forall k :: 0 <= k < n ==> leaves[k] == init[k] == expected[k];
      assert leaves[n] == expected[n];
    }
  }

  // ------------------------------------------------------- the same history

  /** One block of each history, and the events under it, as far as the hashes commit to them. */
  ghost predicate SameBlock(
    codec: Codec, t: Tables, block: BlockRow, t': Tables, block': BlockRow, organization: Uuid)
  {
    && EnvelopeOfBlock(organization, block) == EnvelopeOfBlock(organization, block')
    && block.blockHash == block'.blockHash
    && SameEvents(codec, BlockEvents(t, organization, block.id), BlockEvents(t', organization, block'.id))
  }

  ghost predicate SameEvents(codec: Codec, events: seq<EventRow>, events': seq<EventRow>) {
    && |events| == |events'|
    && forall k :: 0 <= k < |events| ==> EventEnvelopeOf(codec, events[k]) == EventEnvelopeOf(codec, events'[k])
  }

  /** Compares two blocks: first their own documents, then the trees over their events. */
  function FindBlockCollision(
    codec: Codec, organization: Uuid, t: Tables, block: BlockRow, t': Tables, block': BlockRow
  ): Option<(Bytes, Bytes)> {
    var a, b := DocumentOfBlock(codec, organization, block), DocumentOfBlock(codec, organization, block');
    var events, events' := BlockEvents(t, organization, block.id), BlockEvents(t', organization, block'.id);
    if a != b then Some((BlockPreimage(a), BlockPreimage(b)))
    else if events == [] || events' == [] then None
    else FindCollision(codec, Documents(codec, events), Documents(codec, events'))
  }

  /** Compares block i of one history with block j of the other, and then their predecessors, down to the first
      difference under an equal hash. */
  function FindChainCollision(
    codec: Codec, organization: Uuid, t: Tables, blocks: seq<BlockRow>, i: nat,
    t': Tables, blocks': seq<BlockRow>, j: nat
  ): Option<(Bytes, Bytes)>
    requires i < |blocks| && j < |blocks'|
    decreases i
  {
    match FindBlockCollision(codec, organization, t, blocks[i], t', blocks'[j])
    case Some(pair) => Some(pair)
    case None =>
      if i == 0 || j == 0 then None
      else FindChainCollision(codec, organization, t, blocks, i - 1, t', blocks', j - 1)
  }

  ghost predicate FoundCollision(codec: Codec, found: Option<(Bytes, Bytes)>) {
    found.Some? && IsCollision(codec, found.value)
  }

  lemma BlockCommitsToItsDocument(
    codec: Codec, t: Tables, organization: Uuid, block: BlockRow, sequence: int, previous: Option<string>)
    requires BlockIntact(codec, t, organization, block, sequence, previous)
    ensures codec.canonicalJson(EnvelopeOfBlock(organization, block))
         == Some(DocumentOfBlock(codec, organization, block))
    ensures block.blockHash == Hex(codec.sha256(BlockPreimage(DocumentOfBlock(codec, organization, block))))
    ensures block.blockSequence == sequence && block.previousBlockHash == previous
  {
  }

  lemma BlockCommitsToItsEvents(
    codec: Codec, t: Tables, organization: Uuid, block: BlockRow, sequence: int, previous: Option<string>)
    requires BlockIntact(codec, t, organization, block, sequence, previous)
    ensures var events := BlockEvents(t, organization, block.id);
            && events != []
            && LeafHashesOfRows(codec, events).Ok?
            && block.merkleRoot == Hex(Root(codec, Documents(codec, events)))
  {
    var events := BlockEvents(t, organization, block.id);
    LeavesOfDocuments(codec, events);
  }

  lemma SameDocumentsSameEvents(codec: Codec, events: seq<EventRow>, events': seq<EventRow>)
    requires FaithfulEncoding(codec)
    requires LeafHashesOfRows(codec, events).Ok? && LeafHashesOfRows(codec, events').Ok?
    requires Documents(codec, events) == Documents(codec, events')
    ensures SameEvents(codec, events, events')
  {
    LeavesOfDocuments(codec, events);
    LeavesOfDocuments(codec, events');
    assert |events| == |events'|;
    forall k | 0 <= k < |events| ensures EventEnvelopeOf(codec, events[k]) == EventEnvelopeOf(codec, events'[k]) {
      assert Documents(codec, events)[k] == Documents(codec, events')[k];
    }
  }

  /** Two blocks with one hash. */
  lemma SameHashSameBlock(
    codec: Codec, organization: Uuid, t: Tables, block: BlockRow, sequence: int, previous: Option<string>,
    t': Tables, block': BlockRow, sequence': int, previous': Option<string>)
    requires FaithfulEncoding(codec)
    requires BlockIntact(codec, t, organization, block, sequence, previous)
    requires BlockIntact(codec, t', organization, block', sequence', previous')
    requires block.blockHash == block'.blockHash
    ensures var found := FindBlockCollision(codec, organization, t, block, t', block');
            if found.Some? then FoundCollision(codec, found)
            else sequence == sequence' && previous == previous' && SameBlock(codec, t, block, t', block', organization)
  {
    var a, b := DocumentOfBlock(codec, organization, block), DocumentOfBlock(codec, organization, block');
    var events, events' := BlockEvents(t, organization, block.id), BlockEvents(t', organization, block'.id);
    BlockCommitsToItsDocument(codec, t, organization, block, sequence, previous);
    BlockCommitsToItsDocument(codec, t', organization, block', sequence', previous');
    BlockCommitsToItsEvents(codec, t, organization, block, sequence, previous);
    BlockCommitsToItsEvents(codec, t', organization, block', sequence', previous');
    if a != b {
      HexInjective(codec.sha256(BlockPreimage(a)), codec.sha256(BlockPreimage(b)));
      assert BlockPreimage(a)[1..] == a && BlockPreimage(b)[1..] == b;
    } else {
      assert EnvelopeOfBlock(organization, block) == EnvelopeOfBlock(organization, block');
      HexInjective(Root(codec, Documents(codec, events)), Root(codec, Documents(codec, events')));
      MerkleBinding(codec, Documents(codec, events), Documents(codec, events'));
      if FindCollision(codec, Documents(codec, events), Documents(codec, events')).None? {
        SameDocumentsSameEvents(codec, events, events');
      }
    }
  }

  /** The first n blocks of two histories agree. */
  ghost predicate SamePrefix(
    codec: Codec, t: Tables, blocks: seq<BlockRow>, t': Tables, blocks': seq<BlockRow>, organization: Uuid, n: nat)
  {
    && n <= |blocks| && n <= |blocks'|
    && forall k :: 0 <= k < n ==> SameBlock(codec, t, blocks[k], t', blocks'[k], organization)
  }

  lemma SamePrefixGrows(
    codec: Codec, t: Tables, blocks: seq<BlockRow>, t': Tables, blocks': seq<BlockRow>, organization: Uuid, n: nat)
    requires SamePrefix(codec, t, blocks, t', blocks', organization, n) && n < |blocks| && n < |blocks'|
    requires SameBlock(codec, t, blocks[n], t', blocks'[n], organization)
    ensures SamePrefix(codec, t, blocks, t', blocks', organization, n + 1)
  {
  }

  /** Equal block hashes, at whatever heights: the heights are equal and so is everything below, or there is a
      collision. */
  lemma {:induction false} SameHashSameHistory(
    codec: Codec, organization: Uuid, t: Tables, blocks: seq<BlockRow>, i: nat,
    t': Tables, blocks': seq<BlockRow>, j: nat)
    requires FaithfulEncoding(codec)
    requires ChainIntact(codec, t, organization, blocks) && ChainIntact(codec, t', organization, blocks')
    requires i < |blocks| && j < |blocks'| && blocks[i].blockHash == blocks'[j].blockHash
    ensures var found := FindChainCollision(codec, organization, t, blocks, i, t', blocks', j);
            FoundCollision(codec, found) || (i == j && SamePrefix(codec, t, blocks, t', blocks', organization, i + 1))
    decreases i
  {
    var step := SameHashStep(codec, organization, t, blocks, i, t', blocks', j);
    if step.None? {
      if i == 0 {
        SamePrefixStarts(codec, t, blocks, t', blocks', organization);
      } else {
        SameHashSameHistory(codec, organization, t, blocks, i - 1, t', blocks', j - 1);
        if i == j && SamePrefix(codec, t, blocks, t', blocks', organization, i) {
          SamePrefixGrows(codec, t, blocks, t', blocks', organization, i);
        }
      }
    }
  }

  lemma SamePrefixStarts(
    codec: Codec, t: Tables, blocks: seq<BlockRow>, t': Tables, blocks': seq<BlockRow>, organization: Uuid)
    requires blocks != [] && blocks' != [] && SameBlock(codec, t, blocks[0], t', blocks'[0], organization)
    ensures SamePrefix(codec, t, blocks, t', blocks', organization, 1)
  {
  }

  lemma SameHashStep(
    codec: Codec, organization: Uuid, t: Tables, blocks: seq<BlockRow>, i: nat,
    t': Tables, blocks': seq<BlockRow>, j: nat) returns (step: Option<(Bytes, Bytes)>)
    requires FaithfulEncoding(codec)
    requires ChainIntact(codec, t, organization, blocks) && ChainIntact(codec, t', organization, blocks')
    requires i < |blocks| && j < |blocks'| && blocks[i].blockHash == blocks'[j].blockHash
    ensures step == FindBlockCollision(codec, organization, t, blocks[i], t', blocks'[j])
    ensures step.Some? ==> FoundCollision(codec, step)
    ensures step.None? ==>
              && i == j && SameBlock(codec, t, blocks[i], t', blocks'[j], organization)
              && (i > 0 ==> blocks[i - 1].blockHash == blocks'[j - 1].blockHash)
  {
    ChainIntactAt(codec, t, organization, blocks, i);
    ChainIntactAt(codec, t', organization, blocks', j);
    SameHashSameBlock(codec, organization, t, blocks[i], i + 1, PreviousHash(blocks, i),
                      t', blocks'[j], j + 1, PreviousHash(blocks', j));
    step := FindBlockCollision(codec, organization, t, blocks[i], t', blocks'[j]);
  }

  // ------------------------------------------------------------ the theorems

  ghost predicate VerifiesValid(codec: Codec, t: Tables, organization: Uuid) {
    var verdict := VerifyTables(codec, t, organization);
    verdict.Ok? && verdict.value.status == Valid
  }

  function HeadHash(t: Tables, organization: Uuid): Option<string> {
    if organization in t.heads then t.heads[organization].lastBlockHash else None
  }

  lemma ValidHistory(codec: Codec, organization: Uuid, t: Tables) returns (blocks: seq<BlockRow>)
    requires VerifiesValid(codec, t, organization)
    ensures blocks == TenantBlocks(t, organization) && blocks != []
    ensures ChainIntact(codec, t, organization, blocks)
    ensures HeadHash(t, organization) == Some(blocks[|blocks| - 1].blockHash)
  {
    ValidMeaning(codec, t, organization);
    blocks := TenantBlocks(t, organization);
  }

  /** The whole chain of t is the chain of t' up to and including block j, or the comparison of the two finds a
      collision. */
  ghost predicate OneHistoryOrCollision(codec: Codec, organization: Uuid, t: Tables, t': Tables, j: nat) {
    var blocks, blocks' := TenantBlocks(t, organization), TenantBlocks(t', organization);
    && blocks != [] && j < |blocks'|
    && var found := FindChainCollision(codec, organization, t, blocks, |blocks| - 1, t', blocks', j);
       || FoundCollision(codec, found)
       || (j == |blocks| - 1 && SamePrefix(codec, t, blocks, t', blocks', organization, |blocks|))
  }

  lemma ChainsPinHistory(
    codec: Codec, organization: Uuid, t: Tables, blocks: seq<BlockRow>, t': Tables, blocks': seq<BlockRow>, j: nat)
    requires FaithfulEncoding(codec)
    requires blocks == TenantBlocks(t, organization) && blocks' == TenantBlocks(t', organization)
    requires ChainIntact(codec, t, organization, blocks) && ChainIntact(codec, t', organization, blocks')
    requires blocks != [] && j < |blocks'| && blocks[|blocks| - 1].blockHash == blocks'[j].blockHash
    ensures OneHistoryOrCollision(codec, organization, t, t', j)
  {
    SameHashSameHistory(codec, organization, t, blocks, |blocks| - 1, t', blocks', j);
  }

  /** A block hash that was written down earlier pins everything up to it: in any later history that verifies and
      still contains the hash, it stands at the same height, above the same blocks and events. */
  lemma RecordedHashPinsHistory(codec: Codec, organization: Uuid, t: Tables, t': Tables, j: nat)
    requires FaithfulEncoding(codec)
    requires VerifiesValid(codec, t, organization) && VerifiesValid(codec, t', organization)
    requires j < |TenantBlocks(t', organization)|
    requires HeadHash(t, organization) == Some(TenantBlocks(t', organization)[j].blockHash)
    ensures OneHistoryOrCollision(codec, organization, t, t', j)
  {
    var blocks := ValidHistory(codec, organization, t);
    var blocks' := ValidHistory(codec, organization, t');
    ChainsPinHistory(codec, organization, t, blocks, t', blocks', j);
  }

  /** Both histories verify as VALID and their heads carry one hash: block by block and event by event they commit
      to the same documents, or a collision of SHA-256 comes out of them. */
  lemma TamperingIsEvident(codec: Codec, organization: Uuid, t: Tables, t': Tables)
    requires FaithfulEncoding(codec)
    requires VerifiesValid(codec, t, organization) && VerifiesValid(codec, t', organization)
    requires HeadHash(t, organization) == HeadHash(t', organization)
    ensures TenantBlocks(t', organization) != []
    ensures OneHistoryOrCollision(codec, organization, t, t', |TenantBlocks(t', organization)| - 1)
  {
    var blocks' := ValidHistory(codec, organization, t');
    RecordedHashPinsHistory(codec, organization, t, t', |blocks'| - 1);
  }
}
