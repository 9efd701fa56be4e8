/** The AL-MERKLE-1 tree of apps/audit/merkle.py: section 2.1 of RFC 6962 with the extra prefix 0x02
    for blocks. */
module Merkle {
  import opened Prelude
  import opened Hashing

  const ALGORITHM_VERSION := "AL-MERKLE-1"
  const BLOCK_VERSION := "AL-BLOCK-1"
  const CANONICALIZATION_VERSION := "RFC8785"

  datatype MerkleError =
    | TooSmallToSplit
    | NoLeaves
    | BadLeafDigest
    | BadChildDigest
    | NotCanonicalizable
    | BadBlockSequence
    | BadEventCount
    | BadMerkleRoot
    | BadPreviousBlockHash

  // -------------------------------------------------------------- hashing

  function LeafPreimage(document: Bytes): Bytes { [0] + document }

  function NodePreimage(left: Bytes, right: Bytes): Bytes { [1] + left + right }

  function BlockPreimage(document: Bytes): Bytes { [2] + document }

  function HashLeaf(codec: Codec, event: Envelope): Result<Digest, MerkleError> {
    match codec.canonicalJson(event)
    case None => Err(NotCanonicalizable)
    case Some(document) => Ok(codec.sha256(LeafPreimage(document)))
  }

  function HashNode(codec: Codec, left: Bytes, right: Bytes): Result<Digest, MerkleError> {
    if |left| != 32 || |right| != 32 then Err(BadChildDigest)
    else Ok(codec.sha256(NodePreimage(left, right)))
  }

  function HashBlock(codec: Codec, block: Envelope): Result<Digest, MerkleError> {
    match codec.canonicalJson(block)
    case None => Err(NotCanonicalizable)
    case Some(document) => Ok(codec.sha256(BlockPreimage(document)))
  }

  // ---------------------------------------------------------- tree shape

  function BitLength(n: nat): nat {
    if n == 0 then 0 else 1 + BitLength(n / 2)
  }

  /** 1 << shift */
  function PowerOfTwo(shift: nat): (p: nat)
    ensures p >= 1
  {
    if shift == 0 then 1 else 2 * PowerOfTwo(shift - 1)
  }

  function LargestPowerOfTwoLessThan(value: nat): Result<nat, MerkleError> {
    if value < 2 then Err(TooSmallToSplit)
    else
      assert BitLength(value - 1) >= 1;
      Ok(PowerOfTwo(BitLength(value - 1) - 1))
  }

  lemma {:induction false} BitLengthBounds(n: nat)
    requires n >= 1
    ensures BitLength(n) >= 1
    ensures PowerOfTwo(BitLength(n) - 1) <= n < PowerOfTwo(BitLength(n))
  {
    if n >= 2 {
      BitLengthBounds(n / 2);
    } else {
      assert BitLength(0) == 0 && PowerOfTwo(1) == 2 * PowerOfTwo(0);
    }
  }

  /** The split is the power of two k with k < n <= 2k that section 2.1 of RFC 6962 asks for. */
  lemma SplitIsRfc6962(n: nat)
    requires n >= 2
    ensures LargestPowerOfTwoLessThan(n).Ok?
    ensures var k := LargestPowerOfTwoLessThan(n).value; k < n <= 2 * k && exists j: nat :: k == PowerOfTwo(j)
  {
    BitLengthBounds(n - 1);
  }

  function MerkleRootFromHashes(codec: Codec, leafHashes: seq<Bytes>): Result<Bytes, MerkleError>
    decreases |leafHashes|
  {
    if |leafHashes| == 0 then Err(NoLeaves)
    else if exists i :: 0 <= i < |leafHashes| && |leafHashes[i]| != 32 then Err(BadLeafDigest)
    else if |leafHashes| == 1 then Ok(leafHashes[0])
    else
      SplitIsRfc6962(|leafHashes|);
      var split := LargestPowerOfTwoLessThan(|leafHashes|).value;
      match MerkleRootFromHashes(codec, leafHashes[..split])
      case Err(error) => Err(error)
      case Ok(left) =>
        match MerkleRootFromHashes(codec, leafHashes[split..])
        case Err(error) => Err(error)
        case Ok(right) =>
          match HashNode(codec, left, right)
          case Err(error) => Err(error)
          case Ok(root) => Ok(root)
  }

  /** The tree exists exactly for a non-empty list of 32-byte leaves, and its root has 32 bytes. */
  lemma {:induction false} RootExists(codec: Codec, leafHashes: seq<Bytes>)
    ensures MerkleRootFromHashes(codec, leafHashes).Ok?
       <==> leafHashes != [] && forall i :: 0 <= i < |leafHashes| ==> |leafHashes[i]| == 32
    ensures MerkleRootFromHashes(codec, leafHashes).Ok? ==> |MerkleRootFromHashes(codec, leafHashes).value| == 32
    ensures MerkleRootFromHashes(codec, leafHashes).Err? ==>
              MerkleRootFromHashes(codec, leafHashes).error == if leafHashes == [] then NoLeaves else BadLeafDigest
    decreases |leafHashes|
  {
    if |leafHashes| >= 2 && forall i :: 0 <= i < |leafHashes| ==> |leafHashes[i]| == 32 {
      SplitIsRfc6962(|leafHashes|);
      var split := LargestPowerOfTwoLessThan(|leafHashes|).value;
      RootExists(codec, leafHashes[..split]);
      RootExists(codec, leafHashes[split..]);
    }
  }

  // -------------------------------------------------------------- RFC 6962

  /** The largest power of two smaller than n. */
  ghost predicate SplitsAt(n: nat, k: nat) {
    k < n <= 2 * k && exists j: nat :: k == PowerOfTwo(j)
  }

  lemma {:induction false} PowersGrow(i: nat, j: nat)
    requires i < j
    ensures 2 * PowerOfTwo(i) <= PowerOfTwo(j)
  {
    if i + 1 < j {
      PowersGrow(i, j - 1);
    }
  }

  lemma SplitIsUnique(n: nat, k: nat, m: nat)
    requires SplitsAt(n, k) && SplitsAt(n, m)
    ensures k == m
  {
    var i: nat :| k == PowerOfTwo(i);
    var j: nat :| m == PowerOfTwo(j);
    if i < j {
      PowersGrow(i, j);
    } else if j < i {
      PowersGrow(j, i);
    }
  }

  ghost function SplitPoint(n: nat): (k: nat)
    requires n >= 2
    ensures SplitsAt(n, k)
  {
    SplitIsRfc6962(n);
    assert SplitsAt(n, LargestPowerOfTwoLessThan(n).value);
    var k: nat :| SplitsAt(n, k);
    k
  }

  /** The Merkle tree hash of a non-empty list, as section 2.1 of RFC 6962 defines it. */
  ghost function TreeHash(codec: Codec, documents: seq<Bytes>): Digest
    requires documents != []
    decreases |documents|
  {
    if |documents| == 1 then codec.sha256([0] + documents[0])
    else
      var k := SplitPoint(|documents|);
      codec.sha256([1] + TreeHash(codec, documents[..k]) + TreeHash(codec, documents[k..]))
  }

  /** The recursion over leaf hashes computes the tree hash of the documents. */
  lemma {:induction false} RootIsTreeHash(codec: Codec, documents: seq<Bytes>)
    requires documents != []
    ensures MerkleRootFromHashes(codec, LeafHashes(codec, documents)) == Ok(TreeHash(codec, documents))
    decreases |documents|
  {
    var hashes := LeafHashes(codec, documents);
    if |documents| == 1 {
    } else {
      var k := SplitPoint(|documents|);
      SplitIsRfc6962(|documents|);
      SplitIsUnique(|documents|, k, LargestPowerOfTwoLessThan(|documents|).value);
      assert hashes[..k] == LeafHashes(codec, documents[..k]);
      assert hashes[k..] == LeafHashes(codec, documents[k..]);
      RootIsTreeHash(codec, documents[..k]);
      RootIsTreeHash(codec, documents[k..]);
    }
  }

  // --------------------------------------------------------------- binding

  function LeafHashes(codec: Codec, documents: seq<Bytes>): (hashes: seq<Bytes>)
    ensures |hashes| == |documents|
    ensures forall i :: 0 <= i < |hashes| ==> hashes[i] == codec.sha256(LeafPreimage(documents[i]))
  {
    seq(|documents|, i requires 0 <= i < |documents| => codec.sha256(LeafPreimage(documents[i])))
  }

  /** The root over the leaves of a non-empty list of documents. */
  function Root(codec: Codec, documents: seq<Bytes>): (root: Bytes)
    requires documents != []
    ensures |root| == 32
  {
    RootExists(codec, LeafHashes(codec, documents));
    MerkleRootFromHashes(codec, LeafHashes(codec, documents)).value
  }

  function Split(n: nat): (k: nat)
    requires n >= 2
    ensures 0 < k < n
  {
    SplitIsRfc6962(n);
    LargestPowerOfTwoLessThan(n).value
  }

  /** The bytes whose hash is the root. */
  function RootPreimage(codec: Codec, documents: seq<Bytes>): Bytes
    requires documents != []
  {
    if |documents| == 1 then LeafPreimage(documents[0])
    else
      var k := Split(|documents|);
      NodePreimage(Root(codec, documents[..k]), Root(codec, documents[k..]))
  }

  lemma RootHashesPreimage(codec: Codec, documents: seq<Bytes>)
    requires documents != []
    ensures Root(codec, documents) == codec.sha256(RootPreimage(codec, documents))
  {
    var hashes := LeafHashes(codec, documents);
    if |documents| >= 2 {
      var k := Split(|documents|);
      assert hashes[..k] == LeafHashes(codec, documents[..k]);
      assert hashes[k..] == LeafHashes(codec, documents[k..]);
      RootExists(codec, hashes[..k]);
      RootExists(codec, hashes[k..]);
    }
  }

  /** Walks the two trees down from their roots and returns the first pair of different inputs. */
  function FindCollision(codec: Codec, a: seq<Bytes>, b: seq<Bytes>): Option<(Bytes, Bytes)>
    requires a != [] && b != []
    decreases |a| + |b|
  {
    if RootPreimage(codec, a) != RootPreimage(codec, b) then
      Some((RootPreimage(codec, a), RootPreimage(codec, b)))
    else if |a| == 1 || |b| == 1 then None
    else
      var k, m := Split(|a|), Split(|b|);
      match FindCollision(codec, a[..k], b[..m])
      case Some(pair) => Some(pair)
      case None => FindCollision(codec, a[k..], b[m..])
  }

  lemma PreimageChildren(l: Bytes, r: Bytes, l': Bytes, r': Bytes)
    requires |l| == 32 && |l'| == 32
    requires NodePreimage(l, r) == NodePreimage(l', r')
    ensures l == l' && r == r'
  {
    assert NodePreimage(l, r)[1..33] == l && NodePreimage(l', r')[1..33] == l';
    assert NodePreimage(l, r)[33..] == r && NodePreimage(l', r')[33..] == r';
  }

  /** The prefixes keep a leaf apart from an inner node. */
  lemma LeafOrNode(codec: Codec, a: seq<Bytes>, b: seq<Bytes>)
    requires |a| == 1 && b != []
    requires RootPreimage(codec, a) == RootPreimage(codec, b)
    ensures a == b
  {
    assert RootPreimage(codec, b)[0] == 0;
    assert |b| == 1;
    assert LeafPreimage(a[0])[1..] == a[0] && LeafPreimage(b[0])[1..] == b[0];
  }

  lemma Halves(a: seq<Bytes>, b: seq<Bytes>, k: nat, m: nat)
    requires k <= |a| && m <= |b|
    requires a[..k] == b[..m] && a[k..] == b[m..]
    ensures a == b
  {
    assert a == a[..k] + a[k..] && b == b[..m] + b[m..];
  }

  /** Lists of any two lengths with one root are one list, or the walk finds a collision. */
  lemma {:induction false} MerkleBinding(codec: Codec, a: seq<Bytes>, b: seq<Bytes>)
    requires a != [] && b != []
    requires Root(codec, a) == Root(codec, b)
    ensures FindCollision(codec, a, b).None? ==> a == b
    ensures FindCollision(codec, a, b).Some? ==> IsCollision(codec, FindCollision(codec, a, b).value)
    decreases |a| + |b|
  {
    if RootPreimage(codec, a) != RootPreimage(codec, b) {
      RootHashesPreimage(codec, a);
      RootHashesPreimage(codec, b);
    } else if |a| == 1 {
      LeafOrNode(codec, a, b);
    } else if |b| == 1 {
      LeafOrNode(codec, b, a);
    } else {
      var k, m := Split(|a|), Split(|b|);
      PreimageChildren(Root(codec, a[..k]), Root(codec, a[k..]), Root(codec, b[..m]), Root(codec, b[m..]));
      MerkleBinding(codec, a[..k], b[..m]);
      if FindCollision(codec, a[..k], b[..m]).None? {
        MerkleBinding(codec, a[k..], b[m..]);
        if FindCollision(codec, a[k..], b[m..]).None? {
          Halves(a, b, k, m);
        }
      }
    }
  }

  // --------------------------------------------------------------- blocks

  function BuildBlockEnvelope(
    organizationId: Uuid, blockSequence: int, eventCount: int, firstEventId: Uuid, lastEventId: Uuid,
    merkleRootHex: string, previousBlockHash: Option<string>
  ): Result<Envelope, MerkleError> {
    if blockSequence < 1 then Err(BadBlockSequence)
    else if eventCount < 1 then Err(BadEventCount)
    else if |merkleRootHex| != 64 then Err(BadMerkleRoot)
    else if previousBlockHash.Some? && |previousBlockHash.value| != 64 then Err(BadPreviousBlockHash)
    else Ok(BlockEnvelope(BLOCK_VERSION, organizationId, blockSequence, eventCount,
                          firstEventId, lastEventId, merkleRootHex, previousBlockHash))
  }

  /** A block envelope is refused for the first of four causes, and otherwise carries what it was given. */
  lemma BlockEnvelopeMeaning(
    organizationId: Uuid, blockSequence: int, eventCount: int, firstEventId: Uuid, lastEventId: Uuid,
    merkleRootHex: string, previousBlockHash: Option<string>)
    ensures var r := BuildBlockEnvelope(organizationId, blockSequence, eventCount, firstEventId, lastEventId,
                                        merkleRootHex, previousBlockHash);
            var badPrevious := previousBlockHash.Some? && |previousBlockHash.value| != 64;
            && (r == Err(BadBlockSequence) <==> blockSequence < 1)
            && (r == Err(BadEventCount) <==> blockSequence >= 1 && eventCount < 1)
            && (r == Err(BadMerkleRoot) <==> blockSequence >= 1 && eventCount >= 1 && |merkleRootHex| != 64)
            && (r == Err(BadPreviousBlockHash) <==>
                  blockSequence >= 1 && eventCount >= 1 && |merkleRootHex| == 64 && badPrevious)
            && (r.Ok? <==> blockSequence >= 1 && eventCount >= 1 && |merkleRootHex| == 64 && !badPrevious)
            && (r.Ok? ==>
                  && r.value.BlockEnvelope?
                  && r.value.organizationId == organizationId && r.value.blockSequence == blockSequence
                  && r.value.eventCount == eventCount && r.value.firstEventId == firstEventId
                  && r.value.lastEventId == lastEventId && r.value.merkleRoot == merkleRootHex
                  && r.value.previousBlockHash == previousBlockHash)
  {
  }
}
