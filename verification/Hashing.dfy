/** Byte strings, lower-case hexadecimal text, and the two outside primitives of the audit ledger. */
module Hashing {
  import opened Prelude

  type Byte = b: int | 0 <= b < 256
  type Bytes = seq<Byte>
  type Digest = d: Bytes | |d| == 32 witness seq(32, _ => 0)

  /** JSON values up to equality of values: numbers compare by value, objects ignore key order. */
  datatype Json =
    | JNull
    | JBool(flag: bool)
    | JNumber(number: real)
    | JString(text: string)
    | JArray(items: seq<Json>)
    | JObject(fields: map<string, Json>)

  /** The two documents that the ledger commits to. */
  datatype Envelope =
    | EventEnvelope(
        schemaVersion: int,
        organizationId: Uuid,
        eventId: Uuid,
        occurredAt: Time,
        actorUserId: Option<Uuid>,
        eventType: string,
        entityType: string,
        entityId: Option<Uuid>,
        data: Json)
    | BlockEnvelope(
        version: string,
        organizationId: Uuid,
        blockSequence: int,
        eventCount: int,
        firstEventId: Uuid,
        lastEventId: Uuid,
        merkleRoot: string,
        previousBlockHash: Option<string>)

  /** SHA-256, RFC 8785 canonical JSON and json.loads. Nothing is assumed of the hash; the canonical encoding is
      partial (it refuses values outside I-JSON) and tells different documents apart; not every text is JSON. */
  datatype Codec = Codec(
    sha256: Bytes -> Digest, canonicalJson: Envelope -> Option<Bytes>, parseJson: string -> Option<Json>)

  ghost predicate FaithfulEncoding(codec: Codec) {
    forall a, b ::
      codec.canonicalJson(a).Some? && codec.canonicalJson(a) == codec.canonicalJson(b) ==> a == b
  }

  /** Two different inputs with one hash. */
  ghost predicate IsCollision(codec: Codec, pair: (Bytes, Bytes)) {
    pair.0 != pair.1 && codec.sha256(pair.0) == codec.sha256(pair.1)
  }

  function HexDigit(n: int): char
    requires 0 <= n < 16
  {
    "0123456789abcdef"[n]
  }

  function Hex(bytes: Bytes): (text: string)
    ensures |text| == 2 * |bytes|
  {
    if bytes == [] then ""
    else [HexDigit(bytes[0] / 16), HexDigit(bytes[0] % 16)] + Hex(bytes[1..])
  }

  /** The number that a lower-case hexadecimal digit stands for. */
  function DigitValue(c: char): int {
    if '0' <= c <= '9' then c as int - '0' as int
    else if 'a' <= c <= 'f' then c as int - 'a' as int + 10
    else -1
  }

  lemma DigitReads(n: int)
    requires 0 <= n < 16
    ensures DigitValue(HexDigit(n)) == n
  {
  }

  /** Two digits for each byte, the high one first. */
  lemma {:induction false} HexReads(bytes: Bytes, i: nat)
    requires i < |bytes|
    ensures 16 * DigitValue(Hex(bytes)[2 * i]) + DigitValue(Hex(bytes)[2 * i + 1]) == bytes[i]
    ensures DigitValue(Hex(bytes)[2 * i]) >= 0 && DigitValue(Hex(bytes)[2 * i + 1]) >= 0
  {
    if i == 0 {
      DigitReads(bytes[0] / 16);
      DigitReads(bytes[0] % 16);
    } else {
      HexReads(bytes[1..], i - 1);
      assert Hex(bytes)[2..] == Hex(bytes[1..]);
    }
  }

  lemma HexDigitInjective(m: int, n: int)
    requires 0 <= m < 16 && 0 <= n < 16 && HexDigit(m) == HexDigit(n)
    ensures m == n
  {
  }

  lemma HexOfByte(a: Byte, b: Byte)
    requires HexDigit(a / 16) == HexDigit(b / 16) && HexDigit(a % 16) == HexDigit(b % 16)
    ensures a == b
  {
    HexDigitInjective(a / 16, b / 16);
    HexDigitInjective(a % 16, b % 16);
  }

  lemma {:induction false} HexInjective(a: Bytes, b: Bytes)
    requires Hex(a) == Hex(b)
    ensures a == b
  {
    if a == [] {
    } else {
      assert |a| == |b|;
      var rest, rest' := Hex(a[1..]), Hex(b[1..]);
      assert Hex(a)[0] == Hex(b)[0] && Hex(a)[1] == Hex(b)[1];
      assert rest == Hex(a)[2..] && rest' == Hex(b)[2..];
      HexOfByte(a[0], b[0]);
      HexInjective(a[1..], b[1..]);
      assert a == [a[0]] + a[1..] && b == [b[0]] + b[1..];
    }
  }
}
