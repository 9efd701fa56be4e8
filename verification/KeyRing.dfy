/** The versioned key ring and the credential envelopes of apps/credentials/crypto.py. Random values are
    parameters; AES-GCM and the text form of a UUID are functions of which only their laws are used. */
module KeyRing {
  import opened Prelude
  import opened Hashing

  type Key = k: Bytes | |k| == 32 witness seq(32, _ => 0)
  type Nonce = n: Bytes | |n| == 12 witness seq(12, _ => 0)

  /** encrypt and decrypt take key, nonce, text and associated data. */
  datatype Suite = Suite(
    encrypt: (Key, Bytes, Bytes, Bytes) -> Bytes,
    decrypt: (Key, Bytes, Bytes, Bytes) -> Option<Bytes>,
    uuidText: Uuid -> Bytes)

  ghost predicate Lawful(suite: Suite) {
    forall key, nonce: Nonce, text, aad ::
      var sealed := suite.encrypt(key, nonce, text, aad);
      suite.decrypt(key, nonce, sealed, aad) == Some(text) && |sealed| == |text| + 16
  }

  /** Decryption recomputes the tag: what it accepts is what encryption makes of the text it returns. */
  ghost predicate Authenticating(suite: Suite) {
    forall key, nonce: Nonce, sealed, aad ::
      suite.decrypt(key, nonce, sealed, aad).Some? ==>
        suite.encrypt(key, nonce, suite.decrypt(key, nonce, sealed, aad).value, aad) == sealed
  }

  /** One ciphertext for two texts with different associated data: a forged tag. */
  ghost predicate IsForgery(suite: Suite, key: Key, nonce: Nonce, text: Bytes, aad: Bytes, text': Bytes, aad': Bytes) {
    aad != aad' && suite.encrypt(key, nonce, text, aad) == suite.encrypt(key, nonce, text', aad')
  }

  /** How many UUIDs there are. */
  const UUIDS: nat := 0x1_0000_0000_0000_0000_0000_0000_0000_0000

  /** The text of a UUID has 36 characters and tells UUIDs apart. */
  ghost predicate FaithfulText(suite: Suite) {
    && (forall id: Uuid :: id < UUIDS ==> |suite.uuidText(id)| == 36)
    && (forall a: Uuid, b: Uuid :: a < UUIDS && b < UUIDS && suite.uuidText(a) == suite.uuidText(b) ==> a == b)
  }

  // The laws can be met together: a suite without secrecy, with the digits of a UUID to base 256 as its text.

  function PowerOf256(n: nat): (p: nat)
    ensures p >= 1
  {
    if n == 0 then 1 else 256 * PowerOf256(n - 1)
  }

  function Digits(id: nat, n: nat): (digits: Bytes)
    ensures |digits| == n
  {
    if n == 0 then [] else Digits(id / 256, n - 1) + [id % 256]
  }

  lemma {:induction false} DigitsTellApart(a: nat, b: nat, n: nat)
    requires a < PowerOf256(n) && b < PowerOf256(n) && Digits(a, n) == Digits(b, n)
    ensures a == b
  {
    if n == 0 {
    } else {
      assert Digits(a, n)[..n - 1] == Digits(a / 256, n - 1) && Digits(b, n)[..n - 1] == Digits(b / 256, n - 1);
      assert Digits(a, n)[n - 1] == a % 256 && Digits(b, n)[n - 1] == b % 256;
      DigitsTellApart(a / 256, b / 256, n - 1);
    }
  }

  lemma PowersOf256()
    ensures PowerOf256(16) == UUIDS && PowerOf256(36) >= UUIDS
  {
    assert PowerOf256(4) == 0x1_0000_0000;
    assert PowerOf256(8) == 0x1_0000_0000_0000_0000 by {
      assert PowerOf256(6) == 0x1_0000_0000_0000;
    }
    assert PowerOf256(12) == 0x1_0000_0000_0000_0000_0000_0000 by {
      assert PowerOf256(10) == 0x1_0000_0000_0000_0000_0000;
    }
    assert PowerOf256(16) == UUIDS by {
      assert PowerOf256(14) == 0x1_0000_0000_0000_0000_0000_0000_0000;
    }
    PowersGrow(16, 36);
  }

  lemma {:induction false} PowersGrow(m: nat, n: nat)
    requires m <= n
    ensures PowerOf256(m) <= PowerOf256(n)
  {
    if m == n {
    } else {
      PowersGrow(m, n - 1);
    }
  }

  const TAG: Bytes := [0, 0, 0, 0, 0, 0, 0, 0, 0, 0, 0, 0, 0, 0, 0, 0]

  function SampleDecrypt(sealed: Bytes): Option<Bytes> {
    if |sealed| >= 16 && sealed[|sealed| - 16..] == TAG then Some(sealed[..|sealed| - 16]) else None
  }

  function SampleSuite(): Suite {
    Suite((key, nonce, text, aad) => text + TAG, (key, nonce, sealed, aad) => SampleDecrypt(sealed),
          id => Digits(id, 36))
  }

  lemma SomeSuiteIsLawful()
    ensures Lawful(SampleSuite()) && Authenticating(SampleSuite()) && FaithfulText(SampleSuite())
  {
    forall text: Bytes ensures SampleDecrypt(text + TAG) == Some(text) {
      assert (text + TAG)[|text|..] == TAG && (text + TAG)[..|text|] == text;
    }
    forall sealed | SampleDecrypt(sealed).Some? ensures SampleDecrypt(sealed).value + TAG == sealed {
      assert sealed == sealed[..|sealed| - 16] + sealed[|sealed| - 16..];
    }
    PowersOf256();
    forall a: Uuid, b: Uuid | a < UUIDS && b < UUIDS && Digits(a, 36) == Digits(b, 36) ensures a == b {
      DigitsTellApart(a, b, 36);
    }
  }

  datatype CredentialError =
    | UnsupportedVersion | KekVersionNotPositive | BadWrapNonce | BadPayloadNonce | BadWrappedDek | BadCiphertext
    | KekMustBe256Bits | ActiveVersionMissing | VersionExists | VersionUnavailable
    | ActiveKekCannotBeRemoved | KekStillReferenced
    | AuthenticationFailed | BadDekSize

  datatype CredentialEnvelope = CredentialEnvelope(
    envelopeVersion: int, kekVersion: int, wrappedDekNonce: Bytes, wrappedDek: Bytes, payloadNonce: Bytes,
    ciphertext: Bytes)

  const ENVELOPE_VERSION := 1

  /** The checks of __post_init__. */
  function Checked(e: CredentialEnvelope): Result<CredentialEnvelope, CredentialError> {
    if e.envelopeVersion != ENVELOPE_VERSION then Err(UnsupportedVersion)
    else if e.kekVersion < 1 then Err(KekVersionNotPositive)
    else if |e.wrappedDekNonce| != 12 then Err(BadWrapNonce)
    else if |e.payloadNonce| != 12 then Err(BadPayloadNonce)
    else if |e.wrappedDek| <= 32 then Err(BadWrappedDek)
    else if |e.ciphertext| < 16 then Err(BadCiphertext)
    else Ok(e)
  }

  // ------------------------------------------------------- associated data

  function Ascii(text: string): (bytes: Bytes)
    ensures |bytes| == |text|
  {
    seq(|text|, i requires 0 <= i < |text| => (text[i] as int) % 256)
  }

  const DEK_WRAP_DOMAIN := "agentledger:credential-envelope:dek:v1"
  const PAYLOAD_DOMAIN := "agentledger:credential-envelope:payload:v1"

  function Aad(suite: Suite, domain: string, tenant: Uuid, record: Uuid): Bytes {
    Ascii(domain) + Ascii("|tenant=") + suite.uuidText(tenant) + Ascii("|record=") + suite.uuidText(record)
  }

  lemma DomainsDiffer()
    ensures |DEK_WRAP_DOMAIN| == 38 && |PAYLOAD_DOMAIN| == 42
  {
  }

  /** Where tenant and record stand in the associated data. */
  lemma AadLayout(suite: Suite, domain: string, tenant: Uuid, record: Uuid)
    requires FaithfulText(suite) && tenant < UUIDS && record < UUIDS
    ensures var a := Aad(suite, domain, tenant, record);
            && |a| == |domain| + 88 && a[..|domain|] == Ascii(domain)
            && a[|domain| + 8..|domain| + 44] == suite.uuidText(tenant)
            && a[|domain| + 52..] == suite.uuidText(record)
  {
  }

  /** The associated data tells purpose, tenant and record apart. */
  lemma AadBinds(
    suite: Suite, domain: string, tenant: Uuid, record: Uuid, domain': string, tenant': Uuid, record': Uuid)
    requires FaithfulText(suite)
    requires tenant < UUIDS && record < UUIDS && tenant' < UUIDS && record' < UUIDS
    requires domain in {DEK_WRAP_DOMAIN, PAYLOAD_DOMAIN} && domain' in {DEK_WRAP_DOMAIN, PAYLOAD_DOMAIN}
    requires Aad(suite, domain, tenant, record) == Aad(suite, domain', tenant', record')
    ensures domain == domain' && tenant == tenant' && record == record'
  {
    DomainsDiffer();
    AadLayout(suite, domain, tenant, record);
    AadLayout(suite, domain', tenant', record');
  }

  // -------------------------------------------------------------- the ring

  datatype Ring = Ring(keys: map<int, Bytes>, active: int)

  predicate ValidRing(ring: Ring) {
    && (forall version :: version in ring.keys ==> version >= 1 && |ring.keys[version]| == 32)
    && ring.active in ring.keys
  }

  function AddKek(ring: Ring, version: int, key: Bytes, makeActive: bool): Result<Ring, CredentialError> {
    if version < 1 then Err(KekVersionNotPositive)
    else if version in ring.keys then Err(VersionExists)
    else if |key| != 32 then Err(KekMustBe256Bits)
    else Ok(Ring(ring.keys[version := key], if makeActive then version else ring.active))
  }

  function Activate(ring: Ring, version: int): Result<Ring, CredentialError> {
    if version in ring.keys then Ok(ring.(active := version)) else Err(VersionUnavailable)
  }

  function RemoveKek(ring: Ring, version: int, envelopes: set<CredentialEnvelope>): Result<Ring, CredentialError> {
    if version == ring.active then Err(ActiveKekCannotBeRemoved)
    else if version !in ring.keys then Err(VersionUnavailable)
    else if exists e :: e in envelopes && e.kekVersion == version then Err(KekStillReferenced)
    else Ok(ring.(keys := ring.keys - {version}))
  }

  class VersionedKEKRing {
    var keys: map<int, Bytes>
    var activeVersion: int

    ghost function Contents(): Ring
      reads this
    {
      Ring(keys, activeVersion)
    }

    ghost predicate Valid()
      reads this
    {
      ValidRing(Contents())
    }

    constructor (keys: map<int, Bytes>, activeVersion: int)
      requires ValidRing(Ring(keys, activeVersion))
      ensures Valid() && Contents() == Ring(keys, activeVersion)
    {
      this.keys, this.activeVersion := keys, activeVersion;
    }

    /** __init__: the keys are checked one by one, in the order of the mapping. A refusal names a cause; a missing
        active version is the cause only when all keys are in order. */
    static method Create(keys: map<int, Bytes>, activeVersion: int)
      returns (r: Result<VersionedKEKRing, CredentialError>)
      ensures r.Ok? <==> ValidRing(Ring(keys, activeVersion))
      ensures r.Ok? ==> fresh(r.value) && r.value.Contents() == Ring(keys, activeVersion)
      ensures match r
              case Ok(_) => true
              case Err(KekVersionNotPositive) => exists version :: version in keys && version < 1
              case Err(KekMustBe256Bits) => exists version :: version in keys && |keys[version]| != 32
              case Err(error) =>
                && error == ActiveVersionMissing && activeVersion !in keys
                && forall version :: version in keys ==> version >= 1 && |keys[version]| == 32
    {
      var rest := keys.Keys;
      while rest != {}
        invariant rest <= keys.Keys
        invariant forall version :: version in keys && version !in rest ==> version >= 1 && |keys[version]| == 32
        decreases |rest|
      {
        var version := AnyMember(rest);
        if version < 1 {
          return Err(KekVersionNotPositive);
        }
        if |keys[version]| != 32 {
          return Err(KekMustBe256Bits);
        }
        rest := rest - {version};
      }
      if activeVersion !in keys {
        return Err(ActiveVersionMissing);
      }
      var ring := new VersionedKEKRing(keys, activeVersion);
      return Ok(ring);
    }

    method Add(version: int, key: Bytes, makeActive: bool) returns (r: Result<(), CredentialError>)
      requires Valid()
      modifies this
      ensures Valid()
      ensures match AddKek(old(Contents()), version, key, makeActive)
              case Ok(ring) => r == Ok(()) && Contents() == ring
              case Err(error) => r == Err(error) && Contents() == old(Contents())
      ensures r.Ok? <==> version >= 1 && version !in old(keys) && |key| == 32
      ensures r.Ok? ==>
                && keys.Keys == old(keys.Keys) + {version} && keys[version] == key
                && (forall other :: other in old(keys) ==> keys[other] == old(keys)[other])
                && activeVersion == if makeActive then version else old(activeVersion)
      ensures r.Err? ==>
                r.error == if version < 1 then KekVersionNotPositive
                           else if version in old(keys) then VersionExists else KekMustBe256Bits
    {
      if version < 1 {
        return Err(KekVersionNotPositive);
      }
      if version in keys {
        return Err(VersionExists);
      }
      if |key| != 32 {
        return Err(KekMustBe256Bits);
      }
      keys := keys[version := key];
      if makeActive {
        activeVersion := version;
      }
      return Ok(());
    }

    method MakeActive(version: int) returns (r: Result<(), CredentialError>)
      requires Valid()
      modifies this
      ensures Valid()
      ensures match Activate(old(Contents()), version)
              case Ok(ring) => r == Ok(()) && Contents() == ring
              case Err(error) => r == Err(error) && Contents() == old(Contents())
      ensures keys == old(keys)
      ensures if version in keys then r == Ok(()) && activeVersion == version
              else r == Err(VersionUnavailable) && activeVersion == old(activeVersion)
    {
      if version !in keys {
        return Err(VersionUnavailable);
      }
      activeVersion := version;
      return Ok(());
    }

    method Remove(version: int, activeEnvelopes: set<CredentialEnvelope>) returns (r: Result<(), CredentialError>)
      requires Valid()
      modifies this
      ensures Valid()
      ensures match RemoveKek(old(Contents()), version, activeEnvelopes)
              case Ok(ring) => r == Ok(()) && Contents() == ring
              case Err(error) => r == Err(error) && Contents() == old(Contents())
      ensures activeVersion == old(activeVersion)
      ensures r.Ok? ==>
                && version in old(keys) && version != activeVersion
                && (forall e :: e in activeEnvelopes ==> e.kekVersion != version)
                && keys.Keys == old(keys.Keys) - {version}
                && forall other :: other in keys ==> keys[other] == old(keys)[other]
      ensures r.Err? ==>
                r.error == if version == activeVersion then ActiveKekCannotBeRemoved
                           else if version !in keys then VersionUnavailable else KekStillReferenced
    {
      if version == activeVersion {
        return Err(ActiveKekCannotBeRemoved);
      }
      if version !in keys {
        return Err(VersionUnavailable);
      }
      if exists e :: e in activeEnvelopes && e.kekVersion == version {
        return Err(KekStillReferenced);
      }
      keys := keys - {version};
      return Ok(());
    }
  }

  // ---------------------------------------------------------- the envelopes

  function Encrypt(
    suite: Suite, ring: Ring, plaintext: Bytes, tenant: Uuid, record: Uuid, dek: Key, payloadNonce: Nonce,
    wrapNonce: Nonce
  ): Result<CredentialEnvelope, CredentialError>
    requires ValidRing(ring)
  {
    var ciphertext := suite.encrypt(dek, payloadNonce, plaintext, Aad(suite, PAYLOAD_DOMAIN, tenant, record));
    var wrapped := suite.encrypt(ring.keys[ring.active], wrapNonce, dek, Aad(suite, DEK_WRAP_DOMAIN, tenant, record));
    Checked(CredentialEnvelope(ENVELOPE_VERSION, ring.active, wrapNonce, wrapped, payloadNonce, ciphertext))
  }

  function UnwrapDek(suite: Suite, ring: Ring, e: CredentialEnvelope, tenant: Uuid, record: Uuid)
    : Result<Key, CredentialError>
    requires ValidRing(ring)
  {
    if e.kekVersion !in ring.keys then Err(VersionUnavailable)
    else
      match suite.decrypt(ring.keys[e.kekVersion], e.wrappedDekNonce, e.wrappedDek,
                          Aad(suite, DEK_WRAP_DOMAIN, tenant, record))
      case None => Err(AuthenticationFailed)
      case Some(dek) => if |dek| != 32 then Err(BadDekSize) else Ok(dek)
  }

  function Decrypt(suite: Suite, ring: Ring, e: CredentialEnvelope, tenant: Uuid, record: Uuid)
    : Result<Bytes, CredentialError>
    requires ValidRing(ring)
  {
    match UnwrapDek(suite, ring, e, tenant, record)
    case Err(error) => Err(error)
    case Ok(dek) =>
      match suite.decrypt(dek, e.payloadNonce, e.ciphertext, Aad(suite, PAYLOAD_DOMAIN, tenant, record))
      case None => Err(AuthenticationFailed)
      case Some(plaintext) => Ok(plaintext)
  }

  function RotateKek(suite: Suite, ring: Ring, e: CredentialEnvelope, tenant: Uuid, record: Uuid, wrapNonce: Nonce)
    : Result<CredentialEnvelope, CredentialError>
    requires ValidRing(ring)
  {
    match UnwrapDek(suite, ring, e, tenant, record)
    case Err(error) => Err(error)
    case Ok(dek) =>
      var wrapped := suite.encrypt(ring.keys[ring.active], wrapNonce, dek, Aad(suite, DEK_WRAP_DOMAIN, tenant, record));
      Checked(CredentialEnvelope(e.envelopeVersion, ring.active, wrapNonce, wrapped, e.payloadNonce, e.ciphertext))
  }

  function RotateCompromisedKey(
    suite: Suite, ring: Ring, e: CredentialEnvelope, tenant: Uuid, record: Uuid, dek: Key, payloadNonce: Nonce,
    wrapNonce: Nonce
  ): Result<CredentialEnvelope, CredentialError>
    requires ValidRing(ring)
  {
    match Decrypt(suite, ring, e, tenant, record)
    case Err(error) => Err(error)
    case Ok(plaintext) => Encrypt(suite, ring, plaintext, tenant, record, dek, payloadNonce, wrapNonce)
  }

  /** What an envelope must be like. */
  lemma CheckedMeaning(e: CredentialEnvelope)
    ensures Checked(e).Ok? <==>
              && e.envelopeVersion == 1 && e.kekVersion >= 1
              && |e.wrappedDekNonce| == 12 && |e.payloadNonce| == 12 && |e.wrappedDek| > 32 && |e.ciphertext| >= 16
    ensures Checked(e).Ok? ==> Checked(e).value == e
  {
  }

  /** Decryption fails exactly because the key is gone, a tag is wrong, or the wrapped key has the wrong size. */
  lemma DecryptionFailures(suite: Suite, ring: Ring, e: CredentialEnvelope, tenant: Uuid, record: Uuid)
    requires ValidRing(ring)
    ensures Decrypt(suite, ring, e, tenant, record) == Err(VersionUnavailable) <==> e.kekVersion !in ring.keys
    ensures e.kekVersion in ring.keys ==>
              var dek := suite.decrypt(ring.keys[e.kekVersion], e.wrappedDekNonce, e.wrappedDek,
                                       Aad(suite, DEK_WRAP_DOMAIN, tenant, record));
              && (Decrypt(suite, ring, e, tenant, record) == Err(BadDekSize) <==> dek.Some? && |dek.value| != 32)
              && (Decrypt(suite, ring, e, tenant, record) == Err(AuthenticationFailed) <==>
                    || dek.None?
                    || (&& |dek.value| == 32
                        && suite.decrypt(dek.value, e.payloadNonce, e.ciphertext,
                                         Aad(suite, PAYLOAD_DOMAIN, tenant, record)).None?))
  {
  }

  /** The replacement of a compromised data key: the plaintext under the fresh key and nonce, the fresh key under the
      active key and the fresh wrapping nonce. Nothing of the old ciphertext stays. */
  lemma CompromisedKeyIsReplaced(
    suite: Suite, ring: Ring, e: CredentialEnvelope, tenant: Uuid, record: Uuid, dek: Key, payloadNonce: Nonce,
    wrapNonce: Nonce)
    requires Lawful(suite) && ValidRing(ring)
    ensures var replaced := RotateCompromisedKey(suite, ring, e, tenant, record, dek, payloadNonce, wrapNonce);
            var plaintext := Decrypt(suite, ring, e, tenant, record);
            if plaintext.Err? then replaced == Err(plaintext.error)
            else
              && replaced.Ok? && replaced.value.envelopeVersion == ENVELOPE_VERSION
              && replaced.value.kekVersion == ring.active
              && replaced.value.payloadNonce == payloadNonce && replaced.value.wrappedDekNonce == wrapNonce
              && replaced.value.ciphertext
                 == suite.encrypt(dek, payloadNonce, plaintext.value, Aad(suite, PAYLOAD_DOMAIN, tenant, record))
              && replaced.value.wrappedDek
                 == suite.encrypt(ring.keys[ring.active], wrapNonce, dek, Aad(suite, DEK_WRAP_DOMAIN, tenant, record))
              && Decrypt(suite, ring, replaced.value, tenant, record) == plaintext
  {
    if Decrypt(suite, ring, e, tenant, record).Ok? {
      EncryptThenDecrypt(suite, ring, Decrypt(suite, ring, e, tenant, record).value, tenant, record, dek,
                         payloadNonce, wrapNonce);
    }
  }

  lemma EncryptThenDecrypt(
    suite: Suite, ring: Ring, plaintext: Bytes, tenant: Uuid, record: Uuid, dek: Key, payloadNonce: Nonce,
    wrapNonce: Nonce)
    requires Lawful(suite) && ValidRing(ring)
    ensures var e := Encrypt(suite, ring, plaintext, tenant, record, dek, payloadNonce, wrapNonce);
            && e.Ok? && e.value.kekVersion == ring.active
            && Decrypt(suite, ring, e.value, tenant, record) == Ok(plaintext)
  {
  }

  /** Rotation of an envelope that decrypts always succeeds: it moves to the active key, keeps its payload bytes and
      still decrypts to the same plaintext. */
  lemma RotationKeepsPlaintext(
    suite: Suite, ring: Ring, e: CredentialEnvelope, tenant: Uuid, record: Uuid, wrapNonce: Nonce)
    requires Lawful(suite) && ValidRing(ring) && Checked(e).Ok?
    requires Decrypt(suite, ring, e, tenant, record).Ok?
    ensures var rotated := RotateKek(suite, ring, e, tenant, record, wrapNonce);
            && rotated.Ok? && rotated.value.kekVersion == ring.active && Checked(rotated.value).Ok?
            && rotated.value.payloadNonce == e.payloadNonce && rotated.value.ciphertext == e.ciphertext
            && Decrypt(suite, ring, rotated.value, tenant, record) == Decrypt(suite, ring, e, tenant, record)
  {
    var dek := UnwrapDek(suite, ring, e, tenant, record).value;
    var rotated := RotateKek(suite, ring, e, tenant, record, wrapNonce).value;
    assert UnwrapDek(suite, ring, rotated, tenant, record) == Ok(dek);
  }

  /** An envelope that decrypts under two different identities contains a forgery, made with its wrapping key. */
  lemma OneIdentityOrForgery(
    suite: Suite, ring: Ring, e: CredentialEnvelope, tenant: Uuid, record: Uuid, tenant': Uuid, record': Uuid)
    returns (dek: Bytes, dek': Bytes)
    requires Lawful(suite) && Authenticating(suite) && FaithfulText(suite)
    requires tenant < UUIDS && record < UUIDS && tenant' < UUIDS && record' < UUIDS
    requires ValidRing(ring) && Checked(e).Ok?
    requires Decrypt(suite, ring, e, tenant, record).Ok? && Decrypt(suite, ring, e, tenant', record').Ok?
    requires tenant != tenant' || record != record'
    ensures e.kekVersion in ring.keys
    ensures IsForgery(suite, ring.keys[e.kekVersion], e.wrappedDekNonce,
                      dek, Aad(suite, DEK_WRAP_DOMAIN, tenant, record),
                      dek', Aad(suite, DEK_WRAP_DOMAIN, tenant', record'))
  {
    dek := UnwrapDek(suite, ring, e, tenant, record).value;
    dek' := UnwrapDek(suite, ring, e, tenant', record').value;
    if Aad(suite, DEK_WRAP_DOMAIN, tenant, record) == Aad(suite, DEK_WRAP_DOMAIN, tenant', record') {
      AadBinds(suite, DEK_WRAP_DOMAIN, tenant, record, DEK_WRAP_DOMAIN, tenant', record');
    }
  }

  // ------------------------------------------------------------------ runs

  datatype RecordKey = RecordKey(tenant: Uuid, record: Uuid)

  /** A live envelope, with the plaintext that went into it. */
  datatype Stored = Stored(envelope: CredentialEnvelope, plaintext: Bytes)

  datatype Vault = Vault(ring: Ring, live: map<RecordKey, Stored>)

  datatype VaultStep =
    | AddKey(version: int, key: Bytes, makeActive: bool)
    | ActivateKey(version: int)
    | RemoveKey(version: int)
    | Store(at: RecordKey, plaintext: Bytes, dek: Key, payloadNonce: Nonce, wrapNonce: Nonce)
    | Rotate(at: RecordKey, wrapNonce: Nonce)
    | RotateCompromised(at: RecordKey, dek: Key, payloadNonce: Nonce, wrapNonce: Nonce)
    | Discard(at: RecordKey)

  function LiveEnvelopes(vault: Vault): set<CredentialEnvelope> {
    set at | at in vault.live :: vault.live[at].envelope
  }

  function WithRing(vault: Vault, r: Result<Ring, CredentialError>): Vault {
    match r
    case Ok(ring) => vault.(ring := ring)
    case Err(_) => vault
  }

  function WithEnvelope(
    vault: Vault, at: RecordKey, r: Result<CredentialEnvelope, CredentialError>, plaintext: Bytes): Vault
  {
    match r
    case Ok(envelope) => vault.(live := vault.live[at := Stored(envelope, plaintext)])
    case Err(_) => vault
  }

  function VaultNext(suite: Suite, vault: Vault, step: VaultStep): Vault
    requires ValidRing(vault.ring)
  {
    match step
    case AddKey(version, key, makeActive) => WithRing(vault, AddKek(vault.ring, version, key, makeActive))
    case ActivateKey(version) => WithRing(vault, Activate(vault.ring, version))
    case RemoveKey(version) => WithRing(vault, RemoveKek(vault.ring, version, LiveEnvelopes(vault)))
    case Store(at, plaintext, dek, payloadNonce, wrapNonce) =>
      WithEnvelope(vault, at, Encrypt(suite, vault.ring, plaintext, at.tenant, at.record, dek, payloadNonce, wrapNonce),
                   plaintext)
    case Rotate(at, wrapNonce) =>
      if at !in vault.live then vault
      else
        WithEnvelope(vault, at, RotateKek(suite, vault.ring, vault.live[at].envelope, at.tenant, at.record, wrapNonce),
                     vault.live[at].plaintext)
    case RotateCompromised(at, dek, payloadNonce, wrapNonce) =>
      if at !in vault.live then vault
      else
        WithEnvelope(vault, at,
                     RotateCompromisedKey(suite, vault.ring, vault.live[at].envelope, at.tenant, at.record, dek,
                                          payloadNonce, wrapNonce),
                     vault.live[at].plaintext)
    case Discard(at) => vault.(live := vault.live - {at})
  }

  predicate Decrypts(suite: Suite, ring: Ring, at: RecordKey, stored: Stored)
    requires ValidRing(ring)
  {
    && Checked(stored.envelope).Ok?
    && Decrypt(suite, ring, stored.envelope, at.tenant, at.record) == Ok(stored.plaintext)
  }

  ghost predicate VaultOk(suite: Suite, vault: Vault) {
    && ValidRing(vault.ring)
    && forall at :: at in vault.live ==> Decrypts(suite, vault.ring, at, vault.live[at])
  }

  /** A change of the ring that keeps the key of an envelope keeps the envelope readable. */
  lemma SameKeyStillDecrypts(suite: Suite, ring: Ring, ring': Ring, at: RecordKey, stored: Stored)
    requires ValidRing(ring) && ValidRing(ring') && Decrypts(suite, ring, at, stored)
    requires Lookup(ring'.keys, stored.envelope.kekVersion) == Lookup(ring.keys, stored.envelope.kekVersion)
    ensures Decrypts(suite, ring', at, stored)
  {
  }

  lemma StepKeepsVaultOk(suite: Suite, vault: Vault, step: VaultStep)
    requires Lawful(suite) && VaultOk(suite, vault)
    ensures VaultOk(suite, VaultNext(suite, vault, step))
  {
    match step {
      case Store(at, plaintext, dek, payloadNonce, wrapNonce) =>
        EncryptThenDecrypt(suite, vault.ring, plaintext, at.tenant, at.record, dek, payloadNonce, wrapNonce);
      case Rotate(at, wrapNonce) =>
        if at in vault.live {
          assert Decrypts(suite, vault.ring, at, vault.live[at]);
          RotationKeepsPlaintext(suite, vault.ring, vault.live[at].envelope, at.tenant, at.record, wrapNonce);
        }
      case RotateCompromised(at, dek, payloadNonce, wrapNonce) =>
        if at in vault.live {
          assert Decrypts(suite, vault.ring, at, vault.live[at]);
          EncryptThenDecrypt(suite, vault.ring, vault.live[at].plaintext, at.tenant, at.record, dek, payloadNonce,
                             wrapNonce);
        }
      case Discard(_) =>
      case _ =>
        KeyStepKeepsVaultOk(suite, vault, step);
    }
  }

  lemma KeyStepKeepsVaultOk(suite: Suite, vault: Vault, step: VaultStep)
    requires Lawful(suite) && VaultOk(suite, vault)
    requires step.AddKey? || step.ActivateKey? || step.RemoveKey?
    ensures VaultOk(suite, VaultNext(suite, vault, step))
  {
    var vault' := VaultNext(suite, vault, step);
    forall at | at in vault.live ensures Decrypts(suite, vault'.ring, at, vault.live[at]) {
      assert vault.live[at].envelope in LiveEnvelopes(vault);
      assert Decrypts(suite, vault.ring, at, vault.live[at]);
      SameKeyStillDecrypts(suite, vault.ring, vault'.ring, at, vault.live[at]);
    }
  }

  ghost predicate IsVaultRun(suite: Suite, vaults: seq<Vault>, steps: seq<VaultStep>) {
    && |vaults| == |steps| + 1
    && forall i :: 0 <= i < |steps| ==>
         ValidRing(vaults[i].ring) && vaults[i + 1] == VaultNext(suite, vaults[i], steps[i])
  }

  /** Over any run, every live envelope decrypts under its own tenant and record to what was put in. */
  lemma {:induction false} LiveEnvelopesAlwaysDecrypt(suite: Suite, vaults: seq<Vault>, steps: seq<VaultStep>, n: nat)
    requires Lawful(suite) && IsVaultRun(suite, vaults, steps) && n < |vaults|
    requires VaultOk(suite, vaults[0])
    ensures VaultOk(suite, vaults[n])
  {
    if n > 0 {
      LiveEnvelopesAlwaysDecrypt(suite, vaults, steps, n - 1);
      StepKeepsVaultOk(suite, vaults[n - 1], steps[n - 1]);
    }
  }

  // --------------------------------------------------------- key retirement

  /** Rotates the given records one after the other. */
  function RotateAll(suite: Suite, vault: Vault, records: seq<RecordKey>, wrapNonce: RecordKey -> Nonce): Vault
    requires ValidRing(vault.ring)
    decreases |records|
  {
    if records == [] then vault
    else RotateAll(suite, VaultNext(suite, vault, Rotate(records[0], wrapNonce(records[0]))), records[1..], wrapNonce)
  }

  /** What rotations leave of a live envelope: its plaintext, its payload bytes, and the active key. */
  predicate Kept(ring: Ring, before: Stored, after: Stored, rotated: bool) {
    && after.plaintext == before.plaintext
    && after.envelope.ciphertext == before.envelope.ciphertext
    && (rotated || before.envelope.kekVersion == ring.active ==> after.envelope.kekVersion == ring.active)
  }

  lemma OneRotation(suite: Suite, vault: Vault, at: RecordKey, wrapNonce: Nonce)
    requires Lawful(suite) && VaultOk(suite, vault)
    ensures var vault' := VaultNext(suite, vault, Rotate(at, wrapNonce));
            && vault'.ring == vault.ring && vault'.live.Keys == vault.live.Keys
            && forall other :: other in vault.live ==>
                 Kept(vault.ring, vault.live[other], vault'.live[other], other == at)
  {
    if at in vault.live {
      assert Decrypts(suite, vault.ring, at, vault.live[at]);
      RotationKeepsPlaintext(suite, vault.ring, vault.live[at].envelope, at.tenant, at.record, wrapNonce);
    }
  }

  lemma {:induction false} RotateAllMovesToActive(
    suite: Suite, vault: Vault, records: seq<RecordKey>, wrapNonce: RecordKey -> Nonce)
    requires Lawful(suite) && VaultOk(suite, vault)
    ensures var vault' := RotateAll(suite, vault, records, wrapNonce);
            && VaultOk(suite, vault') && vault'.ring == vault.ring && vault'.live.Keys == vault.live.Keys
            && forall at :: at in vault.live ==>
                 Kept(vault.ring, vault.live[at], vault'.live[at], at in records)
    decreases |records|
  {
    if records == [] {
    } else {
      var at := records[0];
      var next := VaultNext(suite, vault, Rotate(at, wrapNonce(at)));
      StepKeepsVaultOk(suite, vault, Rotate(at, wrapNonce(at)));
      OneRotation(suite, vault, at, wrapNonce(at));
      RotateAllMovesToActive(suite, next, records[1..], wrapNonce);
      var last := RotateAll(suite, vault, records, wrapNonce);
      forall other | other in vault.live
        ensures Kept(vault.ring, vault.live[other], last.live[other], other in records)
      {
        assert Kept(vault.ring, vault.live[other], next.live[other], other == at);
        assert Kept(vault.ring, next.live[other], last.live[other], other in records[1..]);
      }
    }
  }

  /** Once every live record has been rotated, every key but the active one can be removed. */
  lemma RotatedKeysAreRemovable(
    suite: Suite, vault: Vault, records: seq<RecordKey>, wrapNonce: RecordKey -> Nonce, version: int)
    requires Lawful(suite) && VaultOk(suite, vault)
    requires forall at :: at in vault.live ==> at in records
    ensures var vault' := RotateAll(suite, vault, records, wrapNonce);
            RemoveKek(vault'.ring, version, LiveEnvelopes(vault')).Ok?
            <==> version in vault.ring.keys && version != vault.ring.active
  {
    RotateAllMovesToActive(suite, vault, records, wrapNonce);
    var vault' := RotateAll(suite, vault, records, wrapNonce);
    forall at | at in vault.live ensures vault'.live[at].envelope.kekVersion == vault.ring.active {
      assert Kept(vault.ring, vault.live[at], vault'.live[at], at in records);
    }
  }
}
