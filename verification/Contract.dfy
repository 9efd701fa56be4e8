/** The record loop of validate_bundle in collector/contract.py, on a bundle whose JSON has the right fields and
    types. */
module Contract {
  import opened Prelude

  const DETECTOR_ID := "windows.installed_programs"
  const DETECTOR_VERSION := "1"
  const EVIDENCE_TYPE := "installed_program"
  const MAX_EVIDENCE := 2000
  const MAX_TEXT := 512

  datatype Record = Record(
    detectorId: string, detectorVersion: string, observedAt: string, evidenceType: string, evidenceLocator: string,
    rawIdentifier: string, version: string, publisher: string, evidenceHash: string)

  datatype Coverage = Complete | Partial | Unsupported

  datatype Bundle = Bundle(
    collectorVersion: string, deviceId: Uuid, observedAt: string, coverage: Coverage, evidence: seq<Record>,
    scanId: string)

  /** What identifies an observation: the fields that the fingerprint digests. */
  datatype Identity = Identity(detectorId: string, evidenceType: string, evidenceLocator: string, rawIdentifier: string)

  function Fingerprint(record: Record): Identity {
    Identity(record.detectorId, record.evidenceType, record.evidenceLocator, record.rawIdentifier)
  }

  /** The digests of a record without its evidence_hash, and of a bundle without its scan_id. */
  datatype Digests = Digests(record: Record -> string, bundle: Bundle -> string)

  datatype EvidenceError =
    | TooManyRecords
    | UnacceptableText
    | UnsupportedDetector
    | InconsistentTime
    | MissingIdentifier
    | UnsupportedSource
    | EvidenceHashMismatch
    | DuplicateObservation
    | CoverageContradiction
    | BundleHashMismatch

  function Texts(record: Record): seq<string> {
    [record.detectorId, record.detectorVersion, record.observedAt, record.evidenceType, record.evidenceLocator,
     record.rawIdentifier, record.version, record.publisher, record.evidenceHash]
  }

  /** Two records observe the same thing exactly when these four fields agree. */
  lemma SameObservation(a: Record, b: Record)
    ensures Fingerprint(a) == Fingerprint(b) <==>
              && a.detectorId == b.detectorId && a.evidenceType == b.evidenceType
              && a.evidenceLocator == b.evidenceLocator && a.rawIdentifier == b.rawIdentifier
  {
  }

  /** Every text of the record is looked at. */
  lemma AllTexts(record: Record, text: string)
    ensures text in Texts(record) <==>
              text in {record.detectorId, record.detectorVersion, record.observedAt, record.evidenceType,
                       record.evidenceLocator, record.rawIdentifier, record.version, record.publisher,
                       record.evidenceHash}
  {
  }

  predicate StartsWith(s: string, prefix: string) {
    |prefix| <= |s| && s[..|prefix|] == prefix
  }

  /** Bounded, and free of control characters. */
  predicate AcceptableText(text: string) {
    |text| <= MAX_TEXT && forall c :: c in text ==> c as int >= 32
  }

  /** The checks of one record, but for its being a duplicate. */
  predicate WellFormed(digests: Digests, observedAt: string, record: Record) {
    && (forall text :: text in Texts(record) ==> AcceptableText(text))
    && record.detectorId == DETECTOR_ID
    && record.detectorVersion == DETECTOR_VERSION
    && record.evidenceType == EVIDENCE_TYPE
    && record.observedAt == observedAt
    && Strip(record.rawIdentifier) != ""
    && (StartsWith(record.evidenceLocator, "HKLM/") || StartsWith(record.evidenceLocator, "HKCU/"))
    && record.evidenceHash == digests.record(record)
  }

  ghost predicate DistinctObservations(records: seq<Record>) {
    forall i, j :: 0 <= i < j < |records| ==> Fingerprint(records[i]) != Fingerprint(records[j])
  }

  ghost predicate ValidBundle(digests: Digests, bundle: Bundle) {
    && |bundle.evidence| <= MAX_EVIDENCE
    && (forall i :: 0 <= i < |bundle.evidence| ==> WellFormed(digests, bundle.observedAt, bundle.evidence[i]))
    && DistinctObservations(bundle.evidence)
    && (bundle.coverage == Unsupported ==> bundle.evidence == [])
    && bundle.scanId == digests.bundle(bundle)
  }

  /** The first check that a record fails. */
  method CheckRecord(digests: Digests, observedAt: string, record: Record) returns (error: Option<EvidenceError>)
    ensures error.None? <==> WellFormed(digests, observedAt, record)
    ensures error == Some(EvidenceHashMismatch) ==> record.evidenceHash != digests.record(record)
    ensures error != Some(DuplicateObservation)
  {
    if exists text :: text in Texts(record) && !AcceptableText(text) { return Some(UnacceptableText); }
    if record.detectorId != DETECTOR_ID || record.detectorVersion != DETECTOR_VERSION
       || record.evidenceType != EVIDENCE_TYPE
    {
      return Some(UnsupportedDetector);
    }
    if record.observedAt != observedAt { return Some(InconsistentTime); }
    if Strip(record.rawIdentifier) == "" { return Some(MissingIdentifier); }
    if !StartsWith(record.evidenceLocator, "HKLM/") && !StartsWith(record.evidenceLocator, "HKCU/") {
      return Some(UnsupportedSource);
    }
    if record.evidenceHash != digests.record(record) { return Some(EvidenceHashMismatch); }
    return None;
  }

  /** The observations so far are distinct, and these are their identities. */
  ghost predicate Seen(records: seq<Record>, seen: set<Identity>) {
    && DistinctObservations(records)
    && seen == set record | record in records :: Fingerprint(record)
  }

  lemma SeenGrows(records: seq<Record>, i: nat, seen: set<Identity>)
    requires i < |records| && Seen(records[..i], seen)
    ensures Fingerprint(records[i]) in seen ==> !DistinctObservations(records)
    ensures Fingerprint(records[i]) !in seen ==> Seen(records[..i + 1], seen + {Fingerprint(records[i])})
  {
    var init, last := records[..i], records[i];
    assert records[..i + 1] == init + [last];
    if Fingerprint(last) in seen {
      var record :| record in init && Fingerprint(record) == Fingerprint(last);
      var k :| 0 <= k < i && init[k] == record;
      assert records[k] == record;
    } else {
      forall k | 0 <= k < i ensures Fingerprint(init[k]) != Fingerprint(last) {
        assert init[k] in init;
      }
    }
  }

  /** A bundle is accepted exactly when all its records are well formed and no two observe the same thing, its
      coverage allows them, and its hashes are right. */
  method ValidateBundle(digests: Digests, bundle: Bundle) returns (error: Option<EvidenceError>)
    ensures error.None? <==> ValidBundle(digests, bundle)
    ensures error == Some(DuplicateObservation) ==> !DistinctObservations(bundle.evidence)
  {
    var records := bundle.evidence;
    if |records| > MAX_EVIDENCE { return Some(TooManyRecords); }
    var seen: set<Identity> := {};
    for i := 0 to |records|
      invariant forall k :: 0 <= k < i ==> WellFormed(digests, bundle.observedAt, records[k])
      invariant Seen(records[..i], seen)
    {
      var failed := CheckRecord(digests, bundle.observedAt, records[i]);
      if failed.Some? { return failed; }
      var identity := Fingerprint(records[i]);
      SeenGrows(records, i, seen);
      if identity in seen { return Some(DuplicateObservation); }
      seen := seen + {identity};
    }
    assert records[..|records|] == records;
    if bundle.coverage == Unsupported && records != [] { return Some(CoverageContradiction); }
    if bundle.scanId != digests.bundle(bundle) { return Some(BundleHashMismatch); }
    return None;
  }
}
