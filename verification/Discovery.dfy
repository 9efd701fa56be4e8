/** ingest_bundle of apps/inventory/discovery.py and instantiate_detector_rules of
    apps/policies/detector_mappings.py, for one organization. */
module Discovery {
  import opened Prelude
  import opened Contract
  import M = Matching

  // ------------------------------------------------------------------ tables

  datatype Product = Product(vendorName: string, name: string)

  datatype Catalog = Catalog(
    products: map<Uuid, Product>, identifiers: seq<M.ProductIdentifier>, canonicalize: M.Canonicalize)

  /** The order of the constructors is the order of the stored texts. */
  datatype SourceType = Csv | Discovered | Manual

  /** The discovery fingerprint digests the product id; the product id stands for it. */
  datatype Item = Item(
    id: Uuid, product: Option<Uuid>, sourceType: SourceType, discoveryFingerprint: Option<Uuid>, archived: bool,
    displayName: string, vendorName: string)

  datatype DetectorRuleMapping = DetectorRuleMapping(
    mappingId: string, mappingVersion: string, detectorId: string, detectorVersion: string,
    vendorName: string, productName: string)

  /** What the generation fingerprint digests, the organization and the registry version aside. */
  datatype RuleKey = RuleKey(
    mappingId: string, mappingVersion: string, detectorId: string, detectorVersion: string, productId: Uuid)

  datatype DetectorRule = DetectorRule(
    id: Uuid, generationFingerprint: RuleKey, sourceInventoryItem: Uuid, createdBy: Uuid)

  datatype Scan = Scan(id: Uuid, scanHash: string)

  datatype ReconciliationStatus = Reconciled | NeedsReview | NotKnown

  datatype Outcome = Outcome(
    status: ReconciliationStatus, reason: string, identifierType: string, product: Option<Uuid>, item: Option<Uuid>,
    createdRules: seq<Uuid>)

  datatype Evidence = Evidence(
    scan: Uuid, fingerprint: Identity, evidenceHash: string, status: ReconciliationStatus, reason: string,
    identifierType: string, product: Option<Uuid>, item: Option<Uuid>)

  /** The audit events of an ingest. */
  datatype DiscoveryEvent =
    | DiscoveryCompleted(scan: Uuid, observations: nat, reconciled: nat, review: nat, unknown: nat)
    | ReconciliationAccepted(scan: Uuid, items: set<Uuid>, createdRules: set<Uuid>)

  datatype Inventory = Inventory(
    used: set<Uuid>, items: seq<Item>, rules: seq<DetectorRule>, scans: seq<Scan>, evidence: seq<Evidence>,
    events: seq<DiscoveryEvent>)

  const EMPTY_INVENTORY := Inventory({}, [], [], [], [], [])

  /** Everything outside the organization's own tables: the catalog, the mapping registry, a source of identifiers
      that are not in use, and the user who acts. */
  datatype Env = Env(
    catalog: Catalog, mappings: seq<DetectorRuleMapping>, draw: set<Uuid> -> Uuid, createdBy: Option<Uuid>)

  /** The foreign key of the catalog's identifiers, and identifiers that are fresh when drawn. */
  ghost predicate EnvOk(env: Env) {
    && (forall row :: row in env.catalog.identifiers ==> row.productId in env.catalog.products)
    && (forall used: set<Uuid> :: env.draw(used) !in used)
  }

  datatype IngestError = InvalidBundle(error: EvidenceError) | IntegrityError

  // ----------------------------------------------------------------- queries

  predicate ItemLe(a: Item, b: Item) {
    SourceRank(a.sourceType) < SourceRank(b.sourceType) || (a.sourceType == b.sourceType && a.id <= b.id)
  }

  function SourceRank(t: SourceType): nat {
    match t
    case Csv => 0
    case Discovered => 1
    case Manual => 2
  }

  function ActiveItemOf(product: Uuid): Item -> bool {
    (item: Item) => item.product == Some(product) && !item.archived
  }

  /** The active items of a product, by source type and then by id. */
  function SelectActive(items: seq<Item>, product: Uuid): seq<Item> {
    Sort(Filter(items, ActiveItemOf(product)), ItemLe)
  }

  function HasFingerprint(product: Uuid): Item -> bool {
    (item: Item) => item.discoveryFingerprint == Some(product)
  }

  function SelectDiscovered(items: seq<Item>, product: Uuid): seq<Item> {
    Filter(items, HasFingerprint(product))
  }

  predicate HasRule(rules: seq<DetectorRule>, key: RuleKey) {
    exists i :: 0 <= i < |rules| && rules[i].generationFingerprint == key
  }

  predicate HasScan(scans: seq<Scan>, scanHash: string) {
    exists i :: 0 <= i < |scans| && scans[i].scanHash == scanHash
  }

  function AppliesTo(detectorId: string, detectorVersion: string, product: Product): DetectorRuleMapping -> bool {
    (mapping: DetectorRuleMapping) =>
      && mapping.detectorId == detectorId && mapping.detectorVersion == detectorVersion
      && mapping.vendorName == product.vendorName && mapping.productName == product.name
  }

  function ApplicableMappings(
    mappings: seq<DetectorRuleMapping>, detectorId: string, detectorVersion: string, product: Product)
    : seq<DetectorRuleMapping>
  {
    Filter(mappings, AppliesTo(detectorId, detectorVersion, product))
  }

  function KeyOf(mapping: DetectorRuleMapping, product: Uuid): RuleKey {
    RuleKey(mapping.mappingId, mapping.mappingVersion, mapping.detectorId, mapping.detectorVersion, product)
  }

  // ---------------------------------------------------------- reconciliation

  /** get_or_create on the generation fingerprint. A new rule needs a user: created_by is not nullable. */
  function EnsureRule(env: Env, inv: Inventory, item: Uuid, product: Uuid, mapping: DetectorRuleMapping)
    : Result<(Inventory, seq<Uuid>), IngestError>
  {
    if HasRule(inv.rules, KeyOf(mapping, product)) then Ok((inv, []))
    else if env.createdBy.None? then Err(IntegrityError)
    else
      var id := env.draw(inv.used);
      Ok((inv.(used := inv.used + {id},
               rules := inv.rules + [DetectorRule(id, KeyOf(mapping, product), item, env.createdBy.value)]), [id]))
  }

  function EnsureRules(env: Env, inv: Inventory, item: Uuid, product: Uuid, mappings: seq<DetectorRuleMapping>)
    : Result<(Inventory, seq<Uuid>), IngestError>
  {
    if mappings == [] then Ok((inv, []))
    else
      match EnsureRules(env, inv, item, product, mappings[..|mappings| - 1])
      case Err(error) => Err(error)
      case Ok((inv', created)) =>
        match EnsureRule(env, inv', item, product, mappings[|mappings| - 1])
        case Err(error) => Err(error)
        case Ok((inv'', more)) => Ok((inv'', created + more))
  }

  /** The item of a product: the first active one, or else the one that discovery made, or else a new one. */
  function EnsureItem(env: Env, inv: Inventory, product: Uuid): (Inventory, Item)
    requires product in env.catalog.products
  {
    var active := SelectActive(inv.items, product);
    if active != [] then (inv, active[0])
    else
      var discovered := SelectDiscovered(inv.items, product);
      if discovered != [] then (inv, discovered[0])
      else
        var id := env.draw(inv.used);
        var row := env.catalog.products[product];
        var item := Item(id, Some(product), Discovered, Some(product), false, row.name, row.vendorName);
        (inv.(used := inv.used + {id}, items := inv.items + [item]), item)
  }

  /** The rules follow the product of the item, which need not be the matched one. */
  function EnsureRulesOfItem(env: Env, inv: Inventory, item: Item, record: Record)
    : Result<(Inventory, seq<Uuid>), IngestError>
  {
    match item.product
    case None => Ok((inv, []))
    case Some(product) =>
      if product !in env.catalog.products then Ok((inv, []))
      else
        EnsureRules(env, inv, item.id, product,
          ApplicableMappings(env.mappings, record.detectorId, record.detectorVersion, env.catalog.products[product]))
  }

  function NameCandidate(record: Record): M.CandidateIdentifier {
    M.CandidateIdentifier("product_name", record.rawIdentifier, None)
  }

  function Unmatched(m: M.CatalogMatch): Outcome {
    Outcome(if m.status == M.Review then NeedsReview else NotKnown, m.reason, "", None, None, [])
  }

  function ReconcileMatch(env: Env, inv: Inventory, record: Record, m: M.CatalogMatch)
    : Result<(Inventory, Outcome), IngestError>
    requires m.status == M.Known ==>
               m.productId.Some? && m.identifierType.Some? && m.productId.value in env.catalog.products
  {
    if m.status != M.Known then Ok((inv, Unmatched(m)))
    else
      var (inv', item) := EnsureItem(env, inv, m.productId.value);
      match EnsureRulesOfItem(env, inv', item, record)
      case Err(error) => Err(error)
      case Ok((inv'', created)) =>
        Ok((inv'', Outcome(Reconciled, m.reason, m.identifierType.value, m.productId, Some(item.id), created)))
  }

  /** The result of match_product on the name that a record carries. */
  ghost function NameMatch(env: Env, record: Record): M.CatalogMatch {
    var products := M.BestProducts(env.catalog.identifiers, env.catalog.canonicalize, [NameCandidate(record)]);
    if products == {} then M.CatalogMatch(M.Unknown, None, None, M.NO_MATCH)
    else if |products| > 1 then M.CatalogMatch(M.Review, None, None, M.CONFLICTING)
    else
      var product :| product in products;
      M.CatalogMatch(M.Known, Some(product), Some("product_name"), M.EXACT)
  }

  lemma NameMatchIsTheMatch(env: Env, record: Record, m: M.CatalogMatch)
    requires M.IsMatch(env.catalog.identifiers, env.catalog.canonicalize, [NameCandidate(record)], m)
    ensures m == NameMatch(env, record)
  {
    var candidates := [NameCandidate(record)];
    var products := M.BestProducts(env.catalog.identifiers, env.catalog.canonicalize, candidates);
    if m.status == M.Known {
      assert m.productId.value in products;
      var tier: nat :| m.identifierType == M.FirstType(env.catalog.identifiers, env.catalog.canonicalize,
                                             M.NormalizedOf(env.catalog.canonicalize, candidates), tier);
      OnlyType(env, record, tier);
    }
  }

  lemma OnlyType(env: Env, record: Record, tier: nat)
    ensures var t := M.FirstType(env.catalog.identifiers, env.catalog.canonicalize,
                                 M.NormalizedOf(env.catalog.canonicalize, [NameCandidate(record)]), tier);
            t.Some? ==> t == Some("product_name")
  {
    var normalized := M.NormalizedOf(env.catalog.canonicalize, [NameCandidate(record)]);
    M.TypeOfSomeCandidate(env.catalog.identifiers, env.catalog.canonicalize, normalized, tier);
    M.NormalizedMembers(env.catalog.canonicalize, [NameCandidate(record)]);
    forall k | 0 <= k < |normalized| ensures normalized[k].candidate == NameCandidate(record) {
      assert normalized[k] in normalized;
    }
  }

  /** The matched product exists. */
  lemma MatchIsListed(env: Env, record: Record)
    requires EnvOk(env)
    ensures var m := NameMatch(env, record);
            m.status == M.Known ==>
              m.productId.Some? && m.identifierType.Some? && m.productId.value in env.catalog.products
  {
    var tiers := M.Tiers(env.catalog.identifiers, env.catalog.canonicalize, [NameCandidate(record)]);
    var best := M.BestTier(tiers, 1);
    assert best <= M.LAST_PRIORITY ==>
        M.BestFrom(tiers, 1) == M.TierProducts(env.catalog.identifiers, env.catalog.canonicalize,
                                               [NameCandidate(record)], best);
  }

  ghost function Reconcile(env: Env, inv: Inventory, record: Record): Result<(Inventory, Outcome), IngestError>
    requires EnvOk(env)
  {
    MatchIsListed(env, record);
    ReconcileMatch(env, inv, record, NameMatch(env, record))
  }

  ghost function ReconcileAll(env: Env, inv: Inventory, records: seq<Record>)
    : (r: Result<(Inventory, seq<Outcome>), IngestError>)
    requires EnvOk(env)
    ensures r.Ok? ==> |r.value.1| == |records|
  {
    if records == [] then Ok((inv, []))
    else
      match ReconcileAll(env, inv, records[..|records| - 1])
      case Err(error) => Err(error)
      case Ok((inv', outcomes)) =>
        match Reconcile(env, inv', records[|records| - 1])
        case Err(error) => Err(error)
        case Ok((inv'', outcome)) => Ok((inv'', outcomes + [outcome]))
  }

  function EvidenceOf(scan: Uuid, record: Record, outcome: Outcome): Evidence {
    Evidence(scan, Fingerprint(record), record.evidenceHash, outcome.status, outcome.reason, outcome.identifierType,
             outcome.product, outcome.item)
  }

  function EvidenceRows(scan: Uuid, records: seq<Record>, outcomes: seq<Outcome>): seq<Evidence>
    requires |records| == |outcomes|
  {
    seq(|records|, i requires 0 <= i < |records| => EvidenceOf(scan, records[i], outcomes[i]))
  }

  lemma EvidenceRowsGrow(
    scan: Uuid, records: seq<Record>, outcomes: seq<Outcome>, record: Record, outcome: Outcome)
    requires |records| == |outcomes|
    ensures EvidenceRows(scan, records + [record], outcomes + [outcome])
         == EvidenceRows(scan, records, outcomes) + [EvidenceOf(scan, record, outcome)]
  {
  }

  function HasStatus(status: ReconciliationStatus): Outcome -> bool {
    (outcome: Outcome) => outcome.status == status
  }

  function CountStatus(outcomes: seq<Outcome>, status: ReconciliationStatus): nat {
    |Filter(outcomes, HasStatus(status))|
  }

  function ReconciledItems(outcomes: seq<Outcome>): set<Uuid> {
    set outcome | outcome in outcomes && outcome.item.Some? :: outcome.item.value
  }

  function CreatedRules(outcomes: seq<Outcome>): set<Uuid> {
    set outcome, id | outcome in outcomes && id in outcome.createdRules :: id
  }

  /** What the record loop counts and collects. */
  datatype Tally = Tally(reconciled: nat, review: nat, unknown: nat, items: set<Uuid>, createdRules: set<Uuid>)

  function TallyOf(outcomes: seq<Outcome>): Tally {
    Tally(CountStatus(outcomes, Reconciled), CountStatus(outcomes, NeedsReview), CountStatus(outcomes, NotKnown),
          ReconciledItems(outcomes), CreatedRules(outcomes))
  }

  function EventsOf(scan: Uuid, observations: nat, tally: Tally): seq<DiscoveryEvent> {
    [DiscoveryCompleted(scan, observations, tally.reconciled, tally.review, tally.unknown)]
    + if tally.items == {} then [] else [ReconciliationAccepted(scan, tally.items, tally.createdRules)]
  }

  /** One round of the record loop. */
  method CountOutcome(tally: Tally, outcome: Outcome, ghost outcomes: seq<Outcome>) returns (next: Tally)
    requires tally == TallyOf(outcomes)
    ensures next == TallyOf(outcomes + [outcome])
  {
    next := tally;
    match outcome.status {
      case Reconciled => next := next.(reconciled := next.reconciled + 1);
      case NeedsReview => next := next.(review := next.review + 1);
      case NotKnown => next := next.(unknown := next.unknown + 1);
    }
    if outcome.item.Some? {
      next := next.(items := next.items + {outcome.item.value});
    }
    next := next.(createdRules := next.createdRules + set id | id in outcome.createdRules);
    assert (outcomes + [outcome])[..|outcomes|] == outcomes;
  }

  function AddScan(env: Env, inv: Inventory, bundle: Bundle): (Inventory, Uuid) {
    var id := env.draw(inv.used);
    (inv.(used := inv.used + {id}, scans := inv.scans + [Scan(id, bundle.scanId)]), id)
  }

  /** A bundle that was ingested before changes nothing; otherwise everything is stored, or nothing is. */
  ghost function Ingest(env: Env, inv: Inventory, bundle: Bundle): Result<(Inventory, bool), IngestError>
    requires EnvOk(env)
  {
    if HasScan(inv.scans, bundle.scanId) then Ok((inv, false))
    else
      var (inv', scan) := AddScan(env, inv, bundle);
      match ReconcileAll(env, inv', bundle.evidence)
      case Err(error) => Err(error)
      case Ok((inv'', outcomes)) =>
        Ok((inv''.(evidence := inv''.evidence + EvidenceRows(scan, bundle.evidence, outcomes),
                   events := inv''.events + EventsOf(scan, |outcomes|, TallyOf(outcomes))), true))
  }

  lemma {:induction false} ReconcileAllStopsAtError(env: Env, inv: Inventory, records: seq<Record>, k: nat)
    requires EnvOk(env) && k <= |records|
    requires ReconcileAll(env, inv, records[..k]).Err?
    ensures ReconcileAll(env, inv, records) == ReconcileAll(env, inv, records[..k])
  {
    if k == |records| {
      assert records[..k] == records;
    } else {
      var init := records[..|records| - 1];
      assert init[..k] == records[..k];
      ReconcileAllStopsAtError(env, inv, init, k);
    }
  }

  lemma {:induction false} EnsureRulesStopsAtError(
    env: Env, inv: Inventory, item: Uuid, product: Uuid, mappings: seq<DetectorRuleMapping>, k: nat)
    requires k <= |mappings|
    requires EnsureRules(env, inv, item, product, mappings[..k]).Err?
    ensures EnsureRules(env, inv, item, product, mappings) == EnsureRules(env, inv, item, product, mappings[..k])
  {
    if k == |mappings| {
      assert mappings[..k] == mappings;
    } else {
      var init := mappings[..|mappings| - 1];
      assert init[..k] == mappings[..k];
      EnsureRulesStopsAtError(env, inv, item, product, init, k);
    }
  }

  // --------------------------------------------------------------- the store

  class InventoryStore {
    var used: set<Uuid>
    var items: seq<Item>
    var rules: seq<DetectorRule>
    var scans: seq<Scan>
    var evidence: seq<Evidence>
    var events: seq<DiscoveryEvent>

    constructor ()
      ensures Contents() == EMPTY_INVENTORY
    {
      used, items, rules, scans, evidence, events := {}, [], [], [], [], [];
    }

    ghost function Contents(): Inventory
      reads this
    {
      Inventory(used, items, rules, scans, evidence, events)
    }

    method InstantiateDetectorRules(env: Env, item: Item, record: Record)
      returns (r: Result<seq<Uuid>, IngestError>)
      modifies this
      ensures match EnsureRulesOfItem(env, old(Contents()), item, record)
              case Ok((inv, created)) => Contents() == inv && r == Ok(created)
              case Err(error) => r == Err(error)
    {
      if item.product.None? || item.product.value !in env.catalog.products {
        return Ok([]);
      }
      var product := item.product.value;
      var mappings := ApplicableMappings(env.mappings, record.detectorId, record.detectorVersion,
                                         env.catalog.products[product]);
      var created: seq<Uuid> := [];
      for i := 0 to |mappings|
        invariant EnsureRules(env, old(Contents()), item.id, product, mappings[..i]) == Ok((Contents(), created))
      {
        assert mappings[..i + 1][..i] == mappings[..i];
        var key := KeyOf(mappings[i], product);
        if !HasRule(rules, key) {
          if env.createdBy.None? {
            EnsureRulesStopsAtError(env, old(Contents()), item.id, product, mappings, i + 1);
            return Err(IntegrityError);
          }
          var id := env.draw(used);
          used := used + {id};
          rules := rules + [DetectorRule(id, key, item.id, env.createdBy.value)];
          created := created + [id];
        } else {
          assert created + [] == created;
        }
      }
      assert mappings[..|mappings|] == mappings;
      return Ok(created);
    }

    method FindOrCreateItem(env: Env, product: Uuid) returns (item: Item)
      requires product in env.catalog.products
      modifies this
      ensures (Contents(), item) == EnsureItem(env, old(Contents()), product)
    {
      var active := SelectActive(items, product);
      if active != [] {
        return active[0];
      }
      var discovered := SelectDiscovered(items, product);
      if discovered != [] {
        return discovered[0];
      }
      var id := env.draw(used);
      var row := env.catalog.products[product];
      item := Item(id, Some(product), Discovered, Some(product), false, row.name, row.vendorName);
      used := used + {id};
      items := items + [item];
    }

    method ReconcileRecord(env: Env, record: Record) returns (r: Result<Outcome, IngestError>)
      requires EnvOk(env)
      modifies this
      ensures match Reconcile(env, old(Contents()), record)
              case Ok((inv, outcome)) => Contents() == inv && r == Ok(outcome)
              case Err(error) => r == Err(error)
    {
      var m := M.MatchProduct(env.catalog.identifiers, env.catalog.canonicalize, [NameCandidate(record)]);
      NameMatchIsTheMatch(env, record, m);
      MatchIsListed(env, record);
      if m.status != M.Known {
        return Ok(Unmatched(m));
      }
      var item := FindOrCreateItem(env, m.productId.value);
      var created := InstantiateDetectorRules(env, item, record);
      if created.Err? {
        return Err(created.error);
      }
      return Ok(Outcome(Reconciled, m.reason, m.identifierType.value, m.productId, Some(item.id), created.value));
    }

    /** The loop over the records of a new scan. */
    method ReconcileRecords(env: Env, scan: Uuid, records: seq<Record>)
      returns (r: Result<(seq<Evidence>, seq<DiscoveryEvent>), IngestError>)
      requires EnvOk(env)
      modifies this
      ensures match ReconcileAll(env, old(Contents()), records)
              case Ok((inv, outcomes)) =>
                && Contents() == inv
                && r == Ok((EvidenceRows(scan, records, outcomes), EventsOf(scan, |outcomes|, TallyOf(outcomes))))
              case Err(error) => r == Err(error)
    {
      ghost var outcomes: seq<Outcome> := [];
      var tally := Tally(0, 0, 0, {}, {});
      var rows: seq<Evidence> := [];
      for i := 0 to |records|
        invariant ReconcileAll(env, old(Contents()), records[..i]) == Ok((Contents(), outcomes))
        invariant |outcomes| == i && rows == EvidenceRows(scan, records[..i], outcomes)
        invariant tally == TallyOf(outcomes)
      {
        assert records[..i + 1][..i] == records[..i];
        var attempt := ReconcileRecord(env, records[i]);
        if attempt.Err? {
          ReconcileAllStopsAtError(env, old(Contents()), records, i + 1);
          return Err(attempt.error);
        }
        tally := CountOutcome(tally, attempt.value, outcomes);
        EvidenceRowsGrow(scan, records[..i], outcomes, records[i], attempt.value);
        rows := rows + [EvidenceOf(scan, records[i], attempt.value)];
        outcomes := outcomes + [attempt.value];
        assert records[..i + 1] == records[..i] + [records[i]];
      }
      assert records[..|records|] == records;
      return Ok((rows, EventsOf(scan, |rows|, tally)));
    }

    /** Ingests a bundle in one transaction. An error leaves everything as it was. */
    method IngestBundle(env: Env, digests: Digests, bundle: Bundle) returns (r: Result<bool, IngestError>)
      requires EnvOk(env)
      modifies this
      ensures !ValidBundle(digests, bundle) ==> r.Err? && r.error.InvalidBundle? && Contents() == old(Contents())
      ensures ValidBundle(digests, bundle) ==>
                match Ingest(env, old(Contents()), bundle)
                case Ok((inv, created)) => Contents() == inv && r == Ok(created)
                case Err(error) => Contents() == old(Contents()) && r == Err(error)
    {
      var invalid := ValidateBundle(digests, bundle);
      if invalid.Some? {
        return Err(InvalidBundle(invalid.value));
      }
      if HasScan(scans, bundle.scanId) {
        return Ok(false);
      }
      var used0, items0, rules0, scans0, evidence0, events0 := used, items, rules, scans, evidence, events;
      var scan := env.draw(used);
      used := used + {scan};
      scans := scans + [Scan(scan, bundle.scanId)];
      var written := ReconcileRecords(env, scan, bundle.evidence);
      if written.Err? {
        used, items, rules, scans, evidence, events := used0, items0, rules0, scans0, evidence0, events0;
        return Err(written.error);
      }
      evidence := evidence + written.value.0;
      events := events + written.value.1;
      return Ok(true);
    }

    /** archive_inventory_item_action: every row with this id, of which there is one. */
    method ArchiveItem(id: Uuid)
      modifies this
      ensures Contents() == old(Contents()).(items := Archive(old(items), id))
      ensures |items| == |old(items)|
      ensures forall i :: 0 <= i < |items| ==>
                && items[i].archived == (old(items)[i].archived || old(items)[i].id == id)
                && items[i].(archived := old(items)[i].archived) == old(items)[i]
    {
      items := Archive(items, id);
    }
  }

  function ArchiveIf(item: Item, id: Uuid): Item {
    if item.id == id then item.(archived := true) else item
  }

  function Archive(items: seq<Item>, id: Uuid): seq<Item> {
    seq(|items|, i requires 0 <= i < |items| => ArchiveIf(items[i], id))
  }
}
