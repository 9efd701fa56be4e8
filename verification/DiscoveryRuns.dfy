/** What holds of an organization's inventory after any run of ingests, archivings and additions by people. */
module DiscoveryRuns {
  import opened Prelude
  import opened Contract
  import opened Discovery
  import M = Matching

  datatype Step =
    | IngestStep(env: Env, digests: Digests, bundle: Bundle)
    | ArchiveStep(id: Uuid)
    | AddStep(item: Item)

  /** Ingest rolls back on an error. People add items that carry no discovery fingerprint. */
  ghost predicate InventoryNext(inv: Inventory, step: Step, inv': Inventory) {
    match step
    case IngestStep(env, digests, bundle) =>
      && EnvOk(env)
      && inv' == if ValidBundle(digests, bundle) && Ingest(env, inv, bundle).Ok? then
                   Ingest(env, inv, bundle).value.0
                 else inv
    case ArchiveStep(id) => inv' == inv.(items := Archive(inv.items, id))
    case AddStep(item) =>
      && item.id !in inv.used && item.sourceType != Discovered && item.discoveryFingerprint.None?
      && inv' == inv.(used := inv.used + {item.id}, items := inv.items + [item])
  }

  ghost predicate Run(states: seq<Inventory>, steps: seq<Step>) {
    && |states| == |steps| + 1
    && forall i :: 0 <= i < |steps| ==> InventoryNext(states[i], steps[i], states[i + 1])
  }

  // --------------------------------------------------------------- invariant

  ghost predicate ItemOk(item: Item) {
    && (item.sourceType == Discovered <==> item.discoveryFingerprint.Some?)
    && (item.discoveryFingerprint.Some? ==> item.product == item.discoveryFingerprint)
  }

  ghost predicate ItemsOk(items: seq<Item>, used: set<Uuid>) {
    && (forall i :: 0 <= i < |items| ==> ItemOk(items[i]) && items[i].id in used)
    && (forall i, j :: 0 <= i < j < |items| ==> items[i].id != items[j].id)
    && (forall i, j :: 0 <= i < j < |items| && items[i].discoveryFingerprint.Some? ==>
          items[i].discoveryFingerprint != items[j].discoveryFingerprint)
  }

  ghost predicate PointsTo(items: seq<Item>, id: Uuid, product: Uuid) {
    exists k :: 0 <= k < |items| && items[k].id == id && items[k].product == Some(product)
  }

  ghost predicate RuleOk(items: seq<Item>, rule: DetectorRule) {
    PointsTo(items, rule.sourceInventoryItem, rule.generationFingerprint.productId)
  }

  ghost predicate RulesOk(rules: seq<DetectorRule>, items: seq<Item>) {
    && (forall i :: 0 <= i < |rules| ==> RuleOk(items, rules[i]))
    && (forall i, j :: 0 <= i < j < |rules| ==> rules[i].generationFingerprint != rules[j].generationFingerprint)
  }

  ghost predicate ScansOk(scans: seq<Scan>, used: set<Uuid>) {
    && (forall i :: 0 <= i < |scans| ==> scans[i].id in used)
    && (forall i, j :: 0 <= i < j < |scans| ==> scans[i].id != scans[j].id && scans[i].scanHash != scans[j].scanHash)
  }

  ghost predicate OutcomeOk(items: seq<Item>, outcome: Outcome) {
    && (outcome.status == Reconciled <==> outcome.product.Some?)
    && (outcome.product.Some? <==> outcome.item.Some?)
    && (outcome.item.Some? && outcome.product.Some? ==> PointsTo(items, outcome.item.value, outcome.product.value))
  }

  ghost predicate RowOk(items: seq<Item>, row: Evidence) {
    && (row.status == Reconciled <==> row.product.Some?)
    && (row.product.Some? <==> row.item.Some?)
    && (row.item.Some? && row.product.Some? ==> PointsTo(items, row.item.value, row.product.value))
  }

  ghost predicate EvidenceOk(evidence: seq<Evidence>, items: seq<Item>, scans: seq<Scan>) {
    && (forall i :: 0 <= i < |evidence| ==> RowOk(items, evidence[i]) && IsScan(scans, evidence[i].scan))
    && (forall i, j :: 0 <= i < j < |evidence| && evidence[i].scan == evidence[j].scan ==>
          evidence[i].fingerprint != evidence[j].fingerprint)
  }

  ghost predicate IsScan(scans: seq<Scan>, id: Uuid) {
    exists k :: 0 <= k < |scans| && scans[k].id == id
  }

  function RowsOf(scan: Uuid, status: ReconciliationStatus): Evidence -> bool {
    (row: Evidence) => row.scan == scan && row.status == status
  }

  function CountRows(evidence: seq<Evidence>, scan: Uuid, status: ReconciliationStatus): nat {
    |Filter(evidence, RowsOf(scan, status))|
  }

  /** The audit event of an ingest counts the stored rows of its scan. */
  ghost predicate EventOk(evidence: seq<Evidence>, scans: seq<Scan>, event: DiscoveryEvent) {
    event.DiscoveryCompleted? ==>
      && IsScan(scans, event.scan)
      && event.reconciled == CountRows(evidence, event.scan, Reconciled)
      && event.review == CountRows(evidence, event.scan, NeedsReview)
      && event.unknown == CountRows(evidence, event.scan, NotKnown)
      && event.observations == event.reconciled + event.review + event.unknown
  }

  ghost predicate EventsOk(inv: Inventory) {
    forall i :: 0 <= i < |inv.events| ==> EventOk(inv.evidence, inv.scans, inv.events[i])
  }

  ghost predicate InventoryOk(inv: Inventory) {
    && ItemsOk(inv.items, inv.used)
    && RulesOk(inv.rules, inv.items)
    && ScansOk(inv.scans, inv.used)
    && EvidenceOk(inv.evidence, inv.items, inv.scans)
    && EventsOk(inv)
  }

  /** Nothing is removed or rewritten, except that an item may become archived. */
  ghost predicate Grows(inv: Inventory, inv': Inventory) {
    && inv.used <= inv'.used
    && ItemsGrow(inv.items, inv'.items)
    && inv.rules <= inv'.rules
    && inv.scans <= inv'.scans
    && inv.evidence <= inv'.evidence
    && inv.events <= inv'.events
  }

  ghost predicate SameOrArchived(before: Item, after: Item) {
    after == before || after == before.(archived := true)
  }

  ghost predicate ItemsGrow(items: seq<Item>, items': seq<Item>) {
    |items| <= |items'| && forall i :: 0 <= i < |items| ==> SameOrArchived(items[i], items'[i])
  }

  lemma PointsToStays(items: seq<Item>, items': seq<Item>, id: Uuid, product: Uuid)
    requires PointsTo(items, id, product) && ItemsGrow(items, items')
    ensures PointsTo(items', id, product)
  {
    var k :| 0 <= k < |items| && items[k].id == id && items[k].product == Some(product);
    assert SameOrArchived(items[k], items'[k]);
  }

  lemma RulesStayOk(rules: seq<DetectorRule>, items: seq<Item>, items': seq<Item>)
    requires RulesOk(rules, items) && ItemsGrow(items, items')
    ensures RulesOk(rules, items')
  {
    forall i | 0 <= i < |rules| ensures RuleOk(items', rules[i]) {
      assert RuleOk(items, rules[i]);
      PointsToStays(items, items', rules[i].sourceInventoryItem, rules[i].generationFingerprint.productId);
    }
  }

  lemma OutcomeStaysOk(items: seq<Item>, items': seq<Item>, outcome: Outcome)
    requires OutcomeOk(items, outcome) && ItemsGrow(items, items')
    ensures OutcomeOk(items', outcome)
  {
    if outcome.item.Some? {
      PointsToStays(items, items', outcome.item.value, outcome.product.value);
    }
  }

  lemma RowsStayOk(evidence: seq<Evidence>, items: seq<Item>, items': seq<Item>, scans: seq<Scan>, scans': seq<Scan>)
    requires EvidenceOk(evidence, items, scans) && ItemsGrow(items, items') && scans <= scans'
    ensures EvidenceOk(evidence, items', scans')
  {
    forall i | 0 <= i < |evidence| ensures RowOk(items', evidence[i]) && IsScan(scans', evidence[i].scan) {
      var row := evidence[i];
      assert RowOk(items, row);
      if row.item.Some? {
        PointsToStays(items, items', row.item.value, row.product.value);
      }
      var k :| 0 <= k < |scans| && scans[k].id == row.scan;
      assert scans'[k].id == row.scan;
    }
  }

  // ---------------------------------------------------------- reconciliation

  /** What reconciling touches: items and rules only. */
  ghost predicate Reconciles(inv: Inventory, inv': Inventory) {
    && inv'.scans == inv.scans && inv'.evidence == inv.evidence && inv'.events == inv.events
    && inv.used <= inv'.used && inv.items <= inv'.items && inv.rules <= inv'.rules
    && ItemsOk(inv'.items, inv'.used) && RulesOk(inv'.rules, inv'.items)
  }

  /** Imported before discovered before entered by hand, and of one source the smallest id. */
  predicate ComesBefore(a: Item, b: Item) {
    && (b.sourceType == Csv ==> a.sourceType == Csv)
    && (b.sourceType == Discovered ==> a.sourceType != Manual)
    && (b.sourceType == a.sourceType ==> a.id <= b.id)
  }

  lemma FirstActive(items: seq<Item>, product: Uuid)
    requires SelectActive(items, product) != []
    ensures var first := SelectActive(items, product)[0];
            && first in items && first.product == Some(product) && !first.archived
            && forall item :: item in items && item.product == Some(product) && !item.archived ==>
                 ComesBefore(first, item)
  {
    ItemOrderIsTotal();
    SortSorts(Filter(items, ActiveItemOf(product)), ItemLe);
    FilterMembers(items, ActiveItemOf(product));
    SortPermutes(Filter(items, ActiveItemOf(product)), ItemLe);
    MultisetMembers(Filter(items, ActiveItemOf(product)), SelectActive(items, product));
    var active := SelectActive(items, product);
    assert active[0] in active;
    forall item | item in items && item.product == Some(product) && !item.archived
      ensures ComesBefore(active[0], item)
    {
      assert item in active;
      var k :| 0 <= k < |active| && active[k] == item;
      assert ItemLe(active[0], item);
    }
  }

  lemma ItemOrderIsTotal()
    ensures TotalPreorder(ItemLe)
  {
  }

  lemma EnsureItemOk(env: Env, inv: Inventory, product: Uuid)
    requires EnvOk(env) && product in env.catalog.products
    requires ItemsOk(inv.items, inv.used) && RulesOk(inv.rules, inv.items)
    ensures var (inv', item) := EnsureItem(env, inv, product);
            && Reconciles(inv, inv') && inv'.rules == inv.rules
            && item.product == Some(product) && PointsTo(inv'.items, item.id, product)
  {
    if SelectActive(inv.items, product) != [] {
      FirstActive(inv.items, product);
    } else {
      FilterMembers(inv.items, HasFingerprint(product));
      if SelectDiscovered(inv.items, product) != [] {
        var item := SelectDiscovered(inv.items, product)[0];
        assert item in SelectDiscovered(inv.items, product);
        assert ItemOk(item);
      } else {
        var (inv', item) := EnsureItem(env, inv, product);
        assert inv'.items[|inv.items|] == item;
        forall i | 0 <= i < |inv.items| ensures inv.items[i].discoveryFingerprint != Some(product) {
          assert inv.items[i] !in SelectDiscovered(inv.items, product);
        }
        RulesStayOk(inv.rules, inv.items, inv'.items);
      }
    }
  }

  lemma {:induction false} EnsureRulesOk(
    env: Env, inv: Inventory, item: Uuid, product: Uuid, mappings: seq<DetectorRuleMapping>)
    requires ItemsOk(inv.items, inv.used) && RulesOk(inv.rules, inv.items) && PointsTo(inv.items, item, product)
    requires EnsureRules(env, inv, item, product, mappings).Ok?
    ensures var (inv', created) := EnsureRules(env, inv, item, product, mappings).value;
            Reconciles(inv, inv') && inv'.items == inv.items
  {
    if mappings == [] {
    } else {
      EnsureRulesOk(env, inv, item, product, mappings[..|mappings| - 1]);
    }
  }

  lemma ReconcileOk(env: Env, inv: Inventory, record: Record)
    requires EnvOk(env)
    requires ItemsOk(inv.items, inv.used) && RulesOk(inv.rules, inv.items)
    requires Reconcile(env, inv, record).Ok?
    ensures var (inv', outcome) := Reconcile(env, inv, record).value;
            Reconciles(inv, inv') && OutcomeOk(inv'.items, outcome)
  {
    MatchIsListed(env, record);
    var m := NameMatch(env, record);
    if m.status == M.Known {
      var product := m.productId.value;
      EnsureItemOk(env, inv, product);
      var (inv', item) := EnsureItem(env, inv, product);
      EnsureRulesOk(env, inv', item.id, product,
        ApplicableMappings(env.mappings, record.detectorId, record.detectorVersion, env.catalog.products[product]));
    }
  }

  lemma {:induction false} ReconcileAllOk(env: Env, inv: Inventory, records: seq<Record>)
    requires EnvOk(env)
    requires ItemsOk(inv.items, inv.used) && RulesOk(inv.rules, inv.items)
    requires ReconcileAll(env, inv, records).Ok?
    ensures var (inv', outcomes) := ReconcileAll(env, inv, records).value;
            Reconciles(inv, inv') && forall i :: 0 <= i < |outcomes| ==> OutcomeOk(inv'.items, outcomes[i])
  {
    if records == [] {
    } else {
      var init, last := records[..|records| - 1], records[|records| - 1];
      ReconcileAllOk(env, inv, init);
      var (inv', outcomes) := ReconcileAll(env, inv, init).value;
      ReconcileOk(env, inv', last);
      var (inv'', outcome) := Reconcile(env, inv', last).value;
      forall i | 0 <= i < |outcomes| ensures OutcomeOk(inv''.items, outcomes[i]) {
        OutcomeStaysOk(inv'.items, inv''.items, outcomes[i]);
      }
    }
  }

  // ------------------------------------------------------------------ counts

  lemma RowsOfAnotherScan(evidence: seq<Evidence>, scan: Uuid, status: ReconciliationStatus)
    requires forall i :: 0 <= i < |evidence| ==> evidence[i].scan != scan
    ensures CountRows(evidence, scan, status) == 0
  {
    FilterNone(evidence, RowsOf(scan, status));
  }

  lemma {:induction false} RowsCountOutcomes(
    scan: Uuid, records: seq<Record>, outcomes: seq<Outcome>, status: ReconciliationStatus)
    requires |records| == |outcomes|
    ensures CountRows(EvidenceRows(scan, records, outcomes), scan, status) == CountStatus(outcomes, status)
  {
    if records == [] {
    } else {
      var n := |records| - 1;
      RowsCountOutcomes(scan, records[..n], outcomes[..n], status);
      assert EvidenceRows(scan, records, outcomes)[..n] == EvidenceRows(scan, records[..n], outcomes[..n]);
    }
  }

  /** Every outcome has one of the three statuses. */
  lemma {:induction false} StatusesAddUp(outcomes: seq<Outcome>)
    ensures |outcomes|
         == CountStatus(outcomes, Reconciled) + CountStatus(outcomes, NeedsReview) + CountStatus(outcomes, NotKnown)
  {
    if outcomes == [] {
    } else {
      StatusesAddUp(outcomes[..|outcomes| - 1]);
    }
  }

  lemma CountsOfNewScan(
    evidence: seq<Evidence>, scan: Uuid, records: seq<Record>, outcomes: seq<Outcome>, status: ReconciliationStatus)
    requires |records| == |outcomes|
    requires forall i :: 0 <= i < |evidence| ==> evidence[i].scan != scan
    ensures CountRows(evidence + EvidenceRows(scan, records, outcomes), scan, status) == CountStatus(outcomes, status)
  {
    RowsOfAnotherScan(evidence, scan, status);
    RowsCountOutcomes(scan, records, outcomes, status);
    FilterAppend(evidence, EvidenceRows(scan, records, outcomes), RowsOf(scan, status));
  }

  lemma CountsOfOldScan(
    evidence: seq<Evidence>, more: seq<Evidence>, scan: Uuid, status: ReconciliationStatus)
    requires forall i :: 0 <= i < |more| ==> more[i].scan != scan
    ensures CountRows(evidence + more, scan, status) == CountRows(evidence, scan, status)
  {
    RowsOfAnotherScan(more, scan, status);
    FilterAppend(evidence, more, RowsOf(scan, status));
  }

  lemma OldEventStaysOk(
    evidence: seq<Evidence>, more: seq<Evidence>, scans: seq<Scan>, scan: Scan, event: DiscoveryEvent)
    requires EventOk(evidence, scans, event)
    requires forall i :: 0 <= i < |more| ==> more[i].scan == scan.id
    requires !IsScan(scans, scan.id)
    ensures EventOk(evidence + more, scans + [scan], event)
  {
    if event.DiscoveryCompleted? {
      var k :| 0 <= k < |scans| && scans[k].id == event.scan;
      assert (scans + [scan])[k].id == event.scan;
      CountsOfOldScan(evidence, more, event.scan, Reconciled);
      CountsOfOldScan(evidence, more, event.scan, NeedsReview);
      CountsOfOldScan(evidence, more, event.scan, NotKnown);
    }
  }

  lemma NewEventsOk(
    evidence: seq<Evidence>, scans: seq<Scan>, scan: Scan, records: seq<Record>, outcomes: seq<Outcome>)
    requires |records| == |outcomes|
    requires forall i :: 0 <= i < |evidence| ==> evidence[i].scan != scan.id
    ensures var events := EventsOf(scan.id, |outcomes|, TallyOf(outcomes));
            forall i :: 0 <= i < |events| ==>
              EventOk(evidence + EvidenceRows(scan.id, records, outcomes), scans + [scan], events[i])
  {
    assert (scans + [scan])[|scans|].id == scan.id;
    CountsOfNewScan(evidence, scan.id, records, outcomes, Reconciled);
    CountsOfNewScan(evidence, scan.id, records, outcomes, NeedsReview);
    CountsOfNewScan(evidence, scan.id, records, outcomes, NotKnown);
    StatusesAddUp(outcomes);
  }

  // ------------------------------------------------------------------ ingest

  lemma NewRowsOk(
    evidence: seq<Evidence>, items: seq<Item>, scans: seq<Scan>, scan: Scan, records: seq<Record>,
    outcomes: seq<Outcome>)
    requires EvidenceOk(evidence, items, scans) && !IsScan(scans, scan.id)
    requires |records| == |outcomes| && DistinctObservations(records)
    requires forall i :: 0 <= i < |outcomes| ==> OutcomeOk(items, outcomes[i])
    ensures EvidenceOk(evidence + EvidenceRows(scan.id, records, outcomes), items, scans + [scan])
  {
    RowsStayOk(evidence, items, items, scans, scans + [scan]);
    var rows := EvidenceRows(scan.id, records, outcomes);
    assert (scans + [scan])[|scans|].id == scan.id;
    forall i | 0 <= i < |rows| ensures RowOk(items, rows[i]) && IsScan(scans + [scan], rows[i].scan) {
      assert OutcomeOk(items, outcomes[i]);
    }
    forall i | 0 <= i < |evidence| ensures evidence[i].scan != scan.id {
      assert IsScan(scans, evidence[i].scan);
    }
  }

  lemma IngestOk(env: Env, inv: Inventory, bundle: Bundle)
    requires EnvOk(env) && InventoryOk(inv) && DistinctObservations(bundle.evidence)
    requires Ingest(env, inv, bundle).Ok?
    ensures InventoryOk(Ingest(env, inv, bundle).value.0) && Grows(inv, Ingest(env, inv, bundle).value.0)
  {
    if !HasScan(inv.scans, bundle.scanId) {
      var (inv', id) := AddScan(env, inv, bundle);
      var scan := Scan(id, bundle.scanId);
      ReconcileAllOk(env, inv', bundle.evidence);
      var (inv'', outcomes) := ReconcileAll(env, inv', bundle.evidence).value;
      assert !IsScan(inv.scans, id);
      ScanAdded(inv.scans, scan, inv.used, inv''.used);
      RowsStayOk(inv.evidence, inv.items, inv''.items, inv.scans, inv.scans);
      NewRowsOk(inv.evidence, inv''.items, inv.scans, scan, bundle.evidence, outcomes);
      EventsAdded(inv, scan, bundle.evidence, outcomes);
    }
  }

  lemma ScanAdded(scans: seq<Scan>, scan: Scan, used: set<Uuid>, used': set<Uuid>)
    requires ScansOk(scans, used) && scan.id !in used && !HasScan(scans, scan.scanHash)
    requires used <= used' && scan.id in used'
    ensures ScansOk(scans + [scan], used')
  {
  }

  lemma EventsAdded(inv: Inventory, scan: Scan, records: seq<Record>, outcomes: seq<Outcome>)
    requires EventsOk(inv) && EvidenceOk(inv.evidence, inv.items, inv.scans) && !IsScan(inv.scans, scan.id)
    requires |records| == |outcomes|
    ensures var events := inv.events + EventsOf(scan.id, |outcomes|, TallyOf(outcomes));
            forall i :: 0 <= i < |events| ==>
              EventOk(inv.evidence + EvidenceRows(scan.id, records, outcomes), inv.scans + [scan], events[i])
  {
    forall i | 0 <= i < |inv.evidence| ensures inv.evidence[i].scan != scan.id {
      assert IsScan(inv.scans, inv.evidence[i].scan);
    }
    NewEventsOk(inv.evidence, inv.scans, scan, records, outcomes);
    forall i | 0 <= i < |inv.events|
      ensures EventOk(inv.evidence + EvidenceRows(scan.id, records, outcomes), inv.scans + [scan], inv.events[i])
    {
      OldEventStaysOk(inv.evidence, EvidenceRows(scan.id, records, outcomes), inv.scans, scan, inv.events[i]);
    }
  }

  // -------------------------------------------------------------------- runs

  lemma StepKeepsOk(inv: Inventory, step: Step, inv': Inventory)
    requires InventoryOk(inv) && InventoryNext(inv, step, inv')
    ensures InventoryOk(inv') && Grows(inv, inv')
  {
    match step
    case IngestStep(env, digests, bundle) =>
      if ValidBundle(digests, bundle) && Ingest(env, inv, bundle).Ok? {
        IngestOk(env, inv, bundle);
      }
    case ArchiveStep(id) =>
      RulesStayOk(inv.rules, inv.items, inv'.items);
      RowsStayOk(inv.evidence, inv.items, inv'.items, inv.scans, inv.scans);
    case AddStep(item) =>
      RulesStayOk(inv.rules, inv.items, inv'.items);
      RowsStayOk(inv.evidence, inv.items, inv'.items, inv.scans, inv.scans);
  }

  lemma GrowsOn(a: Inventory, b: Inventory, c: Inventory)
    requires Grows(a, b) && Grows(b, c)
    ensures Grows(a, c)
  {
    forall i | 0 <= i < |a.items| ensures SameOrArchived(a.items[i], c.items[i]) {
      assert SameOrArchived(a.items[i], b.items[i]) && SameOrArchived(b.items[i], c.items[i]);
    }
  }

  /** Every state of a run is in order, and every later state keeps what an earlier one holds. */
  lemma {:induction false} RunKeepsOk(states: seq<Inventory>, steps: seq<Step>, i: nat, j: nat)
    requires Run(states, steps) && InventoryOk(states[0])
    requires i <= j < |states|
    ensures InventoryOk(states[i]) && InventoryOk(states[j]) && Grows(states[i], states[j])
    decreases j
  {
    if j > 0 {
      if i < j {
        RunKeepsOk(states, steps, i, j - 1);
        StepKeepsOk(states[j - 1], steps[j - 1], states[j]);
        GrowsOn(states[i], states[j - 1], states[j]);
      } else {
        RunKeepsOk(states, steps, i - 1, j - 1);
        StepKeepsOk(states[j - 1], steps[j - 1], states[j]);
      }
    }
  }

  lemma EmptyInventoryOk()
    ensures InventoryOk(EMPTY_INVENTORY)
  {
  }

  /** From an empty organization, in every reachable state: a product has at most one discovered item; a mapping and
      product have at most one detector rule, which names an item of that product; a reconciled observation, and no
      other, names a product and an item of it; the rows of a scan have different fingerprints. */
  lemma UniquenessOverRuns(states: seq<Inventory>, steps: seq<Step>, n: nat)
    requires Run(states, steps) && states[0] == EMPTY_INVENTORY && n < |states|
    ensures forall i, j :: (0 <= i < |states[n].items| && 0 <= j < |states[n].items|
              && states[n].items[i].sourceType == Discovered && states[n].items[j].sourceType == Discovered
              && states[n].items[i].product == states[n].items[j].product) ==> i == j
    ensures forall i, j :: 0 <= i < j < |states[n].rules| ==>
              states[n].rules[i].generationFingerprint != states[n].rules[j].generationFingerprint
    ensures forall i :: 0 <= i < |states[n].rules| ==> RuleOk(states[n].items, states[n].rules[i])
    ensures forall i :: 0 <= i < |states[n].evidence| ==> RowOk(states[n].items, states[n].evidence[i])
    ensures forall i, j :: (0 <= i < j < |states[n].evidence|
              && states[n].evidence[i].scan == states[n].evidence[j].scan) ==>
              states[n].evidence[i].fingerprint != states[n].evidence[j].fingerprint
    ensures forall i, j :: 0 <= i < j < |states[n].scans| ==> states[n].scans[i].scanHash != states[n].scans[j].scanHash
  {
    EmptyInventoryOk();
    RunKeepsOk(states, steps, 0, n);
  }

  /** The counts that an ingest reports are those of the stored rows, and add up to the observations. */
  lemma CountsOverRuns(states: seq<Inventory>, steps: seq<Step>, n: nat, k: nat)
    requires Run(states, steps) && states[0] == EMPTY_INVENTORY && n < |states| && k < |states[n].events|
    ensures EventOk(states[n].evidence, states[n].scans, states[n].events[k])
  {
    EmptyInventoryOk();
    RunKeepsOk(states, steps, 0, n);
  }

  /** Once a bundle is ingested, ingesting it again changes nothing, whatever happened in between and whatever the
      catalog, the registry and the user are by then. */
  lemma IngestedOnce(states: seq<Inventory>, steps: seq<Step>, i: nat, j: nat, env: Env)
    requires Run(states, steps) && InventoryOk(states[0]) && i < j < |states|
    requires steps[i].IngestStep? && ValidBundle(steps[i].digests, steps[i].bundle)
    requires EnvOk(env) && EnvOk(steps[i].env)
    requires Ingest(steps[i].env, states[i], steps[i].bundle).Ok?
    ensures Ingest(env, states[j], steps[i].bundle) == Ok((states[j], false))
  {
    RunKeepsOk(states, steps, i, i);
    RunKeepsOk(states, steps, i + 1, j);
    StoredScan(steps[i].env, states[i], steps[i].bundle);
    var scanId := steps[i].bundle.scanId;
    var k :| 0 <= k < |states[i + 1].scans| && states[i + 1].scans[k].scanHash == scanId;
    assert states[j].scans[k] == states[i + 1].scans[k];
  }

  lemma StoredScan(env: Env, inv: Inventory, bundle: Bundle)
    requires EnvOk(env) && InventoryOk(inv) && Ingest(env, inv, bundle).Ok?
    ensures HasScan(Ingest(env, inv, bundle).value.0.scans, bundle.scanId)
  {
    if !HasScan(inv.scans, bundle.scanId) {
      var (inv', id) := AddScan(env, inv, bundle);
      ReconcileAllOk(env, inv', bundle.evidence);
      assert inv'.scans[|inv.scans|].scanHash == bundle.scanId;
    }
  }

  // ------------------------------------------------------- exact conditions

  /** Some mapping applies to the matched product and has no rule yet. */
  ghost predicate NeedsRule(env: Env, rules: seq<DetectorRule>, record: Record)
    requires EnvOk(env)
  {
    MatchIsListed(env, record);
    var m := NameMatch(env, record);
    m.status == M.Known &&
    MissesRule(rules, m.productId.value,
      ApplicableMappings(env.mappings, record.detectorId, record.detectorVersion,
                         env.catalog.products[m.productId.value]))
  }

  ghost predicate MissesRule(rules: seq<DetectorRule>, product: Uuid, mappings: seq<DetectorRuleMapping>) {
    exists k :: 0 <= k < |mappings| && !HasRule(rules, KeyOf(mappings[k], product))
  }

  lemma {:induction false} EnsureRulesFails(
    env: Env, inv: Inventory, item: Uuid, product: Uuid, mappings: seq<DetectorRuleMapping>)
    ensures EnsureRules(env, inv, item, product, mappings).Err?
       <==> env.createdBy.None? && MissesRule(inv.rules, product, mappings)
    ensures var r := EnsureRules(env, inv, item, product, mappings);
            r.Ok? && env.createdBy.None? ==> r.value.0 == inv
  {
    if mappings == [] {
    } else {
      var n := |mappings| - 1;
      EnsureRulesFails(env, inv, item, product, mappings[..n]);
      if MissesRule(inv.rules, product, mappings[..n]) {
        var k :| 0 <= k < n && !HasRule(inv.rules, KeyOf(mappings[..n][k], product));
        assert mappings[k] == mappings[..n][k];
      }
    }
  }

  lemma ReconcileFails(env: Env, inv: Inventory, record: Record)
    requires EnvOk(env)
    requires ItemsOk(inv.items, inv.used) && RulesOk(inv.rules, inv.items)
    ensures Reconcile(env, inv, record).Err? <==> env.createdBy.None? && NeedsRule(env, inv.rules, record)
    ensures var r := Reconcile(env, inv, record); r.Ok? && env.createdBy.None? ==> r.value.0.rules == inv.rules
  {
    MatchIsListed(env, record);
    var m := NameMatch(env, record);
    if m.status == M.Known {
      var product := m.productId.value;
      EnsureItemOk(env, inv, product);
      var (inv', item) := EnsureItem(env, inv, product);
      EnsureRulesFails(env, inv', item.id, product,
        ApplicableMappings(env.mappings, record.detectorId, record.detectorVersion, env.catalog.products[product]));
    }
  }

  /** The records that ask for a rule that is not there yet. */
  ghost function Needs(env: Env, rules: seq<DetectorRule>): Record -> bool
    requires EnvOk(env)
  {
    (record: Record) => EnvOk(env) && NeedsRule(env, rules, record)
  }

  ghost predicate SomeRecord(records: seq<Record>, p: Record -> bool) {
    exists k :: 0 <= k < |records| && p(records[k])
  }

  lemma SomeRecordSplits(records: seq<Record>, p: Record -> bool)
    requires records != []
    ensures SomeRecord(records, p) <==> SomeRecord(records[..|records| - 1], p) || p(records[|records| - 1])
  {
    var init := records[..|records| - 1];
    if SomeRecord(init, p) {
      var k :| 0 <= k < |init| && p(init[k]);
      assert p(records[k]);
    }
    if SomeRecord(records, p) && !p(records[|records| - 1]) {
      var k :| 0 <= k < |records| && p(records[k]);
      assert p(init[k]);
    }
  }

  lemma {:induction false} ReconcileAllFails(env: Env, inv: Inventory, records: seq<Record>, needs: Record -> bool)
    requires EnvOk(env) && needs == Needs(env, inv.rules)
    requires ItemsOk(inv.items, inv.used) && RulesOk(inv.rules, inv.items)
    ensures ReconcileAll(env, inv, records).Err? <==> env.createdBy.None? && SomeRecord(records, needs)
    ensures var r := ReconcileAll(env, inv, records); r.Ok? && env.createdBy.None? ==> r.value.0.rules == inv.rules
  {
    if records == [] {
    } else {
      var init, last := records[..|records| - 1], records[|records| - 1];
      ReconcileAllFails(env, inv, init, needs);
      SomeRecordSplits(records, needs);
      if ReconcileAll(env, inv, init).Ok? {
        ReconcileAllOk(env, inv, init);
        LastFails(env, inv.rules, ReconcileAll(env, inv, init).value.0, last, needs);
      }
    }
  }

  lemma LastFails(env: Env, rules: seq<DetectorRule>, inv: Inventory, record: Record, needs: Record -> bool)
    requires EnvOk(env) && needs == Needs(env, rules)
    requires ItemsOk(inv.items, inv.used) && RulesOk(inv.rules, inv.items)
    requires env.createdBy.None? ==> inv.rules == rules
    ensures Reconcile(env, inv, record).Err? <==> env.createdBy.None? && needs(record)
    ensures var r := Reconcile(env, inv, record); r.Ok? && env.createdBy.None? ==> r.value.0.rules == rules
  {
    ReconcileFails(env, inv, record);
  }

  /** A valid bundle is refused exactly when it is new, no user acts, and one of its records asks for a detector rule
      that is not there yet: the whole ingest fails, observations included. */
  lemma IngestFailsExactlyWhen(env: Env, inv: Inventory, bundle: Bundle)
    requires EnvOk(env) && InventoryOk(inv)
    ensures Ingest(env, inv, bundle).Err? <==>
              && !HasScan(inv.scans, bundle.scanId)
              && env.createdBy.None?
              && SomeRecord(bundle.evidence, Needs(env, inv.rules))
  {
    if !HasScan(inv.scans, bundle.scanId) {
      ReconcileAllFails(env, AddScan(env, inv, bundle).0, bundle.evidence, Needs(env, inv.rules));
    }
  }

  // An inventory and a bundle for which an ingest without a user fails.

  /** A number above every member. */
  ghost function Above(used: set<Uuid>): (n: Uuid)
    ensures forall x :: x in used ==> x < n
  {
    if used == {} then 0
    else
      var x :| x in used;
      var n := Above(used - {x});
      assert used == used - {x} + {x};
      if x < n then n else x + 1
  }

  ghost function SampleEnv(): Env {
    Env(Catalog(map[7 := Product("OpenAI", "ChatGPT")],
                [M.ProductIdentifier(7, "product_name", "ChatGPT", None, true)],
                (kind, text) => Some(text)),
        [DetectorRuleMapping("catalog-product-review.openai-chatgpt", "1", DETECTOR_ID, DETECTOR_VERSION,
                             "OpenAI", "ChatGPT")],
        (used: set<Uuid>) => Above(used),
        None)
  }

  const SAMPLE_RECORD := Record(
    DETECTOR_ID, DETECTOR_VERSION, "2026", EVIDENCE_TYPE, "HKLM/", "ChatGPT", "1", "OpenAI", "")

  const SAMPLE_BUNDLE := Bundle("0.1.0", 1, "2026", Complete, [SAMPLE_RECORD], "")

  const SAMPLE_DIGESTS := Digests(record => "", bundle => "")

  lemma SampleMatches()
    ensures EnvOk(SampleEnv())
    ensures NameMatch(SampleEnv(), SAMPLE_RECORD).status == M.Known
    ensures NameMatch(SampleEnv(), SAMPLE_RECORD).productId == Some(7)
  {
    var env := SampleEnv();
    var candidate, row := NameCandidate(SAMPLE_RECORD), env.catalog.identifiers[0];
    var tiers := M.Tiers(env.catalog.identifiers, env.catalog.canonicalize, [candidate]);
    assert M.Hit(env.catalog.canonicalize, 4, candidate, row);
    assert tiers(4) == {7};
    M.SkipEmpty(tiers, 1, 4);
    assert M.BestFrom(tiers, 4) == {7};
  }

  lemma SampleNeedsRule()
    ensures EnvOk(SampleEnv()) && NeedsRule(SampleEnv(), [], SAMPLE_RECORD)
  {
    var env := SampleEnv();
    SampleMatches();
    MatchIsListed(env, SAMPLE_RECORD);
    var product := env.catalog.products[7];
    FilterMembers(env.mappings, AppliesTo(DETECTOR_ID, DETECTOR_VERSION, product));
    var mappings := ApplicableMappings(env.mappings, DETECTOR_ID, DETECTOR_VERSION, product);
    assert AppliesTo(DETECTOR_ID, DETECTOR_VERSION, product)(env.mappings[0]);
    assert env.mappings[0] in mappings;
    assert MissesRule([], 7, mappings);
  }

  lemma PlainText(text: string)
    requires |text| <= MAX_TEXT && forall i :: 0 <= i < |text| ==> text[i] as int >= 32
    ensures AcceptableText(text)
  {
    forall c | c in text ensures c as int >= 32 {
      var i :| 0 <= i < |text| && text[i] == c;
    }
  }

  lemma SampleTextsAreAcceptable()
    ensures forall text :: text in Texts(SAMPLE_RECORD) ==> AcceptableText(text)
  {
    PlainText(DETECTOR_ID);
    PlainText(DETECTOR_VERSION);
    PlainText("2026");
    PlainText(EVIDENCE_TYPE);
    PlainText("HKLM/");
    PlainText("ChatGPT");
    PlainText("OpenAI");
  }

  lemma SampleIsValid()
    ensures ValidBundle(SAMPLE_DIGESTS, SAMPLE_BUNDLE)
  {
    SampleTextsAreAcceptable();
    assert Strip("ChatGPT") != "" by {
      assert StripLeft("ChatGPT") == "ChatGPT";
    }
    assert StartsWith("HKLM/", "HKLM/");
    assert WellFormed(SAMPLE_DIGESTS, "2026", SAMPLE_RECORD);
  }

  /** The failure happens: the bundle is valid, and ingesting it without a user is refused. */
  lemma AnonymousIngestFails()
    ensures EnvOk(SampleEnv()) && InventoryOk(EMPTY_INVENTORY)
    ensures ValidBundle(SAMPLE_DIGESTS, SAMPLE_BUNDLE)
    ensures Ingest(SampleEnv(), EMPTY_INVENTORY, SAMPLE_BUNDLE).Err?
  {
    SampleIsValid();
    SampleNeedsRule();
    SampleIsRefused(SampleEnv(), SAMPLE_BUNDLE);
  }

  lemma SampleIsRefused(env: Env, bundle: Bundle)
    requires EnvOk(env) && env.createdBy.None?
    requires |bundle.evidence| == 1 && NeedsRule(env, [], bundle.evidence[0])
    ensures Ingest(env, EMPTY_INVENTORY, bundle).Err?
  {
    IngestFailsExactlyWhen(env, EMPTY_INVENTORY, bundle);
    assert Needs(env, [])(bundle.evidence[0]);
  }

  function StatusFor(m: M.CatalogMatch): ReconciliationStatus {
    match m.status
    case Known => Reconciled
    case Review => NeedsReview
    case Unknown => NotKnown
  }

  ghost predicate ClassifiedByCatalog(env: Env, record: Record, outcome: Outcome) {
    var m := NameMatch(env, record);
    && outcome.status == StatusFor(m) && outcome.product == m.productId && outcome.reason == m.reason
    && outcome.identifierType == if m.status == M.Known then "product_name" else ""
  }

  lemma OutcomeIsTheCatalogs(env: Env, inv: Inventory, record: Record)
    requires EnvOk(env) && Reconcile(env, inv, record).Ok?
    ensures ClassifiedByCatalog(env, record, Reconcile(env, inv, record).value.1)
  {
    MatchIsListed(env, record);
  }

  lemma {:induction false} OutcomesAreTheCatalogs(env: Env, inv: Inventory, records: seq<Record>, i: nat)
    requires EnvOk(env) && ReconcileAll(env, inv, records).Ok? && i < |records|
    ensures ClassifiedByCatalog(env, records[i], ReconcileAll(env, inv, records).value.1[i])
  {
    var n := |records| - 1;
    if i < n {
      OutcomesAreTheCatalogs(env, inv, records[..n], i);
    } else {
      OutcomeIsTheCatalogs(env, ReconcileAll(env, inv, records[..n]).value.0, records[n]);
    }
  }

  ghost predicate RowFor(env: Env, record: Record, row: Evidence) {
    var m := NameMatch(env, record);
    && row.fingerprint == Fingerprint(record) && row.evidenceHash == record.evidenceHash
    && row.status == StatusFor(m) && row.product == m.productId && row.reason == m.reason
    && row.identifierType == if m.status == M.Known then "product_name" else ""
  }

  /** A new bundle adds one row per record, in order, and the catalog alone decides how it is classified: what the
      inventory already holds has no say. */
  lemma IngestStoresTheBundle(env: Env, inv: Inventory, bundle: Bundle)
    requires EnvOk(env) && InventoryOk(inv)
    requires !HasScan(inv.scans, bundle.scanId) && Ingest(env, inv, bundle).Ok?
    ensures var inv' := Ingest(env, inv, bundle).value.0;
            exists rows: seq<Evidence> :: inv'.evidence == inv.evidence + rows && RowsFor(env, bundle.evidence, rows)
  {
    var (start, id) := AddScan(env, inv, bundle);
    ReconcileAllOk(env, start, bundle.evidence);
    RowsAreTheCatalogs(env, start, id, bundle.evidence);
  }

  ghost predicate RowsFor(env: Env, records: seq<Record>, rows: seq<Evidence>) {
    |rows| == |records| && forall i :: 0 <= i < |rows| ==> RowFor(env, records[i], rows[i])
  }

  lemma RowsAreTheCatalogs(env: Env, inv: Inventory, scan: Uuid, records: seq<Record>)
    requires EnvOk(env) && ReconcileAll(env, inv, records).Ok?
    ensures RowsFor(env, records, EvidenceRows(scan, records, ReconcileAll(env, inv, records).value.1))
  {
    var outcomes := ReconcileAll(env, inv, records).value.1;
    var rows := EvidenceRows(scan, records, outcomes);
    forall i | 0 <= i < |rows| ensures RowFor(env, records[i], rows[i]) {
      OutcomesAreTheCatalogs(env, inv, records, i);
      assert rows[i] == EvidenceOf(scan, records[i], outcomes[i]);
    }
  }

  // ------------------------------------------------------------ completeness

  ghost predicate ActiveAt(items: seq<Item>, product: Uuid, i: nat)
    requires i < |items|
  {
    items[i].product == Some(product) && !items[i].archived
  }

  /** An active item of the product is always preferred. Without one the item that discovery once made is used again,
      although it is archived; only without that is there a new one. */
  lemma ItemsAreReused(env: Env, inv: Inventory, product: Uuid)
    requires EnvOk(env) && product in env.catalog.products && ItemsOk(inv.items, inv.used)
    ensures var (inv', item) := EnsureItem(env, inv, product);
            && (inv' == inv <==> item in inv.items)
            && (!item.archived <==>
                  || (exists i: nat :: i < |inv.items| && ActiveAt(inv.items, product, i))
                  || (forall i :: 0 <= i < |inv.items| ==> inv.items[i].discoveryFingerprint != Some(product)))
  {
    FilterMembers(inv.items, HasFingerprint(product));
    var discovered := SelectDiscovered(inv.items, product);
    if SelectActive(inv.items, product) != [] {
      FirstActive(inv.items, product);
      var i: nat :| i < |inv.items| && inv.items[i] == SelectActive(inv.items, product)[0];
      assert ActiveAt(inv.items, product, i);
    } else {
      NoActive(inv.items, product);
      if discovered != [] {
        assert discovered[0] in discovered;
        var i: nat :| i < |inv.items| && inv.items[i] == discovered[0];
        assert ItemOk(inv.items[i]) && !ActiveAt(inv.items, product, i);
      } else {
        forall i | 0 <= i < |inv.items| ensures inv.items[i].discoveryFingerprint != Some(product) {
          assert inv.items[i] !in discovered;
        }
      }
    }
  }

  lemma NoActive(items: seq<Item>, product: Uuid)
    requires SelectActive(items, product) == []
    ensures forall i: nat :: i < |items| ==> !ActiveAt(items, product, i)
  {
    FilterMembers(items, ActiveItemOf(product));
    assert |Filter(items, ActiveItemOf(product))| == |SelectActive(items, product)|;
    forall i: nat | i < |items| ensures !ActiveAt(items, product, i) {
      assert items[i] !in Filter(items, ActiveItemOf(product));
    }
  }

  lemma RulesStay(rules: seq<DetectorRule>, rules': seq<DetectorRule>, key: RuleKey)
    requires rules <= rules' && HasRule(rules, key)
    ensures HasRule(rules', key)
  {
    var i :| 0 <= i < |rules| && rules[i].generationFingerprint == key;
    assert rules'[i] == rules[i];
  }

  lemma {:induction false} EnsureRulesComplete(
    env: Env, inv: Inventory, item: Uuid, product: Uuid, mappings: seq<DetectorRuleMapping>)
    requires EnsureRules(env, inv, item, product, mappings).Ok?
    ensures var inv' := EnsureRules(env, inv, item, product, mappings).value.0;
            inv.rules <= inv'.rules && !MissesRule(inv'.rules, product, mappings)
  {
    if mappings == [] {
    } else {
      var n := |mappings| - 1;
      EnsureRulesComplete(env, inv, item, product, mappings[..n]);
      var before := EnsureRules(env, inv, item, product, mappings[..n]).value.0;
      var after := EnsureRules(env, inv, item, product, mappings).value.0;
      assert HasRule(after.rules, KeyOf(mappings[n], product)) by {
        if !HasRule(before.rules, KeyOf(mappings[n], product)) {
          assert after.rules[|before.rules|].generationFingerprint == KeyOf(mappings[n], product);
        }
      }
      forall k | 0 <= k < n ensures HasRule(after.rules, KeyOf(mappings[k], product)) {
        assert mappings[k] == mappings[..n][k];
        RulesStay(before.rules, after.rules, KeyOf(mappings[k], product));
      }
    }
  }

  lemma ReconcileComplete(env: Env, inv: Inventory, record: Record)
    requires EnvOk(env)
    requires ItemsOk(inv.items, inv.used) && RulesOk(inv.rules, inv.items)
    requires Reconcile(env, inv, record).Ok?
    ensures !NeedsRule(env, Reconcile(env, inv, record).value.0.rules, record)
  {
    MatchIsListed(env, record);
    var m := NameMatch(env, record);
    if m.status == M.Known {
      var product := m.productId.value;
      EnsureItemOk(env, inv, product);
      var (inv', item) := EnsureItem(env, inv, product);
      EnsureRulesComplete(env, inv', item.id, product,
        ApplicableMappings(env.mappings, record.detectorId, record.detectorVersion, env.catalog.products[product]));
    }
  }

  lemma StaysComplete(env: Env, rules: seq<DetectorRule>, rules': seq<DetectorRule>, record: Record)
    requires EnvOk(env) && rules <= rules' && !NeedsRule(env, rules, record)
    ensures !NeedsRule(env, rules', record)
  {
    MatchIsListed(env, record);
    var m := NameMatch(env, record);
    if m.status == M.Known {
      var product := m.productId.value;
      var mappings :=
        ApplicableMappings(env.mappings, record.detectorId, record.detectorVersion, env.catalog.products[product]);
      forall k | 0 <= k < |mappings| ensures HasRule(rules', KeyOf(mappings[k], product)) {
        RulesStay(rules, rules', KeyOf(mappings[k], product));
      }
    }
  }

  lemma {:induction false} ReconcileAllComplete(env: Env, inv: Inventory, records: seq<Record>, k: nat)
    requires EnvOk(env) && k < |records|
    requires ItemsOk(inv.items, inv.used) && RulesOk(inv.rules, inv.items)
    requires ReconcileAll(env, inv, records).Ok?
    ensures !NeedsRule(env, ReconcileAll(env, inv, records).value.0.rules, records[k])
  {
    var n := |records| - 1;
    ReconcileAllOk(env, inv, records[..n]);
    var before := ReconcileAll(env, inv, records[..n]).value.0;
    if k == n {
      ReconcileComplete(env, before, records[n]);
    } else {
      ReconcileAllComplete(env, inv, records[..n], k);
      ReconcileOk(env, before, records[n]);
      StaysComplete(env, before.rules, Reconcile(env, before, records[n]).value.0.rules, records[k]);
    }
  }

  /** After an ingest no record of the bundle lacks a detector rule that a mapping asks for. */
  lemma IngestLeavesNoRuleMissing(env: Env, inv: Inventory, bundle: Bundle, k: nat)
    requires EnvOk(env) && InventoryOk(inv) && k < |bundle.evidence|
    requires !HasScan(inv.scans, bundle.scanId) && Ingest(env, inv, bundle).Ok?
    ensures !NeedsRule(env, Ingest(env, inv, bundle).value.0.rules, bundle.evidence[k])
  {
    ReconcileAllComplete(env, AddScan(env, inv, bundle).0, bundle.evidence, k);
  }
}
