/** What an ingest stores, column by column: new items, new rules, evidence rows and audit events. */
module DiscoveryEffect {
  import opened Prelude
  import opened Contract
  import opened Discovery
  import opened DiscoveryRuns
  import M = Matching

  /** A discovered item of the product, named as the catalog names it. */
  ghost predicate MadeFor(env: Env, item: Item, product: Uuid) {
    && product in env.catalog.products
    && item.product == Some(product) && item.sourceType == Discovered
    && item.discoveryFingerprint == Some(product) && !item.archived
    && item.displayName == env.catalog.products[product].name
    && item.vendorName == env.catalog.products[product].vendorName
  }

  /** Some mapping for the record's detector and the product's vendor and name asks for this rule. */
  ghost predicate AsksFor(env: Env, record: Record, key: RuleKey) {
    && key.productId in env.catalog.products
    && exists mapping :: mapping in env.mappings
         && MappingAsksFor(mapping, record, env.catalog.products[key.productId], key)
  }

  predicate MappingAsksFor(mapping: DetectorRuleMapping, record: Record, product: Product, key: RuleKey) {
    && mapping.detectorId == record.detectorId && mapping.detectorVersion == record.detectorVersion
    && mapping.vendorName == product.vendorName && mapping.productName == product.name
    && key.mappingId == mapping.mappingId && key.mappingVersion == mapping.mappingVersion
    && key.detectorId == mapping.detectorId && key.detectorVersion == mapping.detectorVersion
  }

  /** A rule that a record asks for, made by the user who acts. */
  ghost predicate RuleMadeFor(env: Env, rule: DetectorRule, record: Record) {
    AsksFor(env, record, rule.generationFingerprint) && env.createdBy == Some(rule.createdBy)
  }

  ghost predicate MatchedItem(env: Env, item: Item, record: Record) {
    var m := NameMatch(env, record);
    m.status == M.Known && m.productId.Some? && MadeFor(env, item, m.productId.value)
  }

  ghost predicate ItemFromSome(env: Env, item: Item, records: seq<Record>) {
    exists k :: 0 <= k < |records| && MatchedItem(env, item, records[k])
  }

  ghost predicate RuleFromSome(env: Env, rule: DetectorRule, records: seq<Record>) {
    exists k :: 0 <= k < |records| && RuleMadeFor(env, rule, records[k])
  }

  /** Nothing is taken away; every added item and every added rule comes from some record. */
  ghost predicate AddsFor(env: Env, records: seq<Record>, inv: Inventory, inv': Inventory) {
    && inv.items <= inv'.items && inv.rules <= inv'.rules
    && (forall i :: |inv.items| <= i < |inv'.items| ==> ItemFromSome(env, inv'.items[i], records))
    && (forall i :: |inv.rules| <= i < |inv'.rules| ==> RuleFromSome(env, inv'.rules[i], records))
  }

  /** The ids of the rules from position n on. */
  function IdsFrom(rules: seq<DetectorRule>, n: nat): set<Uuid> {
    set i | n <= i < |rules| :: rules[i].id
  }

  // ---------------------------------------------------------------- one record

  ghost predicate IsActive(items: seq<Item>, product: Uuid, item: Item) {
    item in items && item.product == Some(product) && !item.archived
  }

  ghost predicate WasDiscovered(items: seq<Item>, product: Uuid, item: Item) {
    item in items && item.discoveryFingerprint == Some(product)
  }

  /** The first active item of the product; without one an item that discovery made for it; without that one new
      item, under a new id. */
  ghost predicate Ensures(env: Env, inv: Inventory, product: Uuid, inv': Inventory, item: Item) {
    if exists other :: IsActive(inv.items, product, other) then
      && inv' == inv && IsActive(inv.items, product, item)
      && forall other :: IsActive(inv.items, product, other) ==> ComesBefore(item, other)
    else if exists other :: WasDiscovered(inv.items, product, other) then
      inv' == inv && WasDiscovered(inv.items, product, item)
    else
      && inv' == inv.(items := inv.items + [item], used := inv.used + {item.id})
      && item.id !in inv.used && MadeFor(env, item, product)
  }

  lemma EnsureItemEffect(env: Env, inv: Inventory, product: Uuid)
    requires EnvOk(env) && product in env.catalog.products
    ensures var (inv', item) := EnsureItem(env, inv, product); Ensures(env, inv, product, inv', item)
  {
    var active, discovered := SelectActive(inv.items, product), SelectDiscovered(inv.items, product);
    FilterMembers(inv.items, HasFingerprint(product));
    if active != [] {
      FirstActive(inv.items, product);
      assert IsActive(inv.items, product, active[0]);
    } else {
      FilterMembers(inv.items, ActiveItemOf(product));
      assert |Filter(inv.items, ActiveItemOf(product))| == |active|;
      assert forall other :: IsActive(inv.items, product, other) ==> other in Filter(inv.items, ActiveItemOf(product));
      if discovered != [] {
        assert discovered[0] in discovered;
        assert WasDiscovered(inv.items, product, discovered[0]);
      } else {
        assert forall other :: WasDiscovered(inv.items, product, other) ==> other in discovered;
      }
    }
  }

  lemma {:induction false} EnsureRulesEffect(
    env: Env, inv: Inventory, item: Uuid, product: Uuid, mappings: seq<DetectorRuleMapping>)
    requires EnsureRules(env, inv, item, product, mappings).Ok?
    ensures var (inv', created) := EnsureRules(env, inv, item, product, mappings).value;
            && inv.rules <= inv'.rules && inv' == inv.(rules := inv'.rules, used := inv'.used)
            && (forall i :: |inv.rules| <= i < |inv'.rules| ==>
                  RuleOfMappings(env, inv'.rules[i], item, product, mappings))
            && (set id | id in created) == IdsFrom(inv'.rules, |inv.rules|)
  {
    if mappings == [] {
    } else {
      var init, last := mappings[..|mappings| - 1], mappings[|mappings| - 1];
      EnsureRulesEffect(env, inv, item, product, init);
      var (before, created) := EnsureRules(env, inv, item, product, init).value;
      var (after, more) := EnsureRule(env, before, item, product, last).value;
      assert mappings == init + [last];
      if more != [] {
        IdsGrow(before.rules, after.rules[|before.rules|], |inv.rules|);
      }
      forall i | |inv.rules| <= i < |after.rules| ensures RuleOfMappings(env, after.rules[i], item, product, mappings) {
        if i < |before.rules| {
          assert RuleOfMappings(env, before.rules[i], item, product, init);
        }
      }
    }
  }

  lemma IdsGrow(rules: seq<DetectorRule>, rule: DetectorRule, n: nat)
    requires n <= |rules|
    ensures IdsFrom(rules + [rule], n) == IdsFrom(rules, n) + {rule.id}
  {
    var more := rules + [rule];
    assert more[|rules|] == rule;
    forall id | id in IdsFrom(rules, n) ensures id in IdsFrom(more, n) {
      var i :| n <= i < |rules| && rules[i].id == id;
      assert more[i].id == id;
    }
  }

  ghost predicate RuleOfMappings(
    env: Env, rule: DetectorRule, item: Uuid, product: Uuid, mappings: seq<DetectorRuleMapping>)
  {
    && rule.sourceInventoryItem == item && env.createdBy == Some(rule.createdBy)
    && exists mapping :: mapping in mappings && rule.generationFingerprint == KeyOf(mapping, product)
  }

  lemma RulesOfItemEffect(env: Env, inv: Inventory, item: Item, record: Record)
    requires EnsureRulesOfItem(env, inv, item, record).Ok?
    ensures var (inv', created) := EnsureRulesOfItem(env, inv, item, record).value;
            && inv.rules <= inv'.rules && inv' == inv.(rules := inv'.rules, used := inv'.used)
            && (forall i :: |inv.rules| <= i < |inv'.rules| ==> RuleMadeFor(env, inv'.rules[i], record))
            && (set id | id in created) == IdsFrom(inv'.rules, |inv.rules|)
  {
    if item.product.Some? && item.product.value in env.catalog.products {
      var product := item.product.value;
      var row := env.catalog.products[product];
      var mappings := ApplicableMappings(env.mappings, record.detectorId, record.detectorVersion, row);
      EnsureRulesEffect(env, inv, item.id, product, mappings);
      FilterMembers(env.mappings, AppliesTo(record.detectorId, record.detectorVersion, row));
      var inv' := EnsureRules(env, inv, item.id, product, mappings).value.0;
      forall i | |inv.rules| <= i < |inv'.rules| ensures RuleMadeFor(env, inv'.rules[i], record) {
        var rule := inv'.rules[i];
        assert RuleOfMappings(env, rule, item.id, product, mappings);
        var mapping :| mapping in mappings && rule.generationFingerprint == KeyOf(mapping, product);
        assert MappingAsksFor(mapping, record, row, rule.generationFingerprint);
      }
    }
  }

  /** What one record adds. */
  ghost predicate AddsForRecord(env: Env, record: Record, inv: Inventory, inv': Inventory, created: seq<Uuid>) {
    && inv.items <= inv'.items && inv.rules <= inv'.rules
    && (forall i :: |inv.items| <= i < |inv'.items| ==> MatchedItem(env, inv'.items[i], record))
    && (forall i :: |inv.rules| <= i < |inv'.rules| ==> RuleMadeFor(env, inv'.rules[i], record))
    && (set id | id in created) == IdsFrom(inv'.rules, |inv.rules|)
    && inv'.scans == inv.scans && inv'.evidence == inv.evidence && inv'.events == inv.events
  }

  lemma ReconcileEffect(env: Env, inv: Inventory, record: Record)
    requires EnvOk(env) && Reconcile(env, inv, record).Ok?
    ensures var (inv', outcome) := Reconcile(env, inv, record).value;
            AddsForRecord(env, record, inv, inv', outcome.createdRules)
  {
    MatchIsListed(env, record);
    var m := NameMatch(env, record);
    if m.status == M.Known {
      var (before, item) := EnsureItem(env, inv, m.productId.value);
      EnsureItemEffect(env, inv, m.productId.value);
      RulesOfItemEffect(env, before, item, record);
    }
  }

  // ----------------------------------------------------------------- a bundle

  lemma AddsForMore(
    env: Env, records: seq<Record>, inv: Inventory, before: Inventory, after: Inventory, created: seq<Uuid>)
    requires records != [] && AddsFor(env, records[..|records| - 1], inv, before)
    requires AddsForRecord(env, records[|records| - 1], before, after, created)
    ensures AddsFor(env, records, inv, after)
    ensures IdsFrom(after.rules, |inv.rules|) == IdsFrom(before.rules, |inv.rules|) + set id | id in created
  {
    var n := |records| - 1;
    forall i | |inv.items| <= i < |after.items| ensures ItemFromSome(env, after.items[i], records) {
      if i < |before.items| {
        assert ItemFromSome(env, before.items[i], records[..n]);
        var k :| 0 <= k < n && MatchedItem(env, before.items[i], records[..n][k]);
        assert MatchedItem(env, after.items[i], records[k]);
      } else {
        assert MatchedItem(env, after.items[i], records[n]);
      }
    }
    forall i | |inv.rules| <= i < |after.rules| ensures RuleFromSome(env, after.rules[i], records) {
      if i < |before.rules| {
        assert RuleFromSome(env, before.rules[i], records[..n]);
        var k :| 0 <= k < n && RuleMadeFor(env, before.rules[i], records[..n][k]);
        assert RuleMadeFor(env, after.rules[i], records[k]);
      } else {
        assert RuleMadeFor(env, after.rules[i], records[n]);
      }
    }
    IdsSplit(before.rules, after.rules, |inv.rules|);
  }

  lemma IdsSplit(rules: seq<DetectorRule>, rules': seq<DetectorRule>, n: nat)
    requires n <= |rules| && rules <= rules'
    ensures IdsFrom(rules', n) == IdsFrom(rules, n) + IdsFrom(rules', |rules|)
  {
    forall id | id in IdsFrom(rules', n) ensures id in IdsFrom(rules, n) + IdsFrom(rules', |rules|) {
      var i :| n <= i < |rules'| && rules'[i].id == id;
      assert i < |rules| ==> rules[i].id == id;
    }
    forall id | id in IdsFrom(rules, n) ensures id in IdsFrom(rules', n) {
      var i :| n <= i < |rules| && rules[i].id == id;
      assert rules'[i].id == id;
    }
  }

  lemma {:induction false} ReconcileAllEffect(env: Env, inv: Inventory, records: seq<Record>)
    requires EnvOk(env) && ReconcileAll(env, inv, records).Ok?
    ensures var (inv', outcomes) := ReconcileAll(env, inv, records).value;
            && AddsFor(env, records, inv, inv')
            && CreatedRules(outcomes) == IdsFrom(inv'.rules, |inv.rules|)
            && inv'.scans == inv.scans && inv'.evidence == inv.evidence && inv'.events == inv.events
  {
    if records == [] {
    } else {
      var init, last := records[..|records| - 1], records[|records| - 1];
      ReconcileAllEffect(env, inv, init);
      var (before, outcomes) := ReconcileAll(env, inv, init).value;
      ReconcileEffect(env, before, last);
      var (after, outcome) := Reconcile(env, before, last).value;
      AddsForMore(env, records, inv, before, after, outcome.createdRules);
      CreatedRulesGrow(outcomes, outcome);
    }
  }

  lemma CreatedRulesGrow(outcomes: seq<Outcome>, outcome: Outcome)
    ensures CreatedRules(outcomes + [outcome]) == CreatedRules(outcomes) + set id | id in outcome.createdRules
  {
  }

  /** The items that the evidence rows point to. */
  function ItemsOf(rows: seq<Evidence>): set<Uuid> {
    set row | row in rows && row.item.Some? :: row.item.value
  }

  lemma ItemsOfRows(scan: Uuid, records: seq<Record>, outcomes: seq<Outcome>)
    requires |records| == |outcomes|
    ensures ItemsOf(EvidenceRows(scan, records, outcomes)) == ReconciledItems(outcomes)
  {
    var rows := EvidenceRows(scan, records, outcomes);
    forall item | item in ReconciledItems(outcomes) ensures item in ItemsOf(rows) {
      var outcome :| outcome in outcomes && outcome.item == Some(item);
      var k :| 0 <= k < |outcomes| && outcomes[k] == outcome;
      assert rows[k] in rows && rows[k].item == Some(item);
    }
    forall item | item in ItemsOf(rows) ensures item in ReconciledItems(outcomes) {
      var row :| row in rows && row.item == Some(item);
      var k :| 0 <= k < |rows| && rows[k] == row;
      assert outcomes[k] in outcomes;
    }
  }

  /** The audit events of an ingest, from the rows and rules that it stored. */
  ghost predicate EventsFor(
    events: seq<DiscoveryEvent>, scan: Uuid, rows: seq<Evidence>, newRules: set<Uuid>)
  {
    && |events| == (if ItemsOf(rows) == {} then 1 else 2)
    && events[0] == DiscoveryCompleted(scan, |rows|, CountRows(rows, scan, Reconciled),
                                       CountRows(rows, scan, NeedsReview), CountRows(rows, scan, NotKnown))
    && (|events| == 2 ==> events[1] == ReconciliationAccepted(scan, ItemsOf(rows), newRules))
  }

  lemma EventsTell(scan: Uuid, records: seq<Record>, outcomes: seq<Outcome>)
    requires |records| == |outcomes|
    ensures EventsFor(EventsOf(scan, |outcomes|, TallyOf(outcomes)), scan, EvidenceRows(scan, records, outcomes),
                      CreatedRules(outcomes))
  {
    ItemsOfRows(scan, records, outcomes);
    RowsCountOutcomes(scan, records, outcomes, Reconciled);
    RowsCountOutcomes(scan, records, outcomes, NeedsReview);
    RowsCountOutcomes(scan, records, outcomes, NotKnown);
  }

  ghost predicate IngestStored(env: Env, bundle: Bundle, inv: Inventory, inv': Inventory, scan: Uuid) {
    && scan !in inv.used
    && inv'.scans == inv.scans + [Scan(scan, bundle.scanId)]
    && AddsFor(env, bundle.evidence, inv, inv')
    && inv.evidence <= inv'.evidence && inv.events <= inv'.events
    && var rows := inv'.evidence[|inv.evidence|..];
       && RowsFor(env, bundle.evidence, rows)
       && (forall i :: 0 <= i < |rows| ==> rows[i].scan == scan)
       && EventsFor(inv'.events[|inv.events|..], scan, rows, IdsFrom(inv'.rules, |inv.rules|))
  }

  /** A new bundle is stored under a fresh scan: items named by the catalog, rules that mappings ask for, one row per
      record, and events that tell of exactly these. */
  lemma IngestEffect(env: Env, inv: Inventory, bundle: Bundle)
    requires EnvOk(env) && !HasScan(inv.scans, bundle.scanId) && Ingest(env, inv, bundle).Ok?
    ensures IngestStored(env, bundle, inv, Ingest(env, inv, bundle).value.0, env.draw(inv.used))
  {
    var (start, scan) := AddScan(env, inv, bundle);
    ReconcileAllEffect(env, start, bundle.evidence);
    RowsAreTheCatalogs(env, start, scan, bundle.evidence);
    var outcomes := ReconcileAll(env, start, bundle.evidence).value.1;
    var rows := EvidenceRows(scan, bundle.evidence, outcomes);
    EventsTell(scan, bundle.evidence, outcomes);
    var inv' := Ingest(env, inv, bundle).value.0;
    assert inv'.evidence[|inv.evidence|..] == rows;
    assert inv'.events[|inv.events|..] == EventsOf(scan, |outcomes|, TallyOf(outcomes));
  }
}
