/** match_product of apps/catalog/matching.py. */
module Matching {
  import opened Prelude

  const MATCH_PRIORITY: map<string, nat> := map[
    "microsoft_app_id" := 1,
    "google_client_id" := 1,
    "hostname" := 2,
    "domain" := 2,
    "origin" := 2,
    "oauth_client_id" := 3,
    "redirect_uri" := 3,
    "product_name" := 4
  ]

  const LAST_PRIORITY := 4

  /** canonicalize of apps/catalog/normalization.py: None is IdentifierNormalizationError. */
  type Canonicalize = (string, string) -> Option<string>

  datatype ProductIdentifier = ProductIdentifier(
    productId: Uuid, identifierType: string, canonicalValue: string, providerScope: Option<string>, verified: bool)

  datatype CandidateIdentifier = CandidateIdentifier(
    identifierType: string, rawValue: string, providerScope: Option<string>)

  datatype MatchStatus = Known | Review | Unknown

  datatype CatalogMatch = CatalogMatch(
    status: MatchStatus, productId: Option<Uuid>, identifierType: Option<string>, reason: string)

  const EXACT := "exact_verified_identifier"
  const CONFLICTING := "conflicting_exact_identifiers"
  const NO_MATCH := "no_exact_verified_identifier"

  // ------------------------------------------------------------------ meaning

  predicate InTier(canonicalize: Canonicalize, candidate: CandidateIdentifier, priority: nat) {
    && candidate.identifierType in MATCH_PRIORITY
    && MATCH_PRIORITY[candidate.identifierType] == priority
    && canonicalize(candidate.identifierType, candidate.rawValue).Some?
  }

  /** A verified catalog row carries exactly the candidate's canonical identifier, scope included. */
  predicate Identifies(canonicalize: Canonicalize, candidate: CandidateIdentifier, row: ProductIdentifier) {
    && row.verified
    && row.identifierType == candidate.identifierType
    && canonicalize(candidate.identifierType, candidate.rawValue) == Some(row.canonicalValue)
    && row.providerScope == candidate.providerScope
  }

  predicate Hit(canonicalize: Canonicalize, priority: nat, candidate: CandidateIdentifier, row: ProductIdentifier) {
    InTier(canonicalize, candidate, priority) && Identifies(canonicalize, candidate, row)
  }

  /** The products that some candidate of the tier identifies. */
  ghost function TierProducts(
    catalog: seq<ProductIdentifier>, canonicalize: Canonicalize, candidates: seq<CandidateIdentifier>, priority: nat)
    : set<Uuid>
  {
    set candidate, row | candidate in candidates && row in catalog && Hit(canonicalize, priority, candidate, row) ::
      row.productId
  }

  /** The products of every tier. */
  ghost function Tiers(
    catalog: seq<ProductIdentifier>, canonicalize: Canonicalize, candidates: seq<CandidateIdentifier>)
    : nat -> set<Uuid>
  {
    priority => TierProducts(catalog, canonicalize, candidates, priority)
  }

  /** The products of the best tier that has any, looking from the given tier on. */
  ghost function BestFrom(tiers: nat -> set<Uuid>, priority: nat): set<Uuid>
    decreases LAST_PRIORITY + 1 - priority
  {
    if priority > LAST_PRIORITY then {}
    else if tiers(priority) != {} then tiers(priority)
    else BestFrom(tiers, priority + 1)
  }

  ghost function BestProducts(
    catalog: seq<ProductIdentifier>, canonicalize: Canonicalize, candidates: seq<CandidateIdentifier>): set<Uuid>
  {
    BestFrom(Tiers(catalog, canonicalize, candidates), 1)
  }

  /** One product is known, several call for a review, none is unknown. */
  ghost predicate Decides(products: set<Uuid>, m: CatalogMatch) {
    match m.status
    case Known => m.productId.Some? && products == {m.productId.value} && m.reason == EXACT && m.identifierType.Some?
    case Review => |products| > 1 && m == CatalogMatch(Review, None, None, CONFLICTING)
    case Unknown => products == {} && m == CatalogMatch(Unknown, None, None, NO_MATCH)
  }

  // --------------------------------------------------------------- algorithm

  /** A candidate that the first loop keeps: its priority and its canonical value. */
  datatype Normalized = Normalized(priority: nat, candidate: CandidateIdentifier, canonical: string)

  function NormalizedCandidate(canonicalize: Canonicalize, candidate: CandidateIdentifier): seq<Normalized> {
    if candidate.identifierType !in MATCH_PRIORITY then []
    else
      match canonicalize(candidate.identifierType, candidate.rawValue)
      case None => []
      case Some(canonical) => [Normalized(MATCH_PRIORITY[candidate.identifierType], candidate, canonical)]
  }

  /** The candidates that have a rank and normalize, in their order. */
  function NormalizedOf(canonicalize: Canonicalize, candidates: seq<CandidateIdentifier>): seq<Normalized> {
    if candidates == [] then []
    else
      NormalizedOf(canonicalize, candidates[..|candidates| - 1])
      + NormalizedCandidate(canonicalize, candidates[|candidates| - 1])
  }

  ghost predicate KeepsNormalizable(
    canonicalize: Canonicalize, candidates: seq<CandidateIdentifier>, normalized: seq<Normalized>)
  {
    && (forall item :: item in normalized ==>
          && item.candidate in candidates
          && InTier(canonicalize, item.candidate, item.priority)
          && canonicalize(item.candidate.identifierType, item.candidate.rawValue) == Some(item.canonical))
    && (forall candidate, priority :: candidate in candidates && InTier(canonicalize, candidate, priority) ==>
          exists item :: item in normalized && item.candidate == candidate && item.priority == priority)
  }

  lemma {:induction false} NormalizedMembers(canonicalize: Canonicalize, candidates: seq<CandidateIdentifier>)
    ensures KeepsNormalizable(canonicalize, candidates, NormalizedOf(canonicalize, candidates))
  {
    if candidates == [] {
    } else {
      var init, last := candidates[..|candidates| - 1], candidates[|candidates| - 1];
      NormalizedMembers(canonicalize, init);
      assert candidates == init + [last];
      var before, added := NormalizedOf(canonicalize, init), NormalizedCandidate(canonicalize, last);
      assert forall item :: item in before + added <==> item in before || item in added;
      forall priority | InTier(canonicalize, last, priority)
        ensures exists item: Normalized :: item in before + added && item.candidate == last && item.priority == priority
      {
        assert added[0] in added;
      }
    }
  }

  /** Unknown identifier types and values that do not normalize are passed over. */
  method NormalizeCandidates(canonicalize: Canonicalize, candidates: seq<CandidateIdentifier>)
    returns (normalized: seq<Normalized>)
    ensures normalized == NormalizedOf(canonicalize, candidates)
  {
    normalized := [];
    for i := 0 to |candidates|
      invariant normalized == NormalizedOf(canonicalize, candidates[..i])
    {
      var candidate := candidates[i];
      assert candidates[..i + 1][..i] == candidates[..i];
      if candidate.identifierType in MATCH_PRIORITY {
        var canonical := canonicalize(candidate.identifierType, candidate.rawValue);
        if canonical.Some? {
          normalized := normalized + [Normalized(MATCH_PRIORITY[candidate.identifierType], candidate, canonical.value)];
        }
      }
    }
    assert candidates[..|candidates|] == candidates;
  }

  method Smallest(s: set<nat>) returns (m: nat)
    requires s != {}
    ensures m in s && forall x :: x in s ==> m <= x
  {
    m :| m in s;
    var rest := s - {m};
    while rest != {}
      invariant rest <= s && m in s
      invariant forall x :: x in s && x !in rest ==> m <= x
      decreases |rest|
    {
      var x :| x in rest;
      rest := rest - {x};
      if x < m { m := x; }
    }
  }

  /** A match tells which product was found and by which type of identifier. */
  ghost predicate MatchOf(
    catalog: seq<ProductIdentifier>, canonicalize: Canonicalize, candidates: seq<CandidateIdentifier>, priority: nat,
    pair: (Uuid, string))
  {
    exists candidate, row :: candidate in candidates && row in catalog
      && Hit(canonicalize, priority, candidate, row) && pair == (row.productId, row.identifierType)
  }

  /** The query for one candidate. */
  method SelectIdentifiers(catalog: seq<ProductIdentifier>, ghost canonicalize: Canonicalize, item: Normalized)
    returns (found: seq<(Uuid, string)>)
    requires canonicalize(item.candidate.identifierType, item.candidate.rawValue) == Some(item.canonical)
    ensures forall pair :: pair in found <==>
              exists row :: row in catalog && Identifies(canonicalize, item.candidate, row)
                && pair == (row.productId, row.identifierType)
  {
    found := [];
    for j := 0 to |catalog|
      invariant forall pair :: pair in found <==>
                  exists k :: 0 <= k < j && Identifies(canonicalize, item.candidate, catalog[k])
                    && pair == (catalog[k].productId, catalog[k].identifierType)
    {
      var row := catalog[j];
      if row.verified && row.identifierType == item.candidate.identifierType
         && row.canonicalValue == item.canonical && row.providerScope == item.candidate.providerScope
      {
        found := found + [(row.productId, row.identifierType)];
      }
    }
  }

  /** The type of the first candidate of the tier that identifies any product. */
  ghost function FirstType(
    catalog: seq<ProductIdentifier>, canonicalize: Canonicalize, normalized: seq<Normalized>, priority: nat)
    : Option<string>
  {
    if normalized == [] then None
    else
      var earlier := FirstType(catalog, canonicalize, normalized[..|normalized| - 1], priority);
      var item := normalized[|normalized| - 1];
      if earlier.Some? then earlier
      else if item.priority == priority && exists row :: row in catalog && Identifies(canonicalize, item.candidate, row)
        then Some(item.candidate.identifierType)
      else None
  }

  lemma {:induction false} TypeOfSomeCandidate(
    catalog: seq<ProductIdentifier>, canonicalize: Canonicalize, normalized: seq<Normalized>, priority: nat)
    ensures var found := FirstType(catalog, canonicalize, normalized, priority);
            found.Some? ==> exists k :: 0 <= k < |normalized| && normalized[k].candidate.identifierType == found.value
  {
    if normalized == [] {
    } else {
      TypeOfSomeCandidate(catalog, canonicalize, normalized[..|normalized| - 1], priority);
    }
  }

  /** The (product, identifier type) pairs that the queries of one tier return, in candidate order. */
  method TierMatches(
    catalog: seq<ProductIdentifier>, ghost canonicalize: Canonicalize, ghost candidates: seq<CandidateIdentifier>,
    normalized: seq<Normalized>, priority: nat
  ) returns (matches: seq<(Uuid, string)>)
    requires KeepsNormalizable(canonicalize, candidates, normalized)
    ensures forall pair :: pair in matches <==> MatchOf(catalog, canonicalize, candidates, priority, pair)
    ensures FirstType(catalog, canonicalize, normalized, priority)
         == if matches == [] then None else Some(matches[0].1)
  {
    matches := [];
    for i := 0 to |normalized|
      invariant forall pair :: pair in matches ==> MatchOf(catalog, canonicalize, candidates, priority, pair)
      invariant forall k, row :: (0 <= k < i && row in catalog && normalized[k].priority == priority
                  && Identifies(canonicalize, normalized[k].candidate, row)) ==>
                  (row.productId, row.identifierType) in matches
      invariant FirstType(catalog, canonicalize, normalized[..i], priority)
             == if matches == [] then None else Some(matches[0].1)
    {
      var item := normalized[i];
      assert item in normalized;
      assert normalized[..i + 1][..i] == normalized[..i];
      if item.priority == priority {
        var found := SelectIdentifiers(catalog, canonicalize, item);
        forall pair | pair in found
          ensures MatchOf(catalog, canonicalize, candidates, priority, pair) && pair.1 == item.candidate.identifierType
        {
          var row :| row in catalog && Identifies(canonicalize, item.candidate, row)
                     && pair == (row.productId, row.identifierType);
          assert Hit(canonicalize, priority, item.candidate, row);
        }
        if found != [] {
          assert found[0] in found;
        }
        matches := matches + found;
      }
    }
    assert normalized[..|normalized|] == normalized;
    forall pair | MatchOf(catalog, canonicalize, candidates, priority, pair) ensures pair in matches {
      var candidate, row :| candidate in candidates && row in catalog
        && Hit(canonicalize, priority, candidate, row) && pair == (row.productId, row.identifierType);
      var item :| item in normalized && item.candidate == candidate && item.priority == priority;
      var k :| 0 <= k < |normalized| && normalized[k] == item;
    }
  }

  lemma MatchedProducts(
    catalog: seq<ProductIdentifier>, canonicalize: Canonicalize, candidates: seq<CandidateIdentifier>, priority: nat,
    matches: seq<(Uuid, string)>)
    requires forall pair :: pair in matches <==> MatchOf(catalog, canonicalize, candidates, priority, pair)
    ensures (set pair | pair in matches :: pair.0) == Tiers(catalog, canonicalize, candidates)(priority)
  {
    forall product | product in TierProducts(catalog, canonicalize, candidates, priority)
      ensures exists pair :: pair in matches && pair.0 == product
    {
      var candidate, row :| candidate in candidates && row in catalog
                            && Hit(canonicalize, priority, candidate, row) && row.productId == product;
      assert MatchOf(catalog, canonicalize, candidates, priority, (row.productId, row.identifierType));
      assert (row.productId, row.identifierType) in matches;
    }
  }

  /** A tier without candidates has no products. */
  lemma TierWithoutCandidates(
    catalog: seq<ProductIdentifier>, canonicalize: Canonicalize, candidates: seq<CandidateIdentifier>,
    normalized: seq<Normalized>, priority: nat)
    requires KeepsNormalizable(canonicalize, candidates, normalized)
    requires forall item :: item in normalized ==> item.priority != priority
    ensures Tiers(catalog, canonicalize, candidates)(priority) == {}
  {
  }

  ghost predicate EmptyOutside(tiers: nat -> set<Uuid>, priorities: set<nat>, tier: nat) {
    && 1 <= tier <= LAST_PRIORITY + 1
    && (forall p: nat :: tier <= p && p !in priorities ==> tiers(p) == {})
    && (forall p :: p in priorities ==> tier <= p <= LAST_PRIORITY)
  }

  lemma TiersHavePriorities(
    catalog: seq<ProductIdentifier>, canonicalize: Canonicalize, candidates: seq<CandidateIdentifier>,
    normalized: seq<Normalized>)
    requires KeepsNormalizable(canonicalize, candidates, normalized)
    ensures EmptyOutside(Tiers(catalog, canonicalize, candidates), set item | item in normalized :: item.priority, 1)
  {
    var priorities := set item | item in normalized :: item.priority;
    forall p: nat | p !in priorities ensures Tiers(catalog, canonicalize, candidates)(p) == {} {
      TierWithoutCandidates(catalog, canonicalize, candidates, normalized, p);
    }
  }

  lemma {:induction false} SkipEmpty(tiers: nat -> set<Uuid>, from: nat, to: nat)
    requires from <= to <= LAST_PRIORITY + 1
    requires forall p: nat :: from <= p < to ==> tiers(p) == {}
    ensures BestFrom(tiers, from) == BestFrom(tiers, to)
    decreases LAST_PRIORITY + 1 - from
  {
    if from < to {
      SkipEmpty(tiers, from + 1, to);
    }
  }

  lemma NextTier(tiers: nat -> set<Uuid>, priorities: set<nat>, tier: nat, priority: nat)
    requires EmptyOutside(tiers, priorities, tier)
    requires priority in priorities && forall p :: p in priorities ==> priority <= p
    requires tiers(priority) == {}
    ensures EmptyOutside(tiers, priorities - {priority}, priority + 1)
    ensures BestFrom(tiers, tier) == BestFrom(tiers, priority + 1)
  {
    SkipEmpty(tiers, tier, priority + 1);
  }

  /** What one tier decides, or None when no query of the tier returns anything. */
  method DecideTier(
    catalog: seq<ProductIdentifier>, ghost canonicalize: Canonicalize, ghost candidates: seq<CandidateIdentifier>,
    normalized: seq<Normalized>, priority: nat
  ) returns (decision: Option<CatalogMatch>)
    requires KeepsNormalizable(canonicalize, candidates, normalized)
    ensures decision.None? ==> Tiers(catalog, canonicalize, candidates)(priority) == {}
    ensures decision.Some? ==>
              && Decides(Tiers(catalog, canonicalize, candidates)(priority), decision.value)
              && decision.value.status != Unknown
              && (decision.value.status == Known ==>
                    decision.value.identifierType == FirstType(catalog, canonicalize, normalized, priority))
  {
    var matches := TierMatches(catalog, canonicalize, candidates, normalized, priority);
    var products := set pair | pair in matches :: pair.0;
    MatchedProducts(catalog, canonicalize, candidates, priority, matches);
    if |products| == 1 {
      assert |matches| > 0;
      assert matches[0] in matches;
      Singleton(products, matches[0].0);
      return Some(CatalogMatch(Known, Some(matches[0].0), Some(matches[0].1), EXACT));
    }
    if |products| > 1 {
      return Some(CatalogMatch(Review, None, None, CONFLICTING));
    }
    return None;
  }

  /** The tier has a hit and no better tier has one. */
  ghost predicate IsBestTier(tiers: nat -> set<Uuid>, tier: nat) {
    1 <= tier <= LAST_PRIORITY && tiers(tier) != {} && forall p: nat :: 1 <= p < tier ==> tiers(p) == {}
  }

  /** The status and the product are those of the best tier with any verified hit; a known product is reported with
      the type of the first candidate of that tier that finds it. */
  ghost predicate IsMatch(
    catalog: seq<ProductIdentifier>, canonicalize: Canonicalize, candidates: seq<CandidateIdentifier>, m: CatalogMatch)
  {
    && Decides(BestProducts(catalog, canonicalize, candidates), m)
    && (m.status == Known ==> exists tier: nat ::
          && IsBestTier(Tiers(catalog, canonicalize, candidates), tier)
          && m.identifierType == FirstType(catalog, canonicalize, NormalizedOf(canonicalize, candidates), tier))
  }

  lemma DecisionOfBestTier(
    catalog: seq<ProductIdentifier>, canonicalize: Canonicalize, candidates: seq<CandidateIdentifier>,
    tier: nat, priority: nat, m: CatalogMatch)
    requires 1 <= tier <= priority <= LAST_PRIORITY
    requires forall p: nat :: 1 <= p < tier ==> Tiers(catalog, canonicalize, candidates)(p) == {}
    requires BestProducts(catalog, canonicalize, candidates) == BestFrom(Tiers(catalog, canonicalize, candidates), tier)
    requires forall p: nat :: tier <= p < priority ==> Tiers(catalog, canonicalize, candidates)(p) == {}
    requires Decides(Tiers(catalog, canonicalize, candidates)(priority), m) && m.status != Unknown
    requires m.status == Known ==>
               m.identifierType == FirstType(catalog, canonicalize, NormalizedOf(canonicalize, candidates), priority)
    ensures IsMatch(catalog, canonicalize, candidates, m)
  {
    var tiers := Tiers(catalog, canonicalize, candidates);
    SkipEmpty(tiers, tier, priority);
    assert IsBestTier(tiers, priority);
  }

  /** Where the second loop stands: every tier before this one, and every tier without candidates, is empty. */
  ghost predicate AtTier(tiers: nat -> set<Uuid>, priorities: set<nat>, tier: nat) {
    && EmptyOutside(tiers, priorities, tier)
    && (forall p: nat :: 1 <= p < tier ==> tiers(p) == {})
    && BestFrom(tiers, 1) == BestFrom(tiers, tier)
  }

  lemma FirstTierIsOpen(
    catalog: seq<ProductIdentifier>, canonicalize: Canonicalize, candidates: seq<CandidateIdentifier>,
    normalized: seq<Normalized>)
    requires KeepsNormalizable(canonicalize, candidates, normalized)
    ensures AtTier(Tiers(catalog, canonicalize, candidates), set item | item in normalized :: item.priority, 1)
  {
    TiersHavePriorities(catalog, canonicalize, candidates, normalized);
  }

  lemma OnToNextTier(tiers: nat -> set<Uuid>, priorities: set<nat>, tier: nat, priority: nat)
    requires AtTier(tiers, priorities, tier)
    requires priority in priorities && forall p :: p in priorities ==> priority <= p
    requires tiers(priority) == {}
    ensures AtTier(tiers, priorities - {priority}, priority + 1)
  {
    NextTier(tiers, priorities, tier, priority);
  }

  lemma TierDecides(
    catalog: seq<ProductIdentifier>, canonicalize: Canonicalize, candidates: seq<CandidateIdentifier>,
    priorities: set<nat>, tier: nat, priority: nat, m: CatalogMatch)
    requires AtTier(Tiers(catalog, canonicalize, candidates), priorities, tier)
    requires priority in priorities && forall p :: p in priorities ==> priority <= p
    requires Decides(Tiers(catalog, canonicalize, candidates)(priority), m) && m.status != Unknown
    requires m.status == Known ==>
               m.identifierType == FirstType(catalog, canonicalize, NormalizedOf(canonicalize, candidates), priority)
    ensures IsMatch(catalog, canonicalize, candidates, m)
  {
    DecisionOfBestTier(catalog, canonicalize, candidates, tier, priority, m);
  }

  lemma NoTierDecides(
    catalog: seq<ProductIdentifier>, canonicalize: Canonicalize, candidates: seq<CandidateIdentifier>, tier: nat)
    requires AtTier(Tiers(catalog, canonicalize, candidates), {}, tier)
    ensures IsMatch(catalog, canonicalize, candidates, CatalogMatch(Unknown, None, None, NO_MATCH))
  {
    SkipEmpty(Tiers(catalog, canonicalize, candidates), tier, LAST_PRIORITY + 1);
  }

  /** The second loop: the tiers that have candidates, best first. */
  method DecideTiers(
    catalog: seq<ProductIdentifier>, ghost canonicalize: Canonicalize, ghost candidates: seq<CandidateIdentifier>,
    normalized: seq<Normalized>
  ) returns (m: CatalogMatch)
    requires KeepsNormalizable(canonicalize, candidates, normalized)
    requires normalized == NormalizedOf(canonicalize, candidates)
    ensures IsMatch(catalog, canonicalize, candidates, m)
  {
    var priorities := set item | item in normalized :: item.priority;
    ghost var tier := 1;
    FirstTierIsOpen(catalog, canonicalize, candidates, normalized);
    while priorities != {}
      invariant AtTier(Tiers(catalog, canonicalize, candidates), priorities, tier)
      decreases |priorities|
    {
      var priority := Smallest(priorities);
      var decision := DecideTier(catalog, canonicalize, candidates, normalized, priority);
      if decision.Some? {
        TierDecides(catalog, canonicalize, candidates, priorities, tier, priority, decision.value);
        return decision.value;
      }
      OnToNextTier(Tiers(catalog, canonicalize, candidates), priorities, tier, priority);
      priorities := priorities - {priority};
      tier := priority + 1;
    }
    NoTierDecides(catalog, canonicalize, candidates, tier);
    return CatalogMatch(Unknown, None, None, NO_MATCH);
  }

  method MatchProduct(
    catalog: seq<ProductIdentifier>, canonicalize: Canonicalize, candidates: seq<CandidateIdentifier>
  ) returns (m: CatalogMatch)
    ensures IsMatch(catalog, canonicalize, candidates, m)
  {
    var normalized := NormalizeCandidates(canonicalize, candidates);
    NormalizedMembers(canonicalize, candidates);
    m := DecideTiers(catalog, canonicalize, candidates, normalized);
  }

  lemma Singleton<T>(s: set<T>, x: T)
    requires |s| == 1 && x in s
    ensures s == {x}
  {
    assert |s - {x}| == 0;
    assert s == s - {x} + {x};
  }

  // -------------------------------------------------------------- properties

  /** The best tier is a tier with a hit such that no better tier has one. */
  lemma {:induction false} BestTier(tiers: nat -> set<Uuid>, from: nat) returns (best: nat)
    requires from <= LAST_PRIORITY + 1
    ensures from <= best <= LAST_PRIORITY + 1
    ensures forall p: nat :: from <= p < best ==> tiers(p) == {}
    ensures if best <= LAST_PRIORITY then BestFrom(tiers, from) == tiers(best) != {} else BestFrom(tiers, from) == {}
    decreases LAST_PRIORITY + 1 - from
  {
    if from <= LAST_PRIORITY && tiers(from) == {} {
      best := BestTier(tiers, from + 1);
    } else {
      best := from;
    }
  }

  /** The result is unknown exactly when no candidate of a ranked type is a verified identifier of anything. */
  lemma UnknownMeaning(
    catalog: seq<ProductIdentifier>, canonicalize: Canonicalize, candidates: seq<CandidateIdentifier>, m: CatalogMatch)
    requires Decides(BestProducts(catalog, canonicalize, candidates), m)
    ensures m.status == Unknown <==>
              forall candidate, row :: (candidate in candidates && row in catalog
                && candidate.identifierType in MATCH_PRIORITY) ==> !Identifies(canonicalize, candidate, row)
  {
    var tiers := Tiers(catalog, canonicalize, candidates);
    var best := BestTier(tiers, 1);
    if best > LAST_PRIORITY {
      forall candidate, row | candidate in candidates && row in catalog && candidate.identifierType in MATCH_PRIORITY
        ensures !Identifies(canonicalize, candidate, row)
      {
        var p := MATCH_PRIORITY[candidate.identifierType];
        assert row.productId !in tiers(p);
        assert !Hit(canonicalize, p, candidate, row);
      }
    } else {
      var product :| product in tiers(best);
      var candidate, row :| candidate in candidates && row in catalog
                            && Hit(canonicalize, best, candidate, row) && row.productId == product;
    }
  }

  lemma DecidedOnce(products: set<Uuid>, m: CatalogMatch, n: CatalogMatch)
    requires Decides(products, m) && Decides(products, n)
    ensures m.status == n.status && m.productId == n.productId && m.reason == n.reason
  {
    if m.status == Known {
      assert m.productId.value in products;
    }
    if n.status == Known {
      assert n.productId.value in products;
    }
  }

  lemma {:induction false} SameTiers(a: nat -> set<Uuid>, b: nat -> set<Uuid>, from: nat)
    requires forall p: nat :: from <= p ==> a(p) == b(p)
    ensures BestFrom(a, from) == BestFrom(b, from)
    decreases LAST_PRIORITY + 1 - from
  {
    if from <= LAST_PRIORITY {
      SameTiers(a, b, from + 1);
    }
  }

  /** Neither the order nor the repetition of candidates or catalog rows matters to the status, the product or the
      reason. */
  lemma OrderAndRepetitionDoNotMatter(
    catalog: seq<ProductIdentifier>, catalog': seq<ProductIdentifier>, canonicalize: Canonicalize,
    candidates: seq<CandidateIdentifier>, candidates': seq<CandidateIdentifier>, m: CatalogMatch, m': CatalogMatch)
    requires forall row :: row in catalog <==> row in catalog'
    requires forall candidate :: candidate in candidates <==> candidate in candidates'
    requires Decides(BestProducts(catalog, canonicalize, candidates), m)
    requires Decides(BestProducts(catalog', canonicalize, candidates'), m')
    ensures m.status == m'.status && m.productId == m'.productId && m.reason == m'.reason
  {
    SameTiers(Tiers(catalog, canonicalize, candidates), Tiers(catalog', canonicalize, candidates'), 1);
    DecidedOnce(BestProducts(catalog, canonicalize, candidates), m, m');
  }

  /** Candidates of worse tiers cannot change what a better tier decided. */
  lemma WorseTiersNeverOverrule(
    catalog: seq<ProductIdentifier>, canonicalize: Canonicalize, candidates: seq<CandidateIdentifier>,
    more: seq<CandidateIdentifier>, tier: nat, m: CatalogMatch, n: CatalogMatch)
    requires 1 <= tier <= LAST_PRIORITY
    requires Tiers(catalog, canonicalize, candidates)(tier) != {}
    requires forall candidate :: candidate in more && candidate.identifierType in MATCH_PRIORITY ==>
               MATCH_PRIORITY[candidate.identifierType] > tier
    requires Decides(BestProducts(catalog, canonicalize, candidates), m)
    requires Decides(BestProducts(catalog, canonicalize, candidates + more), n)
    ensures m.status == n.status && m.productId == n.productId && m.reason == n.reason
  {
    var a, b := Tiers(catalog, canonicalize, candidates), Tiers(catalog, canonicalize, candidates + more);
    var best := BestTier(a, 1);
    forall p: nat | p <= tier ensures a(p) == b(p) {
    }
    SkipEmpty(b, 1, best);
    DecidedOnce(a(best), m, n);
  }

  predicate IsAppId(identifierType: string) {
    identifierType == "microsoft_app_id" || identifierType == "google_client_id"
  }

  predicate IsAddress(identifierType: string) {
    identifierType == "hostname" || identifierType == "domain" || identifierType == "origin"
  }

  predicate IsOAuth(identifierType: string) {
    identifierType == "oauth_client_id" || identifierType == "redirect_uri"
  }

  predicate IsName(identifierType: string) {
    identifierType == "product_name"
  }

  predicate IsRanked(identifierType: string) {
    IsAppId(identifierType) || IsAddress(identifierType) || IsOAuth(identifierType) || IsName(identifierType)
  }

  predicate Overrules(a: string, b: string) {
    || (IsAppId(a) && !IsAppId(b))
    || (IsAddress(a) && (IsOAuth(b) || IsName(b)))
    || (IsOAuth(a) && IsName(b))
  }

  /** Application ids overrule addresses, OAuth data and names, addresses OAuth data and names, and OAuth data names;
      no other type has a say. */
  lemma WhoOverrulesWhom(a: string, b: string)
    ensures a in MATCH_PRIORITY <==> IsRanked(a)
    ensures a in MATCH_PRIORITY && b in MATCH_PRIORITY ==>
              (MATCH_PRIORITY[a] < MATCH_PRIORITY[b] <==> Overrules(a, b))
    ensures a in MATCH_PRIORITY ==> 1 <= MATCH_PRIORITY[a] <= LAST_PRIORITY
  {
  }

  /** The row is verified and carries the candidate's type, canonical value and scope, and the type has a say. */
  predicate Names(canonicalize: Canonicalize, candidate: CandidateIdentifier, row: ProductIdentifier) {
    && IsRanked(candidate.identifierType)
    && row.verified && row.identifierType == candidate.identifierType
    && row.providerScope == candidate.providerScope
    && canonicalize(candidate.identifierType, candidate.rawValue) == Some(row.canonicalValue)
  }

  lemma NamesIsHit(canonicalize: Canonicalize, candidate: CandidateIdentifier, row: ProductIdentifier)
    ensures Names(canonicalize, candidate, row) <==>
              && candidate.identifierType in MATCH_PRIORITY
              && Hit(canonicalize, MATCH_PRIORITY[candidate.identifierType], candidate, row)
  {
    WhoOverrulesWhom(candidate.identifierType, candidate.identifierType);
  }

  /** No candidate whose type overrules this one's names any row. */
  ghost predicate NotOverruled(
    catalog: seq<ProductIdentifier>, canonicalize: Canonicalize, candidates: seq<CandidateIdentifier>,
    identifierType: string)
  {
    forall candidate, row :: candidate in candidates && row in catalog && Names(canonicalize, candidate, row) ==>
      !Overrules(candidate.identifierType, identifierType)
  }

  /** A candidate that names the row and is not overruled. */
  ghost predicate Decisive(
    catalog: seq<ProductIdentifier>, canonicalize: Canonicalize, candidates: seq<CandidateIdentifier>,
    candidate: CandidateIdentifier, row: ProductIdentifier)
  {
    && candidate in candidates && row in catalog && Names(canonicalize, candidate, row)
    && NotOverruled(catalog, canonicalize, candidates, candidate.identifierType)
  }

  lemma DecisiveInBestTier(
    catalog: seq<ProductIdentifier>, canonicalize: Canonicalize, candidates: seq<CandidateIdentifier>, best: nat,
    candidate: CandidateIdentifier, row: ProductIdentifier)
    requires best <= LAST_PRIORITY && Tiers(catalog, canonicalize, candidates)(best) != {}
    requires forall p: nat :: 1 <= p < best ==> Tiers(catalog, canonicalize, candidates)(p) == {}
    ensures Decisive(catalog, canonicalize, candidates, candidate, row) <==>
              candidate in candidates && row in catalog && Hit(canonicalize, best, candidate, row)
  {
    NamesIsHit(canonicalize, candidate, row);
    var product :| product in Tiers(catalog, canonicalize, candidates)(best);
    var c, r :| c in candidates && r in catalog && Hit(canonicalize, best, c, r) && r.productId == product;
    NamesIsHit(canonicalize, c, r);
    WhoOverrulesWhom(c.identifierType, candidate.identifierType);
    if candidate in candidates && row in catalog && Names(canonicalize, candidate, row) {
      TierOfHit(catalog, canonicalize, candidates, best, candidate, row);
      if MATCH_PRIORITY[candidate.identifierType] == best {
        NoneOverrulesBest(catalog, canonicalize, candidates, best, candidate.identifierType);
      }
    }
  }

  lemma TierOfHit(
    catalog: seq<ProductIdentifier>, canonicalize: Canonicalize, candidates: seq<CandidateIdentifier>, best: nat,
    candidate: CandidateIdentifier, row: ProductIdentifier)
    requires forall p: nat :: 1 <= p < best ==> Tiers(catalog, canonicalize, candidates)(p) == {}
    requires candidate in candidates && row in catalog && Names(canonicalize, candidate, row)
    ensures candidate.identifierType in MATCH_PRIORITY && MATCH_PRIORITY[candidate.identifierType] >= best
  {
    NamesIsHit(canonicalize, candidate, row);
    WhoOverrulesWhom(candidate.identifierType, candidate.identifierType);
    var p := MATCH_PRIORITY[candidate.identifierType];
    assert row.productId in Tiers(catalog, canonicalize, candidates)(p);
  }

  lemma NoneOverrulesBest(
    catalog: seq<ProductIdentifier>, canonicalize: Canonicalize, candidates: seq<CandidateIdentifier>, best: nat,
    identifierType: string)
    requires forall p: nat :: 1 <= p < best ==> Tiers(catalog, canonicalize, candidates)(p) == {}
    requires identifierType in MATCH_PRIORITY && MATCH_PRIORITY[identifierType] == best
    ensures NotOverruled(catalog, canonicalize, candidates, identifierType)
  {
    forall c, r | c in candidates && r in catalog && Names(canonicalize, c, r)
      ensures !Overrules(c.identifierType, identifierType)
    {
      TierOfHit(catalog, canonicalize, candidates, best, c, r);
      WhoOverrulesWhom(c.identifierType, identifierType);
    }
  }

  /** The deciding products are those that some candidate names without being overruled. */
  lemma DecisiveProducts(
    catalog: seq<ProductIdentifier>, canonicalize: Canonicalize, candidates: seq<CandidateIdentifier>, product: Uuid)
    ensures product in BestProducts(catalog, canonicalize, candidates) <==>
              exists candidate, row :: Decisive(catalog, canonicalize, candidates, candidate, row)
                                       && row.productId == product
  {
    var tiers := Tiers(catalog, canonicalize, candidates);
    var best := BestTier(tiers, 1);
    if best <= LAST_PRIORITY {
      forall candidate, row
        ensures Decisive(catalog, canonicalize, candidates, candidate, row) <==>
                  candidate in candidates && row in catalog && Hit(canonicalize, best, candidate, row)
      {
        DecisiveInBestTier(catalog, canonicalize, candidates, best, candidate, row);
      }
    } else {
      forall candidate, row ensures !Decisive(catalog, canonicalize, candidates, candidate, row) {
        if candidate in candidates && row in catalog && Names(canonicalize, candidate, row) {
          TierOfHit(catalog, canonicalize, candidates, best, candidate, row);
          WhoOverrulesWhom(candidate.identifierType, candidate.identifierType);
        }
      }
    }
  }

  ghost predicate DecidesFor(
    catalog: seq<ProductIdentifier>, canonicalize: Canonicalize, candidates: seq<CandidateIdentifier>, product: Uuid)
  {
    exists candidate, row ::
      Decisive(catalog, canonicalize, candidates, candidate, row) && row.productId == product
  }

  lemma TwoMembers(s: set<Uuid>) returns (a: Uuid, b: Uuid)
    requires |s| > 1
    ensures a in s && b in s && a != b
  {
    a :| a in s;
    assert |s - {a}| == |s| - 1;
    b :| b in s - {a};
  }

  /** Known: all candidates that are not overruled name this one product. Review: they name several. Unknown: there
      is none. */
  lemma MatchMeaning(
    catalog: seq<ProductIdentifier>, canonicalize: Canonicalize, candidates: seq<CandidateIdentifier>, m: CatalogMatch)
    requires Decides(BestProducts(catalog, canonicalize, candidates), m)
    ensures m.status == Known ==>
              forall product: Uuid ::
                DecidesFor(catalog, canonicalize, candidates, product) <==> m.productId == Some(product)
    ensures m.status == Review ==>
              exists a, b :: a != b && DecidesFor(catalog, canonicalize, candidates, a)
                             && DecidesFor(catalog, canonicalize, candidates, b)
    ensures m.status == Unknown ==> forall product: Uuid :: !DecidesFor(catalog, canonicalize, candidates, product)
  {
    var products := BestProducts(catalog, canonicalize, candidates);
    forall product ensures DecidesFor(catalog, canonicalize, candidates, product) <==> product in products {
      DecisiveProducts(catalog, canonicalize, candidates, product);
    }
    if m.status == Review {
      var a, b := TwoMembers(products);
      assert DecidesFor(catalog, canonicalize, candidates, a) && DecidesFor(catalog, canonicalize, candidates, b);
    }
  }

  /** The catalog's unique constraint on type, canonical value and scope. */
  ghost predicate UniqueIdentifiers(catalog: seq<ProductIdentifier>) {
    forall i, j :: (0 <= i < |catalog| && 0 <= j < |catalog|
      && catalog[i].identifierType == catalog[j].identifierType
      && catalog[i].canonicalValue == catalog[j].canonicalValue
      && catalog[i].providerScope == catalog[j].providerScope) ==> i == j
  }

  /** A single candidate never needs a review, because an identifier belongs to one product. */
  lemma OneCandidateNeedsNoReview(
    catalog: seq<ProductIdentifier>, canonicalize: Canonicalize, candidate: CandidateIdentifier, m: CatalogMatch)
    requires UniqueIdentifiers(catalog)
    requires Decides(BestProducts(catalog, canonicalize, [candidate]), m)
    ensures m.status != Review
  {
    var tiers := Tiers(catalog, canonicalize, [candidate]);
    var best := BestTier(tiers, 1);
    if best <= LAST_PRIORITY {
      var product :| product in tiers(best);
      forall other | other in tiers(best) ensures other == product {
        OneProduct(catalog, canonicalize, candidate, best, product, other);
      }
      assert tiers(best) == {product};
    }
  }

  lemma OneProduct(
    catalog: seq<ProductIdentifier>, canonicalize: Canonicalize, candidate: CandidateIdentifier, priority: nat,
    product: Uuid, other: Uuid)
    requires UniqueIdentifiers(catalog)
    requires product in TierProducts(catalog, canonicalize, [candidate], priority)
    requires other in TierProducts(catalog, canonicalize, [candidate], priority)
    ensures product == other
  {
    var row :| row in catalog && Hit(canonicalize, priority, candidate, row) && row.productId == product;
    var row' :| row' in catalog && Hit(canonicalize, priority, candidate, row') && row'.productId == other;
    var i :| 0 <= i < |catalog| && catalog[i] == row;
    var j :| 0 <= j < |catalog| && catalog[j] == row';
  }
}
