/** The risk score of apps/policies/risk.py. Weighted points are exact decimals with two places, kept here as whole
    hundredths. */
module Risk {
  import opened Prelude

  datatype RiskDimension =
    | DataSensitivity | SystemPrivilege | Autonomy | ExternalConnectivity
    | HumanOversight | FinancialImpact | RegulatoryRelevance | VendorRisk

  const ALL_DIMENSIONS: set<RiskDimension> := {
    DataSensitivity, SystemPrivilege, Autonomy, ExternalConnectivity, HumanOversight, FinancialImpact,
    RegulatoryRelevance, VendorRisk
  }

  datatype RiskBand = Low | Moderate | High | Critical

  const RISK_ENGINE_VERSION := "AL-RISK-1"

  datatype RiskConfiguration = RiskConfiguration(version: string, weights: seq<(RiskDimension, int)>)

  function WeightOf(item: (RiskDimension, int)): int { item.1 }

  /** The checks of __post_init__. */
  predicate ValidConfiguration(c: RiskConfiguration) {
    && (set i | 0 <= i < |c.weights| :: c.weights[i].0) == ALL_DIMENSIONS
    && (forall i, j :: 0 <= i < j < |c.weights| ==> c.weights[i].0 != c.weights[j].0)
    && (forall i :: 0 <= i < |c.weights| ==> c.weights[i].1 >= 0)
    && SumOver(c.weights, WeightOf) == 100
    && c.version != ""
  }

  datatype RiskContribution = RiskContribution(
    reason: string, ruleId: string, ruleVersion: string, dimension: RiskDimension, points: int)

  datatype DimensionScore = DimensionScore(
    dimension: RiskDimension, rawPoints: int, score: int, weightPercent: int, weightedHundredths: int)

  datatype RiskScore = RiskScore(
    engineVersion: string,
    configurationVersion: string,
    dimensions: seq<DimensionScore>,
    contributions: seq<RiskContribution>,
    rawWeightedHundredths: int,
    score: int,
    band: RiskBand,
    severityFloor: Option<RiskBand>)

  datatype RiskError = ScoreOutOfRange

  // ----------------------------------------------------------------- bands

  function BandMinimum(band: RiskBand): int {
    match band
    case Low => 0
    case Moderate => 25
    case High => 50
    case Critical => 75
  }

  function ClassifyRisk(score: int): Result<RiskBand, RiskError> {
    if !(0 <= score <= 100) then Err(ScoreOutOfRange)
    else if score <= 24 then Ok(Low)
    else if score <= 49 then Ok(Moderate)
    else if score <= 74 then Ok(High)
    else Ok(Critical)
  }

  /** The bands are cut exactly at their minimums. */
  lemma BandCuts(score: int, band: RiskBand)
    requires 0 <= score <= 100
    ensures ClassifyRisk(score).Ok?
    ensures BandMinimum(ClassifyRisk(score).value) >= BandMinimum(band) <==> score >= BandMinimum(band)
    ensures ClassifyRisk(score).value == band ==> BandMinimum(band) <= score
    ensures ClassifyRisk(score).value == Low <==> score < 25
    ensures ClassifyRisk(score).value == Moderate <==> 25 <= score < 50
    ensures ClassifyRisk(score).value == High <==> 50 <= score < 75
    ensures ClassifyRisk(score).value == Critical <==> 75 <= score
  {
    match band
    case Low =>
    case Moderate =>
    case High =>
    case Critical =>
  }

  // ---------------------------------------------------------- specification

  function PointsFor(dimension: RiskDimension): RiskContribution -> int {
    (c: RiskContribution) => if c.dimension == dimension then c.points else 0
  }

  function RawPoints(contributions: seq<RiskContribution>, dimension: RiskDimension): int {
    SumOver(contributions, PointsFor(dimension))
  }

  function Clamp(points: int): (score: int)
    ensures 0 <= score <= 100
  {
    if points < 0 then 0 else if points > 100 then 100 else points
  }

  /** The score of a dimension as a function of the raw points of every dimension. */
  function Weighted(raw: RiskDimension -> int): ((RiskDimension, int)) -> int {
    (item: (RiskDimension, int)) => Clamp(raw(item.0)) * item.1
  }

  function Hundredths(c: RiskConfiguration, raw: RiskDimension -> int): int {
    SumOver(c.weights, Weighted(raw))
  }

  /** Decimal.quantize(1, ROUND_HALF_UP) of a non-negative number of hundredths. */
  function RoundHalfUp(hundredths: int): int {
    (hundredths + 50) / 100
  }

  /** The first band of the largest minimum. */
  function TopFloor(floors: seq<RiskBand>): Option<RiskBand> {
    if floors == [] then None
    else
      var last := floors[|floors| - 1];
      match TopFloor(floors[..|floors| - 1])
      case None => Some(last)
      case Some(top) => if BandMinimum(last) > BandMinimum(top) then Some(last) else Some(top)
  }

  function FloorMinimum(floors: seq<RiskBand>): int {
    match TopFloor(floors)
    case None => 0
    case Some(top) => BandMinimum(top)
  }

  function RawPointsOf(contributions: seq<RiskContribution>): RiskDimension -> int {
    dimension => RawPoints(contributions, dimension)
  }

  function FinalScore(c: RiskConfiguration, raw: RiskDimension -> int, floorMinimum: int): int {
    var rounded := RoundHalfUp(Hundredths(c, raw));
    if floorMinimum > rounded then floorMinimum else rounded
  }

  function ScoreOf(contributions: seq<RiskContribution>, floors: seq<RiskBand>, c: RiskConfiguration): int {
    FinalScore(c, RawPointsOf(contributions), FloorMinimum(floors))
  }

  function Breakdown(contributions: seq<RiskContribution>, item: (RiskDimension, int)): DimensionScore {
    var raw := RawPoints(contributions, item.0);
    DimensionScore(item.0, raw, Clamp(raw), item.1, Clamp(raw) * item.1)
  }

  // -------------------------------------------------------------- the loops

  method SumPoints(contributions: seq<RiskContribution>, dimension: RiskDimension) returns (points: int)
    ensures points == RawPoints(contributions, dimension)
  {
    points := 0;
    for i := 0 to |contributions|
      invariant points == RawPoints(contributions[..i], dimension)
    {
      assert contributions[..i + 1][..i] == contributions[..i];
      if contributions[i].dimension == dimension {
        points := points + contributions[i].points;
      }
    }
    assert contributions[..|contributions|] == contributions;
  }

  method HighestFloor(floors: seq<RiskBand>) returns (top: Option<RiskBand>)
    ensures top == TopFloor(floors)
  {
    top := None;
    for i := 0 to |floors|
      invariant top == TopFloor(floors[..i])
    {
      assert floors[..i + 1][..i] == floors[..i];
      if top.None? || BandMinimum(floors[i]) > BandMinimum(top.value) {
        top := Some(floors[i]);
      }
    }
    assert floors[..|floors|] == floors;
  }

  /** The loop over the configured dimensions. */
  method BreakDown(contributions: seq<RiskContribution>, weights: seq<(RiskDimension, int)>)
    returns (breakdowns: seq<DimensionScore>, rawWeighted: int)
    ensures |breakdowns| == |weights|
    ensures forall i :: 0 <= i < |weights| ==> breakdowns[i] == Breakdown(contributions, weights[i])
    ensures rawWeighted == SumOver(weights, Weighted(RawPointsOf(contributions)))
  {
    breakdowns := [];
    rawWeighted := 0;
    for i := 0 to |weights|
      invariant |breakdowns| == i
      invariant forall k :: 0 <= k < i ==> breakdowns[k] == Breakdown(contributions, weights[k])
      invariant rawWeighted == SumOver(weights[..i], Weighted(RawPointsOf(contributions)))
    {
      assert weights[..i + 1][..i] == weights[..i];
      var (dimension, weight) := weights[i];
      var raw := SumPoints(contributions, dimension);
      var weighted := Clamp(raw) * weight;
      assert Weighted(RawPointsOf(contributions))(weights[i]) == weighted;
      breakdowns := breakdowns + [DimensionScore(dimension, raw, Clamp(raw), weight, weighted)];
      rawWeighted := rawWeighted + weighted;
    }
    assert weights[..|weights|] == weights;
  }

  method CalculateRisk(contributions: seq<RiskContribution>, floors: seq<RiskBand>, c: RiskConfiguration)
    returns (r: Result<RiskScore, RiskError>)
    requires ValidConfiguration(c)
    ensures r.Ok?
    ensures r.value.score == ScoreOf(contributions, floors, c)
    ensures r.value.rawWeightedHundredths == Hundredths(c, RawPointsOf(contributions))
    ensures |r.value.dimensions| == |c.weights|
    ensures forall i :: 0 <= i < |c.weights| ==> r.value.dimensions[i] == Breakdown(contributions, c.weights[i])
    ensures Ok(r.value.band) == ClassifyRisk(r.value.score)
    ensures r.value.severityFloor == TopFloor(floors)
    ensures r.value.contributions == contributions
    ensures r.value.engineVersion == RISK_ENGINE_VERSION && r.value.configurationVersion == c.version
  {
    var breakdowns, rawWeighted := BreakDown(contributions, c.weights);
    var rounded := RoundHalfUp(rawWeighted);
    var floor := HighestFloor(floors);
    var minimum := if floor.Some? then BandMinimum(floor.value) else 0;
    var score := if minimum > rounded then minimum else rounded;
    ScoreInRange(c, RawPointsOf(contributions), FloorMinimum(floors));
    var band := ClassifyRisk(score);
    return Ok(RiskScore(RISK_ENGINE_VERSION, c.version, breakdowns, contributions, rawWeighted, score, band.value,
                        floor));
  }

  // ------------------------------------------------------------- properties

  lemma {:induction false} WeightedBounds(weights: seq<(RiskDimension, int)>, raw: RiskDimension -> int)
    requires forall i :: 0 <= i < |weights| ==> weights[i].1 >= 0
    ensures 0 <= SumOver(weights, Weighted(raw)) <= 100 * SumOver(weights, WeightOf)
  {
    if weights == [] {
    } else {
      var n := |weights| - 1;
      WeightedBounds(weights[..n], raw);
      assert 0 <= Clamp(raw(weights[n].0)) * weights[n].1 <= 100 * weights[n].1;
    }
  }

  /** The score of a valid configuration lies in 0..100. */
  lemma ScoreInRange(c: RiskConfiguration, raw: RiskDimension -> int, floorMinimum: int)
    requires ValidConfiguration(c) && floorMinimum <= 75
    ensures 0 <= Hundredths(c, raw) <= 10000
    ensures 0 <= FinalScore(c, raw, floorMinimum) <= 100
  {
    WeightedBounds(c.weights, raw);
  }

  /** Without a floor the score is the exact weighted sum rounded to the nearest whole, halves up. */
  lemma ScoreIsNearest(contributions: seq<RiskContribution>, c: RiskConfiguration)
    requires ValidConfiguration(c)
    ensures var h := Hundredths(c, RawPointsOf(contributions));
            100 * ScoreOf(contributions, [], c) - 50 <= h < 100 * ScoreOf(contributions, [], c) + 50
  {
    WeightedBounds(c.weights, RawPointsOf(contributions));
  }

  /** The top floor is one of the floors and at least as high as each of them. */
  lemma {:induction false} TopFloorIsHighest(floors: seq<RiskBand>)
    ensures TopFloor(floors).None? <==> floors == []
    ensures TopFloor(floors).Some? ==> TopFloor(floors).value in floors
    ensures forall floor :: floor in floors ==> BandMinimum(floor) <= FloorMinimum(floors)
    ensures 0 <= FloorMinimum(floors) <= 75
  {
    if floors == [] {
    } else {
      TopFloorIsHighest(floors[..|floors| - 1]);
      assert floors == floors[..|floors| - 1] + [floors[|floors| - 1]];
    }
  }

  /** The band of the score is at least every floor. */
  lemma BandRespectsFloors(
    contributions: seq<RiskContribution>, floors: seq<RiskBand>, c: RiskConfiguration, floor: RiskBand)
    requires ValidConfiguration(c) && floor in floors
    ensures ClassifyRisk(ScoreOf(contributions, floors, c)).Ok?
    ensures BandMinimum(ClassifyRisk(ScoreOf(contributions, floors, c)).value) >= BandMinimum(floor)
  {
    TopFloorIsHighest(floors);
    ScoreInRange(c, RawPointsOf(contributions), FloorMinimum(floors));
    BandCuts(ScoreOf(contributions, floors, c), floor);
  }

  /** Raw points from 0 to 100 count as they are, fewer count as 0 and more as 100; the rest of the breakdown is the
      dimension, its weight and their product. */
  lemma BreakdownMeaning(contributions: seq<RiskContribution>, dimension: RiskDimension, weight: int)
    ensures var raw := RawPoints(contributions, dimension);
            var d := Breakdown(contributions, (dimension, weight));
            && d.dimension == dimension && d.weightPercent == weight && d.rawPoints == raw
            && (0 <= raw <= 100 ==> d.score == raw)
            && (raw < 0 ==> d.score == 0)
            && (raw > 100 ==> d.score == 100)
            && d.weightedHundredths == d.score * weight
  {
  }

  function PlainlyWeighted(raw: RiskDimension -> int): ((RiskDimension, int)) -> int {
    (item: (RiskDimension, int)) => raw(item.0) * item.1
  }

  /** Where every dimension has 0 to 100 points, the weighted sum is the sum of points times weights. */
  lemma {:induction false} SumWithoutClamping(weights: seq<(RiskDimension, int)>, raw: RiskDimension -> int)
    requires forall dimension :: 0 <= raw(dimension) <= 100
    ensures SumOver(weights, Weighted(raw)) == SumOver(weights, PlainlyWeighted(raw))
  {
    if weights == [] {
    } else {
      SumWithoutClamping(weights[..|weights| - 1], raw);
      assert Clamp(raw(weights[|weights| - 1].0)) == raw(weights[|weights| - 1].0);
    }
  }

  /** With floors the score is the one without, or the minimum of some floor; it is never below either. */
  lemma ScoreIsSumOrFloor(contributions: seq<RiskContribution>, floors: seq<RiskBand>, c: RiskConfiguration)
    requires ValidConfiguration(c)
    ensures var score, plain := ScoreOf(contributions, floors, c), ScoreOf(contributions, [], c);
            && score >= plain
            && (forall floor :: floor in floors ==> score >= BandMinimum(floor))
            && (score == plain || exists floor :: floor in floors && score == BandMinimum(floor))
  {
    TopFloorIsHighest(floors);
    ScoreInRange(c, RawPointsOf(contributions), 0);
  }

  lemma FloorMinimumOfSubset(floors: seq<RiskBand>, floors': seq<RiskBand>)
    requires forall floor :: floor in floors ==> floor in floors'
    ensures FloorMinimum(floors) <= FloorMinimum(floors')
  {
    TopFloorIsHighest(floors);
    TopFloorIsHighest(floors');
  }

  lemma WeightedIsMonotone(raw: RiskDimension -> int, raw': RiskDimension -> int, item: (RiskDimension, int))
    requires raw(item.0) <= raw'(item.0) && item.1 >= 0
    ensures Weighted(raw)(item) <= Weighted(raw')(item)
  {
    var low, high, weight := Clamp(raw(item.0)), Clamp(raw'(item.0)), item.1;
    assert high * weight - low * weight == (high - low) * weight;
  }

  /** More points in every dimension and a higher floor never give a lower score. */
  lemma ScoreIsMonotone(
    c: RiskConfiguration, raw: RiskDimension -> int, raw': RiskDimension -> int, minimum: int, minimum': int)
    requires ValidConfiguration(c)
    requires forall dimension :: raw(dimension) <= raw'(dimension)
    requires minimum <= minimum'
    ensures FinalScore(c, raw, minimum) <= FinalScore(c, raw', minimum')
  {
    forall i | 0 <= i < |c.weights| ensures Weighted(raw)(c.weights[i]) <= Weighted(raw')(c.weights[i]) {
      WeightedIsMonotone(raw, raw', c.weights[i]);
    }
    SumMonotone(c.weights, Weighted(raw), Weighted(raw'));
  }

  lemma {:induction false} NonNegativeSum(contributions: seq<RiskContribution>, dimension: RiskDimension)
    requires forall i :: 0 <= i < |contributions| ==> contributions[i].points >= 0
    ensures RawPoints(contributions, dimension) >= 0
  {
    if contributions == [] {
    } else {
      NonNegativeSum(contributions[..|contributions| - 1], dimension);
    }
  }

  /** Adding contributions of non-negative points, or floors, never lowers the score. */
  lemma AddingNeverLowers(
    contributions: seq<RiskContribution>, more: seq<RiskContribution>, floors: seq<RiskBand>, moreFloors: seq<RiskBand>,
    c: RiskConfiguration)
    requires ValidConfiguration(c)
    requires forall i :: 0 <= i < |more| ==> more[i].points >= 0
    ensures ScoreOf(contributions, floors, c) <= ScoreOf(contributions + more, floors + moreFloors, c)
  {
    forall dimension ensures RawPointsOf(contributions)(dimension) <= RawPointsOf(contributions + more)(dimension) {
      SumAppend(contributions, more, PointsFor(dimension));
      NonNegativeSum(more, dimension);
    }
    FloorMinimumOfSubset(floors, floors + moreFloors);
    ScoreIsMonotone(c, RawPointsOf(contributions), RawPointsOf(contributions + more),
                    FloorMinimum(floors), FloorMinimum(floors + moreFloors));
  }

  /** The score depends on neither the order of the contributions nor the order of the floors. */
  lemma OrderDoesNotMatter(
    contributions: seq<RiskContribution>, contributions': seq<RiskContribution>,
    floors: seq<RiskBand>, floors': seq<RiskBand>, c: RiskConfiguration)
    requires ValidConfiguration(c)
    requires multiset(contributions) == multiset(contributions') && multiset(floors) == multiset(floors')
    ensures ScoreOf(contributions, floors, c) == ScoreOf(contributions', floors', c)
    ensures Hundredths(c, RawPointsOf(contributions)) == Hundredths(c, RawPointsOf(contributions'))
  {
    var raw, raw' := RawPointsOf(contributions), RawPointsOf(contributions');
    forall dimension ensures raw(dimension) == raw'(dimension) {
      SumOfPermutation(contributions, contributions', PointsFor(dimension));
    }
    SumMonotone(c.weights, Weighted(raw), Weighted(raw'));
    SumMonotone(c.weights, Weighted(raw'), Weighted(raw));
    MultisetMembers(floors, floors');
    FloorMinimumOfSubset(floors, floors');
    FloorMinimumOfSubset(floors', floors);
  }
}
