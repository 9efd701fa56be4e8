/** Rule evaluation of apps/policies/engine.py and its way into the risk score. */
module PolicyEngine {
  import opened Prelude
  import opened Risk

  // ---------------------------------------------------------------- values

  /** The Python values that contexts and rule definitions hold. */
  datatype Value =
    | VNone
    | VBool(b: bool)
    | VInt(i: int)
    | VFloat(r: real)
    | VStr(s: string)
    | VList(items: seq<Value>)
    | VTuple(items: seq<Value>)
    | VSet(items: seq<Value>)
    | VDict(size: nat)

  function Number(v: Value): Option<real> {
    match v
    case VBool(b) => Some(if b then 1.0 else 0.0)
    case VInt(i) => Some(i as real)
    case VFloat(r) => Some(r)
    case _ => None
  }

  /** Python's ==. A rule definition never holds a dictionary, so only the empty one is compared. */
  predicate PyEqual(a: Value, b: Value)
    decreases a, 1
  {
    match a
    case VNone => b.VNone?
    case VBool(_) => Number(a) == Number(b)
    case VInt(_) => Number(a) == Number(b)
    case VFloat(_) => Number(a) == Number(b)
    case VStr(s) => b.VStr? && b.s == s
    case VList(items) =>
      b.VList? && |b.items| == |items| && forall k :: 0 <= k < |items| ==> PyEqual(items[k], b.items[k])
    case VTuple(items) =>
      b.VTuple? && |b.items| == |items| && forall k :: 0 <= k < |items| ==> PyEqual(items[k], b.items[k])
    case VSet(items) =>
      && b.VSet?
      && (forall k :: 0 <= k < |items| ==> IsAmong(items[k], b.items))
      && (forall m :: 0 <= m < |b.items| ==> HasMember(a, b.items[m]))
    case VDict(size) => b.VDict? && size == 0 && b.size == 0
  }

  /** The value is equal to one of the items. */
  predicate IsAmong(value: Value, items: seq<Value>)
    decreases value, 2
  {
    exists m :: 0 <= m < |items| && PyEqual(value, items[m])
  }

  /** One of the set's members is equal to the value. */
  predicate HasMember(a: Value, value: Value)
    requires a.VSet?
    decreases a, 0
  {
    exists k :: 0 <= k < |a.items| && PyEqual(a.items[k], value)
  }

  predicate Substring(part: string, whole: string) {
    part <= whole || (whole != "" && Substring(part, whole[1..]))
  }

  // ------------------------------------------------------------ string order

  predicate StringLe(a: string, b: string) {
    a == "" || (b != "" && (a[0] < b[0] || (a[0] == b[0] && StringLe(a[1..], b[1..]))))
  }

  lemma {:induction false} StringLeTotal(a: string, b: string)
    ensures StringLe(a, b) || StringLe(b, a)
    ensures StringLe(a, b) && StringLe(b, a) ==> a == b
  {
    if a != "" && b != "" && a[0] == b[0] {
      StringLeTotal(a[1..], b[1..]);
      assert a == [a[0]] + a[1..] && b == [b[0]] + b[1..];
    }
  }

  lemma {:induction false} StringLeTransitive(a: string, b: string, c: string)
    requires StringLe(a, b) && StringLe(b, c)
    ensures StringLe(a, c)
  {
    if a != "" && b != "" && c != "" && a[0] == b[0] && b[0] == c[0] {
      StringLeTransitive(a[1..], b[1..], c[1..]);
    }
  }

  // ------------------------------------------------------------ definitions

  datatype Operator =
    | OpEquals | OpNotEquals | OpContains | OpNotContains
    | OpGreater | OpGreaterOrEqual | OpLess | OpLessOrEqual
    | OpIsTrue | OpIsFalse | OpIsEmpty | OpIsNotEmpty

  datatype Condition = Condition(field: string, operator: Operator, value: Value)

  datatype Effect =
    | RiskPoints(dimension: RiskDimension, points: int)
    | SeverityFloor(floor: RiskBand)
    | RequireControl(control: string)
    | CreateFinding(finding: string)
    | RecommendReview(message: string)

  datatype PolicyResult = Pass | Fail | Warning | NotApplicable

  datatype Severity = NoSeverity | LowSeverity | ModerateSeverity | HighSeverity | CriticalSeverity

  datatype Rule = Rule(
    ruleId: string, version: string, layer: int, conditions: seq<Condition>, effects: seq<Effect>,
    resultOnMatch: PolicyResult, explanation: string, severity: Severity, remediation: string)

  datatype RuleEvaluation = RuleEvaluation(
    ruleId: string, ruleVersion: string, evidence: seq<(string, Value)>, result: PolicyResult, explanation: string,
    severity: Severity, recommendedRemediation: string, effects: seq<Effect>)

  /** PolicyEvaluationError, and the TypeError of `in` on text. */
  datatype EvaluationError = PolicyEvaluationError | TypeErrorRaised

  type Context = map<string, Value>

  function Get(context: Context, field: string): Value {
    if field in context then context[field] else VNone
  }

  // ------------------------------------------------------------- evaluation

  predicate IsEmpty(v: Value) {
    match v
    case VNone => true
    case VStr(s) => s == ""
    case VTuple(items) => items == []
    case VList(items) => items == []
    case VDict(size) => size == 0
    case _ => false
  }

  /** Ordered comparison of two values of one kind: less, and equal. */
  function Compare(actual: Value, expected: Value): Result<(bool, bool), EvaluationError> {
    match (actual, expected)
    case (VInt(a), VInt(e)) => Ok((a < e, a == e))
    case (VFloat(a), VFloat(e)) => Ok((a < e, a == e))
    case (VStr(a), VStr(e)) => Ok((StringLe(a, e) && a != e, a == e))
    case _ => Err(PolicyEvaluationError)
  }

  function Contains(actual: Value, value: Value): Result<bool, EvaluationError> {
    match actual
    case VStr(s) => if value.VStr? then Ok(Substring(value.s, s)) else Err(TypeErrorRaised)
    case VList(items) => Ok(exists k :: 0 <= k < |items| && PyEqual(items[k], value))
    case VTuple(items) => Ok(exists k :: 0 <= k < |items| && PyEqual(items[k], value))
    case VSet(items) => Ok(exists k :: 0 <= k < |items| && PyEqual(items[k], value))
    case _ => Err(PolicyEvaluationError)
  }

  function Negated(r: Result<bool, EvaluationError>): Result<bool, EvaluationError> {
    match r
    case Ok(b) => Ok(!b)
    case Err(error) => Err(error)
  }

  function EvaluateCondition(condition: Condition, context: Context): Result<bool, EvaluationError> {
    var actual := Get(context, condition.field);
    match condition.operator
    case OpEquals => Ok(PyEqual(actual, condition.value))
    case OpNotEquals => Ok(!PyEqual(actual, condition.value))
    case OpContains => Contains(actual, condition.value)
    case OpNotContains => Negated(Contains(actual, condition.value))
    case OpIsTrue => Ok(actual == VBool(true))
    case OpIsFalse => Ok(actual == VBool(false))
    case OpIsEmpty => Ok(IsEmpty(actual))
    case OpIsNotEmpty => Ok(!IsEmpty(actual))
    case _ =>
      match Compare(actual, condition.value)
      case Err(error) => Err(error)
      case Ok((less, equal)) =>
        match condition.operator
        case OpGreater => Ok(!less && !equal)
        case OpGreaterOrEqual => Ok(!less)
        case OpLess => Ok(less)
        case _ => Ok(less || equal)
  }

  /** all(…): stops at the first condition that does not hold, or raises. */
  function AllHold(conditions: seq<Condition>, context: Context): Result<bool, EvaluationError> {
    if conditions == [] then Ok(true)
    else
      match EvaluateCondition(conditions[0], context)
      case Err(error) => Err(error)
      case Ok(holds) => if holds then AllHold(conditions[1..], context) else Ok(false)
  }

  /** Condition k decides: those before it hold, and it does not, or raises. */
  predicate DecidesAt(conditions: seq<Condition>, context: Context, k: nat)
    requires k < |conditions|
  {
    && (forall j :: 0 <= j < k ==> EvaluateCondition(conditions[j], context) == Ok(true))
    && EvaluateCondition(conditions[k], context) != Ok(true)
  }

  /** The first condition that does not simply hold decides, even if a later one would raise; without one, all hold. */
  lemma {:induction false} FirstConditionDecides(conditions: seq<Condition>, context: Context)
    ensures AllHold(conditions, context) == Ok(true) <==>
              forall k :: 0 <= k < |conditions| ==> EvaluateCondition(conditions[k], context) == Ok(true)
    ensures forall k: nat | k < |conditions| && DecidesAt(conditions, context, k) ::
              AllHold(conditions, context) == EvaluateCondition(conditions[k], context)
  {
    if conditions == [] {
    } else {
      FirstConditionDecides(conditions[1..], context);
      forall k: nat | k < |conditions| && DecidesAt(conditions, context, k)
        ensures AllHold(conditions, context) == EvaluateCondition(conditions[k], context)
      {
        if k > 0 {
          assert EvaluateCondition(conditions[0], context) == Ok(true);
          assert forall j :: 0 <= j < k - 1 ==> conditions[1..][j] == conditions[j + 1];
          assert DecidesAt(conditions[1..], context, k - 1);
        }
      }
    }
  }

  function Evidence(conditions: seq<Condition>, context: Context): seq<(string, Value)> {
    seq(|conditions|, k requires 0 <= k < |conditions| => (conditions[k].field, Get(context, conditions[k].field)))
  }

  function EvaluateRule(rule: Rule, context: Context): Result<RuleEvaluation, EvaluationError> {
    match AllHold(rule.conditions, context)
    case Err(error) => Err(error)
    case Ok(matched) =>
      Ok(RuleEvaluation(
        rule.ruleId, rule.version, Evidence(rule.conditions, context),
        if matched then rule.resultOnMatch else NotApplicable, rule.explanation,
        if matched then rule.severity else NoSeverity, rule.remediation,
        if matched then rule.effects else []))
  }

  /** Sort key: layer, rule id, version. */
  predicate RuleLe(a: Rule, b: Rule) {
    a.layer < b.layer
    || (a.layer == b.layer
        && if a.ruleId == b.ruleId then StringLe(a.version, b.version) else StringLe(a.ruleId, b.ruleId))
  }

  function EvaluateInOrder(rules: seq<Rule>, context: Context): Result<seq<RuleEvaluation>, EvaluationError> {
    if rules == [] then Ok([])
    else
      match EvaluateInOrder(rules[..|rules| - 1], context)
      case Err(error) => Err(error)
      case Ok(results) =>
        match EvaluateRule(rules[|rules| - 1], context)
        case Err(error) => Err(error)
        case Ok(result) => Ok(results + [result])
  }

  function EvaluatePolicies(rules: seq<Rule>, context: Context): Result<seq<RuleEvaluation>, EvaluationError> {
    EvaluateInOrder(Sort(rules, RuleLe), context)
  }

  // ------------------------------------------------------- into the risk score

  function ContributionOf(result: RuleEvaluation, effect: Effect): RiskContribution
    requires effect.RiskPoints?
  {
    RiskContribution(result.explanation, result.ruleId, result.ruleVersion, effect.dimension, effect.points)
  }

  function ContributionsOfEffects(result: RuleEvaluation, effects: seq<Effect>): seq<RiskContribution> {
    if effects == [] then []
    else
      var last := effects[|effects| - 1];
      ContributionsOfEffects(result, effects[..|effects| - 1])
      + (if last.RiskPoints? then [ContributionOf(result, last)] else [])
  }

  function FloorsOfEffects(effects: seq<Effect>): seq<RiskBand> {
    if effects == [] then []
    else
      var last := effects[|effects| - 1];
      FloorsOfEffects(effects[..|effects| - 1]) + (if last.SeverityFloor? then [last.floor] else [])
  }

  function Contributions(results: seq<RuleEvaluation>): seq<RiskContribution> {
    if results == [] then []
    else
      var last := results[|results| - 1];
      Contributions(results[..|results| - 1]) + ContributionsOfEffects(last, last.effects)
  }

  function Floors(results: seq<RuleEvaluation>): seq<RiskBand> {
    if results == [] then []
    else
      var last := results[|results| - 1];
      Floors(results[..|results| - 1]) + FloorsOfEffects(last.effects)
  }

  /** The inner loop: the effects of one rule. */
  method CollectFrom(result: RuleEvaluation, contributions: seq<RiskContribution>, floors: seq<RiskBand>)
    returns (contributions': seq<RiskContribution>, floors': seq<RiskBand>)
    ensures contributions' == contributions + ContributionsOfEffects(result, result.effects)
    ensures floors' == floors + FloorsOfEffects(result.effects)
  {
    var effects := result.effects;
    contributions', floors' := contributions, floors;
    for k := 0 to |effects|
      invariant contributions' == contributions + ContributionsOfEffects(result, effects[..k])
      invariant floors' == floors + FloorsOfEffects(effects[..k])
    {
      assert effects[..k + 1][..k] == effects[..k];
      match effects[k]
      case RiskPoints(_, _) => contributions' := contributions' + [ContributionOf(result, effects[k])];
      case SeverityFloor(floor) => floors' := floors' + [floor];
      case _ =>
    }
    assert effects[..|effects|] == effects;
  }

  /** The nested loop over results and effects. */
  method CollectEffects(results: seq<RuleEvaluation>)
    returns (contributions: seq<RiskContribution>, floors: seq<RiskBand>)
    ensures contributions == Contributions(results) && floors == Floors(results)
  {
    contributions, floors := [], [];
    for i := 0 to |results|
      invariant contributions == Contributions(results[..i]) && floors == Floors(results[..i])
    {
      assert results[..i + 1][..i] == results[..i];
      contributions, floors := CollectFrom(results[i], contributions, floors);
    }
    assert results[..|results|] == results;
  }

  method CalculatePolicyRisk(results: seq<RuleEvaluation>, c: RiskConfiguration)
    returns (r: Result<RiskScore, RiskError>)
    requires ValidConfiguration(c)
    ensures r.Ok?
    ensures r.value.contributions == Contributions(results)
    ensures r.value.severityFloor == TopFloor(Floors(results))
    ensures r.value.score == PolicyScore(results, c)
    ensures Ok(r.value.band) == ClassifyRisk(r.value.score)
    ensures r.value.rawWeightedHundredths == Hundredths(c, RawPointsOf(Contributions(results)))
    ensures |r.value.dimensions| == |c.weights|
    ensures forall i :: 0 <= i < |c.weights| ==>
              r.value.dimensions[i] == Breakdown(Contributions(results), c.weights[i])
    ensures r.value.engineVersion == RISK_ENGINE_VERSION && r.value.configurationVersion == c.version
  {
    var contributions, floors := CollectEffects(results);
    r := CalculateRisk(contributions, floors, c);
  }

  function PolicyScore(results: seq<RuleEvaluation>, c: RiskConfiguration): int {
    ScoreOf(Contributions(results), Floors(results), c)
  }

  // --------------------------------------------------------- rule order

  /** No two rules share layer, id and version. */
  ghost predicate DistinctRuleKeys(rules: seq<Rule>) {
    forall i, j :: 0 <= i < j < |rules| ==>
      rules[i].layer != rules[j].layer || rules[i].ruleId != rules[j].ruleId || rules[i].version != rules[j].version
  }

  lemma RuleOrderIsTotal()
    ensures TotalPreorder(RuleLe)
  {
    forall x, y: Rule ensures RuleLe(x, y) || RuleLe(y, x) {
      StringLeTotal(x.ruleId, y.ruleId);
      StringLeTotal(x.version, y.version);
    }
    forall x, y, z: Rule | RuleLe(x, y) && RuleLe(y, z) ensures RuleLe(x, z) {
      RuleLeTransitive(x, y, z);
    }
  }

  lemma RuleLeTransitive(x: Rule, y: Rule, z: Rule)
    requires RuleLe(x, y) && RuleLe(y, z)
    ensures RuleLe(x, z)
  {
    if x.layer == y.layer == z.layer {
      if x.ruleId == y.ruleId == z.ruleId {
        StringLeTransitive(x.version, y.version, z.version);
      } else if x.ruleId != y.ruleId && y.ruleId != z.ruleId {
        StringLeTransitive(x.ruleId, y.ruleId, z.ruleId);
        StringLeTotal(x.ruleId, y.ruleId);
      }
    }
  }

  lemma RulesHaveNoTies(rules: seq<Rule>)
    requires DistinctRuleKeys(rules)
    ensures NoTies(rules, RuleLe)
  {
    forall i, j | 0 <= i < |rules| && 0 <= j < |rules| && RuleLe(rules[i], rules[j]) && RuleLe(rules[j], rules[i])
      ensures rules[i] == rules[j]
    {
      StringLeTotal(rules[i].ruleId, rules[j].ruleId);
      StringLeTotal(rules[i].version, rules[j].version);
    }
  }

  /** The evaluation, with its first exception if there is one, does not depend on the order of the rules, and so
      neither does anything that is computed from it. */
  lemma EvaluationIgnoresRuleOrder(rules: seq<Rule>, rules': seq<Rule>, context: Context)
    requires DistinctRuleKeys(rules) && multiset(rules) == multiset(rules')
    ensures EvaluatePolicies(rules, context) == EvaluatePolicies(rules', context)
  {
    RuleOrderIsTotal();
    RulesHaveNoTies(rules);
    SortOfPermutation(rules, rules', RuleLe);
  }

  // ------------------------------------------------- from rules to raw points

  function EffectsOf(rule: Rule, context: Context): seq<Effect> {
    match EvaluateRule(rule, context)
    case Err(_) => []
    case Ok(result) => result.effects
  }

  function PointsOfEffects(effects: seq<Effect>, dimension: RiskDimension): int {
    if effects == [] then 0
    else
      var last := effects[|effects| - 1];
      PointsOfEffects(effects[..|effects| - 1], dimension)
      + (if last.RiskPoints? && last.dimension == dimension then last.points else 0)
  }

  function PointsOfRule(context: Context, dimension: RiskDimension): Rule -> int {
    (rule: Rule) => PointsOfEffects(EffectsOf(rule, context), dimension)
  }

  lemma ContributionsGrow(result: RuleEvaluation, effects: seq<Effect>)
    requires effects != []
    ensures var n := |effects| - 1;
            ContributionsOfEffects(result, effects)
            == if effects[n].RiskPoints? then
                 ContributionsOfEffects(result, effects[..n]) + [ContributionOf(result, effects[n])]
               else ContributionsOfEffects(result, effects[..n])
  {
  }

  lemma {:induction false} RawOfEffects(result: RuleEvaluation, effects: seq<Effect>, dimension: RiskDimension)
    ensures RawPoints(ContributionsOfEffects(result, effects), dimension) == PointsOfEffects(effects, dimension)
  {
    if effects == [] {
    } else {
      var n := |effects| - 1;
      RawOfEffects(result, effects[..n], dimension);
      ContributionsGrow(result, effects);
      if effects[n].RiskPoints? {
        SumOne(ContributionsOfEffects(result, effects[..n]), ContributionOf(result, effects[n]), PointsFor(dimension));
      }
    }
  }

  /** The raw points of a dimension are the sum over the rules, in whatever order they were evaluated. */
  lemma {:induction false} RawOfResults(rules: seq<Rule>, context: Context, dimension: RiskDimension)
    requires EvaluateInOrder(rules, context).Ok?
    ensures RawPoints(Contributions(EvaluateInOrder(rules, context).value), dimension)
         == SumOver(rules, PointsOfRule(context, dimension))
  {
    if rules == [] {
    } else {
      var n := |rules| - 1;
      RawOfResults(rules[..n], context, dimension);
      var results := EvaluateInOrder(rules, context).value;
      var last := results[|results| - 1];
      assert results[..|results| - 1] == EvaluateInOrder(rules[..n], context).value;
      SumAppend(Contributions(results[..|results| - 1]), ContributionsOfEffects(last, last.effects),
                PointsFor(dimension));
      RawOfEffects(last, last.effects, dimension);
    }
  }

  /** Some matching rule sets the floor. */
  ghost predicate SetsFloor(rules: seq<Rule>, context: Context, floor: RiskBand) {
    exists rule :: rule in rules && floor in FloorsOfEffects(EffectsOf(rule, context))
  }

  lemma SetsFloorSplits(rules: seq<Rule>, context: Context, floor: RiskBand)
    requires rules != []
    ensures var n := |rules| - 1;
            SetsFloor(rules, context, floor)
            <==> SetsFloor(rules[..n], context, floor) || floor in FloorsOfEffects(EffectsOf(rules[n], context))
  {
    var n := |rules| - 1;
    assert rules == rules[..n] + [rules[n]];
    if floor in FloorsOfEffects(EffectsOf(rules[n], context)) {
      assert rules[n] in rules;
    }
    if SetsFloor(rules[..n], context, floor) {
      var rule :| rule in rules[..n] && floor in FloorsOfEffects(EffectsOf(rule, context));
      assert rule in rules;
    }
  }

  lemma FloorsGrowByRule(rules: seq<Rule>, context: Context)
    requires rules != [] && EvaluateInOrder(rules, context).Ok?
    ensures var n := |rules| - 1;
            && EvaluateInOrder(rules[..n], context).Ok?
            && Floors(EvaluateInOrder(rules, context).value)
               == Floors(EvaluateInOrder(rules[..n], context).value) + FloorsOfEffects(EffectsOf(rules[n], context))
  {
    var results := EvaluateInOrder(rules, context).value;
    assert results[..|results| - 1] == EvaluateInOrder(rules[..|rules| - 1], context).value;
  }

  lemma {:induction false} FloorsOfResults(rules: seq<Rule>, context: Context, floor: RiskBand)
    requires EvaluateInOrder(rules, context).Ok?
    ensures floor in Floors(EvaluateInOrder(rules, context).value) <==> SetsFloor(rules, context, floor)
  {
    if rules == [] {
    } else {
      FloorsGrowByRule(rules, context);
      FloorsOfResults(rules[..|rules| - 1], context, floor);
      SetsFloorSplits(rules, context, floor);
    }
  }

  lemma RawIsSumOverRules(rules: seq<Rule>, context: Context, dimension: RiskDimension)
    requires EvaluatePolicies(rules, context).Ok?
    ensures RawPointsOf(Contributions(EvaluatePolicies(rules, context).value))(dimension)
         == SumOver(rules, PointsOfRule(context, dimension))
  {
    SortPermutes(rules, RuleLe);
    RawOfResults(Sort(rules, RuleLe), context, dimension);
    SumOfPermutation(rules, Sort(rules, RuleLe), PointsOfRule(context, dimension));
  }

  lemma FloorsAreSet(rules: seq<Rule>, context: Context, floor: RiskBand)
    requires EvaluatePolicies(rules, context).Ok?
    ensures floor in Floors(EvaluatePolicies(rules, context).value)
       <==> exists rule :: rule in rules && floor in FloorsOfEffects(EffectsOf(rule, context))
  {
    SortPermutes(rules, RuleLe);
    MultisetMembers(rules, Sort(rules, RuleLe));
    FloorsOfResults(Sort(rules, RuleLe), context, floor);
  }

  // ---------------------------------------------------------- adding rules

  predicate NeverSubtracts(rule: Rule) {
    forall k :: 0 <= k < |rule.effects| ==> rule.effects[k].RiskPoints? ==> rule.effects[k].points >= 0
  }

  lemma {:induction false} EffectsAddUp(effects: seq<Effect>, dimension: RiskDimension)
    requires forall k :: 0 <= k < |effects| ==> effects[k].RiskPoints? ==> effects[k].points >= 0
    ensures PointsOfEffects(effects, dimension) >= 0
  {
    if effects == [] {
    } else {
      EffectsAddUp(effects[..|effects| - 1], dimension);
    }
  }

  lemma {:induction false} RulesAddUp(rules: seq<Rule>, context: Context, dimension: RiskDimension)
    requires forall i :: 0 <= i < |rules| ==> NeverSubtracts(rules[i])
    ensures SumOver(rules, PointsOfRule(context, dimension)) >= 0
  {
    if rules == [] {
    } else {
      RulesAddUp(rules[..|rules| - 1], context, dimension);
      EffectsAddUp(EffectsOf(rules[|rules| - 1], context), dimension);
    }
  }

  lemma FloorsGrow(rules: seq<Rule>, more: seq<Rule>, context: Context)
    requires EvaluatePolicies(rules, context).Ok? && EvaluatePolicies(rules + more, context).Ok?
    ensures FloorMinimum(Floors(EvaluatePolicies(rules, context).value))
         <= FloorMinimum(Floors(EvaluatePolicies(rules + more, context).value))
  {
    forall floor | floor in Floors(EvaluatePolicies(rules, context).value)
      ensures floor in Floors(EvaluatePolicies(rules + more, context).value)
    {
      FloorsAreSet(rules, context, floor);
      FloorsAreSet(rules + more, context, floor);
      var rule :| rule in rules && floor in FloorsOfEffects(EffectsOf(rule, context));
      assert rule in rules + more;
    }
    FloorMinimumOfSubset(Floors(EvaluatePolicies(rules, context).value),
                         Floors(EvaluatePolicies(rules + more, context).value));
  }

  /** Adding rules that never subtract points never lowers the score, wherever they sort. */
  lemma MoreRulesNeverLower(rules: seq<Rule>, more: seq<Rule>, context: Context, c: RiskConfiguration)
    requires ValidConfiguration(c)
    requires EvaluatePolicies(rules, context).Ok? && EvaluatePolicies(rules + more, context).Ok?
    requires forall i :: 0 <= i < |more| ==> NeverSubtracts(more[i])
    ensures PolicyScore(EvaluatePolicies(rules, context).value, c)
         <= PolicyScore(EvaluatePolicies(rules + more, context).value, c)
  {
    var results, results' := EvaluatePolicies(rules, context).value, EvaluatePolicies(rules + more, context).value;
    var raw, raw' := RawPointsOf(Contributions(results)), RawPointsOf(Contributions(results'));
    forall dimension ensures raw(dimension) <= raw'(dimension) {
      RawIsSumOverRules(rules, context, dimension);
      RawIsSumOverRules(rules + more, context, dimension);
      SumAppend(rules, more, PointsOfRule(context, dimension));
      RulesAddUp(more, context, dimension);
    }
    FloorsGrow(rules, more, context);
    ScoreIsMonotone(c, raw, raw', FloorMinimum(Floors(results)), FloorMinimum(Floors(results')));
  }

  /** Only asks people to look. */
  predicate Advisory(rule: Rule) {
    forall k :: 0 <= k < |rule.effects| ==> !rule.effects[k].RiskPoints? && !rule.effects[k].SeverityFloor?
  }

  lemma {:induction false} AdvisoryEffects(effects: seq<Effect>, dimension: RiskDimension)
    requires forall k :: 0 <= k < |effects| ==> !effects[k].RiskPoints? && !effects[k].SeverityFloor?
    ensures PointsOfEffects(effects, dimension) == 0 && FloorsOfEffects(effects) == []
  {
    if effects == [] {
    } else {
      AdvisoryEffects(effects[..|effects| - 1], dimension);
    }
  }

  lemma {:induction false} AdvisoryRulesAddNothing(rules: seq<Rule>, context: Context, dimension: RiskDimension)
    requires forall i :: 0 <= i < |rules| ==> Advisory(rules[i])
    ensures SumOver(rules, PointsOfRule(context, dimension)) == 0
  {
    if rules == [] {
    } else {
      AdvisoryRulesAddNothing(rules[..|rules| - 1], context, dimension);
      AdvisoryEffects(EffectsOf(rules[|rules| - 1], context), dimension);
    }
  }

  lemma AdvisoryRuleSetsNoFloor(rule: Rule, context: Context)
    requires Advisory(rule)
    ensures FloorsOfEffects(EffectsOf(rule, context)) == []
  {
    AdvisoryEffects(EffectsOf(rule, context), DataSensitivity);
  }

  lemma FloorsComeFromTheOthers(rules: seq<Rule>, more: seq<Rule>, context: Context, floor: RiskBand)
    requires forall i :: 0 <= i < |more| ==> Advisory(more[i])
    requires exists rule :: rule in rules + more && floor in FloorsOfEffects(EffectsOf(rule, context))
    ensures exists rule :: rule in rules && floor in FloorsOfEffects(EffectsOf(rule, context))
  {
    var rule :| rule in rules + more && floor in FloorsOfEffects(EffectsOf(rule, context));
    forall i | 0 <= i < |more| ensures FloorsOfEffects(EffectsOf(more[i], context)) == [] {
      AdvisoryRuleSetsNoFloor(more[i], context);
    }
    assert rule !in more;
  }

  lemma AdvisoryFloor(rules: seq<Rule>, more: seq<Rule>, context: Context, floor: RiskBand)
    requires EvaluatePolicies(rules, context).Ok? && EvaluatePolicies(rules + more, context).Ok?
    requires forall i :: 0 <= i < |more| ==> Advisory(more[i])
    requires floor in Floors(EvaluatePolicies(rules + more, context).value)
    ensures floor in Floors(EvaluatePolicies(rules, context).value)
  {
    FloorsAreSet(rules + more, context, floor);
    FloorsComeFromTheOthers(rules, more, context, floor);
    FloorsAreSet(rules, context, floor);
  }

  lemma AdvisoryFloors(rules: seq<Rule>, more: seq<Rule>, context: Context)
    requires EvaluatePolicies(rules, context).Ok? && EvaluatePolicies(rules + more, context).Ok?
    requires forall i :: 0 <= i < |more| ==> Advisory(more[i])
    ensures FloorMinimum(Floors(EvaluatePolicies(rules + more, context).value))
         <= FloorMinimum(Floors(EvaluatePolicies(rules, context).value))
  {
    forall floor | floor in Floors(EvaluatePolicies(rules + more, context).value)
      ensures floor in Floors(EvaluatePolicies(rules, context).value)
    {
      AdvisoryFloor(rules, more, context, floor);
    }
    FloorMinimumOfSubset(Floors(EvaluatePolicies(rules + more, context).value),
                         Floors(EvaluatePolicies(rules, context).value));
  }

  /** Adding advisory rules leaves the score as it is. */
  lemma AdvisoryRulesChangeNothing(rules: seq<Rule>, more: seq<Rule>, context: Context, c: RiskConfiguration)
    requires ValidConfiguration(c)
    requires EvaluatePolicies(rules, context).Ok? && EvaluatePolicies(rules + more, context).Ok?
    requires forall i :: 0 <= i < |more| ==> Advisory(more[i])
    ensures PolicyScore(EvaluatePolicies(rules + more, context).value, c)
         == PolicyScore(EvaluatePolicies(rules, context).value, c)
  {
    var results, results' := EvaluatePolicies(rules, context).value, EvaluatePolicies(rules + more, context).value;
    var raw, raw' := RawPointsOf(Contributions(results)), RawPointsOf(Contributions(results'));
    forall dimension ensures raw(dimension) == raw'(dimension) {
      RawIsSumOverRules(rules, context, dimension);
      RawIsSumOverRules(rules + more, context, dimension);
      SumAppend(rules, more, PointsOfRule(context, dimension));
      AdvisoryRulesAddNothing(more, context, dimension);
    }
    FloorsGrow(rules, more, context);
    AdvisoryFloors(rules, more, context);
    ScoreIsMonotone(c, raw, raw', FloorMinimum(Floors(results)), FloorMinimum(Floors(results')));
    ScoreIsMonotone(c, raw', raw, FloorMinimum(Floors(results')), FloorMinimum(Floors(results)));
  }

  // -------------------------------------------------------- detector rules

  const REVIEW_MESSAGE :=
    "Confirm business use, data access, permissions, and any paid subscription with a responsible person."

  const ORGANIZATION_LAYER := 3

  /** A rule that instantiate_detector_rules stores for a product, as the engine sees it. */
  function DetectorRule(
    ruleId: string, version: string, productId: string, explanation: string, remediation: string): Rule
  {
    Rule(ruleId, version, ORGANIZATION_LAYER,
         [Condition("catalog_product_id", OpEquals, VStr(productId))],
         [RecommendReview(REVIEW_MESSAGE)],
         Warning, explanation, ModerateSeverity, remediation)
  }

  lemma {:induction false} RaisesNothing(rules: seq<Rule>, context: Context)
    ensures EvaluateInOrder(rules, context).Ok? <==> forall rule :: rule in rules ==> EvaluateRule(rule, context).Ok?
  {
    if rules == [] {
    } else {
      RaisesNothing(rules[..|rules| - 1], context);
      assert rules == rules[..|rules| - 1] + [rules[|rules| - 1]];
    }
  }

  /** Generated detector rules never raise and leave every score as it is. */
  lemma DetectorRulesAreAdvisory(rules: seq<Rule>, detector: seq<Rule>, context: Context, c: RiskConfiguration)
    requires ValidConfiguration(c)
    requires EvaluatePolicies(rules, context).Ok?
    requires forall i :: 0 <= i < |detector| ==>
               exists ruleId, version, productId, explanation, remediation ::
                 detector[i] == DetectorRule(ruleId, version, productId, explanation, remediation)
    ensures EvaluatePolicies(rules + detector, context).Ok?
    ensures PolicyScore(EvaluatePolicies(rules + detector, context).value, c)
         == PolicyScore(EvaluatePolicies(rules, context).value, c)
  {
    SortPermutes(rules, RuleLe);
    SortPermutes(rules + detector, RuleLe);
    MultisetMembers(rules, Sort(rules, RuleLe));
    MultisetMembers(rules + detector, Sort(rules + detector, RuleLe));
    RaisesNothing(Sort(rules, RuleLe), context);
    forall i | 0 <= i < |detector| ensures EvaluateRule(detector[i], context).Ok? && Advisory(detector[i]) {
      assert AllHold(detector[i].conditions, context).Ok?;
    }
    RaisesNothing(Sort(rules + detector, RuleLe), context);
    AdvisoryRulesChangeNothing(rules, detector, context, c);
  }
}
