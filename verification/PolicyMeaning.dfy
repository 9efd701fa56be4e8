/** What rules and their conditions mean: which rules apply, what they contribute, and what each operator tests. */
module PolicyMeaning {
  import opened Prelude
  import opened Risk
  import opened PolicyEngine

  // ----------------------------------------------------------------- rules

  /** Every condition of the rule evaluates to true. */
  predicate Matches(rule: Rule, context: Context) {
    forall k :: 0 <= k < |rule.conditions| ==> EvaluateCondition(rule.conditions[k], context) == Ok(true)
  }

  /** What a condition looks at: the field of the context, or None. */
  function Actual(condition: Condition, context: Context): Value {
    if condition.field in context then context[condition.field] else VNone
  }

  /** The parts of an evaluation that do not depend on the outcome. */
  ghost predicate Identifies(e: RuleEvaluation, rule: Rule, context: Context) {
    && e.ruleId == rule.ruleId && e.ruleVersion == rule.version
    && e.explanation == rule.explanation && e.recommendedRemediation == rule.remediation
    && |e.evidence| == |rule.conditions|
    && forall k :: 0 <= k < |e.evidence| ==>
         e.evidence[k].0 == rule.conditions[k].field && e.evidence[k].1 == Actual(rule.conditions[k], context)
  }

  /** A rule whose conditions all hold has its effects, its result and its severity. */
  lemma MatchingRule(rule: Rule, context: Context)
    requires Matches(rule, context)
    ensures EvaluateRule(rule, context).Ok?
    ensures var e := EvaluateRule(rule, context).value;
            && Identifies(e, rule, context)
            && e.effects == rule.effects && e.result == rule.resultOnMatch && e.severity == rule.severity
  {
    FirstConditionDecides(rule.conditions, context);
  }

  /** Otherwise its first condition that does not hold decides: when it is false the rule does not apply and has no
      effects, when it raises so does the rule. */
  lemma RuleThatDoesNotMatch(rule: Rule, context: Context, k: nat)
    requires k < |rule.conditions| && DecidesAt(rule.conditions, context, k)
    ensures EvaluateCondition(rule.conditions[k], context) == Ok(false) ==>
              && EvaluateRule(rule, context).Ok?
              && var e := EvaluateRule(rule, context).value;
                 && Identifies(e, rule, context)
                 && e.effects == [] && e.result == NotApplicable && e.severity == NoSeverity
    ensures EvaluateCondition(rule.conditions[k], context).Err? ==>
              EvaluateRule(rule, context) == Err(EvaluateCondition(rule.conditions[k], context).error)
  {
    FirstConditionDecides(rule.conditions, context);
  }

  lemma {:induction false} FirstThatFails(conditions: seq<Condition>, context: Context, n: nat) returns (k: nat)
    requires n <= |conditions|
    requires exists j :: 0 <= j < n && EvaluateCondition(conditions[j], context) != Ok(true)
    ensures k < n && DecidesAt(conditions, context, k)
  {
    if j :| 0 <= j < n - 1 && EvaluateCondition(conditions[j], context) != Ok(true) {
      k := FirstThatFails(conditions, context, n - 1);
    } else {
      k := n - 1;
    }
  }

  /** So the effects of a rule count exactly when it matches. */
  lemma EffectsExactlyOnMatch(rule: Rule, context: Context)
    requires EvaluateRule(rule, context).Ok?
    ensures EffectsOf(rule, context) == if Matches(rule, context) then rule.effects else []
  {
    if Matches(rule, context) {
      MatchingRule(rule, context);
    } else {
      var k := FirstThatFails(rule.conditions, context, |rule.conditions|);
      RuleThatDoesNotMatch(rule, context, k);
    }
  }

  /** A generated rule warns exactly where the context names its product, and then asks for a review and no more. */
  lemma DetectorRuleWarns(
    ruleId: string, version: string, productId: string, explanation: string, remediation: string, context: Context)
    ensures var rule := DetectorRule(ruleId, version, productId, explanation, remediation);
            && EvaluateRule(rule, context).Ok?
            && var e := EvaluateRule(rule, context).value;
               && Identifies(e, rule, context)
               && if "catalog_product_id" in context && context["catalog_product_id"] == VStr(productId) then
                    && e.result == Warning && e.severity == ModerateSeverity
                    && |e.effects| == 1 && e.effects[0].RecommendReview?
                  else e.result == NotApplicable && e.severity == NoSeverity && e.effects == []
  {
    var rule := DetectorRule(ruleId, version, productId, explanation, remediation);
    if Matches(rule, context) {
      MatchingRule(rule, context);
    } else {
      RuleThatDoesNotMatch(rule, context, 0);
    }
  }

  // ---------------------------------------------------------------- scores

  function MatchIn(context: Context): Rule -> bool {
    rule => Matches(rule, context)
  }

  function PointsTo(dimension: RiskDimension): Effect -> int {
    (effect: Effect) => if effect.RiskPoints? && effect.dimension == dimension then effect.points else 0
  }

  function PointsIn(dimension: RiskDimension): Rule -> int {
    (rule: Rule) => SumOver(rule.effects, PointsTo(dimension))
  }

  lemma {:induction false} PointsAddUp(effects: seq<Effect>, dimension: RiskDimension)
    ensures PointsOfEffects(effects, dimension) == SumOver(effects, PointsTo(dimension))
  {
    if effects == [] {
    } else {
      PointsAddUp(effects[..|effects| - 1], dimension);
    }
  }

  lemma {:induction false} SumOfMatching(rules: seq<Rule>, context: Context, dimension: RiskDimension)
    requires forall rule :: rule in rules ==> EvaluateRule(rule, context).Ok?
    ensures SumOver(rules, PointsOfRule(context, dimension))
         == SumOver(Filter(rules, MatchIn(context)), PointsIn(dimension))
  {
    if rules == [] {
    } else {
      var init, last := rules[..|rules| - 1], rules[|rules| - 1];
      SumOfMatching(init, context, dimension);
      EffectsExactlyOnMatch(last, context);
      PointsAddUp(EffectsOf(last, context), dimension);
      SumOne(Filter(init, MatchIn(context)), last, PointsIn(dimension));
    }
  }

  lemma EachRuleEvaluates(rules: seq<Rule>, context: Context)
    requires EvaluatePolicies(rules, context).Ok?
    ensures forall rule :: rule in rules ==> EvaluateRule(rule, context).Ok?
  {
    RaisesNothing(Sort(rules, RuleLe), context);
    SortPermutes(rules, RuleLe);
    MultisetMembers(rules, Sort(rules, RuleLe));
  }

  /** The raw points of a dimension are the points that the matching rules give it, and no others. */
  lemma RawOfPolicies(rules: seq<Rule>, context: Context, dimension: RiskDimension)
    requires EvaluatePolicies(rules, context).Ok?
    ensures RawPointsOf(Contributions(EvaluatePolicies(rules, context).value))(dimension)
         == SumOver(Filter(rules, MatchIn(context)), PointsIn(dimension))
  {
    EachRuleEvaluates(rules, context);
    RawIsSumOverRules(rules, context, dimension);
    SumOfMatching(rules, context, dimension);
  }

  lemma {:induction false} FloorIsAnEffect(effects: seq<Effect>, floor: RiskBand)
    ensures floor in FloorsOfEffects(effects) <==> SeverityFloor(floor) in effects
  {
    if effects == [] {
    } else {
      FloorIsAnEffect(effects[..|effects| - 1], floor);
      assert effects == effects[..|effects| - 1] + [effects[|effects| - 1]];
    }
  }

  /** A floor applies exactly when some rule, all of whose conditions hold, has it among its effects. */
  lemma FloorsOfPolicies(rules: seq<Rule>, context: Context, floor: RiskBand)
    requires EvaluatePolicies(rules, context).Ok?
    ensures floor in Floors(EvaluatePolicies(rules, context).value)
       <==> exists rule :: rule in rules && Matches(rule, context) && SeverityFloor(floor) in rule.effects
  {
    EachRuleEvaluates(rules, context);
    FloorsAreSet(rules, context, floor);
    forall rule | rule in rules
      ensures floor in FloorsOfEffects(EffectsOf(rule, context))
         <==> Matches(rule, context) && SeverityFloor(floor) in rule.effects
    {
      EffectsExactlyOnMatch(rule, context);
      FloorIsAnEffect(EffectsOf(rule, context), floor);
    }
  }

  // --------------------------------------------------------- contributions

  /** The rule matches and has these points for this dimension among its effects; the contribution names it. */
  ghost predicate ComesFrom(c: RiskContribution, rule: Rule, context: Context) {
    && Matches(rule, context) && RiskPoints(c.dimension, c.points) in rule.effects
    && c.ruleId == rule.ruleId && c.ruleVersion == rule.version && c.reason == rule.explanation
  }

  lemma {:induction false} ContributionIsAnEffect(e: RuleEvaluation, effects: seq<Effect>, c: RiskContribution)
    ensures c in ContributionsOfEffects(e, effects) <==>
              && RiskPoints(c.dimension, c.points) in effects
              && c.ruleId == e.ruleId && c.ruleVersion == e.ruleVersion && c.reason == e.explanation
  {
    if effects == [] {
    } else {
      ContributionIsAnEffect(e, effects[..|effects| - 1], c);
      assert effects == effects[..|effects| - 1] + [effects[|effects| - 1]];
    }
  }

  lemma ContributionOfRule(rule: Rule, context: Context, c: RiskContribution)
    requires EvaluateRule(rule, context).Ok?
    ensures var e := EvaluateRule(rule, context).value;
            c in ContributionsOfEffects(e, e.effects) <==> ComesFrom(c, rule, context)
  {
    EffectsExactlyOnMatch(rule, context);
    var e := EvaluateRule(rule, context).value;
    ContributionIsAnEffect(e, e.effects, c);
  }

  lemma LastResult(rules: seq<Rule>, context: Context)
    requires rules != [] && EvaluateInOrder(rules, context).Ok?
    ensures var init, last := rules[..|rules| - 1], EvaluateRule(rules[|rules| - 1], context);
            && EvaluateInOrder(init, context).Ok? && last.Ok?
            && Contributions(EvaluateInOrder(rules, context).value)
               == Contributions(EvaluateInOrder(init, context).value)
                  + ContributionsOfEffects(last.value, last.value.effects)
  {
    var results := EvaluateInOrder(rules, context).value;
    assert results[..|results| - 1] == EvaluateInOrder(rules[..|rules| - 1], context).value;
  }

  lemma {:induction false} ContributionsInOrder(rules: seq<Rule>, context: Context, c: RiskContribution)
    requires EvaluateInOrder(rules, context).Ok?
    ensures c in Contributions(EvaluateInOrder(rules, context).value)
       <==> exists rule :: rule in rules && ComesFrom(c, rule, context)
  {
    if rules == [] {
    } else {
      var init, last := rules[..|rules| - 1], rules[|rules| - 1];
      ContributionsInOrder(init, context, c);
      ContributionOfRule(last, context, c);
      LastResult(rules, context);
      assert forall rule :: rule in rules <==> rule in init || rule == last;
    }
  }

  /** Every contribution comes from a matching rule, under that rule's id, version and explanation, and every points
      effect of a matching rule contributes. */
  lemma ContributionsOfPolicies(rules: seq<Rule>, context: Context, c: RiskContribution)
    requires EvaluatePolicies(rules, context).Ok?
    ensures c in Contributions(EvaluatePolicies(rules, context).value)
       <==> exists rule :: rule in rules && ComesFrom(c, rule, context)
  {
    SortPermutes(rules, RuleLe);
    MultisetMembers(rules, Sort(rules, RuleLe));
    ContributionsInOrder(Sort(rules, RuleLe), context, c);
  }

  // ----------------------------------------------------------------- order

  /** Text before text: a proper beginning of it, or smaller at the first difference. */
  ghost predicate TextBefore(a: string, b: string) {
    || (|a| < |b| && a == b[..|a|])
    || exists k :: 0 <= k < |a| && k < |b| && a[..k] == b[..k] && a[k] < b[k]
  }

  lemma {:induction false} TextOrder(a: string, b: string)
    ensures StringLe(a, b) <==> a == b || TextBefore(a, b)
  {
    if a == "" || b == "" {
    } else {
      TextOrder(a[1..], b[1..]);
      assert a == [a[0]] + a[1..] && b == [b[0]] + b[1..];
      if a[0] == b[0] {
        TextBeforeTails(a, b);
      } else if a[0] < b[0] {
        assert a[..0] == b[..0];
      }
      if TextBefore(a, b) {
        TextBeforeHeads(a, b);
      }
    }
  }

  lemma TextBeforeHeads(a: string, b: string)
    requires a != "" && b != "" && TextBefore(a, b)
    ensures a[0] <= b[0]
  {
    if k :| 0 <= k < |a| && k < |b| && a[..k] == b[..k] && a[k] < b[k] {
      if k > 0 {
        assert a[0] == a[..k][0] && b[0] == b[..k][0];
      }
    }
  }

  lemma TextBeforeTails(a: string, b: string)
    requires a != "" && b != "" && a[0] == b[0]
    ensures TextBefore(a, b) <==> TextBefore(a[1..], b[1..])
  {
    if k :| 0 <= k < |a| && k < |b| && a[..k] == b[..k] && a[k] < b[k] {
      assert a[1..][..k - 1] == a[..k][1..] && b[1..][..k - 1] == b[..k][1..];
      assert a[1..][k - 1] < b[1..][k - 1];
    }
    if k :| 0 <= k < |a| - 1 && k < |b| - 1 && a[1..][..k] == b[1..][..k] && a[1..][k] < b[1..][k] {
      assert a[..k + 1] == [a[0]] + a[1..][..k] && b[..k + 1] == [b[0]] + b[1..][..k];
    }
    if |a| < |b| && a[1..] == b[1..][..|a| - 1] {
      assert b[..|a|] == [b[0]] + b[1..][..|a| - 1] && a == [a[0]] + a[1..];
    }
    if |a| < |b| && a == b[..|a|] {
      assert a[1..] == b[..|a|][1..] == b[1..][..|a| - 1];
    }
  }

  /** By layer, in a layer by id, under an id by version. */
  ghost predicate RuleBefore(a: Rule, b: Rule) {
    || a.layer < b.layer
    || (a.layer == b.layer && TextBefore(a.ruleId, b.ruleId))
    || (a.layer == b.layer && a.ruleId == b.ruleId && (a.version == b.version || TextBefore(a.version, b.version)))
  }

  /** One result for each rule, in the order of the rules' keys. */
  lemma EvaluationOrder(rules: seq<Rule>, context: Context) returns (ordered: seq<Rule>)
    requires EvaluatePolicies(rules, context).Ok?
    ensures multiset(ordered) == multiset(rules)
    ensures forall i, j :: 0 <= i < j < |ordered| ==> RuleBefore(ordered[i], ordered[j])
    ensures |EvaluatePolicies(rules, context).value| == |ordered|
    ensures forall i :: 0 <= i < |ordered| ==>
              EvaluateRule(ordered[i], context) == Ok(EvaluatePolicies(rules, context).value[i])
  {
    ordered := Sort(rules, RuleLe);
    SortPermutes(rules, RuleLe);
    RuleOrderIsTotal();
    SortSorts(rules, RuleLe);
    forall i, j | 0 <= i < j < |ordered| ensures RuleBefore(ordered[i], ordered[j]) {
      TextOrder(ordered[i].ruleId, ordered[j].ruleId);
      TextOrder(ordered[i].version, ordered[j].version);
    }
    ResultsInOrder(ordered, context);
  }

  lemma {:induction false} ResultsInOrder(rules: seq<Rule>, context: Context)
    requires EvaluateInOrder(rules, context).Ok?
    ensures |EvaluateInOrder(rules, context).value| == |rules|
    ensures forall i :: 0 <= i < |rules| ==>
              EvaluateRule(rules[i], context) == Ok(EvaluateInOrder(rules, context).value[i])
  {
    if rules == [] {
    } else {
      ResultsInOrder(rules[..|rules| - 1], context);
    }
  }

  // ------------------------------------------------------------- operators

  /** The operator applied to the value of the field. */
  function Test(actual: Value, operator: Operator, value: Value): Result<bool, EvaluationError> {
    EvaluateCondition(Condition("field", operator, value), map["field" := actual])
  }

  /** A condition tests the value of its field, and None where the context has no such field. */
  lemma ConditionTestsItsField(condition: Condition, context: Context)
    ensures EvaluateCondition(condition, context)
         == Test(Actual(condition, context), condition.operator, condition.value)
  {
  }

  lemma IntegersCompare(a: int, b: int)
    ensures Test(VInt(a), OpGreater, VInt(b)) == Ok(a > b)
    ensures Test(VInt(a), OpGreaterOrEqual, VInt(b)) == Ok(a >= b)
    ensures Test(VInt(a), OpLess, VInt(b)) == Ok(a < b)
    ensures Test(VInt(a), OpLessOrEqual, VInt(b)) == Ok(a <= b)
  {
  }

  lemma FloatsCompare(a: real, b: real)
    ensures Test(VFloat(a), OpGreater, VFloat(b)) == Ok(a > b)
    ensures Test(VFloat(a), OpGreaterOrEqual, VFloat(b)) == Ok(a >= b)
    ensures Test(VFloat(a), OpLess, VFloat(b)) == Ok(a < b)
    ensures Test(VFloat(a), OpLessOrEqual, VFloat(b)) == Ok(a <= b)
  {
  }

  /** Text compares character by character. */
  lemma TextsCompare(a: string, b: string)
    ensures Test(VStr(a), OpGreater, VStr(b)) == Ok(TextBefore(b, a))
    ensures Test(VStr(a), OpGreaterOrEqual, VStr(b)) == Ok(a == b || TextBefore(b, a))
    ensures Test(VStr(a), OpLess, VStr(b)) == Ok(TextBefore(a, b))
    ensures Test(VStr(a), OpLessOrEqual, VStr(b)) == Ok(a == b || TextBefore(a, b))
  {
    TextOrder(a, b);
    TextOrder(b, a);
    StringLeTotal(a, b);
    NotBeforeItself(a);
  }

  lemma NotBeforeItself(a: string)
    ensures !TextBefore(a, a)
  {
  }

  predicate IsOrdering(operator: Operator) {
    operator == OpGreater || operator == OpGreaterOrEqual || operator == OpLess || operator == OpLessOrEqual
  }

  /** Values of different kinds, and values that are not numbers or text, do not compare. */
  lemma OthersDoNotCompare(actual: Value, operator: Operator, value: Value)
    requires IsOrdering(operator)
    requires !(actual.VInt? && value.VInt?) && !(actual.VFloat? && value.VFloat?) && !(actual.VStr? && value.VStr?)
    ensures Test(actual, operator, value) == Err(PolicyEvaluationError)
  {
  }

  lemma {:induction false} SubstringMeaning(part: string, whole: string)
    ensures Substring(part, whole) <==> exists i, j :: 0 <= i <= j <= |whole| && whole[i..j] == part
  {
    if part <= whole {
      assert whole[0..|part|] == part;
    } else if whole == "" {
    } else {
      SubstringMeaning(part, whole[1..]);
      if i, j :| 0 <= i <= j <= |whole| - 1 && whole[1..][i..j] == part {
        assert whole[i + 1..j + 1] == part;
      }
      if i, j :| 0 <= i <= j <= |whole| && whole[i..j] == part {
        assert i > 0 && whole[1..][i - 1..j - 1] == part;
      }
    }
  }

  /** Text contains the text that occurs in it, a collection what is equal to a member; nothing else contains. */
  lemma ContainsMeaning(actual: Value, value: Value)
    ensures var r := Test(actual, OpContains, value);
            match actual
            case VStr(whole) =>
              if value.VStr? then r == Ok(exists i, j :: 0 <= i <= j <= |whole| && whole[i..j] == value.s)
              else r == Err(TypeErrorRaised)
            case VList(items) => r == Ok(exists k :: 0 <= k < |items| && PyEqual(items[k], value))
            case VTuple(items) => r == Ok(exists k :: 0 <= k < |items| && PyEqual(items[k], value))
            case VSet(items) => r == Ok(exists k :: 0 <= k < |items| && PyEqual(items[k], value))
            case _ => r == Err(PolicyEvaluationError)
  {
    if actual.VStr? && value.VStr? {
      SubstringMeaning(value.s, actual.s);
    }
  }

  /** The negated operators answer the opposite and raise alike. */
  lemma NegationMeaning(actual: Value, value: Value)
    ensures var r, r' := Test(actual, OpContains, value), Test(actual, OpNotContains, value);
            if r.Ok? then r' == Ok(!r.value) else r' == r
    ensures Test(actual, OpNotEquals, value) == Ok(Test(actual, OpEquals, value) != Ok(true))
    ensures Test(actual, OpIsNotEmpty, value) == Ok(Test(actual, OpIsEmpty, value) != Ok(true))
  {
  }

  /** Only the two truth values themselves are true or false; only None and empty text and lists and tuples and
      dictionaries are empty. */
  lemma UnaryMeaning(actual: Value, value: Value)
    ensures Test(actual, OpIsTrue, value) == Ok(actual == VBool(true))
    ensures Test(actual, OpIsFalse, value) == Ok(actual == VBool(false))
    ensures Test(actual, OpIsEmpty, value) == Ok(actual in {VNone, VStr(""), VList([]), VTuple([]), VDict(0)})
  {
  }

  /** Scalars are equal by value, numbers across their types; different kinds are different. */
  lemma EqualityMeaning(a: Value, b: Value)
    requires !a.VList? && !a.VTuple? && !a.VSet? && !a.VDict?
    ensures Test(a, OpEquals, b) == Ok(a == b || (Number(a).Some? && Number(a) == Number(b)))
  {
  }

  lemma NumbersAcrossTypes(i: int, r: real, flag: bool)
    ensures Test(VInt(i), OpEquals, VFloat(r)) == Ok(i as real == r)
    ensures Test(VBool(flag), OpEquals, VInt(i)) == Ok(i == if flag then 1 else 0)
    ensures Test(VBool(flag), OpEquals, VFloat(r)) == Ok(r == if flag then 1.0 else 0.0)
  {
  }

  /** Lists are equal member by member, and so are tuples; a list is never a tuple. */
  lemma ListEquality(a: seq<Value>, b: seq<Value>)
    ensures Test(VList(a), OpEquals, VList(b))
         == Ok(|a| == |b| && forall k :: 0 <= k < |a| ==> Test(a[k], OpEquals, b[k]) == Ok(true))
    ensures Test(VTuple(a), OpEquals, VTuple(b)) == Test(VList(a), OpEquals, VList(b))
    ensures Test(VList(a), OpEquals, VTuple(b)) == Ok(false)
  {
  }

  /** Sets are equal when every member of either is equal to one of the other. */
  lemma SetEquality(a: Value, b: Value)
    requires a.VSet? && b.VSet?
    ensures PyEqual(a, b) <==>
              && (forall k :: 0 <= k < |a.items| ==> IsAmong(a.items[k], b.items))
              && (forall i :: 0 <= i < |b.items| ==> HasMember(a, b.items[i]))
  {
  }

  /** Of dictionaries only two empty ones are equal. */
  lemma EqualsIsPyEqual(a: Value, b: Value)
    ensures Test(a, OpEquals, b) == Ok(PyEqual(a, b))
    ensures a.VDict? && b.VDict? ==> (PyEqual(a, b) <==> a.size == 0 && b.size == 0)
  {
  }

  lemma MembershipMeaning(value: Value, items: seq<Value>)
    ensures IsAmong(value, items) <==> exists m :: 0 <= m < |items| && Test(value, OpEquals, items[m]) == Ok(true)
    ensures HasMember(VSet(items), value)
       <==> exists m :: 0 <= m < |items| && Test(items[m], OpEquals, value) == Ok(true)
  {
  }
}
