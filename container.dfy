/**
 * `BusinessRuleContainer`: the profiles, conditions and rules of one
 * business-rules document, and its lint.
 */
module Containers {
  import opened Sequences
  import opened ConditionGroups
  import opened RuleSets
  import opened BusinessRules

  datatype BusinessRuleContainer = BusinessRuleContainer(
    profiles: seq<RuleProfile>,
    conditions: Conditions,
    rules: seq<BusinessRule>)
  {
    /** The lint of each rule, in rule order, all against the container's conditions and profiles. */
    function RuleLints(): (lints: seq<seq<SyntaxError>>)
      ensures |lints| == |rules|
      ensures forall i :: 0 <= i < |rules| ==> lints[i] == BusinessRuleLint(rules[i], conditions, profiles)
    {
      seq(|rules|, i requires 0 <= i < |rules| => BusinessRuleLint(rules[i], conditions, profiles))
    }

    /** `validate`: the rules' lints one after the other. */
    function Validate(): (errors: seq<SyntaxError>)
      ensures rules == [] ==> errors == []
      ensures forall e :: e in errors <==>
        exists i :: 0 <= i < |rules| && e in BusinessRuleLint(rules[i], conditions, profiles)
    {
      Concat(RuleLints())
    }
  }

  /**
   * Splitting the rule list splits the lint: everything reported for the
   * rules before `k` comes before everything reported for the rest.
   */
  lemma ValidateSplits(c: BusinessRuleContainer, k: int)
    requires 0 <= k <= |c.rules|
    ensures c.Validate() == c.(rules := c.rules[..k]).Validate() + c.(rules := c.rules[k..]).Validate()
  {
    var before := c.(rules := c.rules[..k]);
    var after := c.(rules := c.rules[k..]);
    assert c.RuleLints() == before.RuleLints() + after.RuleLints();
    ConcatAppend(before.RuleLints(), after.RuleLints());
  }

  /** Adding a rule at the end appends exactly that rule's lint. */
  lemma AddingRuleAppendsItsLint(c: BusinessRuleContainer, rule: BusinessRule)
    ensures c.(rules := c.rules + [rule]).Validate() == c.Validate() + BusinessRuleLint(rule, c.conditions, c.profiles)
  {
    var bigger := c.(rules := c.rules + [rule]);
    var lints, last := c.RuleLints(), BusinessRuleLint(rule, c.conditions, c.profiles);
    var biggerLints := bigger.RuleLints();
    assert |biggerLints| == |lints + [last]|;
    assert forall i :: 0 <= i < |lints| ==> biggerLints[i] == lints[i] by {
      assert forall i :: 0 <= i < |lints| ==> bigger.rules[i] == c.rules[i];
    }
    assert biggerLints[|lints|] == last;
    assert biggerLints == lints + [last];
    ConcatSnoc(lints, last);
  }

  /** A container whose every rule lints clean lints clean, and conversely. */
  lemma CleanIffEveryRuleClean(c: BusinessRuleContainer)
    ensures c.Validate() == [] <==> forall i :: 0 <= i < |c.rules| ==> BusinessRuleLint(c.rules[i], c.conditions, c.profiles) == []
  {
    ConcatEmpty(c.RuleLints());
  }
}
