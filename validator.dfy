/**
 * `BusinessRuleValidator`: the evaluation of a certificate against the
 * rules of a document, profile by profile. The first applicable rule
 * decides; its rule set for the profile (chosen by target group when the
 * rule has groups) yields valid, invalid or error, possibly by delegating
 * to another profile.
 */
module Validators {
  import opened Wrappers
  import opened Dictionaries
  import opened Sequences
  import opened DateExtensions
  import opened Results
  import opened CertificateConditions
  import opened ConditionGroups
  import opened ValidityTimes
  import opened RuleSets
  import opened BusinessRules
  import opened Containers
  import opened CoreHelper
  import opened CertificateValidators

  // ----- Summaries of a list of outcomes -----

  /** `allSatisfy({ $0.isFulfilled() })`. */
  predicate AllFulfilled(results: seq<ConditionValidationResult>)
  {
    forall i :: 0 <= i < |results| ==> results[i].IsFulfilled()
  }

  /** `compactMap({ $0.failedCondition() })`: the failed names, in order. */
  function FailedConditions(results: seq<ConditionValidationResult>): (names: seq<string>)
    ensures |names| <= |results|
    decreases |results|
  {
    if results == [] then []
    else
      match results[0]
      case Failed(n) => [n] + FailedConditions(results[1..])
      case _ => FailedConditions(results[1..])
  }

  /** The failed names are exactly those of the failures in the list. */
  lemma {:induction false} FailedConditionsMembers(results: seq<ConditionValidationResult>)
    ensures forall n :: n in FailedConditions(results) <==> Failed(n) in results
    decreases |results|
  {
    if results != [] {
      FailedConditionsMembers(results[1..]);
      assert forall n :: Failed(n) in results <==> results[0] == Failed(n) || Failed(n) in results[1..];
    }
  }

  /** `compactMap({ $0.violation() })`: the violations, in order. */
  function ViolationsOf(results: seq<ConditionValidationResult>): (violations: seq<ConditionViolation>)
    ensures |violations| <= |results|
    decreases |results|
  {
    if results == [] then []
    else
      match results[0]
      case Violated(w) => [w] + ViolationsOf(results[1..])
      case _ => ViolationsOf(results[1..])
  }

  /** The violations are exactly those of the violated results in the list. */
  lemma {:induction false} ViolationsOfMembers(results: seq<ConditionValidationResult>)
    ensures forall w :: w in ViolationsOf(results) <==> Violated(w) in results
    decreases |results|
  {
    if results != [] {
      ViolationsOfMembers(results[1..]);
      assert forall w :: Violated(w) in results <==> results[0] == Violated(w) || Violated(w) in results[1..];
    }
  }

  /** A list that is not all fulfilled has a failed name or a violation. */
  lemma NotFulfilledHasCause(results: seq<ConditionValidationResult>)
    requires !AllFulfilled(results)
    ensures FailedConditions(results) != [] || ViolationsOf(results) != []
  {
    var i :| 0 <= i < |results| && !results[i].IsFulfilled();
    FailedConditionsMembers(results);
    ViolationsOfMembers(results);
    match results[i]
    case Failed(n) => assert n in FailedConditions(results);
    case Violated(w) => assert w in ViolationsOf(results);
  }

  // ----- OR groups -----

  /** The outcomes of every AND group of an OR group, group by group. */
  function GroupOutcomes(v: CertificateValidator, groups: OrConditionGroup, ruleId: string,
                         ruleCertificateType: Option<string>, platform: Platform): seq<seq<ConditionValidationResult>>
  {
    seq(|groups|, i requires 0 <= i < |groups| => Outcomes(v, groups[i], ruleId, ruleCertificateType, platform))
  }

  /** Some AND group whose every condition is fulfilled. */
  predicate SomeGroupFulfilled(outcomes: seq<seq<ConditionValidationResult>>)
  {
    exists i :: 0 <= i < |outcomes| && AllFulfilled(outcomes[i])
  }

  function FailedLists(outcomes: seq<seq<ConditionValidationResult>>): seq<seq<string>>
  {
    seq(|outcomes|, i requires 0 <= i < |outcomes| => FailedConditions(outcomes[i]))
  }

  function ViolationLists(outcomes: seq<seq<ConditionValidationResult>>): seq<seq<ConditionViolation>>
  {
    seq(|outcomes|, i requires 0 <= i < |outcomes| => ViolationsOf(outcomes[i]))
  }

  /**
   * `validateConditionsInOrGroup`: `[fulfilled]` when there is no group or
   * some AND group is all fulfilled; otherwise every failed name of every
   * group, or else every violation, or else one failure with an empty
   * name (an OR group without AND groups).
   */
  function OrGroupOutcome(v: CertificateValidator, orGroup: Option<OrConditionGroup>, ruleId: string,
                          ruleCertificateType: Option<string>, platform: Platform): (r: seq<ConditionValidationResult>)
    ensures r != []
    ensures r[0].IsFulfilled() ==> r == [Fulfilled]
    ensures orGroup.None? ==> r == [Fulfilled]
  {
    match orGroup
    case None => [Fulfilled]
    case Some(groups) =>
      var outcomes := GroupOutcomes(v, groups, ruleId, ruleCertificateType, platform);
      if SomeGroupFulfilled(outcomes) then [Fulfilled]
      else
        var failed := Concat(FailedLists(outcomes));
        var violations := Concat(ViolationLists(outcomes));
        if failed != [] then AllFailed(failed)
        else if violations != [] then AllViolated(violations)
        else [Failed("")]
  }

  /**
   * What the OR group's outcome says: fulfilled exactly when some AND group
   * is; otherwise all failures, naming every failed condition of every
   * group in order, or else all violations, every one of every group in
   * order.
   */
  lemma OrGroupOutcomeCauses(v: CertificateValidator, orGroup: Option<OrConditionGroup>, ruleId: string,
                             ruleCertificateType: Option<string>, platform: Platform)
    ensures var r := OrGroupOutcome(v, orGroup, ruleId, ruleCertificateType, platform);
      r == [Fulfilled] <==>
        orGroup.None? || SomeGroupFulfilled(GroupOutcomes(v, orGroup.value, ruleId, ruleCertificateType, platform))
    ensures var r := OrGroupOutcome(v, orGroup, ruleId, ruleCertificateType, platform);
      r != [Fulfilled] ==> (forall k :: 0 <= k < |r| ==> r[k].Failed?) || (forall k :: 0 <= k < |r| ==> r[k].Violated?)
    ensures var r := OrGroupOutcome(v, orGroup, ruleId, ruleCertificateType, platform);
      r != [Fulfilled] && r[0].Failed? ==>
        ViolationsOf(r) == [] &&
        var failed := Concat(FailedLists(GroupOutcomes(v, orGroup.value, ruleId, ruleCertificateType, platform)));
        FailedConditions(r) == if failed != [] then failed else [""]
    ensures var r := OrGroupOutcome(v, orGroup, ruleId, ruleCertificateType, platform);
      r != [Fulfilled] && r[0].Violated? ==>
        FailedConditions(r) == [] &&
        ViolationsOf(r) == Concat(ViolationLists(GroupOutcomes(v, orGroup.value, ruleId, ruleCertificateType, platform)))
  {
    if orGroup.Some? {
      var outcomes := GroupOutcomes(v, orGroup.value, ruleId, ruleCertificateType, platform);
      if !SomeGroupFulfilled(outcomes) {
        var failed := Concat(FailedLists(outcomes));
        var violations := Concat(ViolationLists(outcomes));
        if failed != [] {
          AllFailedRoundTrip(failed);
        } else if violations != [] {
          AllViolatedRoundTrip(violations);
        }
      }
    }
  }

  /** `map({ .failed(condition: $0) })`. */
  function AllFailed(names: seq<string>): (r: seq<ConditionValidationResult>)
    ensures |r| == |names|
    ensures forall k :: 0 <= k < |r| ==> r[k] == Failed(names[k])
  {
    seq(|names|, k requires 0 <= k < |names| => Failed(names[k]))
  }

  /** Wrapping failed names and reading them back gives them back, with no violation. */
  lemma {:induction false} AllFailedRoundTrip(names: seq<string>)
    ensures FailedConditions(AllFailed(names)) == names
    ensures ViolationsOf(AllFailed(names)) == []
    decreases |names|
  {
    if names != [] {
      var r := AllFailed(names);
      assert r[1..] == AllFailed(names[1..]);
      AllFailedRoundTrip(names[1..]);
    }
  }

  /** `map({ .violated(violation: $0) })`. */
  function AllViolated(violations: seq<ConditionViolation>): (r: seq<ConditionValidationResult>)
    ensures |r| == |violations|
    ensures forall k :: 0 <= k < |r| ==> r[k] == Violated(violations[k])
  {
    seq(|violations|, k requires 0 <= k < |violations| => Violated(violations[k]))
  }

  /** Wrapping violations and reading them back gives them back, with no failure. */
  lemma {:induction false} AllViolatedRoundTrip(violations: seq<ConditionViolation>)
    ensures FailedConditions(AllViolated(violations)) == []
    ensures ViolationsOf(AllViolated(violations)) == violations
    decreases |violations|
  {
    if violations != [] {
      var r := AllViolated(violations);
      assert r[1..] == AllViolated(violations[1..]);
      AllViolatedRoundTrip(violations[1..]);
    }
  }

  /** The causes collected up to a group, extended by that group's. */
  lemma CausesSnoc(outcomes: seq<seq<ConditionValidationResult>>, i: int)
    requires 0 <= i < |outcomes|
    ensures Concat(FailedLists(outcomes[..i + 1])) == Concat(FailedLists(outcomes[..i])) + FailedConditions(outcomes[i])
    ensures Concat(ViolationLists(outcomes[..i + 1])) == Concat(ViolationLists(outcomes[..i])) + ViolationsOf(outcomes[i])
  {
    assert FailedLists(outcomes[..i + 1]) == FailedLists(outcomes[..i]) + [FailedConditions(outcomes[i])];
    assert ViolationLists(outcomes[..i + 1]) == ViolationLists(outcomes[..i]) + [ViolationsOf(outcomes[i])];
    ConcatSnoc(FailedLists(outcomes[..i]), FailedConditions(outcomes[i]));
    ConcatSnoc(ViolationLists(outcomes[..i]), ViolationsOf(outcomes[i]));
  }

  lemma NoGroupFulfilledYet(outcomes: seq<seq<ConditionValidationResult>>, i: int, results: seq<ConditionValidationResult>)
    requires 0 <= i < |outcomes| && outcomes[i] == results
    requires !SomeGroupFulfilled(outcomes[..i])
    requires !(forall k :: 0 <= k < |results| ==> results[k].IsFulfilled())
    ensures !SomeGroupFulfilled(outcomes[..i + 1])
  {
    assert forall k :: 0 <= k < i ==> outcomes[..i + 1][k] == outcomes[..i][k];
  }

  /** The loop of `validateConditionsInOrGroup`, which stops at the first fulfilled AND group. */
  method ValidateConditionsInOrGroup(v: CertificateValidator, orGroup: Option<OrConditionGroup>, ruleId: string,
                                     ruleCertificateType: Option<string>, platform: Platform)
    returns (r: seq<ConditionValidationResult>)
    requires CachesValid(v.availableConditions, platform.parseLogic)
    modifies v.availableConditions.Values
    ensures CachesValid(v.availableConditions, platform.parseLogic)
    ensures r == OrGroupOutcome(v, orGroup, ruleId, ruleCertificateType, platform)
  {
    if orGroup.None? {
      return [Fulfilled];
    }
    var groups := orGroup.value;
    ghost var outcomes := GroupOutcomes(v, groups, ruleId, ruleCertificateType, platform);
    var violations: seq<ConditionViolation> := [];
    var failedConditions: seq<string> := [];
    for i := 0 to |groups|
      invariant CachesValid(v.availableConditions, platform.parseLogic)
      invariant !SomeGroupFulfilled(outcomes[..i])
      invariant failedConditions == Concat(FailedLists(outcomes[..i]))
      invariant violations == Concat(ViolationLists(outcomes[..i]))
    {
      var evaluations := EvaluateConditions(v, groups[i], ruleId, ruleCertificateType, platform);
      assert evaluations == outcomes[i];
      if forall k :: 0 <= k < |evaluations| ==> evaluations[k].IsFulfilled() {
        return [Fulfilled];
      }
      NoGroupFulfilledYet(outcomes, i, evaluations);
      CausesSnoc(outcomes, i);
      violations := violations + ViolationsOf(evaluations);
      failedConditions := failedConditions + FailedConditions(evaluations);
    }
    assert outcomes[..|groups|] == outcomes;
    assert !SomeGroupFulfilled(outcomes);
    if failedConditions != [] {
      r := AllFailed(failedConditions);
    } else if violations != [] {
      r := AllViolated(violations);
    } else {
      r := [Failed("")];
    }
  }

  // ----- Linked conditions -----

  /** `LinkedConditionValidationResult`. */
  datatype LinkedConditionStatus = LinkedFulfilled | LinkedViolated | LinkedFailed

  /** A bundle is fulfilled when all its conditions are, failed when any failed, violated otherwise. */
  function LinkedStatus(results: seq<ConditionValidationResult>): (s: LinkedConditionStatus)
    ensures s == LinkedFulfilled <==> AllFulfilled(results)
    ensures s == LinkedFailed <==> !AllFulfilled(results) && FailedConditions(results) != []
    ensures s == LinkedViolated ==> ViolationsOf(results) != []
  {
    if AllFulfilled(results) then LinkedFulfilled
    else if FailedConditions(results) != [] then LinkedFailed
    else
      NotFulfilledHasCause(results);
      LinkedViolated
  }

  /** Every bundle with its status, in order. */
  function LinkedStatuses(v: CertificateValidator, linkedConditions: seq<LinkedCondition>, ruleId: string,
                          ruleCertificateType: Option<string>, platform: Platform): seq<(LinkedCondition, LinkedConditionStatus)>
  {
    seq(|linkedConditions|, i requires 0 <= i < |linkedConditions| =>
      (linkedConditions[i], LinkedStatus(Outcomes(v, linkedConditions[i].conditions, ruleId, ruleCertificateType, platform))))
  }

  /** `validateLinkedConditions(linkedConditions:validator:forRuleWithId:ruleCertificateType:)`. */
  method ValidateLinkedConditions(v: CertificateValidator, linkedConditions: seq<LinkedCondition>, ruleId: string,
                                  ruleCertificateType: Option<string>, platform: Platform)
    returns (validationResults: seq<(LinkedCondition, LinkedConditionStatus)>)
    requires CachesValid(v.availableConditions, platform.parseLogic)
    modifies v.availableConditions.Values
    ensures CachesValid(v.availableConditions, platform.parseLogic)
    ensures validationResults == LinkedStatuses(v, linkedConditions, ruleId, ruleCertificateType, platform)
  {
    ghost var expected := LinkedStatuses(v, linkedConditions, ruleId, ruleCertificateType, platform);
    validationResults := [];
    for i := 0 to |linkedConditions|
      invariant CachesValid(v.availableConditions, platform.parseLogic)
      invariant |validationResults| == i
      invariant forall k :: 0 <= k < i ==> validationResults[k] == expected[k]
    {
      var evaluations := EvaluateConditions(v, linkedConditions[i].conditions, ruleId, ruleCertificateType, platform);
      assert evaluations == Outcomes(v, linkedConditions[i].conditions, ruleId, ruleCertificateType, platform);
      var status;
      if AllFulfilled(evaluations) {
        status := LinkedFulfilled;
      } else if FailedConditions(evaluations) != [] {
        status := LinkedFailed;
      } else {
        status := LinkedViolated;
      }
      assert expected[i] == (linkedConditions[i], status);
      validationResults := validationResults + [(linkedConditions[i], status)];
    }
  }

  /** `BusinessRuleValidationLinkedConditionResult(violationMessage:conditions:)` of a bundle. */
  function LinkedResult(linked: LinkedCondition): LinkedConditionResult
  {
    LinkedConditionResult(linked.localizedViolationDescription, linked.conditions)
  }

  /** The bundles whose status is fulfilled (or, with `fulfilled` false, is not), as results, in order. */
  function LinkedResultsWhere(statuses: seq<(LinkedCondition, LinkedConditionStatus)>, fulfilled: bool): (r: seq<LinkedConditionResult>)
    ensures |r| <= |statuses|
    ensures forall l :: l in r ==>
      exists i :: (0 <= i < |statuses| && LinkedResult(statuses[i].0) == l && (statuses[i].1 == LinkedFulfilled <==> fulfilled))
    decreases |statuses|
  {
    if statuses == [] then []
    else
      var rest := LinkedResultsWhere(statuses[1..], fulfilled);
      if (statuses[0].1 == LinkedFulfilled) == fulfilled then [LinkedResult(statuses[0].0)] + rest else rest
  }

  /**
   * The fulfilled and the other bundles split the list: together they
   * hold each bundle exactly once.
   */
  lemma {:induction false} LinkedResultsPartition(statuses: seq<(LinkedCondition, LinkedConditionStatus)>)
    ensures |LinkedResultsWhere(statuses, true)| + |LinkedResultsWhere(statuses, false)| == |statuses|
    ensures multiset(LinkedResultsWhere(statuses, true)) + multiset(LinkedResultsWhere(statuses, false)) ==
      multiset(seq(|statuses|, i requires 0 <= i < |statuses| => LinkedResult(statuses[i].0)))
    decreases |statuses|
  {
    if statuses != [] {
      LinkedResultsPartition(statuses[1..]);
      var all := seq(|statuses|, i requires 0 <= i < |statuses| => LinkedResult(statuses[i].0));
      var tail := seq(|statuses[1..]|, i requires 0 <= i < |statuses[1..]| => LinkedResult(statuses[1..][i].0));
      assert all == [LinkedResult(statuses[0].0)] + tail;
    }
  }

  /**
   * The split keeps the order of the bundles: splitting a concatenation
   * splits each part, and one bundle lands in the list its status picks.
   */
  lemma {:induction false} LinkedResultsWhereAppend(s: seq<(LinkedCondition, LinkedConditionStatus)>,
                                                    t: seq<(LinkedCondition, LinkedConditionStatus)>, fulfilled: bool)
    ensures LinkedResultsWhere(s + t, fulfilled) == LinkedResultsWhere(s, fulfilled) + LinkedResultsWhere(t, fulfilled)
    ensures |t| == 1 ==>
      LinkedResultsWhere(t, fulfilled) == (if (t[0].1 == LinkedFulfilled) == fulfilled then [LinkedResult(t[0].0)] else [])
    decreases |s|
  {
    if s == [] {
      assert s + t == t;
    } else {
      assert (s + t)[0] == s[0] && (s + t)[1..] == s[1..] + t;
      LinkedResultsWhereAppend(s[1..], t, fulfilled);
    }
    if |t| == 1 {
      assert t[1..] == [];
    }
  }

  /** Every bundle whose status matches is in the list, at its place in the order. */
  lemma LinkedResultsWhereComplete(statuses: seq<(LinkedCondition, LinkedConditionStatus)>, fulfilled: bool, i: nat)
    requires i < |statuses| && (statuses[i].1 == LinkedFulfilled) == fulfilled
    ensures LinkedResultsWhere(statuses, fulfilled) ==
      LinkedResultsWhere(statuses[..i], fulfilled) + [LinkedResult(statuses[i].0)] + LinkedResultsWhere(statuses[i + 1..], fulfilled)
  {
    assert statuses == statuses[..i] + ([statuses[i]] + statuses[i + 1..]);
    LinkedResultsWhereAppend(statuses[..i], [statuses[i]] + statuses[i + 1..], fulfilled);
    LinkedResultsWhereAppend([statuses[i]], statuses[i + 1..], fulfilled);
  }

  /**
   * `validateLinkedConditionsForRuleSet`: nothing without bundles;
   * otherwise the fulfilled bundles and the violated or failed ones.
   */
  function LinkedConditionsForRuleSet(v: CertificateValidator, ruleSet: RuleSet, ruleId: string,
                                      ruleCertificateType: Option<string>, platform: Platform)
    : (r: Option<(seq<LinkedConditionResult>, seq<LinkedConditionResult>)>)
    ensures r.Some? <==> ruleSet.linkedConditions.Some? && ruleSet.linkedConditions.value != []
    ensures r.Some? ==> |r.value.0| + |r.value.1| == |ruleSet.linkedConditions.value|
  {
    match ruleSet.linkedConditions
    case Some(linkedConditions) =>
      if |linkedConditions| > 0 then
        var statuses := LinkedStatuses(v, linkedConditions, ruleId, ruleCertificateType, platform);
        LinkedResultsPartition(statuses);
        Some((LinkedResultsWhere(statuses, true), LinkedResultsWhere(statuses, false)))
      else None
    case None => None
  }

  /**
   * Each bundle of the rule set lands in the list its conditions pick:
   * the fulfilled ones when all its conditions are fulfilled, the other
   * list otherwise, after the bundles before it that land there too.
   */
  lemma LinkedConditionsLandByStatus(v: CertificateValidator, ruleSet: RuleSet, ruleId: string,
                                     ruleCertificateType: Option<string>, platform: Platform, i: nat)
    requires ruleSet.linkedConditions.Some? && i < |ruleSet.linkedConditions.value|
    ensures var r := LinkedConditionsForRuleSet(v, ruleSet, ruleId, ruleCertificateType, platform);
      var bundle := ruleSet.linkedConditions.value[i];
      r.Some? &&
      LinkedResult(bundle) in (if GroupFulfilled(v, bundle.conditions, ruleId, ruleCertificateType, platform) then r.value.0 else r.value.1)
  {
    var lc := ruleSet.linkedConditions.value;
    var statuses := LinkedStatuses(v, lc, ruleId, ruleCertificateType, platform);
    var fulfilled := statuses[i].1 == LinkedFulfilled;
    LinkedResultsWhereComplete(statuses, fulfilled, i);
  }

  /** The same, with the bundles evaluated by the loop. */
  method ValidateLinkedConditionsForRuleSet(v: CertificateValidator, ruleSet: RuleSet, ruleId: string,
                                            ruleCertificateType: Option<string>, platform: Platform)
    returns (r: Option<(seq<LinkedConditionResult>, seq<LinkedConditionResult>)>)
    requires CachesValid(v.availableConditions, platform.parseLogic)
    modifies v.availableConditions.Values
    ensures CachesValid(v.availableConditions, platform.parseLogic)
    ensures r == LinkedConditionsForRuleSet(v, ruleSet, ruleId, ruleCertificateType, platform)
  {
    if ruleSet.linkedConditions.Some? && |ruleSet.linkedConditions.value| > 0 {
      var validated := ValidateLinkedConditions(v, ruleSet.linkedConditions.value, ruleId, ruleCertificateType, platform);
      r := Some((LinkedResultsWhere(validated, true), LinkedResultsWhere(validated, false)));
    } else {
      r := None;
    }
  }

  // ----- Validity times -----

  /** Every condition of the AND group is fulfilled. */
  predicate GroupFulfilled(v: CertificateValidator, group: AndConditionGroup, ruleId: string,
                           ruleCertificateType: Option<string>, platform: Platform)
  {
    AllFulfilled(Outcomes(v, group, ruleId, ruleCertificateType, platform))
  }

  /**
   * The guarded branch of `validateTime`: the first AND group that is
   * fulfilled, provided the time string yields a date.
   */
  function TimeInGroups(v: CertificateValidator, time: ValidityTime, groups: seq<AndConditionGroup>, ruleId: string,
                        ruleCertificateType: Option<string>, platform: Platform): (r: Option<ValidityTimeResult>)
    requires platform.calendar.Total()
    ensures r.Some? <==> (ValidTimeOf(v, time.value, platform).Some? &&
      exists k :: 0 <= k < |groups| && GroupFulfilled(v, groups[k], ruleId, ruleCertificateType, platform))
    ensures r.Some? ==>
      r.value.time == time.DateByModifying(platform.calendar, platform.parseIso, ValidTimeOf(v, time.value, platform).value) &&
      r.value.format == time.Format() &&
      exists k :: 0 <= k < |groups| && r.value.conditions == Some(groups[k]) &&
        GroupFulfilled(v, groups[k], ruleId, ruleCertificateType, platform) &&
        forall j :: 0 <= j < k ==> !GroupFulfilled(v, groups[j], ruleId, ruleCertificateType, platform)
    decreases |groups|
  {
    if groups == [] then None
    else
      var date := ValidTimeOf(v, time.value, platform);
      if GroupFulfilled(v, groups[0], ruleId, ruleCertificateType, platform) && date.Some? then
        Some(ValidityTimeResult(time.DateByModifying(platform.calendar, platform.parseIso, date.value), time.Format(), Some(groups[0])))
      else
        var r := TimeInGroups(v, time, groups[1..], ruleId, ruleCertificateType, platform);
        assert forall k :: 0 <= k < |groups| - 1 ==> groups[1..][k] == groups[k + 1];
        r
  }

  /**
   * `validateTime`: with a non-empty guard, the first fulfilled AND group
   * (recorded in the result); without one, no conditions. Either way the
   * time string must yield a date, which is then modified by the time's
   * unit, interval, modifier and maximum.
   */
  function TimeOutcome(v: CertificateValidator, time: ValidityTime, ruleId: string,
                       ruleCertificateType: Option<string>, platform: Platform): (r: Option<ValidityTimeResult>)
    requires platform.calendar.Total()
    ensures r.Some? ==> (ValidTimeOf(v, time.value, platform).Some? && r.value.format == time.Format() &&
      r.value.time == time.DateByModifying(platform.calendar, platform.parseIso, ValidTimeOf(v, time.value, platform).value))
    ensures (time.conditions.None? || time.conditions.value == []) ==>
      (r.Some? <==> ValidTimeOf(v, time.value, platform).Some?) && (r.Some? ==> r.value.conditions.None?)
    ensures r.Some? && r.value.conditions.Some? ==>
      time.conditions.Some? && r.value.conditions.value in time.conditions.value &&
      GroupFulfilled(v, r.value.conditions.value, ruleId, ruleCertificateType, platform)
  {
    match time.conditions
    case Some(groups) =>
      if groups != [] then TimeInGroups(v, time, groups, ruleId, ruleCertificateType, platform)
      else TimeWithoutConditions(v, time, platform)
    case None => TimeWithoutConditions(v, time, platform)
  }

  function TimeWithoutConditions(v: CertificateValidator, time: ValidityTime, platform: Platform): Option<ValidityTimeResult>
    requires platform.calendar.Total()
  {
    match ValidTimeOf(v, time.value, platform)
    case Some(date) => Some(ValidityTimeResult(time.DateByModifying(platform.calendar, platform.parseIso, date), time.Format(), None))
    case None => None
  }

  /** `validateTime(_:validator:forRuleWithId:ruleCertificateType:)`. */
  method ValidateTime(v: CertificateValidator, time: ValidityTime, ruleId: string,
                      ruleCertificateType: Option<string>, platform: Platform)
    returns (r: Option<ValidityTimeResult>)
    requires platform.calendar.Total()
    requires CachesValid(v.availableConditions, platform.parseLogic)
    modifies v.availableConditions.Values
    ensures CachesValid(v.availableConditions, platform.parseLogic)
    ensures r == TimeOutcome(v, time, ruleId, ruleCertificateType, platform)
  {
    if time.conditions.Some? && time.conditions.value != [] {
      r := FirstFulfilledTime(v, time, time.conditions.value, ruleId, ruleCertificateType, platform);
    } else {
      var date := EvaluateValidTimeString(v, time.value, platform);
      if date.Some? {
        r := Some(ValidityTimeResult(time.DateByModifying(platform.calendar, platform.parseIso, date.value), time.Format(), None));
      } else {
        r := None;
      }
    }
  }

  /** The loop of `validateTime` over the AND groups of the time's guard. */
  method FirstFulfilledTime(v: CertificateValidator, time: ValidityTime, groups: seq<AndConditionGroup>, ruleId: string,
                            ruleCertificateType: Option<string>, platform: Platform)
    returns (r: Option<ValidityTimeResult>)
    requires platform.calendar.Total()
    requires CachesValid(v.availableConditions, platform.parseLogic)
    modifies v.availableConditions.Values
    ensures CachesValid(v.availableConditions, platform.parseLogic)
    ensures r == TimeInGroups(v, time, groups, ruleId, ruleCertificateType, platform)
  {
    for i := 0 to |groups|
      invariant CachesValid(v.availableConditions, platform.parseLogic)
      invariant TimeInGroups(v, time, groups[i..], ruleId, ruleCertificateType, platform) ==
        TimeInGroups(v, time, groups, ruleId, ruleCertificateType, platform)
    {
      var evaluations := EvaluateConditions(v, groups[i], ruleId, ruleCertificateType, platform);
      assert evaluations == Outcomes(v, groups[i], ruleId, ruleCertificateType, platform);
      if AllFulfilled(evaluations) {
        var date := EvaluateValidTimeString(v, time.value, platform);
        if date.Some? {
          return Some(ValidityTimeResult(time.DateByModifying(platform.calendar, platform.parseIso, date.value), time.Format(), Some(groups[i])));
        }
      }
      assert groups[i..][1..] == groups[i + 1..];
    }
    r := None;
  }

  /** The comparator of `validateTimes`: `isBefore` when ascending, `isAfter` when descending. */
  predicate InIncreasingOrder(a: ValidityTimeResult, b: ValidityTimeResult, ascending: bool)
  {
    if ascending then IsBefore(a.time, b.time) else IsAfter(a.time, b.time)
  }

  /** No result comes before one that the comparator puts ahead of it. */
  predicate SortedTimes(results: seq<ValidityTimeResult>, ascending: bool)
  {
    forall i, j :: 0 <= i < j < |results| ==> !InIncreasingOrder(results[j], results[i], ascending)
  }

  /** A result put into a sorted list, after those the comparator puts ahead of it. */
  function InsertTime(x: ValidityTimeResult, results: seq<ValidityTimeResult>, ascending: bool): (r: seq<ValidityTimeResult>)
    requires SortedTimes(results, ascending)
    ensures SortedTimes(r, ascending)
    ensures multiset(r) == multiset(results) + multiset{x}
    decreases |results|
  {
    if results == [] then [x]
    else if InIncreasingOrder(results[0], x, ascending) then
      var rest := InsertTime(x, results[1..], ascending);
      HeadStaysAhead(x, results, rest, ascending);
      assert results == [results[0]] + results[1..];
      [results[0]] + rest
    else
      NothingAheadOf(x, results, ascending);
      [x] + results
  }

  /** The head of a sorted list that goes ahead of `x` stays ahead of the tail with `x` put in. */
  lemma HeadStaysAhead(x: ValidityTimeResult, results: seq<ValidityTimeResult>, rest: seq<ValidityTimeResult>, ascending: bool)
    requires SortedTimes(results, ascending) && results != []
    requires InIncreasingOrder(results[0], x, ascending)
    requires SortedTimes(rest, ascending)
    requires multiset(rest) == multiset(results[1..]) + multiset{x}
    ensures SortedTimes([results[0]] + rest, ascending)
  {
    forall y | y in rest
      ensures !InIncreasingOrder(y, results[0], ascending)
    {
      assert y in multiset(rest);
      if y != x {
        assert y in results[1..];
        var k :| 0 <= k < |results[1..]| && results[1..][k] == y;
        assert results[k + 1] == y;
      }
    }
    SortedCons(results[0], rest, ascending);
  }

  /** When the head of a sorted list does not go ahead of `x`, nothing in it does. */
  lemma NothingAheadOf(x: ValidityTimeResult, results: seq<ValidityTimeResult>, ascending: bool)
    requires SortedTimes(results, ascending) && results != []
    requires !InIncreasingOrder(results[0], x, ascending)
    ensures SortedTimes([x] + results, ascending)
  {
    forall y | y in results
      ensures !InIncreasingOrder(y, x, ascending)
    {
      var k :| 0 <= k < |results| && results[k] == y;
      if k > 0 {
        assert !InIncreasingOrder(results[k], results[0], ascending);
      }
    }
    SortedCons(x, results, ascending);
  }

  /** A result that nothing in a sorted list goes ahead of can be put before it. */
  lemma SortedCons(x: ValidityTimeResult, results: seq<ValidityTimeResult>, ascending: bool)
    requires SortedTimes(results, ascending)
    requires forall y :: y in results ==> !InIncreasingOrder(y, x, ascending)
    ensures SortedTimes([x] + results, ascending)
  {
    var r := [x] + results;
    forall i, j | 0 <= i < j < |r|
      ensures !InIncreasingOrder(r[j], r[i], ascending)
    {
      assert r[j] == results[j - 1];
      if i > 0 {
        assert r[i] == results[i - 1];
      } else {
        assert r[j] in results;
      }
    }
  }

  /** `sorted(by:)` with that comparator: sorted, and the same results. */
  function SortTimes(results: seq<ValidityTimeResult>, ascending: bool): (r: seq<ValidityTimeResult>)
    ensures SortedTimes(r, ascending)
    ensures multiset(r) == multiset(results)
    decreases |results|
  {
    if results == [] then []
    else
      assert results == [results[0]] + results[1..];
      InsertTime(results[0], SortTimes(results[1..], ascending), ascending)
  }

  /** The results of the times that yield one, in order. */
  function CollectTimes(v: CertificateValidator, times: seq<ValidityTime>, ruleId: string,
                        ruleCertificateType: Option<string>, platform: Platform): (r: seq<ValidityTimeResult>)
    requires platform.calendar.Total()
    ensures |r| <= |times|
    decreases |times|
  {
    if times == [] then []
    else
      var init := CollectTimes(v, times[..|times| - 1], ruleId, ruleCertificateType, platform);
      match TimeOutcome(v, times[|times| - 1], ruleId, ruleCertificateType, platform)
      case Some(x) => init + [x]
      case None => init
  }

  /** Every collected result is the result of one of the times. */
  lemma {:induction false} CollectTimesMembers(v: CertificateValidator, times: seq<ValidityTime>, ruleId: string,
                                               ruleCertificateType: Option<string>, platform: Platform)
    requires platform.calendar.Total()
    ensures forall x :: x in CollectTimes(v, times, ruleId, ruleCertificateType, platform) ==>
      exists k :: 0 <= k < |times| && TimeOutcome(v, times[k], ruleId, ruleCertificateType, platform) == Some(x)
    decreases |times|
  {
    if times != [] {
      var init := times[..|times| - 1];
      CollectTimesMembers(v, init, ruleId, ruleCertificateType, platform);
      forall x | x in CollectTimes(v, times, ruleId, ruleCertificateType, platform)
        ensures exists k :: 0 <= k < |times| && TimeOutcome(v, times[k], ruleId, ruleCertificateType, platform) == Some(x)
      {
        if x in CollectTimes(v, init, ruleId, ruleCertificateType, platform) {
          var k :| 0 <= k < |init| && TimeOutcome(v, init[k], ruleId, ruleCertificateType, platform) == Some(x);
          assert init[k] == times[k];
        } else {
          assert TimeOutcome(v, times[|times| - 1], ruleId, ruleCertificateType, platform) == Some(x);
        }
      }
    }
  }

  /** One time contributes its result if it has one, and nothing otherwise. */
  lemma CollectTimesSingle(v: CertificateValidator, t: ValidityTime, ruleId: string,
                           ruleCertificateType: Option<string>, platform: Platform)
    requires platform.calendar.Total()
    ensures CollectTimes(v, [t], ruleId, ruleCertificateType, platform) ==
      (match TimeOutcome(v, t, ruleId, ruleCertificateType, platform)
       case Some(x) => [x]
       case None => [])
  {
    assert [t][..0] == [];
  }

  /** Collecting over a non-empty list is collecting over all but the last time, then over the last. */
  lemma CollectTimesSnoc(v: CertificateValidator, times: seq<ValidityTime>, ruleId: string,
                         ruleCertificateType: Option<string>, platform: Platform)
    requires platform.calendar.Total()
    requires times != []
    ensures CollectTimes(v, times, ruleId, ruleCertificateType, platform) ==
      CollectTimes(v, times[..|times| - 1], ruleId, ruleCertificateType, platform) +
      CollectTimes(v, [times[|times| - 1]], ruleId, ruleCertificateType, platform)
  {
    CollectTimesSingle(v, times[|times| - 1], ruleId, ruleCertificateType, platform);
  }

  /** Collecting over a concatenation collects each part, in order. */
  lemma {:induction false} CollectTimesAppend(v: CertificateValidator, s: seq<ValidityTime>, t: seq<ValidityTime>, ruleId: string,
                                              ruleCertificateType: Option<string>, platform: Platform)
    requires platform.calendar.Total()
    ensures CollectTimes(v, s + t, ruleId, ruleCertificateType, platform) ==
      CollectTimes(v, s, ruleId, ruleCertificateType, platform) + CollectTimes(v, t, ruleId, ruleCertificateType, platform)
    decreases |t|
  {
    if t == [] {
      assert s + t == s;
    } else {
      var u := s + t;
      var last := t[|t| - 1];
      assert u[..|u| - 1] == s + t[..|t| - 1] && u[|u| - 1] == last;
      CollectTimesSnoc(v, u, ruleId, ruleCertificateType, platform);
      CollectTimesSnoc(v, t, ruleId, ruleCertificateType, platform);
      CollectTimesAppend(v, s, t[..|t| - 1], ruleId, ruleCertificateType, platform);
    }
  }

  /** Every time that yields a result contributes it, between the results of the times before and after it. */
  lemma CollectTimesComplete(v: CertificateValidator, times: seq<ValidityTime>, k: nat, ruleId: string,
                             ruleCertificateType: Option<string>, platform: Platform)
    requires platform.calendar.Total()
    requires k < |times| && TimeOutcome(v, times[k], ruleId, ruleCertificateType, platform).Some?
    ensures CollectTimes(v, times, ruleId, ruleCertificateType, platform) ==
      CollectTimes(v, times[..k], ruleId, ruleCertificateType, platform) +
      [TimeOutcome(v, times[k], ruleId, ruleCertificateType, platform).value] +
      CollectTimes(v, times[k + 1..], ruleId, ruleCertificateType, platform)
  {
    var before, after := times[..k], times[k + 1..];
    assert times == before + ([times[k]] + after);
    CollectTimesAppend(v, before, [times[k]] + after, ruleId, ruleCertificateType, platform);
    CollectTimesAppend(v, [times[k]], after, ruleId, ruleCertificateType, platform);
    CollectTimesSingle(v, times[k], ruleId, ruleCertificateType, platform);
    var left := CollectTimes(v, before, ruleId, ruleCertificateType, platform);
    var right := CollectTimes(v, after, ruleId, ruleCertificateType, platform);
    var x := TimeOutcome(v, times[k], ruleId, ruleCertificateType, platform).value;
    assert left + ([x] + right) == left + [x] + right;
  }

  /** Every time that yields a result has it collected. */
  lemma CollectTimesContains(v: CertificateValidator, times: seq<ValidityTime>, k: nat, ruleId: string,
                             ruleCertificateType: Option<string>, platform: Platform)
    requires platform.calendar.Total()
    requires k < |times| && TimeOutcome(v, times[k], ruleId, ruleCertificateType, platform).Some?
    ensures TimeOutcome(v, times[k], ruleId, ruleCertificateType, platform).value in
      CollectTimes(v, times, ruleId, ruleCertificateType, platform)
  {
    CollectTimesComplete(v, times, k, ruleId, ruleCertificateType, platform);
    var left := CollectTimes(v, times[..k], ruleId, ruleCertificateType, platform);
    var x := TimeOutcome(v, times[k], ruleId, ruleCertificateType, platform).value;
    assert (left + [x] + CollectTimes(v, times[k + 1..], ruleId, ruleCertificateType, platform))[|left|] == x;
  }


  /**
   * `validateTimes`: nothing without times; otherwise the results of the
   * times that yield one, sorted earliest first (`ascending`) or latest
   * first.
   */
  function TimesOutcome(v: CertificateValidator, times: Option<seq<ValidityTime>>, ruleId: string,
                        ruleCertificateType: Option<string>, platform: Platform, ascending: bool): (r: seq<ValidityTimeResult>)
    requires platform.calendar.Total()
    ensures times.None? ==> r == []
    ensures SortedTimes(r, ascending)
    ensures times.Some? ==> multiset(r) == multiset(CollectTimes(v, times.value, ruleId, ruleCertificateType, platform))
  {
    match times
    case None => []
    case Some(ts) => SortTimes(CollectTimes(v, ts, ruleId, ruleCertificateType, platform), ascending)
  }

  /** The loop of `validateTimes`, then the sort. */
  method ValidateTimes(v: CertificateValidator, times: Option<seq<ValidityTime>>, ruleId: string,
                       ruleCertificateType: Option<string>, platform: Platform, sortAscending: bool)
    returns (r: seq<ValidityTimeResult>)
    requires platform.calendar.Total()
    requires CachesValid(v.availableConditions, platform.parseLogic)
    modifies v.availableConditions.Values
    ensures CachesValid(v.availableConditions, platform.parseLogic)
    ensures r == TimesOutcome(v, times, ruleId, ruleCertificateType, platform, sortAscending)
  {
    if times.None? {
      return [];
    }
    var ts := times.value;
    var validityTimes: seq<ValidityTimeResult> := [];
    for i := 0 to |ts|
      invariant CachesValid(v.availableConditions, platform.parseLogic)
      invariant validityTimes == CollectTimes(v, ts[..i], ruleId, ruleCertificateType, platform)
    {
      var validationResult := ValidateTime(v, ts[i], ruleId, ruleCertificateType, platform);
      assert ts[..i + 1][..i] == ts[..i];
      if validationResult.Some? {
        validityTimes := validityTimes + [validationResult.value];
      }
    }
    assert ts[..|ts|] == ts;
    r := SortTimes(validityTimes, sortAscending);
  }

  // ----- Rules -----

  /** The fields of a `BusinessRuleValidator`. */
  datatype BusinessRuleValidator = BusinessRuleValidator(
    businessRules: BusinessRuleContainer,
    valueSets: map<string, seq<string>>,
    validationClock: Instant,
    externalConditionEvaluator: Option<ExternalConditionEvaluator>,
    externalConditionEvaluationStrategy: ExternalConditionEvaluationStrategy)

  /**
   * What an evaluation yields: an optional result, or `DelegationTooDeep`
   * when the chain of `equalToProfile` delegations is longer than the
   * fuel allows.
   */
  datatype Evaluation = Evaluated(result: Option<ValidationResult>) | DelegationTooDeep

  /** What one rule does in the loop over the rules: skip to the next one, or end the loop. */
  datatype RuleDecision = NextRule | Decided(evaluation: Evaluation)

  /** A valid result names the region asked for and lists its times in the promised order. */
  predicate WellFormedValid(e: Evaluation, region: string)
  {
    e.Evaluated? && e.result.Some? && e.result.value.Valid? ==>
      e.result.value.result.region == region &&
      SortedTimes(e.result.value.result.validFrom, true) &&
      SortedTimes(e.result.value.result.validUntil, false)
  }

  /** The four gates of the loop: schema version, validity at the clock, region, certificate type. */
  predicate PassesGates(br: BusinessRuleValidator, v: CertificateValidator, rule: BusinessRule, region: string, platform: Platform)
  {
    rule.IsCompatibleToSupportedSchemaVersion(SupportedSchemaVersion) &&
    rule.IsValid(br.validationClock, platform.parseIso) &&
    rule.IsApplicableForRegion(region) &&
    (rule.CertificateType(platform.fold).None? || rule.CertificateType(platform.fold).value == v.certificateType)
  }

  /** A target group matches when its OR group evaluates to all fulfilled. */
  predicate TargetGroupMatches(v: CertificateValidator, group: TargetGroup, ruleId: string,
                               ruleCertificateType: Option<string>, platform: Platform)
  {
    AllFulfilled(OrGroupOutcome(v, Some(group), ruleId, ruleCertificateType, platform))
  }

  /** The name of the first entry, in iteration order, whose value `matches`. */
  function FirstMatching<T>(entries: seq<(string, T)>, matches: T -> bool): (r: Option<string>)
    ensures r.None? <==> forall k :: 0 <= k < |entries| ==> !matches(entries[k].1)
    ensures r.Some? ==>
      exists k :: 0 <= k < |entries| && entries[k].0 == r.value && matches(entries[k].1) &&
        forall j :: 0 <= j < k ==> !matches(entries[j].1)
    decreases |entries|
  {
    if entries == [] then None
    else if matches(entries[0].1) then Some(entries[0].0)
    else
      var r := FirstMatching(entries[1..], matches);
      assert forall k :: 0 <= k < |entries| - 1 ==> entries[1..][k] == entries[k + 1];
      if r.Some? then
        var k :| 0 <= k < |entries| - 1 && entries[1..][k].0 == r.value && matches(entries[1..][k].1) &&
          forall j :: 0 <= j < k ==> !matches(entries[1..][j].1);
        assert entries[k + 1].0 == r.value && matches(entries[k + 1].1);
        r
      else r
  }

  /** One step of the search: the entry at `i` is taken when it matches, and skipped otherwise. */
  lemma FirstMatchingFrom<T>(entries: seq<(string, T)>, matches: T -> bool, i: nat)
    requires i < |entries|
    ensures FirstMatching(entries[i..], matches) ==
      if matches(entries[i].1) then Some(entries[i].0) else FirstMatching(entries[i + 1..], matches)
  {
    assert entries[i..][1..] == entries[i + 1..];
  }

  /** The name of the first target group, in iteration order, that matches. */
  function FirstMatchingGroup(v: CertificateValidator, groups: seq<(string, TargetGroup)>, ruleId: string,
                              ruleCertificateType: Option<string>, platform: Platform): (r: Option<string>)
  {
    FirstMatching(groups, group => TargetGroupMatches(v, group, ruleId, ruleCertificateType, platform))
  }

  /** The search of `evaluateCertificateWithValidator` finds the first target group that matches, if any. */
  lemma FirstMatchingGroupIsFirst(v: CertificateValidator, groups: seq<(string, TargetGroup)>, ruleId: string,
                                  ruleCertificateType: Option<string>, platform: Platform)
    ensures FirstMatchingGroup(v, groups, ruleId, ruleCertificateType, platform).None? <==>
      forall k :: 0 <= k < |groups| ==> !TargetGroupMatches(v, groups[k].1, ruleId, ruleCertificateType, platform)
    ensures FirstMatchingGroup(v, groups, ruleId, ruleCertificateType, platform).Some? ==>
      exists k :: 0 <= k < |groups| && groups[k].0 == FirstMatchingGroup(v, groups, ruleId, ruleCertificateType, platform).value &&
        TargetGroupMatches(v, groups[k].1, ruleId, ruleCertificateType, platform) &&
        forall j :: 0 <= j < k ==> !TargetGroupMatches(v, groups[j].1, ruleId, ruleCertificateType, platform)
  {
  }

  /** `evaluateCertificateWithValidator(validator:forRegion:profile:group:)`: the rules in order, until one decides. */
  function ValidatorOutcome(br: BusinessRuleValidator, v: CertificateValidator, region: string, profile: string,
                            group: Option<string>, fuel: nat, platform: Platform): (e: Evaluation)
    requires platform.calendar.Total()
    ensures WellFormedValid(e, region)
    decreases fuel, 3, 0
  {
    RulesOutcome(br, v, region, profile, group, br.businessRules.rules, fuel, platform)
  }

  /** The loop over `rules`: the first decision, or no result when every rule is skipped. */
  function RulesOutcome(br: BusinessRuleValidator, v: CertificateValidator, region: string, profile: string,
                        group: Option<string>, rules: seq<BusinessRule>, fuel: nat, platform: Platform): (e: Evaluation)
    requires platform.calendar.Total()
    ensures WellFormedValid(e, region)
    decreases fuel, 2, |rules|
  {
    if rules == [] then Evaluated(None)
    else
      match DecideRule(br, v, region, profile, group, rules[0], fuel, platform)
      case NextRule => RulesOutcome(br, v, region, profile, group, rules[1..], fuel, platform)
      case Decided(e) => e
  }

  /**
   * One turn of the loop. A rule that fails a gate, or whose certificate
   * type conditions are not all fulfilled, is skipped. Failed general
   * conditions give an error, violated ones an invalid result. Then the
   * rule set for the profile decides, chosen by target group when the rule
   * has groups and the profile's rule sets are not just `all`; a missing
   * rule set or group gives no result.
   */
  function DecideRule(br: BusinessRuleValidator, v: CertificateValidator, region: string, profile: string,
                      group: Option<string>, rule: BusinessRule, fuel: nat, platform: Platform): (d: RuleDecision)
    requires platform.calendar.Total()
    ensures d.Decided? ==> WellFormedValid(d.evaluation, region)
    decreases fuel, 1, 0
  {
    if !PassesGates(br, v, rule, region, platform) then NextRule
    else if !GroupFulfilled(v, rule.certificateTypeConditions, rule.id, rule.certificateTypeString, platform) then NextRule
    else
      var general := Outcomes(v, rule.generalConditions.GetOr([]), rule.id, rule.certificateTypeString, platform);
      if !AllFulfilled(general) && FailedConditions(general) != [] then
        Decided(Evaluated(Some(Error(FailedConditions(general)))))
      else if !AllFulfilled(general) && ViolationsOf(general) != [] then
        Decided(Evaluated(Some(Invalid(ViolationsOf(general)))))
      else Decided(SelectedRuleSetOutcome(br, v, region, profile, group, rule, fuel, platform))
  }

  /**
   * The rule set a profile's rule sets offer for a rule: the one of the
   * target group (the given group, or else the first group that matches)
   * when the rule has groups and the profile's rule sets are not just
   * `all`, otherwise the one under `all`.
   */
  function ChosenRuleSet(v: CertificateValidator, group: Option<string>, rule: BusinessRule,
                         profileRuleSet: ProfileRuleSet, platform: Platform): (r: Option<RuleSet>)
    ensures !(rule.UsesTargetGroups() && profileRuleSet.Keys() != ["all"]) ==> r == profileRuleSet.Get("all")
    ensures rule.UsesTargetGroups() && profileRuleSet.Keys() != ["all"] && group.Some? ==> r == profileRuleSet.Get(group.value)
    ensures r.Some? ==> r.value in profileRuleSet.Values()
  {
    if rule.UsesTargetGroups() && profileRuleSet.Keys() != ["all"] then
      var matchingGroup :=
        if group.Some? then group
        else FirstMatchingGroup(v, rule.targetGroupsByGroupId.value.entries, rule.id, rule.certificateTypeString, platform);
      if matchingGroup.None? then None else profileRuleSet.Get(matchingGroup.value)
    else profileRuleSet.Get("all")
  }

  /**
   * The end of a turn that no condition stopped: the rule set chosen for
   * the profile decides; a missing rule set or group gives no result.
   */
  function SelectedRuleSetOutcome(br: BusinessRuleValidator, v: CertificateValidator, region: string, profile: string,
                                  group: Option<string>, rule: BusinessRule, fuel: nat, platform: Platform): (e: Evaluation)
    requires platform.calendar.Total()
    ensures WellFormedValid(e, region)
    ensures rule.ruleSetsByProfileId.Get(profile).None? ==> e == Evaluated(None)
    decreases fuel, 0, 1
  {
    match rule.ruleSetsByProfileId.Get(profile)
    case None => Evaluated(None)
    case Some(profileRuleSet) =>
      match ChosenRuleSet(v, group, rule, profileRuleSet, platform)
      case None => Evaluated(None)
      case Some(ruleSet) => RuleSetOutcome(br, v, region, profile, ruleSet, rule.id, rule.certificateTypeString, fuel, platform)
  }

  /**
   * `validateRuleSet`. A delegation evaluates the other profile (without a
   * group); a valid answer there, with bundles here, is re-issued for this
   * profile with this rule set's times where it has them; anything else is
   * passed on as it is. Otherwise the invalid marker gives an invalid
   * result without violations, and the guard decides: fulfilled gives a
   * valid result with this rule set's times and bundles, anything else an
   * invalid result with the guard's violations.
   */
  function RuleSetOutcome(br: BusinessRuleValidator, v: CertificateValidator, region: string, profile: string,
                          ruleSet: RuleSet, ruleId: string, ruleCertificateType: Option<string>, fuel: nat,
                          platform: Platform): (e: Evaluation)
    requires platform.calendar.Total()
    ensures WellFormedValid(e, region)
    ensures e.DelegationTooDeep? ==> ruleSet.equalToProfile.Some?
    decreases fuel, 0, 0
  {
    match ruleSet.equalToProfile
    case Some(equalToProfile) =>
      if fuel == 0 then DelegationTooDeep
      else
        var result := ValidatorOutcome(br, v, region, equalToProfile, None, fuel - 1, platform);
        DelegatedOutcome(v, region, profile, ruleSet, ruleId, ruleCertificateType, result, platform)
    case None => GuardedOutcome(v, region, profile, ruleSet, ruleId, ruleCertificateType, platform)
  }

  /**
   * The delegation half of `validateRuleSet`: what the other profile gave,
   * re-issued for this profile when it is valid and this rule set has
   * bundles, passed on as it is otherwise.
   */
  function DelegatedOutcome(v: CertificateValidator, region: string, profile: string, ruleSet: RuleSet, ruleId: string,
                            ruleCertificateType: Option<string>, result: Evaluation, platform: Platform): (e: Evaluation)
    requires platform.calendar.Total()
    ensures WellFormedValid(result, region) ==> WellFormedValid(e, region)
    ensures e.DelegationTooDeep? <==> result.DelegationTooDeep?
  {
    var linked := LinkedConditionsForRuleSet(v, ruleSet, ruleId, ruleCertificateType, platform);
    if result.Evaluated? && result.result.Some? && result.result.value.Valid? && linked.Some? then
      var validationResult := result.result.value.result;
      var validFrom :=
        if ruleSet.validFrom.Some? then TimesOutcome(v, ruleSet.validFrom, ruleId, ruleCertificateType, platform, true)
        else validationResult.validFrom;
      var validUntil :=
        if ruleSet.validUntil.Some? then TimesOutcome(v, ruleSet.validUntil, ruleId, ruleCertificateType, platform, false)
        else validationResult.validUntil;
      Evaluated(Some(Valid(BusinessRuleValidationResult(profile, region, validFrom, validUntil, linked.value.0, linked.value.1))))
    else result
  }

  /**
   * The half of `validateRuleSet` without delegation: the invalid marker,
   * then the guard.
   */
  function GuardedOutcome(v: CertificateValidator, region: string, profile: string, ruleSet: RuleSet, ruleId: string,
                          ruleCertificateType: Option<string>, platform: Platform): (e: Evaluation)
    requires platform.calendar.Total()
    ensures e.Evaluated? && WellFormedValid(e, region)
  {
    if ruleSet.invalid == Some(true) then Evaluated(Some(Invalid([])))
    else
      var result := OrGroupOutcome(v, ruleSet.conditions, ruleId, ruleCertificateType, platform);
      if |result| > 0 && result[0].IsFulfilled() then
        var linked := LinkedConditionsForRuleSet(v, ruleSet, ruleId, ruleCertificateType, platform);
        var validFrom := TimesOutcome(v, ruleSet.validFrom, ruleId, ruleCertificateType, platform, true);
        var validUntil := TimesOutcome(v, ruleSet.validUntil, ruleId, ruleCertificateType, platform, false);
        match linked
        case Some((fulfilled, failed)) =>
          Evaluated(Some(Valid(BusinessRuleValidationResult(profile, region, validFrom, validUntil, fulfilled, failed))))
        case None =>
          Evaluated(Some(Valid(BusinessRuleValidationResult(profile, region, validFrom, validUntil, [], []))))
      else if result == [] then Evaluated(None)
      else Evaluated(Some(Invalid(ViolationsOf(result))))
  }


  /** The search over `targetGroupsByGroupId` for the first group whose OR group is all fulfilled. */
  method FindMatchingGroup(v: CertificateValidator, groups: seq<(string, TargetGroup)>, ruleId: string,
                           ruleCertificateType: Option<string>, platform: Platform)
    returns (matchingGroup: Option<string>)
    requires CachesValid(v.availableConditions, platform.parseLogic)
    modifies v.availableConditions.Values
    ensures CachesValid(v.availableConditions, platform.parseLogic)
    ensures matchingGroup == FirstMatchingGroup(v, groups, ruleId, ruleCertificateType, platform)
  {
    ghost var matches := group => TargetGroupMatches(v, group, ruleId, ruleCertificateType, platform);
    ghost var first := FirstMatching(groups, matches);
    matchingGroup := None;
    for i := 0 to |groups|
      invariant CachesValid(v.availableConditions, platform.parseLogic)
      invariant FirstMatching(groups[i..], matches) == first
    {
      FirstMatchingFrom(groups, matches, i);
      var (groupName, group) := groups[i];
      var results := ValidateConditionsInOrGroup(v, Some(group), ruleId, ruleCertificateType, platform);
      if AllFulfilled(results) {
        assert matches(group);
        return Some(groupName);
      }
      assert !matches(group);
    }
  }

  /** `evaluateCertificateWithValidator(validator:forRegion:profile:group:)`: the loop over the rules. */
  method EvaluateCertificateWithValidator(br: BusinessRuleValidator, v: CertificateValidator, region: string,
                                          profile: string, group: Option<string>, fuel: nat, platform: Platform)
    returns (e: Evaluation)
    requires platform.calendar.Total()
    requires CachesValid(v.availableConditions, platform.parseLogic)
    modifies v.availableConditions.Values
    ensures CachesValid(v.availableConditions, platform.parseLogic)
    ensures e == ValidatorOutcome(br, v, region, profile, group, fuel, platform)
    decreases fuel, 3
  {
    var rules := br.businessRules.rules;
    for i := 0 to |rules|
      invariant CachesValid(v.availableConditions, platform.parseLogic)
      invariant RulesOutcome(br, v, region, profile, group, rules[i..], fuel, platform) ==
                RulesOutcome(br, v, region, profile, group, rules, fuel, platform)
    {
      assert rules[i..][0] == rules[i] && rules[i..][1..] == rules[i + 1..];
      var decision := ApplyRule(br, v, region, profile, group, rules[i], fuel, platform);
      if decision.Decided? {
        return decision.evaluation;
      }
    }
    return Evaluated(None);
  }

  /** One turn of the loop over the rules; `NextRule` stands for `continue`. */
  method ApplyRule(br: BusinessRuleValidator, v: CertificateValidator, region: string, profile: string,
                   group: Option<string>, businessRule: BusinessRule, fuel: nat, platform: Platform)
    returns (d: RuleDecision)
    requires platform.calendar.Total()
    requires CachesValid(v.availableConditions, platform.parseLogic)
    modifies v.availableConditions.Values
    ensures CachesValid(v.availableConditions, platform.parseLogic)
    ensures d == DecideRule(br, v, region, profile, group, businessRule, fuel, platform)
    decreases fuel, 2, 1
  {
    if !businessRule.IsCompatibleToSupportedSchemaVersion(SupportedSchemaVersion) {
      return NextRule;
    }
    if !businessRule.IsValid(br.validationClock, platform.parseIso) {
      return NextRule;
    }
    if !businessRule.IsApplicableForRegion(region) {
      return NextRule;
    }
    var ruleType := businessRule.CertificateType(platform.fold);
    if ruleType.Some? && v.certificateType != ruleType.value {
      return NextRule;
    }
    var certificateTypeConditions := EvaluateConditions(v, businessRule.certificateTypeConditions, businessRule.id,
                                                        businessRule.certificateTypeString, platform);
    assert certificateTypeConditions == Outcomes(v, businessRule.certificateTypeConditions, businessRule.id,
                                                 businessRule.certificateTypeString, platform);
    if !AllFulfilled(certificateTypeConditions) {
      return NextRule;
    }
    d := ApplyGeneralConditions(br, v, region, profile, group, businessRule, fuel, platform);
  }

  /** The rest of a turn, once the rule has passed its gates and certificate type conditions. */
  method ApplyGeneralConditions(br: BusinessRuleValidator, v: CertificateValidator, region: string, profile: string,
                                group: Option<string>, businessRule: BusinessRule, fuel: nat, platform: Platform)
    returns (d: RuleDecision)
    requires platform.calendar.Total()
    requires CachesValid(v.availableConditions, platform.parseLogic)
    requires PassesGates(br, v, businessRule, region, platform)
    requires GroupFulfilled(v, businessRule.certificateTypeConditions, businessRule.id, businessRule.certificateTypeString, platform)
    modifies v.availableConditions.Values
    ensures CachesValid(v.availableConditions, platform.parseLogic)
    ensures d == DecideRule(br, v, region, profile, group, businessRule, fuel, platform)
    decreases fuel, 2, 0
  {
    var evaluatedGeneralConditions := EvaluateConditions(v, businessRule.generalConditions.GetOr([]), businessRule.id,
                                                         businessRule.certificateTypeString, platform);
    assert evaluatedGeneralConditions == Outcomes(v, businessRule.generalConditions.GetOr([]), businessRule.id,
                                                  businessRule.certificateTypeString, platform);
    if !AllFulfilled(evaluatedGeneralConditions) {
      var failed := FailedConditions(evaluatedGeneralConditions);
      if |failed| > 0 {
        return Decided(Evaluated(Some(Error(failed))));
      }
      var violations := ViolationsOf(evaluatedGeneralConditions);
      if |violations| > 0 {
        return Decided(Evaluated(Some(Invalid(violations))));
      }
    }
    var e := ValidateSelectedRuleSet(br, v, region, profile, group, businessRule, fuel, platform);
    return Decided(e);
  }

  /** The choice between the target group's rule set and the one under `all`. */
  method ChooseRuleSet(v: CertificateValidator, group: Option<string>, businessRule: BusinessRule,
                       rulesetForProfile: ProfileRuleSet, platform: Platform)
    returns (r: Option<RuleSet>)
    requires CachesValid(v.availableConditions, platform.parseLogic)
    modifies v.availableConditions.Values
    ensures CachesValid(v.availableConditions, platform.parseLogic)
    ensures r == ChosenRuleSet(v, group, businessRule, rulesetForProfile, platform)
  {
    var keys := rulesetForProfile.Keys();
    if businessRule.UsesTargetGroups() && !(|keys| > 0 && keys[0] == "all" && |keys| == 1) {
      assert keys != ["all"];
      var matchingGroup := group;
      if group.None? {
        matchingGroup := FindMatchingGroup(v, businessRule.targetGroupsByGroupId.value.entries, businessRule.id,
                                           businessRule.certificateTypeString, platform);
      }
      if matchingGroup.None? {
        return None;
      }
      r := rulesetForProfile.Get(matchingGroup.value);
    } else {
      r := rulesetForProfile.Get("all");
    }
  }

  /** The rule set chosen for the profile (and target group), validated. */
  method ValidateSelectedRuleSet(br: BusinessRuleValidator, v: CertificateValidator, region: string, profile: string,
                                 group: Option<string>, businessRule: BusinessRule, fuel: nat, platform: Platform)
    returns (e: Evaluation)
    requires platform.calendar.Total()
    requires CachesValid(v.availableConditions, platform.parseLogic)
    modifies v.availableConditions.Values
    ensures CachesValid(v.availableConditions, platform.parseLogic)
    ensures e == SelectedRuleSetOutcome(br, v, region, profile, group, businessRule, fuel, platform)
    decreases fuel, 1
  {
    var rulesetForProfile := businessRule.ruleSetsByProfileId.Get(profile);
    if rulesetForProfile.None? {
      return Evaluated(None);
    }
    var ruleSet := ChooseRuleSet(v, group, businessRule, rulesetForProfile.value, platform);
    if ruleSet.None? {
      return Evaluated(None);
    }
    e := ValidateRuleSet(br, v, region, profile, ruleSet.value, businessRule.id,
                         businessRule.certificateTypeString, fuel, platform);
  }

  /** `validateRuleSet`. */
  method ValidateRuleSet(br: BusinessRuleValidator, v: CertificateValidator, region: string, profile: string,
                         ruleSet: RuleSet, ruleId: string, ruleCertificateType: Option<string>, fuel: nat,
                         platform: Platform)
    returns (e: Evaluation)
    requires platform.calendar.Total()
    requires CachesValid(v.availableConditions, platform.parseLogic)
    modifies v.availableConditions.Values
    ensures CachesValid(v.availableConditions, platform.parseLogic)
    ensures e == RuleSetOutcome(br, v, region, profile, ruleSet, ruleId, ruleCertificateType, fuel, platform)
    decreases fuel, 0
  {
    if ruleSet.equalToProfile.Some? {
      if fuel == 0 {
        return DelegationTooDeep;
      }
      var result := EvaluateCertificateWithValidator(br, v, region, ruleSet.equalToProfile.value, None, fuel - 1, platform);
      e := ReissueDelegated(v, region, profile, ruleSet, ruleId, ruleCertificateType, result, platform);
    } else {
      e := ValidateGuardedRuleSet(v, region, profile, ruleSet, ruleId, ruleCertificateType, platform);
    }
  }

  /** The delegation half of `validateRuleSet`, once the other profile has been evaluated. */
  method ReissueDelegated(v: CertificateValidator, region: string, profile: string, ruleSet: RuleSet, ruleId: string,
                          ruleCertificateType: Option<string>, result: Evaluation, platform: Platform)
    returns (e: Evaluation)
    requires platform.calendar.Total()
    requires CachesValid(v.availableConditions, platform.parseLogic)
    modifies v.availableConditions.Values
    ensures CachesValid(v.availableConditions, platform.parseLogic)
    ensures e == DelegatedOutcome(v, region, profile, ruleSet, ruleId, ruleCertificateType, result, platform)
  {
    if result.Evaluated? && result.result.Some? && result.result.value.Valid? {
      var linkedConditionsValidation := ValidateLinkedConditionsForRuleSet(v, ruleSet, ruleId, ruleCertificateType, platform);
      if linkedConditionsValidation.Some? {
        var validationResult := result.result.value.result;
        var validFrom := validationResult.validFrom;
        var validUntil := validationResult.validUntil;
        if ruleSet.validFrom.Some? {
          validFrom := ValidateTimes(v, ruleSet.validFrom, ruleId, ruleCertificateType, platform, true);
        }
        if ruleSet.validUntil.Some? {
          validUntil := ValidateTimes(v, ruleSet.validUntil, ruleId, ruleCertificateType, platform, false);
        }
        return Evaluated(Some(Valid(BusinessRuleValidationResult(profile, region, validFrom, validUntil,
          linkedConditionsValidation.value.0, linkedConditionsValidation.value.1))));
      }
    }
    return result;
  }

  /** The half of `validateRuleSet` without delegation. */
  method ValidateGuardedRuleSet(v: CertificateValidator, region: string, profile: string, ruleSet: RuleSet,
                                ruleId: string, ruleCertificateType: Option<string>, platform: Platform)
    returns (e: Evaluation)
    requires platform.calendar.Total()
    requires CachesValid(v.availableConditions, platform.parseLogic)
    modifies v.availableConditions.Values
    ensures CachesValid(v.availableConditions, platform.parseLogic)
    ensures e == GuardedOutcome(v, region, profile, ruleSet, ruleId, ruleCertificateType, platform)
  {
    if ruleSet.invalid == Some(true) {
      return Evaluated(Some(Invalid([])));
    }
    var result := ValidateConditionsInOrGroup(v, ruleSet.conditions, ruleId, ruleCertificateType, platform);
    if |result| > 0 && result[0].IsFulfilled() {
      var linkedConditionsValidation := ValidateLinkedConditionsForRuleSet(v, ruleSet, ruleId, ruleCertificateType, platform);
      var validFrom := ValidateTimes(v, ruleSet.validFrom, ruleId, ruleCertificateType, platform, true);
      var validUntil := ValidateTimes(v, ruleSet.validUntil, ruleId, ruleCertificateType, platform, false);
      if linkedConditionsValidation.Some? {
        return Evaluated(Some(Valid(BusinessRuleValidationResult(profile, region, validFrom, validUntil,
          linkedConditionsValidation.value.0, linkedConditionsValidation.value.1))));
      } else {
        return Evaluated(Some(Valid(BusinessRuleValidationResult(profile, region, validFrom, validUntil, [], []))));
      }
    } else if |result| == 0 {
      return Evaluated(None);
    } else {
      return Evaluated(Some(Invalid(ViolationsOf(result))));
    }
  }


  // ----- Properties of the rule evaluation -----

  /**
   * A rule ends the loop exactly when it passes the gates and its
   * certificate type conditions are all fulfilled. Then any failed general
   * condition makes the outcome an error naming them; otherwise any
   * violated one makes it invalid with every violation, in order; and
   * with neither, the rule set chosen for the profile decides.
   */
  lemma RuleDecidesPastItsGates(br: BusinessRuleValidator, v: CertificateValidator, region: string, profile: string,
                                group: Option<string>, rule: BusinessRule, fuel: nat, platform: Platform)
    requires platform.calendar.Total()
    ensures DecideRule(br, v, region, profile, group, rule, fuel, platform).Decided? <==>
      PassesGates(br, v, rule, region, platform) &&
      GroupFulfilled(v, rule.certificateTypeConditions, rule.id, rule.certificateTypeString, platform)
    ensures var failed := FailedConditions(Outcomes(v, rule.generalConditions.GetOr([]), rule.id, rule.certificateTypeString, platform));
      DecideRule(br, v, region, profile, group, rule, fuel, platform).Decided? && failed != [] ==>
        DecideRule(br, v, region, profile, group, rule, fuel, platform).evaluation == Evaluated(Some(Error(failed)))
    ensures var general := Outcomes(v, rule.generalConditions.GetOr([]), rule.id, rule.certificateTypeString, platform);
      DecideRule(br, v, region, profile, group, rule, fuel, platform).Decided? &&
      FailedConditions(general) == [] && ViolationsOf(general) != [] ==>
        DecideRule(br, v, region, profile, group, rule, fuel, platform).evaluation == Evaluated(Some(Invalid(ViolationsOf(general))))
    ensures var general := Outcomes(v, rule.generalConditions.GetOr([]), rule.id, rule.certificateTypeString, platform);
      DecideRule(br, v, region, profile, group, rule, fuel, platform).Decided? &&
      FailedConditions(general) == [] && ViolationsOf(general) == [] ==>
        DecideRule(br, v, region, profile, group, rule, fuel, platform).evaluation ==
        SelectedRuleSetOutcome(br, v, region, profile, group, rule, fuel, platform)
  {
    var general := Outcomes(v, rule.generalConditions.GetOr([]), rule.id, rule.certificateTypeString, platform);
    if FailedConditions(general) != [] {
      FailedConditionsMembers(general);
      var n := FailedConditions(general)[0];
      assert n in FailedConditions(general);
      assert !AllFulfilled(general);
    } else if ViolationsOf(general) != [] {
      ViolationsOfMembers(general);
      var w := ViolationsOf(general)[0];
      assert w in ViolationsOf(general);
      assert !AllFulfilled(general);
    } else if !AllFulfilled(general) {
      NotFulfilledHasCause(general);
    }
  }

  /**
   * A rule set that does not delegate always yields a result, never an
   * error: invalid without violations when it is marked invalid; otherwise
   * valid for this profile exactly when its guard is fulfilled, with no
   * bundles when it has none, and else invalid with the guard's
   * violations in order (failed names dropped).
   */
  lemma RuleSetWithoutDelegationDecides(br: BusinessRuleValidator, v: CertificateValidator, region: string, profile: string,
                                        ruleSet: RuleSet, ruleId: string, ruleCertificateType: Option<string>, fuel: nat,
                                        platform: Platform)
    requires platform.calendar.Total()
    requires ruleSet.equalToProfile.None?
    ensures var e := RuleSetOutcome(br, v, region, profile, ruleSet, ruleId, ruleCertificateType, fuel, platform);
      e.Evaluated? && e.result.Some? && !e.result.value.Error?
    ensures var e := RuleSetOutcome(br, v, region, profile, ruleSet, ruleId, ruleCertificateType, fuel, platform);
      e.result.value.Valid? <==>
        ruleSet.invalid != Some(true) && OrGroupOutcome(v, ruleSet.conditions, ruleId, ruleCertificateType, platform) == [Fulfilled]
    ensures var e := RuleSetOutcome(br, v, region, profile, ruleSet, ruleId, ruleCertificateType, fuel, platform);
      e.result.value.Valid? ==>
        e.result.value.result.profile == profile &&
        (LinkedConditionsForRuleSet(v, ruleSet, ruleId, ruleCertificateType, platform).None? ==>
          e.result.value.result.matchingLinkedConditions == [] && e.result.value.result.violatedOrFailedLinkedConditions == [])
    ensures ruleSet.invalid == Some(true) ==>
      RuleSetOutcome(br, v, region, profile, ruleSet, ruleId, ruleCertificateType, fuel, platform) == Evaluated(Some(Invalid([])))
    ensures var guard := OrGroupOutcome(v, ruleSet.conditions, ruleId, ruleCertificateType, platform);
      ruleSet.invalid != Some(true) && guard != [Fulfilled] ==>
        RuleSetOutcome(br, v, region, profile, ruleSet, ruleId, ruleCertificateType, fuel, platform) ==
        Evaluated(Some(Invalid(ViolationsOf(guard))))
  {
  }

  /** Rules that are all skipped can be dropped from the front of the loop. */
  lemma SkippedPrefixIsIrrelevant(br: BusinessRuleValidator, v: CertificateValidator, region: string,
                                  profile: string, group: Option<string>, rules: seq<BusinessRule>,
                                  k: int, fuel: nat, platform: Platform)
    requires platform.calendar.Total()
    requires 0 <= k <= |rules|
    requires forall j :: 0 <= j < k ==> DecideRule(br, v, region, profile, group, rules[j], fuel, platform).NextRule?
    ensures RulesOutcome(br, v, region, profile, group, rules, fuel, platform) ==
            RulesOutcome(br, v, region, profile, group, rules[k..], fuel, platform)
  {
    for j := 0 to k
      invariant RulesOutcome(br, v, region, profile, group, rules, fuel, platform) ==
                RulesOutcome(br, v, region, profile, group, rules[j..], fuel, platform)
    {
      assert rules[j..][0] == rules[j];
      assert rules[j..][1..] == rules[j + 1..];
    }
  }

  /**
   * The loop over the rules yields what the first rule that passes its
   * gates and certificate type conditions decides.
   */
  lemma FirstDecidingRuleDecides(br: BusinessRuleValidator, v: CertificateValidator, region: string,
                                 profile: string, group: Option<string>, rules: seq<BusinessRule>,
                                 k: int, fuel: nat, platform: Platform)
    requires platform.calendar.Total()
    requires 0 <= k < |rules|
    requires forall j :: 0 <= j < k ==> DecideRule(br, v, region, profile, group, rules[j], fuel, platform).NextRule?
    requires DecideRule(br, v, region, profile, group, rules[k], fuel, platform).Decided?
    ensures RulesOutcome(br, v, region, profile, group, rules, fuel, platform) ==
            DecideRule(br, v, region, profile, group, rules[k], fuel, platform).evaluation
  {
    SkippedPrefixIsIrrelevant(br, v, region, profile, group, rules, k, fuel, platform);
    assert rules[k..][0] == rules[k];
  }

  /** When no rule gets past its gates and certificate type conditions, there is no result. */
  lemma NoDecidingRuleNoResult(br: BusinessRuleValidator, v: CertificateValidator, region: string,
                               profile: string, group: Option<string>, rules: seq<BusinessRule>,
                               fuel: nat, platform: Platform)
    requires platform.calendar.Total()
    requires forall j :: 0 <= j < |rules| ==> DecideRule(br, v, region, profile, group, rules[j], fuel, platform).NextRule?
    ensures RulesOutcome(br, v, region, profile, group, rules, fuel, platform) == Evaluated(None)
  {
    SkippedPrefixIsIrrelevant(br, v, region, profile, group, rules, |rules|, fuel, platform);
    assert rules[|rules|..] == [];
  }

  /** Removing a rule that is skipped does not change the outcome. */
  lemma {:induction false} SkippedRuleIsIrrelevant(br: BusinessRuleValidator, v: CertificateValidator, region: string,
                                                   profile: string, group: Option<string>, rules: seq<BusinessRule>,
                                                   k: int, fuel: nat, platform: Platform)
    requires platform.calendar.Total()
    requires 0 <= k < |rules|
    requires DecideRule(br, v, region, profile, group, rules[k], fuel, platform).NextRule?
    ensures RulesOutcome(br, v, region, profile, group, rules[..k] + rules[k + 1..], fuel, platform) ==
            RulesOutcome(br, v, region, profile, group, rules, fuel, platform)
    decreases k
  {
    if k == 0 {
      assert rules[..0] + rules[1..] == rules[1..];
    } else {
      var shorter := rules[..k] + rules[k + 1..];
      assert shorter[0] == rules[0];
      assert shorter[1..] == rules[1..][..k - 1] + rules[1..][k..];
      SkippedRuleIsIrrelevant(br, v, region, profile, group, rules[1..], k - 1, fuel, platform);
    }
  }

  /**
   * A delegating rule set ignores its own guard and invalid marker: only
   * the delegated profile, the bundles and the times count.
   */
  lemma DelegationIgnoresOwnGuard(br: BusinessRuleValidator, v: CertificateValidator, region: string, profile: string,
                                  ruleSet: RuleSet, conditions: Option<OrConditionGroup>, invalid: Option<bool>,
                                  ruleId: string, ruleCertificateType: Option<string>, fuel: nat, platform: Platform)
    requires platform.calendar.Total()
    requires ruleSet.equalToProfile.Some?
    ensures RuleSetOutcome(br, v, region, profile, ruleSet.(conditions := conditions, invalid := invalid), ruleId, ruleCertificateType, fuel, platform) ==
            RuleSetOutcome(br, v, region, profile, ruleSet, ruleId, ruleCertificateType, fuel, platform)
  {
    var other := ruleSet.(conditions := conditions, invalid := invalid);
    assert LinkedConditionsForRuleSet(v, other, ruleId, ruleCertificateType, platform) ==
           LinkedConditionsForRuleSet(v, ruleSet, ruleId, ruleCertificateType, platform);
  }

  /**
   * A delegation passes the other profile's outcome on unchanged when this
   * rule set has no bundles (a valid result keeping the other profile's
   * name and times), and whenever that outcome is not a valid result.
   */
  lemma DelegationPassesOnVerbatim(br: BusinessRuleValidator, v: CertificateValidator, region: string, profile: string,
                                   ruleSet: RuleSet, ruleId: string, ruleCertificateType: Option<string>,
                                   fuel: nat, platform: Platform)
    requires platform.calendar.Total()
    requires ruleSet.equalToProfile.Some? && fuel > 0
    ensures ruleSet.linkedConditions.None? || ruleSet.linkedConditions == Some([]) ==>
      RuleSetOutcome(br, v, region, profile, ruleSet, ruleId, ruleCertificateType, fuel, platform) ==
      ValidatorOutcome(br, v, region, ruleSet.equalToProfile.value, None, fuel - 1, platform)
    ensures var d := ValidatorOutcome(br, v, region, ruleSet.equalToProfile.value, None, fuel - 1, platform);
      !(d.Evaluated? && d.result.Some? && d.result.value.Valid?) ==>
        RuleSetOutcome(br, v, region, profile, ruleSet, ruleId, ruleCertificateType, fuel, platform) == d
  {
  }

  /**
   * A guard that fails (rather than is violated) makes the rule set
   * invalid with no violations at all, not an error.
   */
  lemma FailedGuardIsInvalidWithoutViolations(br: BusinessRuleValidator, v: CertificateValidator, region: string,
                                              profile: string, ruleSet: RuleSet, ruleId: string,
                                              ruleCertificateType: Option<string>, fuel: nat, platform: Platform)
    requires platform.calendar.Total()
    requires ruleSet.equalToProfile.None? && ruleSet.invalid != Some(true)
    requires OrGroupOutcome(v, ruleSet.conditions, ruleId, ruleCertificateType, platform)[0].Failed?
    ensures RuleSetOutcome(br, v, region, profile, ruleSet, ruleId, ruleCertificateType, fuel, platform) ==
            Evaluated(Some(Invalid([])))
  {
    OrGroupOutcomeCauses(v, ruleSet.conditions, ruleId, ruleCertificateType, platform);
  }

  // More fuel never changes an outcome that did not run out of it.

  lemma {:induction false} MoreFuelValidator(br: BusinessRuleValidator, v: CertificateValidator, region: string,
                                             profile: string, group: Option<string>, fuel: nat, platform: Platform)
    requires platform.calendar.Total()
    requires ValidatorOutcome(br, v, region, profile, group, fuel, platform).Evaluated?
    ensures ValidatorOutcome(br, v, region, profile, group, fuel + 1, platform) ==
            ValidatorOutcome(br, v, region, profile, group, fuel, platform)
    decreases fuel, 3, 0
  {
    MoreFuelRules(br, v, region, profile, group, br.businessRules.rules, fuel, platform);
  }

  lemma {:induction false} MoreFuelRules(br: BusinessRuleValidator, v: CertificateValidator, region: string,
                                         profile: string, group: Option<string>, rules: seq<BusinessRule>,
                                         fuel: nat, platform: Platform)
    requires platform.calendar.Total()
    requires RulesOutcome(br, v, region, profile, group, rules, fuel, platform).Evaluated?
    ensures RulesOutcome(br, v, region, profile, group, rules, fuel + 1, platform) ==
            RulesOutcome(br, v, region, profile, group, rules, fuel, platform)
    decreases fuel, 2, |rules|
  {
    if rules != [] {
      var d := DecideRule(br, v, region, profile, group, rules[0], fuel, platform);
      if d.NextRule? {
        assert DecideRule(br, v, region, profile, group, rules[0], fuel + 1, platform).NextRule?;
        MoreFuelRules(br, v, region, profile, group, rules[1..], fuel, platform);
      } else {
        MoreFuelDecide(br, v, region, profile, group, rules[0], fuel, platform);
      }
    }
  }

  lemma {:induction false} MoreFuelDecide(br: BusinessRuleValidator, v: CertificateValidator, region: string,
                                          profile: string, group: Option<string>, rule: BusinessRule,
                                          fuel: nat, platform: Platform)
    requires platform.calendar.Total()
    requires DecideRule(br, v, region, profile, group, rule, fuel, platform).Decided?
    requires DecideRule(br, v, region, profile, group, rule, fuel, platform).evaluation.Evaluated?
    ensures DecideRule(br, v, region, profile, group, rule, fuel + 1, platform) ==
            DecideRule(br, v, region, profile, group, rule, fuel, platform)
    decreases fuel, 1, 0
  {
    var general := Outcomes(v, rule.generalConditions.GetOr([]), rule.id, rule.certificateTypeString, platform);
    if AllFulfilled(general) || (FailedConditions(general) == [] && ViolationsOf(general) == []) {
      MoreFuelSelected(br, v, region, profile, group, rule, fuel, platform);
    }
  }

  lemma {:induction false} MoreFuelSelected(br: BusinessRuleValidator, v: CertificateValidator, region: string,
                                            profile: string, group: Option<string>, rule: BusinessRule,
                                            fuel: nat, platform: Platform)
    requires platform.calendar.Total()
    requires SelectedRuleSetOutcome(br, v, region, profile, group, rule, fuel, platform).Evaluated?
    ensures SelectedRuleSetOutcome(br, v, region, profile, group, rule, fuel + 1, platform) ==
            SelectedRuleSetOutcome(br, v, region, profile, group, rule, fuel, platform)
    decreases fuel, 0, 1
  {
    var profileRuleSet := rule.ruleSetsByProfileId.Get(profile);
    if profileRuleSet.Some? {
      var ruleSet := ChosenRuleSet(v, group, rule, profileRuleSet.value, platform);
      if ruleSet.Some? {
        MoreFuelRuleSet(br, v, region, profile, ruleSet.value, rule.id, rule.certificateTypeString, fuel, platform);
      }
    }
  }

  lemma {:induction false} MoreFuelRuleSet(br: BusinessRuleValidator, v: CertificateValidator, region: string,
                                           profile: string, ruleSet: RuleSet, ruleId: string,
                                           ruleCertificateType: Option<string>, fuel: nat, platform: Platform)
    requires platform.calendar.Total()
    requires RuleSetOutcome(br, v, region, profile, ruleSet, ruleId, ruleCertificateType, fuel, platform).Evaluated?
    ensures RuleSetOutcome(br, v, region, profile, ruleSet, ruleId, ruleCertificateType, fuel + 1, platform) ==
            RuleSetOutcome(br, v, region, profile, ruleSet, ruleId, ruleCertificateType, fuel, platform)
    decreases fuel, 0, 0
  {
    if ruleSet.equalToProfile.Some? {
      var delegated := ValidatorOutcome(br, v, region, ruleSet.equalToProfile.value, None, fuel - 1, platform);
      if delegated.Evaluated? {
        MoreFuelValidator(br, v, region, ruleSet.equalToProfile.value, None, fuel - 1, platform);
      }
    }
  }

  /** Once an evaluation stops running out of fuel, any larger fuel gives the same outcome. */
  lemma {:induction false} FuelBeyondNeedIsIrrelevant(br: BusinessRuleValidator, v: CertificateValidator, region: string,
                                                      profile: string, fuel: nat, more: nat, platform: Platform)
    requires platform.calendar.Total()
    requires fuel <= more
    requires ValidatorOutcome(br, v, region, profile, None, fuel, platform).Evaluated?
    ensures ValidatorOutcome(br, v, region, profile, None, more, platform) ==
            ValidatorOutcome(br, v, region, profile, None, fuel, platform)
    decreases more - fuel
  {
    if fuel < more {
      MoreFuelValidator(br, v, region, profile, None, fuel, platform);
      FuelBeyondNeedIsIrrelevant(br, v, region, profile, fuel + 1, more, platform);
    }
  }


  // ----- Entry points -----

  /** The certificate validator `evaluateCertificate` builds for one profile, sharing the document's conditions. */
  function ValidatorFor(br: BusinessRuleValidator, certificate: string, certificateType: CertificateType,
                        expiration: Instant, issue: Instant, country: string, region: string, profile: string,
                        platform: Platform): (v: CertificateValidator)
    ensures v.availableConditions == br.businessRules.conditions
    ensures v.region == region && v.profile == profile && v.certificateType == certificateType
    ensures v.externalConditionEvaluator == br.externalConditionEvaluator
    ensures v.externalConditionEvaluationStrategy == br.externalConditionEvaluationStrategy
  {
    NewCertificateValidator(certificate, certificateType, issue, expiration, country, br.valueSets, br.validationClock,
                            region, profile, br.businessRules.conditions, br.externalConditionEvaluator,
                            br.externalConditionEvaluationStrategy, platform)
  }

  /** `evaluateCertificate(_:certificateType:expiration:issue:country:region:profile:originalCertificateObject:)`. */
  function CertificateOutcome(br: BusinessRuleValidator, certificate: string, certificateType: CertificateType,
                              expiration: Instant, issue: Instant, country: string, region: string, profile: string,
                              fuel: nat, platform: Platform): (e: Evaluation)
    requires platform.calendar.Total()
    ensures WellFormedValid(e, region)
    ensures br.businessRules.rules == [] ==> e == Evaluated(None)
  {
    var v := ValidatorFor(br, certificate, certificateType, expiration, issue, country, region, profile, platform);
    assert br.businessRules.rules == [] ==> RulesOutcome(br, v, region, profile, None, [], fuel, platform) == Evaluated(None);
    ValidatorOutcome(br, v, region, profile, None, fuel, platform)
  }

  method EvaluateCertificate(br: BusinessRuleValidator, certificate: string, certificateType: CertificateType,
                             expiration: Instant, issue: Instant, country: string, region: string, profile: string,
                             fuel: nat, platform: Platform)
    returns (e: Evaluation)
    requires platform.calendar.Total()
    requires CachesValid(br.businessRules.conditions, platform.parseLogic)
    modifies br.businessRules.conditions.Values
    ensures CachesValid(br.businessRules.conditions, platform.parseLogic)
    ensures e == CertificateOutcome(br, certificate, certificateType, expiration, issue, country, region, profile, fuel, platform)
  {
    var validator := ValidatorFor(br, certificate, certificateType, expiration, issue, country, region, profile, platform);
    e := EvaluateCertificateWithValidator(br, validator, region, profile, None, fuel, platform);
  }

  /** The profiles asked for, or else the ids of all profiles of the document. */
  function ProfilesToEvaluate(br: BusinessRuleValidator, profiles: Option<seq<string>>): (r: seq<string>)
    ensures profiles.Some? ==> r == profiles.value
    ensures profiles.None? ==>
      |r| == |br.businessRules.profiles| && forall i :: 0 <= i < |r| ==> r[i] == br.businessRules.profiles[i].id
  {
    if profiles.Some? then profiles.value
    else seq(|br.businessRules.profiles|, i requires 0 <= i < |br.businessRules.profiles| => br.businessRules.profiles[i].id)
  }

  /**
   * `evaluateCertificate(_:certificateType:expiration:issue:country:region:profiles:originalCertificateObject:)`:
   * one entry per profile that yields a result; `tooDeep` names the
   * profiles whose delegations outran the fuel.
   */
  method EvaluateCertificateForProfiles(br: BusinessRuleValidator, certificate: string, certificateType: CertificateType,
                                        expiration: Instant, issue: Instant, country: string, region: string,
                                        profiles: Option<seq<string>>, fuel: nat, platform: Platform)
    returns (evaluationResults: map<string, ValidationResult>, tooDeep: set<string>)
    requires platform.calendar.Total()
    requires CachesValid(br.businessRules.conditions, platform.parseLogic)
    modifies br.businessRules.conditions.Values
    ensures CachesValid(br.businessRules.conditions, platform.parseLogic)
    ensures forall p :: p in evaluationResults <==>
      p in ProfilesToEvaluate(br, profiles) &&
      CertificateOutcome(br, certificate, certificateType, expiration, issue, country, region, p, fuel, platform).Evaluated? &&
      CertificateOutcome(br, certificate, certificateType, expiration, issue, country, region, p, fuel, platform).result.Some?
    ensures forall p :: p in evaluationResults ==>
      CertificateOutcome(br, certificate, certificateType, expiration, issue, country, region, p, fuel, platform) ==
      Evaluated(Some(evaluationResults[p]))
    ensures forall p :: p in tooDeep <==>
      p in ProfilesToEvaluate(br, profiles) &&
      CertificateOutcome(br, certificate, certificateType, expiration, issue, country, region, p, fuel, platform).DelegationTooDeep?
  {
    var profileList := ProfilesToEvaluate(br, profiles);
    evaluationResults, tooDeep := map[], {};
    for i := 0 to |profileList|
      invariant CachesValid(br.businessRules.conditions, platform.parseLogic)
      invariant forall p :: p in evaluationResults <==>
        p in profileList[..i] &&
        CertificateOutcome(br, certificate, certificateType, expiration, issue, country, region, p, fuel, platform).Evaluated? &&
        CertificateOutcome(br, certificate, certificateType, expiration, issue, country, region, p, fuel, platform).result.Some?
      invariant forall p :: p in evaluationResults ==>
        CertificateOutcome(br, certificate, certificateType, expiration, issue, country, region, p, fuel, platform) ==
        Evaluated(Some(evaluationResults[p]))
      invariant forall p :: p in tooDeep <==>
        p in profileList[..i] &&
        CertificateOutcome(br, certificate, certificateType, expiration, issue, country, region, p, fuel, platform).DelegationTooDeep?
    {
      var profile := profileList[i];
      assert profileList[..i + 1] == profileList[..i] + [profile];
      var result := EvaluateCertificate(br, certificate, certificateType, expiration, issue, country, region, profile, fuel, platform);
      if result.Evaluated? && result.result.Some? {
        evaluationResults := evaluationResults[profile := result.result.value];
      } else if result.DelegationTooDeep? {
        tooDeep := tooDeep + {profile};
      }
    }
    assert profileList[..|profileList|] == profileList;
  }
}
