/**
 * Rule sets, the per-profile map of rule sets by target-group key, the
 * declared profiles, and their lints.
 */
module RuleSets {
  import opened Wrappers
  import opened Dictionaries
  import opened Results
  import opened ConditionGroups
  import opened ValidityTimes
  import opened Sequences

  /** `RuleProfile`: a profile the document declares. */
  datatype RuleProfile = RuleProfile(id: string, localizedName: LocalizedValue, links: Option<map<string, string>>)

  /**
   * `RuleSet`: either a delegation to another profile (`equalToProfile`), an
   * invalid marker, or a guard with validity times and linked conditions.
   */
  datatype RuleSet = RuleSet(
    conditions: Option<OrConditionGroup>,
    validFrom: Option<seq<ValidityTime>>,
    validUntil: Option<seq<ValidityTime>>,
    invalid: Option<bool>,
    equalToProfile: Option<string>,
    linkedConditions: Option<seq<LinkedCondition>>)

  /** `RuleTargetGroup`: a target group is an OR group of conditions. */
  type TargetGroup = OrConditionGroup

  /** `ProfileRuleSet`: rule sets by target-group key, in iteration order. */
  type ProfileRuleSet = Dict<RuleSet>

  /** `availableProfiles.first(where: { $0.id == p }) != nil`. */
  predicate IsDeclaredProfile(p: string, profiles: seq<RuleProfile>)
  {
    exists i :: 0 <= i < |profiles| && profiles[i].id == p
  }

  /** Some bundle of `linked` names `c`. */
  ghost predicate LinkedMention(linked: seq<LinkedCondition>, c: string)
  {
    exists i :: 0 <= i < |linked| && c in linked[i].conditions
  }

  /** Some guard of `times` names `c`. */
  ghost predicate TimesMention(times: seq<ValidityTime>, c: string)
  {
    exists i :: 0 <= i < |times| && times[i].conditions.Some? && Mentions(times[i].conditions.value, c)
  }

  /** A condition name that occurs anywhere in the rule set. */
  ghost predicate RuleSetMentions(rs: RuleSet, c: string)
  {
    (rs.conditions.Some? && Mentions(rs.conditions.value, c)) ||
    (rs.linkedConditions.Some? && LinkedMention(rs.linkedConditions.value, c)) ||
    (rs.validFrom.Some? && TimesMention(rs.validFrom.value, c)) ||
    (rs.validUntil.Some? && TimesMention(rs.validUntil.value, c))
  }

  /** The linked bundles' lints, concatenated in order. */
  function LinkedConditionsLint(linked: seq<LinkedCondition>, available: Conditions): (errors: seq<SyntaxError>)
    ensures forall e :: e in errors ==> e.UnavailableCondition? && IsUndefined(e.conditionName, available)
    ensures forall c :: UnavailableCondition(c) in errors <==> IsUndefined(c, available) && LinkedMention(linked, c)
    decreases |linked|
  {
    if linked == [] then []
    else
      assert forall i :: 0 < i < |linked| ==> linked[i] == linked[1..][i - 1];
      LinkedConditionLint(linked[0], available) + LinkedConditionsLint(linked[1..], available)
  }

  /** The validity times' lints, concatenated in order. */
  function TimesLint(times: seq<ValidityTime>, available: Conditions): (errors: seq<SyntaxError>)
    ensures forall e :: e in errors ==> e.UnavailableCondition? && IsUndefined(e.conditionName, available)
    ensures forall c :: UnavailableCondition(c) in errors <==> IsUndefined(c, available) && TimesMention(times, c)
    decreases |times|
  {
    if times == [] then []
    else
      assert forall i :: 0 < i < |times| ==> times[i] == times[1..][i - 1];
      times[0].Validate(available) + TimesLint(times[1..], available)
  }

  /** The profile error of a rule set: one for a delegation to an undeclared profile. */
  function ProfileErrors(rs: RuleSet, profiles: seq<RuleProfile>): (errors: seq<SyntaxError>)
    ensures |errors| <= 1
    ensures forall e :: e in errors ==> e.UnavailableProfile? && Some(e.profile) == rs.equalToProfile
    ensures errors != [] <==> rs.equalToProfile.Some? && !IsDeclaredProfile(rs.equalToProfile.value, profiles)
  {
    if rs.equalToProfile.Some? && !IsDeclaredProfile(rs.equalToProfile.value, profiles)
    then [UnavailableProfile(rs.equalToProfile.value)]
    else []
  }

  /** Errors of the guard of a rule set. */
  function GuardErrors(rs: RuleSet, available: Conditions): (errors: seq<SyntaxError>)
    ensures forall e :: e in errors ==> e.UnavailableCondition?
    ensures forall c :: UnavailableCondition(c) in errors <==>
      IsUndefined(c, available) && rs.conditions.Some? && Mentions(rs.conditions.value, c)
  {
    match rs.conditions
    case Some(g) => OrGroupLint(g, available)
    case None => []
  }

  /** Errors of the linked conditions of a rule set. */
  function LinkedErrors(rs: RuleSet, available: Conditions): (errors: seq<SyntaxError>)
    ensures forall e :: e in errors ==> e.UnavailableCondition?
    ensures forall c :: UnavailableCondition(c) in errors <==>
      IsUndefined(c, available) && rs.linkedConditions.Some? && LinkedMention(rs.linkedConditions.value, c)
  {
    match rs.linkedConditions
    case Some(ls) => LinkedConditionsLint(ls, available)
    case None => []
  }

  /** Errors of an optional list of validity times. */
  function OptionalTimesLint(times: Option<seq<ValidityTime>>, available: Conditions): (errors: seq<SyntaxError>)
    ensures forall e :: e in errors ==> e.UnavailableCondition?
    ensures forall c :: UnavailableCondition(c) in errors <==>
      IsUndefined(c, available) && times.Some? && TimesMention(times.value, c)
  {
    match times
    case Some(ts) => TimesLint(ts, available)
    case None => []
  }

  /** A list without profile errors contains no `unavailableProfile`, so counts none. */
  lemma NoProfileErrorCounted(errors: seq<SyntaxError>, p: string)
    requires forall e :: e in errors ==> e.UnavailableCondition?
    ensures multiset(errors)[UnavailableProfile(p)] == 0
  {
    assert UnavailableProfile(p) !in errors;
  }

  /**
   * `RuleSet.validate`: guard errors, linked-condition errors, the profile
   * error, valid-from errors and valid-until errors, in that order.
   */
  function RuleSetLint(rs: RuleSet, available: Conditions, profiles: seq<RuleProfile>): (errors: seq<SyntaxError>)
    ensures forall e :: e in errors ==> e.UnavailableCondition? || e.UnavailableProfile?
  {
    GuardErrors(rs, available) + LinkedErrors(rs, available) + ProfileErrors(rs, profiles) +
    OptionalTimesLint(rs.validFrom, available) + OptionalTimesLint(rs.validUntil, available)
  }

  /**
   * The rule-set lint reports a condition name iff it is undefined, not
   * external, and named by the guard, a linked bundle or a time's guard.
   */
  lemma RuleSetLintReportsConditions(rs: RuleSet, available: Conditions, profiles: seq<RuleProfile>, c: string)
    ensures UnavailableCondition(c) in RuleSetLint(rs, available, profiles) <==> IsUndefined(c, available) && RuleSetMentions(rs, c)
  {
  }

  /**
   * The rule-set lint reports a profile iff the rule set delegates to it and
   * it is not declared, and then exactly once.
   */
  lemma RuleSetLintReportsProfile(rs: RuleSet, available: Conditions, profiles: seq<RuleProfile>, p: string)
    ensures UnavailableProfile(p) in RuleSetLint(rs, available, profiles) <==> rs.equalToProfile == Some(p) && !IsDeclaredProfile(p, profiles)
    ensures multiset(RuleSetLint(rs, available, profiles))[UnavailableProfile(p)] <= 1
  {
    NoProfileErrorCounted(GuardErrors(rs, available), p);
    NoProfileErrorCounted(LinkedErrors(rs, available), p);
    NoProfileErrorCounted(OptionalTimesLint(rs.validFrom, available), p);
    NoProfileErrorCounted(OptionalTimesLint(rs.validUntil, available), p);
  }

  /** A rule set with no optional part yields no errors. */
  lemma EmptyRuleSetIsClean(available: Conditions, profiles: seq<RuleProfile>)
    ensures RuleSetLint(RuleSet(None, None, None, None, None, None), available, profiles) == []
  {
  }

  /** `availableTargetGroups?[key] == nil`. */
  predicate IsUnavailableGroup(key: string, groups: Option<Dict<TargetGroup>>)
  {
    groups.None? || groups.value.Get(key).None?
  }

  /** One `unavailableTargetGroup` per key other than `all` that names no target group, in key order. */
  function TargetGroupKeyErrors(keys: seq<string>, groups: Option<Dict<TargetGroup>>): (errors: seq<SyntaxError>)
    ensures |errors| <= |keys|
    ensures forall e :: e in errors ==> e.UnavailableTargetGroup?
    ensures forall k :: UnavailableTargetGroup(k) in errors <==> k in keys && k != "all" && IsUnavailableGroup(k, groups)
    decreases |keys|
  {
    if keys == [] then []
    else
      var rest := TargetGroupKeyErrors(keys[1..], groups);
      assert forall k :: k in keys <==> k == keys[0] || k in keys[1..];
      if keys[0] != "all" && IsUnavailableGroup(keys[0], groups) then [UnavailableTargetGroup(keys[0])] + rest else rest
  }

  /** The lint of each rule set of `prs`, in key order. */
  function RuleSetLints(prs: ProfileRuleSet, available: Conditions, profiles: seq<RuleProfile>): (lints: seq<seq<SyntaxError>>)
    ensures |lints| == |prs.entries|
    ensures forall i :: 0 <= i < |prs.entries| ==> lints[i] == RuleSetLint(prs.entries[i].1, available, profiles)
  {
    seq(|prs.entries|, i requires 0 <= i < |prs.entries| => RuleSetLint(prs.entries[i].1, available, profiles))
  }

  /** Everything the rule-set lints of a profile report is an undefined condition or an undeclared profile. */
  lemma RuleSetLintsKinds(prs: ProfileRuleSet, available: Conditions, profiles: seq<RuleProfile>)
    ensures forall e :: e in Concat(RuleSetLints(prs, available, profiles)) ==> e.UnavailableCondition? || e.UnavailableProfile?
  {
    var lints := RuleSetLints(prs, available, profiles);
    forall e: SyntaxError | e in Concat(lints)
      ensures e.UnavailableCondition? || e.UnavailableProfile?
    {
      var i :| 0 <= i < |lints| && e in lints[i];
    }
  }

  /** Group-key errors appended after errors of other kinds come last, and are the only ones of their kind. */
  lemma TargetGroupErrorsLast(ruleSetErrors: seq<SyntaxError>, keyErrors: seq<SyntaxError>)
    requires forall e :: e in ruleSetErrors ==> e.UnavailableCondition? || e.UnavailableProfile?
    requires forall e :: e in keyErrors ==> e.UnavailableTargetGroup?
    ensures forall k :: UnavailableTargetGroup(k) in ruleSetErrors + keyErrors <==> UnavailableTargetGroup(k) in keyErrors
    ensures forall i, j :: 0 <= i < j < |ruleSetErrors + keyErrors| && (ruleSetErrors + keyErrors)[i].UnavailableTargetGroup? ==>
      (ruleSetErrors + keyErrors)[j].UnavailableTargetGroup?
  {
    var errors := ruleSetErrors + keyErrors;
    forall j | |ruleSetErrors| <= j < |errors|
      ensures errors[j].UnavailableTargetGroup?
    {
      assert errors[j] in keyErrors;
    }
    forall i | 0 <= i < |ruleSetErrors|
      ensures !errors[i].UnavailableTargetGroup?
    {
      assert errors[i] in ruleSetErrors;
    }
  }

  /** `ProfileRuleSet.validate`: the rule sets' lints, then the unknown group keys. */
  function ProfileRuleSetLint(prs: ProfileRuleSet, available: Conditions, profiles: seq<RuleProfile>, groups: Option<Dict<TargetGroup>>): (errors: seq<SyntaxError>)
    ensures forall k :: UnavailableTargetGroup(k) in errors <==> k in prs.Keys() && k != "all" && IsUnavailableGroup(k, groups)
    ensures forall i, j :: 0 <= i < j < |errors| && errors[i].UnavailableTargetGroup? ==> errors[j].UnavailableTargetGroup?
  {
    var ruleSetErrors := Concat(RuleSetLints(prs, available, profiles));
    var keyErrors := TargetGroupKeyErrors(prs.Keys(), groups);
    RuleSetLintsKinds(prs, available, profiles);
    TargetGroupErrorsLast(ruleSetErrors, keyErrors);
    ruleSetErrors + keyErrors
  }

  /** The profile lint reports only undefined conditions, undeclared profiles and unknown target groups. */
  lemma ProfileRuleSetLintKinds(prs: ProfileRuleSet, available: Conditions, profiles: seq<RuleProfile>, groups: Option<Dict<TargetGroup>>, e: SyntaxError)
    requires e in ProfileRuleSetLint(prs, available, profiles, groups)
    ensures e.UnavailableCondition? || e.UnavailableProfile? || e.UnavailableTargetGroup?
  {
    var lints := RuleSetLints(prs, available, profiles);
    if e in Concat(lints) {
      var i :| 0 <= i < |lints| && e in lints[i];
    } else {
      assert e in TargetGroupKeyErrors(prs.Keys(), groups);
    }
  }

  /** Every error of every rule set of the profile is reported. */
  lemma ProfileRuleSetLintIncludesRuleSets(prs: ProfileRuleSet, available: Conditions, profiles: seq<RuleProfile>, groups: Option<Dict<TargetGroup>>, i: int, e: SyntaxError)
    requires 0 <= i < |prs.entries| && e in RuleSetLint(prs.entries[i].1, available, profiles)
    ensures e in ProfileRuleSetLint(prs, available, profiles, groups)
  {
    var lints := RuleSetLints(prs, available, profiles);
    assert e in lints[i];
    assert e in Concat(lints);
  }

  /** Without target groups, every key except `all` is reported. */
  lemma NoTargetGroupsReportsEveryKey(prs: ProfileRuleSet, available: Conditions, profiles: seq<RuleProfile>, k: string)
    requires k in prs.Keys() && k != "all"
    ensures UnavailableTargetGroup(k) in ProfileRuleSetLint(prs, available, profiles, None)
  {
  }

  /** The key `all` is never reported, whatever the target groups. */
  lemma AllIsNeverAnUnknownGroup(prs: ProfileRuleSet, available: Conditions, profiles: seq<RuleProfile>, groups: Option<Dict<TargetGroup>>)
    ensures UnavailableTargetGroup("all") !in ProfileRuleSetLint(prs, available, profiles, groups)
  {
  }
}
