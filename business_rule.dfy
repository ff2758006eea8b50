/**
 * `BusinessRule`: one rule of the document, with its gates (schema
 * version, validity interval, regions, certificate type), its rule sets by
 * profile and target group, and its lint.
 */
module BusinessRules {
  import opened Wrappers
  import opened Dictionaries
  import opened Sequences
  import opened DateExtensions
  import opened ConditionGroups
  import opened RuleSets

  /** `BusinessRuleCertificateType`. */
  datatype CertificateType = Vaccination | Test | Recovery | VaccinationExemption

  /** The raw value of each certificate type. */
  function RawValue(t: CertificateType): string
  {
    match t
    case Vaccination => "vaccination"
    case Test => "test"
    case Recovery => "recovery"
    case VaccinationExemption => "vaccinationExemption"
  }

  /**
   * `caseInsensitiveCompare(_:) == .orderedSame`, given the case folding
   * Foundation applies (a parameter of the model).
   */
  predicate SameIgnoringCase(a: string, b: string, fold: string -> string)
  {
    fold(a) == fold(b)
  }

  /** `RegionCondition`: the `include` and `exclude` region lists; absent lists are empty. */
  datatype RegionCondition = RegionCondition(included: Option<seq<string>>, excluded: Option<seq<string>>)

  /** The schema version this validator supports. */
  const SupportedSchemaVersion: int := 1

  datatype BusinessRule = BusinessRule(
    id: string,
    schemaVersion: int,
    regionCondition: RegionCondition,
    certificateTypeString: Option<string>,
    certificateTypeConditions: AndConditionGroup,
    validFromString: Option<string>,
    validUntilString: Option<string>,
    generalConditions: Option<AndConditionGroup>,
    ruleSetsByProfileId: Dict<ProfileRuleSet>,
    targetGroupsByGroupId: Option<Dict<TargetGroup>>)
  {
    /**
     * `certificateType`: the first of vaccination, test, recovery and
     * vaccination exemption whose raw value matches ignoring case.
     */
    function CertificateType(fold: string -> string): (r: Option<CertificateType>)
      ensures certificateTypeString.None? ==> r.None?
      ensures r.Some? ==> SameIgnoringCase(certificateTypeString.value, RawValue(r.value), fold)
      ensures r.None? && certificateTypeString.Some? ==>
        forall t: CertificateType :: !SameIgnoringCase(certificateTypeString.value, RawValue(t), fold)
      ensures r == Some(Test) ==> !SameIgnoringCase(certificateTypeString.value, RawValue(Vaccination), fold)
      ensures r == Some(Recovery) ==>
        !SameIgnoringCase(certificateTypeString.value, RawValue(Vaccination), fold) &&
        !SameIgnoringCase(certificateTypeString.value, RawValue(Test), fold)
      ensures r == Some(VaccinationExemption) ==>
        forall t: CertificateType :: t != VaccinationExemption ==> !SameIgnoringCase(certificateTypeString.value, RawValue(t), fold)
    {
      match certificateTypeString
      case None => None
      case Some(s) =>
        if SameIgnoringCase(s, RawValue(Vaccination), fold) then Some(Vaccination)
        else if SameIgnoringCase(s, RawValue(Test), fold) then Some(Test)
        else if SameIgnoringCase(s, RawValue(Recovery), fold) then Some(Recovery)
        else if SameIgnoringCase(s, RawValue(VaccinationExemption), fold) then Some(VaccinationExemption)
        else None
    }

    /** `validFrom`: the ISO-8601 reading of the string; absent or unreadable means the distant past. */
    function ValidFrom(parseIso: string -> Option<Instant>): (r: Instant)
      ensures validFromString.None? ==> r == DistantPast
      ensures validFromString.Some? && parseIso(validFromString.value).None? ==> r == DistantPast
      ensures validFromString.Some? && parseIso(validFromString.value).Some? ==> r == parseIso(validFromString.value).value
    {
      match validFromString
      case None => DistantPast
      case Some(s) => parseIso(s).GetOr(DistantPast)
    }

    /** `validUntil`: the ISO-8601 reading of the string; absent or unreadable means the distant future. */
    function ValidUntil(parseIso: string -> Option<Instant>): (r: Instant)
      ensures validUntilString.None? ==> r == DistantFuture
      ensures validUntilString.Some? && parseIso(validUntilString.value).None? ==> r == DistantFuture
      ensures validUntilString.Some? && parseIso(validUntilString.value).Some? ==> r == parseIso(validUntilString.value).value
    {
      match validUntilString
      case None => DistantFuture
      case Some(s) => parseIso(s).GetOr(DistantFuture)
    }

    /** `isCompatibleToSupportedSchemaVersion(_:)`. */
    predicate IsCompatibleToSupportedSchemaVersion(supported: int)
    {
      schemaVersion <= supported
    }

    /** `isApplicableForRegion(_:)`. */
    predicate IsApplicableForRegion(region: string)
    {
      var included := regionCondition.included.GetOr([]);
      var excluded := regionCondition.excluded.GetOr([]);
      (region in included || "all" in included) && region !in excluded
    }

    /** `isValid(atValidationClock:)`. */
    predicate IsValid(clock: Instant, parseIso: string -> Option<Instant>)
    {
      IsBefore(ValidFrom(parseIso), clock) && IsAfter(ValidUntil(parseIso), clock)
    }

    /** `usesTargetGroups()`. */
    predicate UsesTargetGroups()
    {
      (match targetGroupsByGroupId case Some(groups) => |groups.entries| case None => 0) > 0
    }

    /**
     * `checkForNonLinkedRuleSetForProfile(_:group:)`: a delegation to
     * `profile` for target group `group` must land on an existing profile,
     * on an existing rule set of that profile for the same group, and that
     * rule set must not delegate again; the first failed check is reported.
     */
    function CheckForNonLinkedRuleSetForProfile(profile: string, group: string): (r: Option<SyntaxError>)
      ensures r == Some(UnknownLinkedProfile(profile)) <==> ruleSetsByProfileId.Get(profile).None?
      ensures r == Some(UnknownTargetGroupInLinkedProfile(profile, group)) <==>
        ruleSetsByProfileId.Get(profile).Some? && ruleSetsByProfileId.Get(profile).value.Get(group).None?
      ensures r == Some(UnallowedMultistepProfileChain(profile, group)) <==>
        ruleSetsByProfileId.Get(profile).Some? && ruleSetsByProfileId.Get(profile).value.Get(group).Some? &&
        ruleSetsByProfileId.Get(profile).value.Get(group).value.equalToProfile.Some?
      ensures r.None? <==>
        ruleSetsByProfileId.Get(profile).Some? && ruleSetsByProfileId.Get(profile).value.Get(group).Some? &&
        ruleSetsByProfileId.Get(profile).value.Get(group).value.equalToProfile.None?
    {
      match ruleSetsByProfileId.Get(profile)
      case None => Some(UnknownLinkedProfile(profile))
      case Some(prs) =>
        match prs.Get(group)
        case None => Some(UnknownTargetGroupInLinkedProfile(profile, group))
        case Some(ruleSet) =>
          if ruleSet.equalToProfile.Some? then Some(UnallowedMultistepProfileChain(profile, group)) else None
    }
  }

  /** A rule is valid strictly inside its interval; missing or unreadable bounds are the distant past and future. */
  lemma ValidityIsStrict(rule: BusinessRule, clock: Instant, parseIso: string -> Option<Instant>)
    ensures rule.IsValid(clock, parseIso) <==> rule.ValidFrom(parseIso) < clock < rule.ValidUntil(parseIso)
    ensures rule.ValidFrom(parseIso) == clock ==> !rule.IsValid(clock, parseIso)
    ensures rule.ValidUntil(parseIso) == clock ==> !rule.IsValid(clock, parseIso)
    ensures rule.validFromString.None? && rule.validUntilString.None? ==>
      (rule.IsValid(clock, parseIso) <==> DistantPast < clock < DistantFuture)
  {
  }

  /** The region gate: included by name or by `all`, and not excluded; absent lists are empty. */
  lemma RegionGate(rule: BusinessRule, region: string)
    ensures rule.regionCondition.included.None? ==> !rule.IsApplicableForRegion(region)
    ensures rule.regionCondition.excluded.Some? && region in rule.regionCondition.excluded.value ==> !rule.IsApplicableForRegion(region)
    ensures (rule.regionCondition.included.Some? && "all" in rule.regionCondition.included.value &&
      (rule.regionCondition.excluded.None? || region !in rule.regionCondition.excluded.value)) ==> rule.IsApplicableForRegion(region)
  {
  }

  /** A rule uses target groups iff it has a non-empty group dictionary. */
  lemma UsesTargetGroupsIff(rule: BusinessRule)
    ensures rule.UsesTargetGroups() <==> rule.targetGroupsByGroupId.Some? && rule.targetGroupsByGroupId.value.entries != []
  {
  }

  /** The certificate type is decided on the raw string only: a string matching no raw value has no type. */
  lemma CertificateTypeMatchesRawValue(rule: BusinessRule, fold: string -> string, t: CertificateType)
    requires rule.certificateTypeString == Some(RawValue(t))
    requires forall a, b :: fold(a) == fold(b) <==> a == b
    ensures rule.CertificateType(fold) == Some(t)
  {
  }

  // ----- Lint -----

  /** One `unavailableProfile` per profile key that no declared profile has, in key order. */
  function ProfileKeyErrors(keys: seq<string>, profiles: seq<RuleProfile>): (errors: seq<SyntaxError>)
    ensures |errors| <= |keys|
    ensures forall k :: 0 <= k < |errors| ==> errors[k].UnavailableProfile?
    ensures forall p :: UnavailableProfile(p) in errors <==> p in keys && !IsDeclaredProfile(p, profiles)
    decreases |keys|
  {
    if keys == [] then []
    else
      var rest := ProfileKeyErrors(keys[1..], profiles);
      assert forall p :: p in keys <==> p == keys[0] || p in keys[1..];
      if !IsDeclaredProfile(keys[0], profiles) then [UnavailableProfile(keys[0])] + rest else rest
  }

  /** The lint of each target group, in iteration order. */
  function TargetGroupLints(rule: BusinessRule, available: Conditions): (lints: seq<seq<SyntaxError>>)
    ensures rule.targetGroupsByGroupId.None? ==> lints == []
    ensures rule.targetGroupsByGroupId.Some? ==> |lints| == |rule.targetGroupsByGroupId.value.entries|
    ensures rule.targetGroupsByGroupId.Some? ==> forall i :: 0 <= i < |lints| ==>
      lints[i] == OrGroupLint(rule.targetGroupsByGroupId.value.entries[i].1, available)
  {
    match rule.targetGroupsByGroupId
    case None => []
    case Some(groups) =>
      seq(|groups.entries|, i requires 0 <= i < |groups.entries| => OrGroupLint(groups.entries[i].1, available))
  }

  /** The lint of each profile's rule sets, in iteration order, against the rule's target groups. */
  function ProfileRuleSetLints(rule: BusinessRule, available: Conditions, profiles: seq<RuleProfile>): (lints: seq<seq<SyntaxError>>)
    ensures |lints| == |rule.ruleSetsByProfileId.entries|
    ensures forall i :: 0 <= i < |lints| ==>
      lints[i] == ProfileRuleSetLint(rule.ruleSetsByProfileId.entries[i].1, available, profiles, rule.targetGroupsByGroupId)
  {
    var entries := rule.ruleSetsByProfileId.entries;
    seq(|entries|, i requires 0 <= i < |entries| => ProfileRuleSetLint(entries[i].1, available, profiles, rule.targetGroupsByGroupId))
  }

  /** The three errors of the delegation-chain check. */
  predicate IsChainError(e: SyntaxError)
  {
    e.UnknownLinkedProfile? || e.UnknownTargetGroupInLinkedProfile? || e.UnallowedMultistepProfileChain?
  }

  /** The chain error of one delegating rule set of group `group`, if any. */
  function ChainError(rule: BusinessRule, group: string, ruleSet: RuleSet): (errors: seq<SyntaxError>)
    ensures |errors| <= 1
    ensures forall e :: e in errors ==> IsChainError(e)
    ensures ruleSet.equalToProfile.None? ==> errors == []
    ensures ruleSet.equalToProfile.Some? ==>
      (errors == [] <==> rule.CheckForNonLinkedRuleSetForProfile(ruleSet.equalToProfile.value, group).None?)
  {
    match ruleSet.equalToProfile
    case None => []
    case Some(linked) =>
      match rule.CheckForNonLinkedRuleSetForProfile(linked, group)
      case None => []
      case Some(e) => [e]
  }

  /** The chain errors of the rule sets of one profile, in group order. */
  function GroupChainErrors(rule: BusinessRule, groups: seq<(string, RuleSet)>): seq<SyntaxError>
    decreases |groups|
  {
    if groups == [] then []
    else
      var last := groups[|groups| - 1];
      GroupChainErrors(rule, groups[..|groups| - 1]) + ChainError(rule, last.0, last.1)
  }

  /** The chain errors of all profiles, in profile order. */
  function ProfileChainErrors(rule: BusinessRule, profileEntries: seq<(string, ProfileRuleSet)>): seq<SyntaxError>
    decreases |profileEntries|
  {
    if profileEntries == [] then []
    else
      var last := profileEntries[|profileEntries| - 1];
      ProfileChainErrors(rule, profileEntries[..|profileEntries| - 1]) + GroupChainErrors(rule, last.1.entries)
  }

  /** `generalConditions?.validate(...) ?? []`. */
  function GeneralErrors(rule: BusinessRule, available: Conditions): (errors: seq<SyntaxError>)
    ensures rule.generalConditions.None? ==> errors == []
    ensures forall e :: e in errors ==> e.UnavailableCondition?
  {
    match rule.generalConditions
    case Some(g) => AndGroupLint(g, available)
    case None => []
  }

  /** The reserved-name error: one when the rule defines a target group called `all`. */
  function ReservedNameErrors(rule: BusinessRule): (errors: seq<SyntaxError>)
    ensures errors != [] <==> rule.targetGroupsByGroupId.Some? && "all" in rule.targetGroupsByGroupId.value.Keys()
    ensures forall e :: e in errors ==> e == ReservedTargetGroupName("all")
  {
    if rule.targetGroupsByGroupId.Some? && rule.targetGroupsByGroupId.value.Get("all").Some?
    then [ReservedTargetGroupName("all")] else []
  }

  /** The errors `validate` collects before it checks delegation chains. */
  function ReferenceErrors(rule: BusinessRule, available: Conditions, profiles: seq<RuleProfile>): seq<SyntaxError>
  {
    GeneralErrors(rule, available) +
    AndGroupLint(rule.certificateTypeConditions, available) +
    Concat(TargetGroupLints(rule, available)) +
    ReservedNameErrors(rule) +
    ProfileKeyErrors(rule.ruleSetsByProfileId.Keys(), profiles) +
    Concat(ProfileRuleSetLints(rule, available, profiles))
  }

  /**
   * What `BusinessRule.validate` reports: general-condition and
   * certificate-type-condition errors, target-group errors, the reserved
   * `all` group, undeclared profile keys, the profiles' rule-set errors,
   * and then one chain error per faulty delegation.
   */
  function BusinessRuleLint(rule: BusinessRule, available: Conditions, profiles: seq<RuleProfile>): seq<SyntaxError>
  {
    ReferenceErrors(rule, available, profiles) + ProfileChainErrors(rule, rule.ruleSetsByProfileId.entries)
  }

  /** The inner walk of the chain check: the rule sets of one profile, appending each chain error found. */
  method AppendGroupChainErrors(rule: BusinessRule, groups: seq<(string, RuleSet)>, errors0: seq<SyntaxError>) returns (errors: seq<SyntaxError>)
    ensures errors == errors0 + GroupChainErrors(rule, groups)
  {
    errors := errors0;
    var j := 0;
    while j < |groups|
      invariant 0 <= j <= |groups|
      invariant errors == errors0 + GroupChainErrors(rule, groups[..j])
    {
      var group := groups[j].0;
      var ruleSet := groups[j].1;
      assert groups[..j + 1][..j] == groups[..j];
      assert GroupChainErrors(rule, groups[..j + 1]) == GroupChainErrors(rule, groups[..j]) + ChainError(rule, group, ruleSet);
      if ruleSet.equalToProfile.Some? {
        var error := rule.CheckForNonLinkedRuleSetForProfile(ruleSet.equalToProfile.value, group);
        if error.Some? {
          errors := errors + [error.value];
        }
      }
      j := j + 1;
    }
    assert groups[..j] == groups;
  }

  /** The outer walk of the chain check: every profile of the rule, in iteration order. */
  method AppendChainErrors(rule: BusinessRule, errors0: seq<SyntaxError>) returns (errors: seq<SyntaxError>)
    ensures errors == errors0 + ProfileChainErrors(rule, rule.ruleSetsByProfileId.entries)
  {
    errors := errors0;
    var entries := rule.ruleSetsByProfileId.entries;
    var i := 0;
    while i < |entries|
      invariant 0 <= i <= |entries|
      invariant errors == errors0 + ProfileChainErrors(rule, entries[..i])
    {
      errors := AppendGroupChainErrors(rule, entries[i].1.entries, errors);
      assert entries[..i + 1][..i] == entries[..i];
      i := i + 1;
    }
    assert entries[..i] == entries;
  }

  /** The first part of `BusinessRule.validate`: the reference errors, appended part by part. */
  method AppendReferenceErrors(rule: BusinessRule, available: Conditions, profiles: seq<RuleProfile>) returns (errors: seq<SyntaxError>)
    ensures errors == ReferenceErrors(rule, available, profiles)
  {
    errors := [];
    var general := GeneralErrors(rule, available);
    errors := errors + general;
    assert errors == general;
    var certificateType := AndGroupLint(rule.certificateTypeConditions, available);
    errors := errors + certificateType;
    var targetGroups := Concat(TargetGroupLints(rule, available));
    errors := errors + targetGroups;
    var reserved := ReservedNameErrors(rule);
    errors := errors + reserved;
    var profileKeys := ProfileKeyErrors(rule.ruleSetsByProfileId.Keys(), profiles);
    errors := errors + profileKeys;
    var profileRuleSets := Concat(ProfileRuleSetLints(rule, available, profiles));
    errors := errors + profileRuleSets;
  }

  /** `BusinessRule.validate`: the reference errors, then the delegation-chain errors. */
  method ValidateBusinessRule(rule: BusinessRule, available: Conditions, profiles: seq<RuleProfile>) returns (errors: seq<SyntaxError>)
    ensures errors == BusinessRuleLint(rule, available, profiles)
  {
    errors := AppendReferenceErrors(rule, available, profiles);
    errors := AppendChainErrors(rule, errors);
  }

  // ----- Properties of the lint -----

  /** The chain errors of one profile are exactly the chain errors of its delegating rule sets. */
  lemma {:induction false} GroupChainErrorsMembers(rule: BusinessRule, groups: seq<(string, RuleSet)>, e: SyntaxError)
    ensures e in GroupChainErrors(rule, groups) <==>
      exists j :: 0 <= j < |groups| && e in ChainError(rule, groups[j].0, groups[j].1)
    decreases |groups|
  {
    if groups != [] {
      var init := groups[..|groups| - 1];
      GroupChainErrorsMembers(rule, init, e);
      assert forall j :: 0 <= j < |init| ==> init[j] == groups[j];
    }
  }

  /** The chain errors of a rule are exactly the chain errors of the delegating rule sets of all its profiles. */
  lemma {:induction false} ProfileChainErrorsMembers(rule: BusinessRule, profileEntries: seq<(string, ProfileRuleSet)>, e: SyntaxError)
    ensures e in ProfileChainErrors(rule, profileEntries) <==>
      exists i :: 0 <= i < |profileEntries| && e in GroupChainErrors(rule, profileEntries[i].1.entries)
    decreases |profileEntries|
  {
    if profileEntries != [] {
      var init := profileEntries[..|profileEntries| - 1];
      ProfileChainErrorsMembers(rule, init, e);
      assert forall i :: 0 <= i < |init| ==> init[i] == profileEntries[i];
    }
  }

  /** The target groups' lints report only undefined conditions. */
  lemma TargetGroupLintsKinds(rule: BusinessRule, available: Conditions, e: SyntaxError)
    requires e in Concat(TargetGroupLints(rule, available))
    ensures e.UnavailableCondition?
  {
    var lints := TargetGroupLints(rule, available);
    var i :| 0 <= i < |lints| && e in lints[i];
  }

  /** The profiles' lints report only undefined conditions, undeclared profiles and unknown target groups. */
  lemma ProfileRuleSetLintsKinds(rule: BusinessRule, available: Conditions, profiles: seq<RuleProfile>, e: SyntaxError)
    requires e in Concat(ProfileRuleSetLints(rule, available, profiles))
    ensures e.UnavailableCondition? || e.UnavailableProfile? || e.UnavailableTargetGroup?
  {
    var lints := ProfileRuleSetLints(rule, available, profiles);
    var i :| 0 <= i < |lints| && e in lints[i];
    ProfileRuleSetLintKinds(rule.ruleSetsByProfileId.entries[i].1, available, profiles, rule.targetGroupsByGroupId, e);
  }

  /** Neither a chain error nor a reserved-name error occurs in `errors`. */
  predicate NoChainOrReservedError(errors: seq<SyntaxError>)
  {
    forall e :: e in errors ==> !IsChainError(e) && !e.ReservedTargetGroupName?
  }

  /** Membership in a six-part concatenation is membership in one of its parts. */
  lemma InOneOfSix<T>(a: seq<T>, b: seq<T>, c: seq<T>, d: seq<T>, f: seq<T>, g: seq<T>, x: T)
    requires x in a + b + c + d + f + g
    ensures x in a || x in b || x in c || x in d || x in f || x in g
  {
  }

  lemma ConditionErrorsAreNotChainErrors(rule: BusinessRule, available: Conditions)
    ensures NoChainOrReservedError(GeneralErrors(rule, available))
    ensures NoChainOrReservedError(AndGroupLint(rule.certificateTypeConditions, available))
  {
  }

  lemma TargetGroupErrorsAreNotChainErrors(rule: BusinessRule, available: Conditions)
    ensures NoChainOrReservedError(Concat(TargetGroupLints(rule, available)))
  {
    forall e | e in Concat(TargetGroupLints(rule, available)) ensures !IsChainError(e) && !e.ReservedTargetGroupName? {
      TargetGroupLintsKinds(rule, available, e);
    }
  }

  lemma ProfileErrorsAreNotChainErrors(rule: BusinessRule, available: Conditions, profiles: seq<RuleProfile>)
    ensures NoChainOrReservedError(ProfileKeyErrors(rule.ruleSetsByProfileId.Keys(), profiles))
    ensures NoChainOrReservedError(Concat(ProfileRuleSetLints(rule, available, profiles)))
  {
    var profileKeys := ProfileKeyErrors(rule.ruleSetsByProfileId.Keys(), profiles);
    forall e | e in profileKeys ensures !IsChainError(e) && !e.ReservedTargetGroupName? {
      var k :| 0 <= k < |profileKeys| && profileKeys[k] == e;
    }
    forall e | e in Concat(ProfileRuleSetLints(rule, available, profiles)) ensures !IsChainError(e) && !e.ReservedTargetGroupName? {
      ProfileRuleSetLintsKinds(rule, available, profiles, e);
    }
  }

  /** The reference errors never include a chain error, and a reserved-name error only from its own check. */
  lemma ReferenceErrorsAreNotChainErrors(rule: BusinessRule, available: Conditions, profiles: seq<RuleProfile>, e: SyntaxError)
    requires e in ReferenceErrors(rule, available, profiles)
    ensures !IsChainError(e)
    ensures e.ReservedTargetGroupName? ==> e in ReservedNameErrors(rule)
  {
    var reserved := ReservedNameErrors(rule);
    InOneOfSix(GeneralErrors(rule, available), AndGroupLint(rule.certificateTypeConditions, available),
      Concat(TargetGroupLints(rule, available)), reserved,
      ProfileKeyErrors(rule.ruleSetsByProfileId.Keys(), profiles), Concat(ProfileRuleSetLints(rule, available, profiles)), e);
    ConditionErrorsAreNotChainErrors(rule, available);
    TargetGroupErrorsAreNotChainErrors(rule, available);
    ProfileErrorsAreNotChainErrors(rule, available, profiles);
  }

  /** The chain walk reports nothing but chain errors. */
  lemma ChainErrorsAreChain(rule: BusinessRule, e: SyntaxError)
    requires e in ProfileChainErrors(rule, rule.ruleSetsByProfileId.entries)
    ensures IsChainError(e)
  {
    var entries := rule.ruleSetsByProfileId.entries;
    ProfileChainErrorsMembers(rule, entries, e);
    var i :| 0 <= i < |entries| && e in GroupChainErrors(rule, entries[i].1.entries);
    GroupChainErrorsMembers(rule, entries[i].1.entries, e);
  }

  /**
   * `validate` reports `reservedTargetGroupName(n)` iff `n` is `all` and
   * the rule defines a target group called `all`.
   */
  lemma ReservedNameReported(rule: BusinessRule, available: Conditions, profiles: seq<RuleProfile>, n: string)
    ensures ReservedTargetGroupName(n) in BusinessRuleLint(rule, available, profiles) <==>
      n == "all" && rule.targetGroupsByGroupId.Some? && "all" in rule.targetGroupsByGroupId.value.Keys()
  {
    var e := ReservedTargetGroupName(n);
    var reference := ReferenceErrors(rule, available, profiles);
    var chain := ProfileChainErrors(rule, rule.ruleSetsByProfileId.entries);
    if e in chain {
      ChainErrorsAreChain(rule, e);
    }
    assert e in BusinessRuleLint(rule, available, profiles) <==> e in reference;
    if e in reference {
      ReferenceErrorsAreNotChainErrors(rule, available, profiles, e);
    }
    if n == "all" && rule.targetGroupsByGroupId.Some? && "all" in rule.targetGroupsByGroupId.value.Keys() {
      var reserved := ReservedNameErrors(rule);
      assert reserved[0] == e;
      assert e in reference;
    }
  }

  /** Every profile key that no declared profile has is reported as `unavailableProfile`. */
  lemma UndeclaredProfileKeysReported(rule: BusinessRule, available: Conditions, profiles: seq<RuleProfile>, p: string)
    requires p in rule.ruleSetsByProfileId.Keys() && !IsDeclaredProfile(p, profiles)
    ensures UnavailableProfile(p) in BusinessRuleLint(rule, available, profiles)
  {
    assert UnavailableProfile(p) in ProfileKeyErrors(rule.ruleSetsByProfileId.Keys(), profiles);
  }

  /**
   * Every delegating rule set is checked against the rule set of the same
   * target group in the profile it names, and a failed check is reported.
   */
  lemma DelegationsAreChainChecked(rule: BusinessRule, available: Conditions, profiles: seq<RuleProfile>, i: int, j: int)
    requires 0 <= i < |rule.ruleSetsByProfileId.entries|
    requires 0 <= j < |rule.ruleSetsByProfileId.entries[i].1.entries|
    requires rule.ruleSetsByProfileId.entries[i].1.entries[j].1.equalToProfile.Some?
    requires rule.CheckForNonLinkedRuleSetForProfile(
      rule.ruleSetsByProfileId.entries[i].1.entries[j].1.equalToProfile.value,
      rule.ruleSetsByProfileId.entries[i].1.entries[j].0).Some?
    ensures rule.CheckForNonLinkedRuleSetForProfile(
      rule.ruleSetsByProfileId.entries[i].1.entries[j].1.equalToProfile.value,
      rule.ruleSetsByProfileId.entries[i].1.entries[j].0).value in BusinessRuleLint(rule, available, profiles)
  {
    var groups := rule.ruleSetsByProfileId.entries[i].1.entries;
    var e := rule.CheckForNonLinkedRuleSetForProfile(groups[j].1.equalToProfile.value, groups[j].0).value;
    assert e in ChainError(rule, groups[j].0, groups[j].1);
    GroupChainErrorsMembers(rule, groups, e);
    ProfileChainErrorsMembers(rule, rule.ruleSetsByProfileId.entries, e);
  }

  /**
   * A rule whose lint reports no chain error delegates in one step: every
   * delegating rule set names a profile of the same rule that has a rule
   * set for the same target group, and that rule set does not delegate.
   */
  lemma LintedDelegationsAreSingleStep(rule: BusinessRule, available: Conditions, profiles: seq<RuleProfile>, i: int, j: int)
    requires forall e :: e in BusinessRuleLint(rule, available, profiles) ==> !IsChainError(e)
    requires 0 <= i < |rule.ruleSetsByProfileId.entries|
    requires 0 <= j < |rule.ruleSetsByProfileId.entries[i].1.entries|
    requires rule.ruleSetsByProfileId.entries[i].1.entries[j].1.equalToProfile.Some?
    ensures var linked := rule.ruleSetsByProfileId.entries[i].1.entries[j].1.equalToProfile.value;
      var group := rule.ruleSetsByProfileId.entries[i].1.entries[j].0;
      rule.ruleSetsByProfileId.Get(linked).Some? &&
      rule.ruleSetsByProfileId.Get(linked).value.Get(group).Some? &&
      rule.ruleSetsByProfileId.Get(linked).value.Get(group).value.equalToProfile.None?
  {
    var groups := rule.ruleSetsByProfileId.entries[i].1.entries;
    var check := rule.CheckForNonLinkedRuleSetForProfile(groups[j].1.equalToProfile.value, groups[j].0);
    if check.Some? {
      DelegationsAreChainChecked(rule, available, profiles, i, j);
      assert false;
    }
  }
}
