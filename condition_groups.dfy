/**
 * Condition groups and their lint: an AND group is a list of condition
 * names, an OR group a list of AND groups, and a linked condition an AND
 * group with a message. The lint reports every non-external name the rule
 * document does not define.
 */
module ConditionGroups {
  import opened Wrappers
  import opened StringExtensions
  import opened Results
  import opened CertificateConditions

  /** `BusinessRulesSyntaxError`. */
  datatype SyntaxError =
    | UnavailableCondition(conditionName: string)
    | UnavailableTargetGroup(targetGroup: string)
    | UnavailableProfile(profile: string)
    | ReservedTargetGroupName(targetGroupName: string)
    | UnknownLinkedProfile(profile: string)
    | UnknownTargetGroupInLinkedProfile(profile: string, targetGroup: string)
    | UnallowedMultistepProfileChain(profile: string, targetGroup: string)

  /** The document's condition definitions by name. */
  type Conditions = map<string, CertificateCondition>

  type AndConditionGroup = seq<string>
  type OrConditionGroup = seq<AndConditionGroup>

  /** A name the lint reports: not external, and not defined. */
  predicate IsUndefined(name: string, available: Conditions)
  {
    !IsExternalCondition(name) && name !in available
  }

  /** `AndConditionGroup.validate`: one `unavailableCondition` per undefined name, in list order. */
  function AndGroupLint(group: AndConditionGroup, available: Conditions): (errors: seq<SyntaxError>)
    ensures |errors| <= |group|
    ensures forall e :: e in errors ==> e.UnavailableCondition? && e.conditionName in group && IsUndefined(e.conditionName, available)
    ensures errors == [] <==> forall c :: c in group ==> !IsUndefined(c, available)
    ensures forall c :: c in group && IsUndefined(c, available) ==> UnavailableCondition(c) in errors
    decreases |group|
  {
    if group == [] then []
    else
      var rest := AndGroupLint(group[1..], available);
      assert forall c :: c in group[1..] ==> c in group;
      assert forall c :: c in group ==> c == group[0] || c in group[1..];
      if IsUndefined(group[0], available) then [UnavailableCondition(group[0])] + rest else rest
  }

  /** Linting two groups one after the other gives the two lints one after the other. */
  lemma {:induction false} AndGroupLintAppend(g1: AndConditionGroup, g2: AndConditionGroup, available: Conditions)
    ensures AndGroupLint(g1 + g2, available) == AndGroupLint(g1, available) + AndGroupLint(g2, available)
    decreases |g1|
  {
    if g1 == [] {
      assert g1 + g2 == g2;
    } else {
      assert (g1 + g2)[0] == g1[0];
      assert (g1 + g2)[1..] == g1[1..] + g2;
      AndGroupLintAppend(g1[1..], g2, available);
    }
  }

  /**
   * Each undefined name is reported once per occurrence, duplicates
   * included, and no other name is reported.
   */
  lemma {:induction false} AndGroupLintCounts(group: AndConditionGroup, available: Conditions, name: string)
    ensures multiset(AndGroupLint(group, available))[UnavailableCondition(name)] ==
      if IsUndefined(name, available) then multiset(group)[name] else 0
    decreases |group|
  {
    if group != [] {
      AndGroupLintCounts(group[1..], available, name);
      assert group == [group[0]] + group[1..];
      assert multiset(group) == multiset{group[0]} + multiset(group[1..]);
    }
  }

  /** Some AND group of `group` names `c`. */
  ghost predicate Mentions(group: OrConditionGroup, c: string)
  {
    exists i :: 0 <= i < |group| && c in group[i]
  }

  /** A non-empty OR group names `c` in its first AND group or in the rest. */
  lemma MentionsFirstOrRest(group: OrConditionGroup)
    requires group != []
    ensures forall c :: Mentions(group, c) <==> c in group[0] || Mentions(group[1..], c)
  {
    assert forall i :: 0 < i < |group| ==> group[i] == group[1..][i - 1];
  }

  /** `OrConditionGroup.validate`: the AND groups' lints, concatenated in order. */
  function OrGroupLint(group: OrConditionGroup, available: Conditions): (errors: seq<SyntaxError>)
    ensures forall e :: e in errors ==> e.UnavailableCondition? && IsUndefined(e.conditionName, available)
    ensures errors == [] <==> forall i :: 0 <= i < |group| ==> AndGroupLint(group[i], available) == []
    ensures forall c :: UnavailableCondition(c) in errors <==> IsUndefined(c, available) && Mentions(group, c)
    decreases |group|
  {
    if group == [] then []
    else
      var rest := OrGroupLint(group[1..], available);
      MentionsFirstOrRest(group);
      AndGroupLint(group[0], available) + rest
  }

  /** Linting two OR groups one after the other gives the two lints one after the other. */
  lemma OrGroupLintAppend(g1: OrConditionGroup, g2: OrConditionGroup, available: Conditions)
    ensures OrGroupLint(g1 + g2, available) == OrGroupLint(g1, available) + OrGroupLint(g2, available)
  {
    OrGroupLintFlattens(g1 + g2, available);
    OrGroupLintFlattens(g1, available);
    OrGroupLintFlattens(g2, available);
    FlattenAppend(g1, g2);
    AndGroupLintAppend(Flatten(g1), Flatten(g2), available);
  }

  /** The OR-group lint is the AND-group lint of all its names read as one list. */
  lemma {:induction false} OrGroupLintFlattens(group: OrConditionGroup, available: Conditions)
    ensures OrGroupLint(group, available) == AndGroupLint(Flatten(group), available)
    decreases |group|
  {
    if group != [] {
      OrGroupLintFlattens(group[1..], available);
      AndGroupLintAppend(group[0], Flatten(group[1..]), available);
    }
  }

  /** All names of an OR group, AND group after AND group. */
  function Flatten(group: OrConditionGroup): AndConditionGroup
    decreases |group|
  {
    if group == [] then [] else group[0] + Flatten(group[1..])
  }

  /** Flattening distributes over concatenation. */
  lemma {:induction false} FlattenAppend(g1: OrConditionGroup, g2: OrConditionGroup)
    ensures Flatten(g1 + g2) == Flatten(g1) + Flatten(g2)
    decreases |g1|
  {
    if g1 == [] {
      assert g1 + g2 == g2;
    } else {
      assert (g1 + g2)[0] == g1[0] && (g1 + g2)[1..] == g1[1..] + g2;
      FlattenAppend(g1[1..], g2);
    }
  }

  /** `LinkedCondition`: an AND group whose outcome is reported with a message. */
  datatype LinkedCondition = LinkedCondition(localizedViolationDescription: Option<LocalizedValue>, conditions: AndConditionGroup)

  /**
   * `LinkedCondition.validate`. The Swift code repeats the AND-group check
   * inline; here the one definition is shared.
   */
  function LinkedConditionLint(linked: LinkedCondition, available: Conditions): (errors: seq<SyntaxError>)
    ensures |errors| <= |linked.conditions|
    ensures forall e :: e in errors ==>
      e.UnavailableCondition? && e.conditionName in linked.conditions && IsUndefined(e.conditionName, available)
    ensures forall c :: c in linked.conditions && IsUndefined(c, available) ==> UnavailableCondition(c) in errors
  {
    AndGroupLint(linked.conditions, available)
  }
}
