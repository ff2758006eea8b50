/**
 * The result records of a validation and their hand-written equalities:
 * condition outcomes, violations, validity times, linked-condition results,
 * the valid-result record and the valid/invalid/error result.
 */
module Results {
  import opened Wrappers
  import opened DateExtensions

  /** `LocalizedValue<String>`: texts by two-letter language key. */
  datatype LocalizedValue = LocalizedValue(dic: map<string, string>)
  {
    /** `value(for:)`. */
    function Value(languageKey: string): (r: Option<string>)
      ensures r.Some? <==> languageKey in dic
      ensures r.Some? ==> r.value == dic[languageKey]
    {
      if languageKey in dic then Some(dic[languageKey]) else None
    }
  }

  /** `ConditionViolation`: a violated condition and its message. */
  datatype ConditionViolation = ConditionViolation(condition: string, message: Option<LocalizedValue>)

  /** `ConditionViolation.==`: the condition names alone decide. */
  predicate ViolationEq(a: ConditionViolation, b: ConditionViolation)
  {
    a.condition == b.condition
  }

  /** `ConditionValidationResult`: the tri-state outcome of evaluating one condition. */
  datatype ConditionValidationResult = Fulfilled | Violated(violation: ConditionViolation) | Failed(condition: string)
  {
    /** `isFulfilled()`. */
    predicate IsFulfilled()
    {
      Fulfilled?
    }

    /** `failedCondition()`: the name of a failed condition, else nil. */
    function FailedCondition(): (r: Option<string>)
      ensures r.Some? <==> Failed?
      ensures r.Some? ==> this == Failed(r.value)
    {
      match this
      case Failed(c) => Some(c)
      case _ => None
    }

    /** `violation()`: the violation of a violated condition, else nil. */
    function Violation(): (r: Option<ConditionViolation>)
      ensures r.Some? <==> Violated?
      ensures r.Some? ==> this == Violated(r.value)
    {
      match this
      case Violated(v) => Some(v)
      case _ => None
    }
  }

  /** Every outcome is exactly one of fulfilled, failed and violated, as the accessors report. */
  lemma ExactlyOneOutcome(r: ConditionValidationResult)
    ensures r.IsFulfilled() || r.FailedCondition().Some? || r.Violation().Some?
    ensures !(r.IsFulfilled() && r.FailedCondition().Some?)
    ensures !(r.IsFulfilled() && r.Violation().Some?)
    ensures !(r.FailedCondition().Some? && r.Violation().Some?)
  {
  }

  /** `ValidityTimeFormat`. */
  datatype ValidityTimeFormat = DateTime | DateOnly

  /** `ValidityTimeResult`: a candidate validity bound, with the conditions under which it holds. */
  datatype ValidityTimeResult = ValidityTimeResult(time: Instant, format: ValidityTimeFormat, conditions: Option<seq<string>>)

  /** `ValidityTimeResult.==`: time, format, and the conditions with nil read as the empty list. */
  predicate TimeResultEq(a: ValidityTimeResult, b: ValidityTimeResult)
  {
    a.time == b.time && a.format == b.format && a.conditions.GetOr([]) == b.conditions.GetOr([])
  }

  /** `BusinessRuleValidationLinkedConditionResult`: a linked-condition bundle and its message. */
  datatype LinkedConditionResult = LinkedConditionResult(violationMessage: Option<LocalizedValue>, conditions: seq<string>)

  /** `BusinessRuleValidationLinkedConditionResult.==`: the condition lists alone decide. */
  predicate LinkedEq(a: LinkedConditionResult, b: LinkedConditionResult)
  {
    a.conditions == b.conditions
  }

  /** `BusinessRuleValidationResult`: what a valid certificate is valid for, and from when until when. */
  datatype BusinessRuleValidationResult = BusinessRuleValidationResult(
    profile: string,
    region: string,
    validFrom: seq<ValidityTimeResult>,
    validUntil: seq<ValidityTimeResult>,
    matchingLinkedConditions: seq<LinkedConditionResult>,
    violatedOrFailedLinkedConditions: seq<LinkedConditionResult>)

  /** `ValidationResult`. */
  datatype ValidationResult =
    | Valid(result: BusinessRuleValidationResult)
    | Invalid(violations: seq<ConditionViolation>)
    | Error(failedConditions: seq<string>)

  /** `elementsEqual(_:by:)`: same length and pairwise equal under `eq`. */
  predicate ElementsEqual<T>(xs: seq<T>, ys: seq<T>, eq: (T, T) -> bool)
    decreases |xs|
  {
    if xs == [] || ys == [] then xs == [] && ys == []
    else eq(xs[0], ys[0]) && ElementsEqual(xs[1..], ys[1..], eq)
  }

  /** `elementsEqual` compares lengths and then each position. */
  lemma {:induction false} ElementsEqualPointwise<T>(xs: seq<T>, ys: seq<T>, eq: (T, T) -> bool)
    ensures ElementsEqual(xs, ys, eq) <==> |xs| == |ys| && forall i :: 0 <= i < |xs| ==> eq(xs[i], ys[i])
    decreases |xs|
  {
    if xs != [] && ys != [] {
      ElementsEqualPointwise(xs[1..], ys[1..], eq);
      assert forall i :: 0 < i < |xs| ==> xs[i] == xs[1..][i - 1];
      assert forall i :: 0 < i < |ys| ==> ys[i] == ys[1..][i - 1];
    }
  }

  ghost predicate IsEquivalence<T(!new)>(eq: (T, T) -> bool)
  {
    (forall a :: eq(a, a)) &&
    (forall a, b :: eq(a, b) ==> eq(b, a)) &&
    (forall a, b, c :: eq(a, b) && eq(b, c) ==> eq(a, c))
  }

  /** `elementsEqual` under an equivalence is itself reflexive, symmetric and transitive. */
  lemma ElementsEqualIsEquivalence<T(!new)>(eq: (T, T) -> bool, xs: seq<T>, ys: seq<T>, zs: seq<T>)
    requires IsEquivalence(eq)
    ensures ElementsEqual(xs, xs, eq)
    ensures ElementsEqual(xs, ys, eq) ==> ElementsEqual(ys, xs, eq)
    ensures ElementsEqual(xs, ys, eq) && ElementsEqual(ys, zs, eq) ==> ElementsEqual(xs, zs, eq)
  {
    ElementsEqualPointwise(xs, xs, eq);
    ElementsEqualPointwise(xs, ys, eq);
    ElementsEqualPointwise(ys, xs, eq);
    ElementsEqualPointwise(ys, zs, eq);
    ElementsEqualPointwise(xs, zs, eq);
  }

  /** `BusinessRuleValidationResult.==`: the guard chain over all six fields. */
  predicate RuleResultEq(a: BusinessRuleValidationResult, b: BusinessRuleValidationResult)
  {
    a.profile == b.profile && a.region == b.region &&
    ElementsEqual(a.validFrom, b.validFrom, TimeResultEq) &&
    ElementsEqual(a.validUntil, b.validUntil, TimeResultEq) &&
    ElementsEqual(a.matchingLinkedConditions, b.matchingLinkedConditions, LinkedEq) &&
    ElementsEqual(a.violatedOrFailedLinkedConditions, b.violatedOrFailedLinkedConditions, LinkedEq)
  }

  /** `ValidationResult.==`: the same case with equal contents; different cases are never equal. */
  predicate ResultEq(a: ValidationResult, b: ValidationResult)
  {
    match (a, b)
    case (Valid(x), Valid(y)) => RuleResultEq(x, y)
    case (Invalid(x), Invalid(y)) => ElementsEqual(x, y, ViolationEq)
    case (Error(x), Error(y)) => ElementsEqual(x, y, (s: string, t: string) => s == t)
    case _ => false
  }

  /** The violation, linked-condition and time equalities are equivalences. */
  lemma RecordEqualitiesAreEquivalences()
    ensures IsEquivalence(ViolationEq)
    ensures IsEquivalence(LinkedEq)
    ensures IsEquivalence(TimeResultEq)
    ensures IsEquivalence((s: string, t: string) => s == t)
  {
  }

  /** Valid-result equality is reflexive, symmetric and transitive. */
  lemma RuleResultEqIsEquivalence(a: BusinessRuleValidationResult, b: BusinessRuleValidationResult, c: BusinessRuleValidationResult)
    ensures RuleResultEq(a, a)
    ensures RuleResultEq(a, b) ==> RuleResultEq(b, a)
    ensures RuleResultEq(a, b) && RuleResultEq(b, c) ==> RuleResultEq(a, c)
  {
    RecordEqualitiesAreEquivalences();
    ElementsEqualIsEquivalence(TimeResultEq, a.validFrom, b.validFrom, c.validFrom);
    ElementsEqualIsEquivalence(TimeResultEq, a.validUntil, b.validUntil, c.validUntil);
    ElementsEqualIsEquivalence(LinkedEq, a.matchingLinkedConditions, b.matchingLinkedConditions, c.matchingLinkedConditions);
    ElementsEqualIsEquivalence(LinkedEq, a.violatedOrFailedLinkedConditions, b.violatedOrFailedLinkedConditions, c.violatedOrFailedLinkedConditions);
  }

  /** Result equality is reflexive, symmetric and transitive. */
  lemma ResultEqIsEquivalence(a: ValidationResult, b: ValidationResult, c: ValidationResult)
    ensures ResultEq(a, a)
    ensures ResultEq(a, b) ==> ResultEq(b, a)
    ensures ResultEq(a, b) && ResultEq(b, c) ==> ResultEq(a, c)
  {
    RecordEqualitiesAreEquivalences();
    match a
    case Valid(x) =>
      if b.Valid? && c.Valid? {
        RuleResultEqIsEquivalence(x, b.result, c.result);
      } else if b.Valid? {
        RuleResultEqIsEquivalence(x, b.result, b.result);
      } else {
        RuleResultEqIsEquivalence(x, x, x);
      }
    case Invalid(x) =>
      var y := if b.Invalid? then b.violations else x;
      var z := if c.Invalid? then c.violations else x;
      ElementsEqualIsEquivalence(ViolationEq, x, y, z);
    case Error(x) =>
      var y := if b.Error? then b.failedConditions else x;
      var z := if c.Error? then c.failedConditions else x;
      ElementsEqualIsEquivalence((s: string, t: string) => s == t, x, y, z);
  }

  /**
   * Two invalid results are equal iff they list the same condition names in
   * the same order; messages do not matter. Two error results are equal iff
   * they list the same names.
   */
  lemma InvalidAndErrorEquality(v: seq<ConditionViolation>, w: seq<ConditionViolation>, f: seq<string>, g: seq<string>)
    ensures ResultEq(Invalid(v), Invalid(w)) <==>
      |v| == |w| && forall i :: 0 <= i < |v| ==> v[i].condition == w[i].condition
    ensures ResultEq(Error(f), Error(g)) <==> f == g
  {
    ElementsEqualPointwise(v, w, ViolationEq);
    ElementsEqualPointwise(f, g, (s: string, t: string) => s == t);
    if |f| == |g| && forall i :: 0 <= i < |f| ==> f[i] == g[i] {
      assert f == g;
    }
  }

  /** Results of different cases are never equal, even when both lists are empty. */
  lemma DifferentCasesDiffer(a: ValidationResult, b: ValidationResult)
    requires ResultEq(a, b)
    ensures (a.Valid? <==> b.Valid?) && (a.Invalid? <==> b.Invalid?) && (a.Error? <==> b.Error?)
  {
  }

  /** Time results ignore the difference between no conditions and an empty list. */
  lemma NilConditionsEqualEmpty(t: Instant, f: ValidityTimeFormat)
    ensures TimeResultEq(ValidityTimeResult(t, f, None), ValidityTimeResult(t, f, Some([])))
    ensures TimeResultEq(ValidityTimeResult(t, f, Some([])), ValidityTimeResult(t, f, None))
  {
  }
}
