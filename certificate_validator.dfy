/**
 * `CertificateValidator`: one certificate prepared for validation (its
 * validation object, its type, the region and profile asked for) together
 * with the conditions of the document and the external-condition hook; it
 * evaluates single conditions and validity-time strings.
 */
module CertificateValidators {
  import opened Wrappers
  import opened DateExtensions
  import opened StringExtensions
  import opened Results
  import opened CertificateConditions
  import opened ConditionGroups
  import opened CoreHelper
  import opened BusinessRules

  /** `ExternalConditionEvaluationStrategy`: what an unanswered external condition counts as. */
  datatype ExternalConditionEvaluationStrategy = DefaultToTrue | DefaultToFalse | FailCondition

  /**
   * `ExternalConditionEvaluator.evaluateExternalCondition`: condition name,
   * parameters, rule id, rule certificate type, region and profile to an
   * answer, `None` when it cannot tell.
   */
  type ExternalConditionEvaluator = (string, map<string, string>, string, Option<string>, string, string) -> Option<bool>

  /**
   * The libraries the validation calls into, as parameters: the JsonLogic
   * parser and evaluator, ISO-8601 date parsing, the JSON parser and
   * encoder, Foundation's case folding, and the calendar.
   */
  datatype Platform = Platform(
    parseLogic: string -> Option<JsonLogic>,
    applyLogic: (JsonLogic, Option<Json>) -> Option<bool>,
    parseIso: string -> Option<Instant>,
    parseJson: string -> Option<Json>,
    encodeExternal: ExternalParameter -> Option<string>,
    fold: string -> string,
    calendar: Calendar)

  /** Every condition's cache holds nothing but the parse of its logic. */
  ghost predicate CachesValid(conditions: Conditions, parseLogic: string -> Option<JsonLogic>)
    reads conditions.Values
  {
    forall c :: c in conditions.Values ==> c.Valid(parseLogic)
  }

  /** The fields of a `CertificateValidator`; none of them changes after `init`. */
  datatype CertificateValidator = CertificateValidator(
    jsonObjectForValidation: Option<Json>,
    certificateType: CertificateType,
    availableConditions: Conditions,
    externalConditionEvaluator: Option<ExternalConditionEvaluator>,
    externalConditionEvaluationStrategy: ExternalConditionEvaluationStrategy,
    region: string,
    profile: string)

  /**
   * `init`: the validation object is the payload together with the encoded
   * external parameters (issue and expiry date, issuing country, value
   * sets, validation clock), read back as JSON.
   */
  function NewCertificateValidator(certificatePayload: string, certificateType: CertificateType,
                                   certificateIssueDate: Instant, certificateExpiresDate: Instant,
                                   countryCode: string, valueSets: map<string, seq<string>>,
                                   validationClock: Instant, region: string, profile: string,
                                   availableConditions: Conditions,
                                   externalConditionEvaluator: Option<ExternalConditionEvaluator>,
                                   strategy: ExternalConditionEvaluationStrategy, platform: Platform): (v: CertificateValidator)
    ensures v.jsonObjectForValidation ==
      platform.parseJson(JsonStringForValidation(
        ExternalParameterString(platform.encodeExternal, certificateIssueDate, certificateExpiresDate, countryCode, valueSets, validationClock),
        certificatePayload))
    ensures v.region == region && v.profile == profile && v.certificateType == certificateType
    ensures v.availableConditions == availableConditions
  {
    var externalParameter := ExternalParameterString(platform.encodeExternal, certificateIssueDate, certificateExpiresDate,
                                                     countryCode, valueSets, validationClock);
    CertificateValidator(JsonObjectForValidation(platform.parseJson, certificatePayload, externalParameter),
                         certificateType, availableConditions, externalConditionEvaluator, strategy, region, profile)
  }

  /** What an unanswered external condition yields under a strategy. */
  function StrategyOutcome(strategy: ExternalConditionEvaluationStrategy, conditionName: string): (r: ConditionValidationResult)
    ensures r.Fulfilled? <==> strategy == DefaultToTrue
    ensures r.Violated? <==> strategy == DefaultToFalse
    ensures r.Violated? ==> r.violation == ConditionViolation(conditionName, None)
    ensures r.Failed? ==> r.condition == conditionName
  {
    match strategy
    case DefaultToTrue => Fulfilled
    case DefaultToFalse => Violated(ConditionViolation(conditionName, None))
    case FailCondition => Failed(conditionName)
  }

  /**
   * `evaluateCondition(_:forRuleWithId:ruleCertificateType:)`. An external
   * condition (`ext.` prefix) goes to the evaluator; without an answer the
   * strategy decides. Any other name is looked up among the document's
   * conditions and its JsonLogic applied to the validation object.
   */
  function ConditionOutcome(v: CertificateValidator, conditionName: string, ruleId: string,
                            ruleCertificateType: Option<string>, platform: Platform): (r: ConditionValidationResult)
    ensures r.Violated? ==> r.violation.condition == conditionName
    ensures r.Failed? ==> r.condition == conditionName
    ensures IsExternalCondition(conditionName) && r.Violated? ==> r.violation.message.None?
    ensures IsExternalCondition(conditionName) && ExternalConditionNameAndArguments(conditionName).None? ==>
      r == Failed(conditionName)
    ensures !IsExternalCondition(conditionName) && conditionName !in v.availableConditions ==> r == Failed(conditionName)
    ensures !IsExternalCondition(conditionName) && r.Violated? ==>
      conditionName in v.availableConditions &&
      r.violation.message == v.availableConditions[conditionName].localizedViolationDescription
  {
    if IsExternalCondition(conditionName) then
      match ExternalConditionNameAndArguments(conditionName)
      case None => Failed(conditionName)
      case Some(external) =>
        var answer := match v.externalConditionEvaluator
          case None => None
          case Some(evaluate) =>
            evaluate(external.condition, external.parameters, ruleId, ruleCertificateType, v.region, v.profile);
        match answer
        case Some(true) => Fulfilled
        case Some(false) => Violated(ConditionViolation(conditionName, None))
        case None => StrategyOutcome(v.externalConditionEvaluationStrategy, conditionName)
    else if conditionName !in v.availableConditions then Failed(conditionName)
    else
      var condition := v.availableConditions[conditionName];
      match EvaluateBooleanRule(platform.parseLogic(condition.logic), v.jsonObjectForValidation, platform.applyLogic)
      case Some(true) => Fulfilled
      case Some(false) => Violated(ConditionViolation(conditionName, condition.localizedViolationDescription))
      case None => Failed(conditionName)
  }

  /**
   * The cached `evaluateCondition`: the only state it changes is the
   * parse cache of the condition it looks up, and its answer is the
   * cache-free one.
   */
  method EvaluateCondition(v: CertificateValidator, conditionName: string, ruleId: string,
                           ruleCertificateType: Option<string>, platform: Platform)
    returns (r: ConditionValidationResult)
    requires CachesValid(v.availableConditions, platform.parseLogic)
    modifies v.availableConditions.Values
    ensures CachesValid(v.availableConditions, platform.parseLogic)
    ensures r == ConditionOutcome(v, conditionName, ruleId, ruleCertificateType, platform)
  {
    if IsExternalCondition(conditionName) {
      var conditionNameAndArguments := ExternalConditionNameAndArguments(conditionName);
      if conditionNameAndArguments.None? {
        return Failed(conditionName);
      }
      var external := conditionNameAndArguments.value;
      var answer := None;
      if v.externalConditionEvaluator.Some? {
        answer := v.externalConditionEvaluator.value(external.condition, external.parameters, ruleId,
                                                     ruleCertificateType, v.region, v.profile);
      }
      if answer == Some(true) {
        r := Fulfilled;
      } else if answer == Some(false) {
        r := Violated(ConditionViolation(conditionName, None));
      } else {
        r := StrategyOutcome(v.externalConditionEvaluationStrategy, conditionName);
      }
    } else {
      if conditionName !in v.availableConditions {
        return Failed(conditionName);
      }
      var condition := v.availableConditions[conditionName];
      var rule := condition.ParsedJsonLogic(platform.parseLogic);
      var result := EvaluateBooleanRule(rule, v.jsonObjectForValidation, platform.applyLogic);
      if result == Some(true) {
        r := Fulfilled;
      } else if result == Some(false) {
        r := Violated(ConditionViolation(conditionName, condition.localizedViolationDescription));
      } else {
        r := Failed(conditionName);
      }
    }
  }

  /** The outcome of each name, in order. */
  function Outcomes(v: CertificateValidator, conditionNames: seq<string>, ruleId: string,
                    ruleCertificateType: Option<string>, platform: Platform): seq<ConditionValidationResult>
  {
    seq(|conditionNames|, i requires 0 <= i < |conditionNames| =>
      ConditionOutcome(v, conditionNames[i], ruleId, ruleCertificateType, platform))
  }

  /** `evaluateConditions(_:forRuleWithId:ruleCertificateType:)`: one outcome per name, in order. */
  method EvaluateConditions(v: CertificateValidator, conditionNames: seq<string>, ruleId: string,
                            ruleCertificateType: Option<string>, platform: Platform)
    returns (results: seq<ConditionValidationResult>)
    requires CachesValid(v.availableConditions, platform.parseLogic)
    modifies v.availableConditions.Values
    ensures CachesValid(v.availableConditions, platform.parseLogic)
    ensures |results| == |conditionNames|
    ensures forall i :: 0 <= i < |conditionNames| ==>
      results[i] == ConditionOutcome(v, conditionNames[i], ruleId, ruleCertificateType, platform)
  {
    results := [];
    for i := 0 to |conditionNames|
      invariant CachesValid(v.availableConditions, platform.parseLogic)
      invariant |results| == i
      invariant forall k :: 0 <= k < i ==>
        results[k] == ConditionOutcome(v, conditionNames[k], ruleId, ruleCertificateType, platform)
    {
      var result := EvaluateCondition(v, conditionNames[i], ruleId, ruleCertificateType, platform);
      results := results + [result];
    }
  }

  /** `hasPrefix("#") && hasSuffix("#")`. */
  predicate IsHashWrapped(s: string)
  {
    |s| > 0 && s[0] == '#' && s[|s| - 1] == '#'
  }

  /**
   * `evaluateValidTimeString(_:)`: a string starting and ending with `#`
   * is a path into the validation object (every `#` removed), which must
   * hold a date; any other string is an ISO-8601 date.
   */
  function ValidTimeOf(v: CertificateValidator, evaluationString: string, platform: Platform): (r: Option<Instant>)
    ensures !IsHashWrapped(evaluationString) ==> r == platform.parseIso(evaluationString)
    ensures IsHashWrapped(evaluationString) ==>
      (r.Some? <==> PlaceholderValue(RemovingHashes(evaluationString), v.jsonObjectForValidation).JsonDate?)
    ensures IsHashWrapped(evaluationString) && r.Some? ==>
      r.value == PlaceholderValue(RemovingHashes(evaluationString), v.jsonObjectForValidation).date
  {
    if IsHashWrapped(evaluationString) then
      match PlaceholderValue(RemovingHashes(evaluationString), v.jsonObjectForValidation)
      case JsonDate(date) => Some(date)
      case _ => None
    else platform.parseIso(evaluationString)
  }

  /** The same, with the path looked up by the substitution loop. */
  method EvaluateValidTimeString(v: CertificateValidator, evaluationString: string, platform: Platform)
    returns (r: Option<Instant>)
    ensures r == ValidTimeOf(v, evaluationString, platform)
  {
    if |evaluationString| > 0 && evaluationString[0] == '#' && evaluationString[|evaluationString| - 1] == '#' {
      var placeholderValue := EvaluatePlaceholderSubstitution(RemovingHashes(evaluationString), v.jsonObjectForValidation);
      if placeholderValue.JsonDate? {
        r := Some(placeholderValue.date);
      } else {
        r := None;
      }
    } else {
      r := platform.parseIso(evaluationString);
    }
  }

  /** `#path#` with no other `#` reads the date at `path`, and nothing else. */
  lemma WrappedPathReadsDate(v: CertificateValidator, path: string, platform: Platform)
    requires '#' !in path
    ensures ValidTimeOf(v, "#" + path + "#", platform) ==
      (if PlaceholderValue(path, v.jsonObjectForValidation).JsonDate?
       then Some(PlaceholderValue(path, v.jsonObjectForValidation).date) else None)
  {
    RemovingHashesAround(path);
    assert IsHashWrapped("#" + path + "#");
  }

  /**
   * An external condition the evaluator answers is decided by the answer
   * alone; the strategy only counts when there is no answer, or no
   * evaluator.
   */
  lemma ExternalAnswerDecides(v: CertificateValidator, conditionName: string, ruleId: string,
                              ruleCertificateType: Option<string>, platform: Platform)
    requires IsExternalCondition(conditionName)
    requires ExternalConditionNameAndArguments(conditionName).Some?
    ensures var e := ExternalConditionNameAndArguments(conditionName).value;
      var r := ConditionOutcome(v, conditionName, ruleId, ruleCertificateType, platform);
      (v.externalConditionEvaluator.Some? &&
       v.externalConditionEvaluator.value(e.condition, e.parameters, ruleId, ruleCertificateType, v.region, v.profile).Some?
       ==> (r.Fulfilled? <==>
            v.externalConditionEvaluator.value(e.condition, e.parameters, ruleId, ruleCertificateType, v.region, v.profile) == Some(true)) &&
           !r.Failed?) &&
      ((v.externalConditionEvaluator.None? ||
        v.externalConditionEvaluator.value(e.condition, e.parameters, ruleId, ruleCertificateType, v.region, v.profile).None?)
       ==> r == StrategyOutcome(v.externalConditionEvaluationStrategy, conditionName))
  {
  }

  /**
   * A condition of the document is fulfilled, violated or failed exactly
   * as its parsed JsonLogic answers true, false or nothing on the
   * validation object; an unparseable logic fails.
   */
  lemma InternalConditionFollowsLogic(v: CertificateValidator, conditionName: string, ruleId: string,
                                      ruleCertificateType: Option<string>, platform: Platform)
    requires !IsExternalCondition(conditionName) && conditionName in v.availableConditions
    ensures var logic := platform.parseLogic(v.availableConditions[conditionName].logic);
      var r := ConditionOutcome(v, conditionName, ruleId, ruleCertificateType, platform);
      (logic.None? ==> r == Failed(conditionName)) &&
      (logic.Some? ==>
        (r.Fulfilled? <==> platform.applyLogic(logic.value, v.jsonObjectForValidation) == Some(true)) &&
        (r.Violated? <==> platform.applyLogic(logic.value, v.jsonObjectForValidation) == Some(false)) &&
        (r.Failed? <==> platform.applyLogic(logic.value, v.jsonObjectForValidation).None?))
  {
  }

  /**
   * The region, profile, rule id and rule type handed to the evaluator
   * are the validator's and the rule's: two validators that differ only
   * in their JSON object and document conditions agree on external
   * conditions.
   */
  lemma ExternalIgnoresDocument(v: CertificateValidator, conditionName: string, ruleId: string,
                                ruleCertificateType: Option<string>, platform: Platform,
                                json: Option<Json>, conditions: Conditions)
    requires IsExternalCondition(conditionName)
    ensures ConditionOutcome(v, conditionName, ruleId, ruleCertificateType, platform) ==
      ConditionOutcome(v.(jsonObjectForValidation := json, availableConditions := conditions), conditionName,
                       ruleId, ruleCertificateType, platform)
  {
  }
}
