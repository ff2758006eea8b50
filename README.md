# Business-rules validation core, modelled in Dafny

This project models the rule-interpretation engine of the business-rules
validation core for digital COVID certificates (the Swift package
`BusinessRulesValidationCore`). A business-rules document holds:

- named *certificate conditions*, each a JsonLogic expression;
- *profiles*;
- *business rules*.

Each rule has four gates: a schema version, a validity interval, regions,
and a certificate type. It also has general conditions, optional target
groups, and one *rule set* per profile and target-group key. A rule set
has:

- a guard, an OR group of AND groups of condition names;
- linked conditions;
- valid-from and valid-until candidate times;
- an optional delegation to another profile (`equalToProfile`).

The model covers the following:

- **Validation.** A certificate is validated profile by profile (`Validators`).
  - The rules are tried in order, and the first rule that passes its gates decides.
  - Its general conditions are evaluated first. The rule set is then chosen by target group.
  - The rule set either delegates, or evaluates its guard, linked conditions and times.
  - The result is valid, with sorted validity times; invalid, with violations; or an error, with the failed condition names.
- **Single conditions** (`CertificateValidators`).
  - External `ext.` conditions go to a caller-supplied evaluator under one of three strategies.
  - Internal conditions are parsed and cached by the condition (`CertificateConditions`) and applied to the validation object.
- **Names and dates.**
  - The `ext.name__key:value` convention and the person grouping identifier (`StringExtensions`).
  - Date arithmetic and day/month modifiers (`DateExtensions`).
  - Validity-time expressions (`ValidityTimes`).
  - `#…#` placeholders resolved in the validation object (`CoreHelper`).
- **The lint of a document.** `validate` on containers, rules, rule sets and condition groups reports:
  - undefined conditions, profiles and target groups;
  - the reserved target-group name `all`;
  - illegal delegation chains.
- **Result records and their equalities** (`Results`). Violation messages are ignored.

Swift dictionaries whose iteration order matters are association lists in
entry order (`Dictionaries.Dict`), and lookup takes the first matching entry.
Dates are whole seconds since 2001-01-01 00:00:00 UTC. `distantPast` and
`distantFuture` are Foundation's constants.

The libraries the engine calls into are parameters, gathered in
`CertificateValidators.Platform`:

- the JsonLogic parser and evaluator;
- ISO-8601 parsing;
- the JSON parser;
- the JSON encoder of external parameters;
- case folding;
- the calendar.

Other external inputs are parameters too: the caller's external-condition
evaluator, the validation clock, and the number and date formatters.
Imperative parts of the source keep their form:

- the loops of the validator;
- the lint that appends into a local array;
- the placeholder loop;
- the modifier loop;
- the condition's parse cache, which is a class.

Each of these is a method proved against the specification function that
the rest of the model reasons with.

Where the documentation comments and the code disagree, the code is followed:

- The comment on `externalConditionNameAndArguments` speaks of a single
  underline. The code splits on `__`
  (Sources/BusinessRulesValidationCore/Extensions/StringExtensions.swift:24,56).
- The comment on `evaluateBooleanRule` says the result is nil when any
  argument is nil. The code passes a nil object on to the JsonLogic
  evaluator (Sources/BusinessRulesValidationCore/Util/BusinessRulesCoreHelper.swift:67-74).
- The `result.isEmpty` branch of `validateRuleSet`
  (Sources/BusinessRulesValidationCore/BusinessRuleValidator.swift:189)
  can never be taken. `Validators.OrGroupOutcome` never yields an empty
  list, and the model keeps the branch only as written.

## Model

| member | source | states |
|---|---|---|
| Results.LocalizedValue.Value | Sources/BusinessRulesValidationCore/Model/LocalizedValue.swift:35-37 | a text is returned exactly when the language key is in the dictionary, and it is the stored one |
| Results.ConditionValidationResult.FailedCondition | Sources/BusinessRulesValidationCore/Internal/ConditionValidationResult.swift:26-31 | a name comes back exactly for a failed outcome, and the outcome is `failed` of that name |
| Results.ConditionValidationResult.Violation | Sources/BusinessRulesValidationCore/Internal/ConditionValidationResult.swift:33-38 | a violation comes back exactly for a violated outcome, and the outcome is `violated` with that violation |
| Results.ExactlyOneOutcome | Sources/BusinessRulesValidationCore/Internal/ConditionValidationResult.swift:14-38 | for every outcome exactly one of `isFulfilled()`, a failed name and a violation holds |
| Results.ElementsEqualPointwise | Sources/BusinessRulesValidationCore/Public/ValidationResult.swift:36-38 | `elementsEqual` holds iff the lengths agree and every position is equal, so it is sensitive to order and length |
| Results.ElementsEqualIsEquivalence | Sources/BusinessRulesValidationCore/Public/BusinessRuleValidationResult.swift:48-52 | lists compared element by element under an equivalence are compared by an equivalence |
| Results.RecordEqualitiesAreEquivalences | Sources/BusinessRulesValidationCore/Internal/ConditionViolation.swift:28-30 | the name-only violation equality, the conditions-only linked-result equality and the time-result equality (nil read as []) are reflexive, symmetric and transitive |
| Results.RuleResultEqIsEquivalence | Sources/BusinessRulesValidationCore/Public/BusinessRuleValidationResult.swift:44-55 | the field-by-field equality of valid results is reflexive, symmetric and transitive |
| Results.ResultEqIsEquivalence | Sources/BusinessRulesValidationCore/Public/ValidationResult.swift:31-41 | result equality is reflexive, symmetric and transitive |
| Results.InvalidAndErrorEquality | Sources/BusinessRulesValidationCore/Public/ValidationResult.swift:35-38 | two invalid results are equal iff they name the same conditions in the same order, messages aside; two error results iff their name lists are identical |
| Results.DifferentCasesDiffer | Sources/BusinessRulesValidationCore/Public/ValidationResult.swift:39 | equal results are of the same case, even when both lists are empty |
| Results.NilConditionsEqualEmpty | Sources/BusinessRulesValidationCore/Public/ValidityTimeResult.swift:32-34 | a time result without conditions equals the same one with an empty list, both ways round |
| DateExtensions.ComparisonsAreStrict | Sources/BusinessRulesValidationCore/Extensions/DateExtensions.swift:29-43 | `isBefore` is `<` and `isAfter` is `>`, each is the other read backwards, neither holds for equal instants, and exactly one of before, equal and after holds |
| DateExtensions.DateOrEarlierDate | Sources/BusinessRulesValidationCore/Extensions/DateExtensions.swift:48-55 | a missing date leaves the instant unchanged; otherwise the result is one of the two and no later than either |
| DateExtensions.ParseUnit | Sources/BusinessRulesValidationCore/Public/ValidityTimeModificationUnit.swift:10-15 | a unit is recognised exactly when the text is its raw value; any other text gives nil |
| DateExtensions.ParseModifier | Sources/BusinessRulesValidationCore/Model/ValidityTimeModifier.swift:17-34 | a modifier is recognised exactly when the text is its raw value; any other text gives nil |
| DateExtensions.DateByAddingUnitAndValue | Sources/BusinessRulesValidationCore/Extensions/DateExtensions.swift:62-83 | minutes shift by 60·n seconds and hours by 3600·n; days and months take the calendar's answer, or leave the date unchanged when the calendar has none |
| DateExtensions.AddingFixedUnitsComposes | Sources/BusinessRulesValidationCore/Extensions/DateExtensions.swift:64-71 | adding minutes (or hours) twice is adding the sum, and adding −n undoes adding n |
| DateExtensions.DateByModifyingWith | Sources/BusinessRulesValidationCore/Extensions/DateExtensions.swift:96-111 | a missing modifier leaves the date unchanged |
| DateExtensions.ApplyModifiersAppend | Sources/BusinessRulesValidationCore/Extensions/DateExtensions.swift:85-94 | applying two modifier lists one after the other is applying their concatenation, so the loop works left to right |
| DateExtensions.DateByModifyingWithModifiers | Sources/BusinessRulesValidationCore/Extensions/DateExtensions.swift:85-94 | nil leaves the date unchanged; otherwise the loop yields the modifiers applied left to right |
| DateExtensions.StartOfDayProperties | Sources/BusinessRulesValidationCore/Extensions/DateExtensions.swift:102-103 | the start of the day is no later than the date and reads the same day at 00:00:00 |
| DateExtensions.EndOfDayProperties | Sources/BusinessRulesValidationCore/Extensions/DateExtensions.swift:104-105 | the end of the day is one second before the next day starts, not earlier than the date, and reads the same day at 23:59:59 |
| DateExtensions.StartOfMonthProperties | Sources/BusinessRulesValidationCore/Extensions/DateExtensions.swift:113-115 | the start of the month reads day 1 of the same month at 00:00:00 |
| DateExtensions.EndOfMonthProperties | Sources/BusinessRulesValidationCore/Extensions/DateExtensions.swift:117-123 | the end of the month reads the last day of the same month at 23:59:59 |
| DateExtensions.AugustThirdExample | Tests/BusinessRulesValidationCoreTests/DateExtensionTests.swift:41-67 | for 3 August 2022, 17:42 the four modifiers give 3 August 00:00:00 and 23:59:59, 1 August 00:00:00 and 31 August 23:59:59 |
| ValidityTimes.ParseFormat | Sources/BusinessRulesValidationCore/Public/ValidityTimeFormat.swift:17-26 | `.dateTime` exactly for `dateTime`, `.date` exactly for `date` |
| ValidityTimes.ValidityTime.MaxDate | Sources/BusinessRulesValidationCore/Model/ValidityTime.swift:18-21 | a maximum exists exactly when `max` is present and parses, and it is the parsed instant |
| ValidityTimes.ValidityTime.Unit | Sources/BusinessRulesValidationCore/Model/ValidityTime.swift:24-28 | a unit exists exactly when the unit text is one of the four unit names, and it is the unit of that name |
| ValidityTimes.ValidityTime.Format | Sources/BusinessRulesValidationCore/Model/ValidityTime.swift:32-37 | `.date` exactly when the format text is `date`; absent or unrecognised text gives `.dateTime` |
| ValidityTimes.ValidityTime.Modifier | Sources/BusinessRulesValidationCore/Model/ValidityTime.swift:41-46 | a modifier exists exactly when the modifier text is one of the four modifier names, and it is the modifier of that name |
| ValidityTimes.ValidityTime.DateByModifying | Sources/BusinessRulesValidationCore/Model/ValidityTime.swift:48-55 | never later than a present maximum; without unit or interval only the clamp applies and the modifier is ignored; with both, add, then modify, then clamp |
| ValidityTimes.ValidityTime.Validate | Sources/BusinessRulesValidationCore/Model/ValidityTime.swift:67-69 | no guard gives no errors; otherwise exactly the undefined non-external names the guard mentions are reported |
| ValidityTimes.NoMaximumNoClamp | Sources/BusinessRulesValidationCore/Model/ValidityTime.swift:18-21 | without a readable maximum no clamping happens: the date is kept, or the added and modified date is returned as it is |
| ValidityTimes.UnknownUnitKeepsDate | Sources/BusinessRulesValidationCore/Model/ValidityTime.swift:24-28 | an unrecognised unit leaves the date unchanged up to the maximum, whatever interval and modifier say |
| ConditionGroups.AndGroupLint | Sources/BusinessRulesValidationCore/Model/AndConditionGroup.swift:37-46 | at most one error per name; every error is `unavailableCondition` of a name in the group that is neither external nor defined; every such name is reported; no errors iff no such name |
| ConditionGroups.AndGroupLintAppend | Sources/BusinessRulesValidationCore/Model/AndConditionGroup.swift:38-45 | the lint of two lists one after the other is their lints one after the other, so errors follow list order |
| ConditionGroups.AndGroupLintCounts | Sources/BusinessRulesValidationCore/Model/AndConditionGroup.swift:38-45 | an undefined non-external name is reported once per occurrence, duplicates included; any other name is never reported |
| ConditionGroups.OrGroupLint | Sources/BusinessRulesValidationCore/Model/OrConditionGroup.swift:35-37 | only undefined non-external names are reported; a name is reported iff some AND group mentions it; no errors iff every AND group lints clean |
| ConditionGroups.OrGroupLintAppend | Sources/BusinessRulesValidationCore/Model/OrConditionGroup.swift:35-37 | the lint of two OR groups one after the other is their lints one after the other |
| ConditionGroups.OrGroupLintFlattens | Sources/BusinessRulesValidationCore/Model/OrConditionGroup.swift:35-37 | the OR-group lint is the AND-group lint of all its names in order, so its length is the sum of the AND-group error counts |
| ConditionGroups.LinkedConditionLint | Sources/BusinessRulesValidationCore/Model/LinkedCondition.swift:28-37 | at most one error per name; exactly the bundle's undefined non-external names are reported |
| CertificateConditions.CertificateCondition.constructor | Sources/BusinessRulesValidationCore/Model/CertificateCondition.swift:14-23 | a new condition keeps its logic and message and starts with an empty cache |
| CertificateConditions.CertificateCondition.ParsedJsonLogic | Sources/BusinessRulesValidationCore/Model/CertificateCondition.swift:25-32 | a filled cache is returned and kept; otherwise the parse result is returned and stored, and a failed parse leaves the cache empty; a cache that held only the parse of `logic` still does, and the answer is that parse |
| RuleSets.LinkedConditionsLint | Sources/BusinessRulesValidationCore/Model/RuleSet.swift:32 | only undefined non-external names are reported, and a name is reported iff some bundle names it |
| RuleSets.TimesLint | Sources/BusinessRulesValidationCore/Model/RuleSet.swift:34-35 | only undefined non-external names are reported, and a name is reported iff some time's guard names it |
| RuleSets.ProfileErrors | Sources/BusinessRulesValidationCore/Model/RuleSet.swift:33 | at most one error, an `unavailableProfile` naming the delegation target, present iff the rule set delegates to a profile that is not declared |
| RuleSets.GuardErrors | Sources/BusinessRulesValidationCore/Model/RuleSet.swift:31 | only `unavailableCondition`; a name is reported iff it is undefined, not external and the guard is present and names it |
| RuleSets.LinkedErrors | Sources/BusinessRulesValidationCore/Model/RuleSet.swift:32 | only `unavailableCondition`; a name is reported iff it is undefined, not external and some present bundle names it |
| RuleSets.OptionalTimesLint | Sources/BusinessRulesValidationCore/Model/RuleSet.swift:34-35 | only `unavailableCondition`; a name is reported iff it is undefined, not external and some present time's guard names it |
| RuleSets.RuleSetLint | Sources/BusinessRulesValidationCore/Model/RuleSet.swift:30-37 | every error is an undefined condition or an undeclared profile |
| RuleSets.RuleSetLintReportsConditions | Sources/BusinessRulesValidationCore/Model/RuleSet.swift:31-35 | a condition is reported iff it is undefined, not external, and named by the guard, a bundle or a time's guard |
| RuleSets.RuleSetLintReportsProfile | Sources/BusinessRulesValidationCore/Model/RuleSet.swift:33 | a profile is reported iff the rule set delegates to it and it is not declared, and at most once |
| RuleSets.EmptyRuleSetIsClean | Sources/BusinessRulesValidationCore/Model/RuleSet.swift:31-35 | a rule set whose optional parts are all absent gives no errors |
| RuleSets.TargetGroupKeyErrors | Sources/BusinessRulesValidationCore/Model/ProfileRuleSet.swift:29 | no more errors than keys, all `unavailableTargetGroup`; a key is reported iff it is not `all` and names no target group (or there are none) |
| RuleSets.RuleSetLints | Sources/BusinessRulesValidationCore/Model/ProfileRuleSet.swift:28 | one lint per rule set, in key order, each the rule set's own lint |
| RuleSets.RuleSetLintsKinds | Sources/BusinessRulesValidationCore/Model/ProfileRuleSet.swift:28 | the rule sets' lints hold only undefined conditions and undeclared profiles |
| RuleSets.TargetGroupErrorsLast | Sources/BusinessRulesValidationCore/Model/ProfileRuleSet.swift:27-30 | appending key errors after rule-set errors: the target-group errors are exactly the key errors and none precedes an error of another kind |
| RuleSets.ProfileRuleSetLint | Sources/BusinessRulesValidationCore/Model/ProfileRuleSet.swift:26-31 | a target group is reported iff it is a key other than `all` that names no target group; target-group errors come after the rule-set errors |
| RuleSets.ProfileRuleSetLintKinds | Sources/BusinessRulesValidationCore/Model/ProfileRuleSet.swift:26-31 | every error is an undefined condition, an undeclared profile or an unknown target group |
| RuleSets.ProfileRuleSetLintIncludesRuleSets | Sources/BusinessRulesValidationCore/Model/ProfileRuleSet.swift:28 | every error of every contained rule set is reported |
| RuleSets.NoTargetGroupsReportsEveryKey | Sources/BusinessRulesValidationCore/Model/ProfileRuleSet.swift:29 | without target groups every key other than `all` is reported |
| RuleSets.AllIsNeverAnUnknownGroup | Sources/BusinessRulesValidationCore/Model/ProfileRuleSet.swift:29 | the key `all` is never reported |
| BusinessRules.BusinessRule.CertificateType | Sources/BusinessRulesValidationCore/Model/BusinessRule.swift:19-33 | absent string gives no type; a returned type matches its raw value ignoring case, and no type listed before it matches; no type means no raw value matches |
| BusinessRules.BusinessRule.ValidFrom | Sources/BusinessRulesValidationCore/Model/BusinessRule.swift:37-40 | absent or unreadable string gives the distant past, otherwise the parsed instant |
| BusinessRules.BusinessRule.ValidUntil | Sources/BusinessRulesValidationCore/Model/BusinessRule.swift:43-46 | absent or unreadable string gives the distant future, otherwise the parsed instant |
| BusinessRules.BusinessRule.CheckForNonLinkedRuleSetForProfile | Sources/BusinessRulesValidationCore/Model/BusinessRule.swift:107-118 | each error iff its check is the first to fail (missing profile, missing group rule set, a rule set that delegates again); no error iff the target exists and does not delegate |
| BusinessRules.ValidityIsStrict | Sources/BusinessRulesValidationCore/Model/BusinessRule.swift:99-101 | valid iff strictly between the two bounds; valid at neither bound; without bounds valid iff between the distant past and future |
| BusinessRules.RegionGate | Sources/BusinessRulesValidationCore/Model/BusinessRule.swift:92-97 | no include list rejects every region; an excluded region is rejected; `all` included admits every region that is not excluded |
| BusinessRules.UsesTargetGroupsIff | Sources/BusinessRulesValidationCore/Model/BusinessRule.swift:103-105 | target groups are used iff the group dictionary is present and non-empty |
| BusinessRules.CertificateTypeMatchesRawValue | Sources/BusinessRulesValidationCore/Model/BusinessRule.swift:19-33 | under an injective case folding the raw value of a type yields that type |
| BusinessRules.ProfileKeyErrors | Sources/BusinessRulesValidationCore/Model/BusinessRule.swift:74 | no more errors than keys, all `unavailableProfile`; a key is reported iff no declared profile has it |
| BusinessRules.TargetGroupLints | Sources/BusinessRulesValidationCore/Model/BusinessRule.swift:69 | one lint per target group in iteration order, each the group's OR-group lint; none without groups |
| BusinessRules.ProfileRuleSetLints | Sources/BusinessRulesValidationCore/Model/BusinessRule.swift:75 | one lint per profile in iteration order, each against the rule's target groups |
| BusinessRules.ChainError | Sources/BusinessRulesValidationCore/Model/BusinessRule.swift:77-83 | at most one chain error; none for a rule set that does not delegate; for a delegating one, none iff the chain check passes |
| BusinessRules.GeneralErrors | Sources/BusinessRulesValidationCore/Model/BusinessRule.swift:67 | absent general conditions give nothing; only `unavailableCondition` |
| BusinessRules.ReservedNameErrors | Sources/BusinessRulesValidationCore/Model/BusinessRule.swift:71-73 | non-empty iff a target group named `all` exists, and then only `reservedTargetGroupName(all)` |
| BusinessRules.AppendGroupChainErrors | Sources/BusinessRulesValidationCore/Model/BusinessRule.swift:78-82 | appends exactly the chain errors of one profile's rule sets, in group order |
| BusinessRules.AppendChainErrors | Sources/BusinessRulesValidationCore/Model/BusinessRule.swift:77-83 | appends exactly the chain errors of every profile, in profile order |
| BusinessRules.AppendReferenceErrors | Sources/BusinessRulesValidationCore/Model/BusinessRule.swift:66-75 | the six error lists appended in the source's order |
| BusinessRules.ValidateBusinessRule | Sources/BusinessRulesValidationCore/Model/BusinessRule.swift:65-86 | the reference errors followed by the chain errors |
| BusinessRules.GroupChainErrorsMembers | Sources/BusinessRulesValidationCore/Model/BusinessRule.swift:78-82 | an error is in a profile's chain errors iff one of its rule sets produces it |
| BusinessRules.ProfileChainErrorsMembers | Sources/BusinessRulesValidationCore/Model/BusinessRule.swift:77-83 | an error is in the rule's chain errors iff one of its profiles produces it |
| BusinessRules.TargetGroupLintsKinds | Sources/BusinessRulesValidationCore/Model/BusinessRule.swift:69 | the target groups' lints hold only `unavailableCondition` |
| BusinessRules.ProfileRuleSetLintsKinds | Sources/BusinessRulesValidationCore/Model/BusinessRule.swift:75 | the profiles' lints hold only undefined conditions, undeclared profiles and unknown target groups |
| BusinessRules.ConditionErrorsAreNotChainErrors | Sources/BusinessRulesValidationCore/Model/BusinessRule.swift:67-68 | general and certificate-type condition errors hold no chain or reserved-name error |
| BusinessRules.TargetGroupErrorsAreNotChainErrors | Sources/BusinessRulesValidationCore/Model/BusinessRule.swift:69 | target-group errors hold no chain or reserved-name error |
| BusinessRules.ProfileErrorsAreNotChainErrors | Sources/BusinessRulesValidationCore/Model/BusinessRule.swift:74-75 | profile-key and rule-set errors hold no chain or reserved-name error |
| BusinessRules.ReferenceErrorsAreNotChainErrors | Sources/BusinessRulesValidationCore/Model/BusinessRule.swift:66-75 | no reference error is a chain error; a reserved-name error comes only from its own check |
| BusinessRules.ChainErrorsAreChain | Sources/BusinessRulesValidationCore/Model/BusinessRule.swift:77-83 | the chain walk reports only chain errors |
| BusinessRules.ReservedNameReported | Sources/BusinessRulesValidationCore/Model/BusinessRule.swift:71-73 | `reservedTargetGroupName(n)` is reported iff n is `all` and such a group is defined |
| BusinessRules.UndeclaredProfileKeysReported | Sources/BusinessRulesValidationCore/Model/BusinessRule.swift:74 | every profile key without a declared profile is reported |
| BusinessRules.DelegationsAreChainChecked | Sources/BusinessRulesValidationCore/Model/BusinessRule.swift:77-83 | every failed chain check of a delegating rule set is reported |
| BusinessRules.LintedDelegationsAreSingleStep | Sources/BusinessRulesValidationCore/Model/BusinessRule.swift:107-118 | with no chain error reported, every delegation lands on a rule set of the same group that does not delegate |
| Containers.BusinessRuleContainer.RuleLints | Sources/BusinessRulesValidationCore/Model/BusinessRuleContainer.swift:36 | one lint per rule, in rule order, each against the container's conditions and profiles |
| Containers.BusinessRuleContainer.Validate | Sources/BusinessRulesValidationCore/Model/BusinessRuleContainer.swift:35-37 | an error is reported iff some rule's lint reports it; no rules give no errors |
| Containers.ValidateSplits | Sources/BusinessRulesValidationCore/Model/BusinessRuleContainer.swift:36 | the lint of a rule list is the lint of any prefix followed by the lint of the rest |
| Containers.AddingRuleAppendsItsLint | Sources/BusinessRulesValidationCore/Model/BusinessRuleContainer.swift:36 | adding a rule at the end appends exactly that rule's lint |
| Containers.CleanIffEveryRuleClean | Sources/BusinessRulesValidationCore/Model/BusinessRuleContainer.swift:35-37 | the container lints clean iff every rule lints clean |
| CertificateValidators.NewCertificateValidator | Sources/BusinessRulesValidationCore/Internal/CertificateValidator.swift:26-49 | the validation object is the JSON reading of the payload merged with the encoded external parameters; region, profile, type and conditions are kept |
| CertificateValidators.StrategyOutcome | Sources/BusinessRulesValidationCore/Internal/CertificateValidator.swift:88-95 | fulfilled iff `defaultToTrue`, violated without message iff `defaultToFalse`, otherwise failed on the condition |
| CertificateValidators.ConditionOutcome | Sources/BusinessRulesValidationCore/Internal/CertificateValidator.swift:75-109 | violations and failures name the condition; a malformed external name and an unknown internal name fail; external violations carry no message, internal ones the condition's description |
| CertificateValidators.EvaluateCondition | Sources/BusinessRulesValidationCore/Internal/CertificateValidator.swift:75-109 | returns the cache-free outcome and keeps every parse cache valid |
| CertificateValidators.EvaluateConditions | Sources/BusinessRulesValidationCore/Internal/CertificateValidator.swift:69-73 | one outcome per name, in order, each the single condition's outcome |
| CertificateValidators.ValidTimeOf | Sources/BusinessRulesValidationCore/Internal/CertificateValidator.swift:55-65 | a string not wrapped in `#` is read as ISO 8601; a wrapped one yields a date iff the path (hashes removed) holds a date, and then that date |
| CertificateValidators.EvaluateValidTimeString | Sources/BusinessRulesValidationCore/Internal/CertificateValidator.swift:55-65 | agrees with the value-level reading of the string |
| CertificateValidators.WrappedPathReadsDate | Sources/BusinessRulesValidationCore/Internal/CertificateValidator.swift:56-61 | `#path#` with no inner `#` reads exactly the date at `path` |
| CertificateValidators.ExternalAnswerDecides | Sources/BusinessRulesValidationCore/Internal/CertificateValidator.swift:81-96 | an evaluator's answer alone decides an external condition (never failed); without one the strategy decides |
| CertificateValidators.InternalConditionFollowsLogic | Sources/BusinessRulesValidationCore/Internal/CertificateValidator.swift:98-107 | a document condition is fulfilled, violated or failed exactly as its logic answers true, false or nothing; unparseable logic fails |
| CertificateValidators.ExternalIgnoresDocument | Sources/BusinessRulesValidationCore/Internal/CertificateValidator.swift:76-96 | external conditions do not depend on the validation object or the document's conditions |
| CoreHelper.Json.JsonStringForValidation | Sources/BusinessRulesValidationCore/Util/BusinessRulesCoreHelper.swift:51-55 | the string is `{"external":`, the external part, `,"payload":`, the payload and `}`, each at its position |
| CoreHelper.JsonStringForValidationDeterminesParts | Sources/BusinessRulesValidationCore/Util/BusinessRulesCoreHelper.swift:51-55 | given the external part's length, the validation string determines both parts |
| CoreHelper.ExternalParameterString | Sources/BusinessRulesValidationCore/Util/BusinessRulesCoreHelper.swift:58-62 | the encoding of the external parameter built from clock, value sets, country, expiry and issue date; the empty string when encoding fails |
| CoreHelper.JsonObjectForValidation | Sources/BusinessRulesValidationCore/Util/BusinessRulesCoreHelper.swift:45-49 | the JSON reading of the validation string |
| CoreHelper.EvaluateBooleanRule | Sources/BusinessRulesValidationCore/Util/BusinessRulesCoreHelper.swift:67-74 | nothing without a rule; any answer is the library's answer for the rule and object |
| CoreHelper.ParseInt | Sources/BusinessRulesValidationCore/Util/BusinessRulesCoreHelper.swift:81 | a parsed integer fits 64 bits and the text starts with a digit or a sign |
| CoreHelper.NatText | Sources/BusinessRulesValidationCore/Util/BusinessRulesCoreHelper.swift:106 | non-empty digits whose value is the number |
| CoreHelper.DecimalText | Sources/BusinessRulesValidationCore/Util/BusinessRulesCoreHelper.swift:106 | a 64-bit integer's text parses back to it |
| CoreHelper.Member | Sources/BusinessRulesValidationCore/Util/BusinessRulesCoreHelper.swift:84-87 | a member exists iff the value is a dictionary with that key, and it is the value stored under the key |
| CoreHelper.Descend | Sources/BusinessRulesValidationCore/Util/BusinessRulesCoreHelper.swift:80-88 | off the object stays off; an array with an in-range index selects that element; elsewhere a key looks up a member |
| CoreHelper.EvaluatePlaceholderSubstitution | Sources/BusinessRulesValidationCore/Util/BusinessRulesCoreHelper.swift:76-91 | the value reached by following the `.`-separated pieces, `Null` when off the object |
| CoreHelper.FollowPathAppend | Sources/BusinessRulesValidationCore/Util/BusinessRulesCoreHelper.swift:79-89 | following a path in two parts is following the second from where the first ends |
| CoreHelper.OffTheObjectStaysOff | Sources/BusinessRulesValidationCore/Util/BusinessRulesCoreHelper.swift:79-89 | once a path falls off the object, any continuation stays off |
| CoreHelper.EmptyPathYieldsObject | Sources/BusinessRulesValidationCore/Util/BusinessRulesCoreHelper.swift:77-90 | a path with no pieces yields the object itself or `Null` |
| CoreHelper.FirstPlaceholder | Sources/BusinessRulesValidationCore/Util/BusinessRulesCoreHelper.swift:98 | the leftmost `#[^#]*#`: two hashes with none before the second except the first; none iff no two hashes |
| CoreHelper.NextHash | Sources/BusinessRulesValidationCore/Util/BusinessRulesCoreHelper.swift:98 | the first `#` at or after the start, or the end when there is none |
| CoreHelper.PlaceholderIffTwoHashes | Sources/BusinessRulesValidationCore/Util/BusinessRulesCoreHelper.swift:98 | a placeholder exists iff the string has at least two `#` |
| CoreHelper.ValueText | Sources/BusinessRulesValidationCore/Util/BusinessRulesCoreHelper.swift:102-113 | nothing for `Null`, errors, booleans, arrays and dictionaries; a 64-bit integer's text parses back to it; the string itself; the formatted double or date |
| CoreHelper.ReplaceFirstPlaceholder | Sources/BusinessRulesValidationCore/Util/BusinessRulesCoreHelper.swift:100-113 | a replacement happens iff there is a placeholder |
| CoreHelper.MatchWithoutHashesIsInterior | Sources/BusinessRulesValidationCore/Util/BusinessRulesCoreHelper.swift:100 | removing every `#` from the match leaves the text between its hashes |
| CoreHelper.RemovingHashesAround | Sources/BusinessRulesValidationCore/Util/BusinessRulesCoreHelper.swift:100 | removing the hashes of `#x#` gives x when x has none |
| CoreHelper.RemovingHashesAppend | Sources/BusinessRulesValidationCore/Util/BusinessRulesCoreHelper.swift:100 | removing the hashes of x followed by `#` gives x when x has none |
| CoreHelper.EvaluatePlaceholders | Sources/BusinessRulesValidationCore/Util/BusinessRulesCoreHelper.swift:96-118 | any result has no placeholder left |
| CoreHelper.EvaluatePlaceholdersInString | Sources/BusinessRulesValidationCore/Util/BusinessRulesCoreHelper.swift:96-118 | the loop's result is the value-level replacement with the context's texts |
| CoreHelper.ReplacePlaceholders | Sources/BusinessRulesValidationCore/Util/BusinessRulesCoreHelper.swift:97-117 | the loop agrees with the value-level replacement for the same fuel |
| CoreHelper.PlaceholderReplacement | Sources/BusinessRulesValidationCore/Util/BusinessRulesCoreHelper.swift:100-112 | the text a placeholder is replaced by is the looked-up value's text for that path |
| CoreHelper.EvaluateStep | Sources/BusinessRulesValidationCore/Util/BusinessRulesCoreHelper.swift:99-114 | one turn replaces the leftmost placeholder and spends one unit of fuel |
| CoreHelper.NoPlaceholderUnchanged | Sources/BusinessRulesValidationCore/Util/BusinessRulesCoreHelper.swift:96-118 | a string with fewer than two `#` is returned unchanged |
| CoreHelper.ResultHasNoPlaceholder | Sources/BusinessRulesValidationCore/Util/BusinessRulesCoreHelper.swift:99 | the result holds fewer than two `#` |
| CoreHelper.ReplacementRemovesTwoHashes | Sources/BusinessRulesValidationCore/Util/BusinessRulesCoreHelper.swift:100-113 | a replacement text without `#` removes exactly two hashes |
| CoreHelper.HashFreeTextsTerminate | Sources/BusinessRulesValidationCore/Util/BusinessRulesCoreHelper.swift:99-115 | with hash-free texts the loop ends within as many turns as there are hashes |
| CoreHelper.LengthIsEnoughFuel | Sources/BusinessRulesValidationCore/Util/BusinessRulesCoreHelper.swift:99-115 | with hash-free texts the string's length is enough fuel |
| StringExtensions.IsExternalCondition | Sources/BusinessRulesValidationCore/Extensions/StringExtensions.swift:26-28 | true iff the name starts with `ext.`, case-sensitively |
| StringExtensions.Components | Sources/BusinessRulesValidationCore/Extensions/StringExtensions.swift:56 | at least one piece |
| StringExtensions.ComponentsRoundTrip | Sources/BusinessRulesValidationCore/Extensions/StringExtensions.swift:56 | joining the `__` pieces with `__` gives the string back |
| StringExtensions.NonEmpty | Sources/BusinessRulesValidationCore/Extensions/StringExtensions.swift:56 | exactly the non-empty pieces, no more of them; the first kept piece is preceded only by empty ones; none kept iff all are empty |
| StringExtensions.SplitAll | Sources/BusinessRulesValidationCore/Extensions/StringExtensions.swift:62 | at least one piece, none containing the separator |
| StringExtensions.Split | Sources/BusinessRulesValidationCore/Extensions/StringExtensions.swift:62 | pieces are non-empty and free of the separator |
| StringExtensions.ParametersWellFormed | Sources/BusinessRulesValidationCore/Extensions/StringExtensions.swift:60-67 | every parameter key and value is non-empty and free of `:` |
| StringExtensions.ParametersKeys | Sources/BusinessRulesValidationCore/Extensions/StringExtensions.swift:60-67 | a key is a parameter iff some segment splits on `:` into exactly two pieces with that key |
| StringExtensions.AddParameterOtherKey | Sources/BusinessRulesValidationCore/Extensions/StringExtensions.swift:63-65 | a segment that does not name a key leaves its presence and value alone |
| StringExtensions.AddParameterOwnKey | Sources/BusinessRulesValidationCore/Extensions/StringExtensions.swift:63-65 | a segment naming a key sets it to the segment's value |
| StringExtensions.ParametersLastSegment | Sources/BusinessRulesValidationCore/Extensions/StringExtensions.swift:60-67 | a parameter's value comes from the last segment that names its key |
| StringExtensions.ExternalConditionNameAndArguments | Sources/BusinessRulesValidationCore/Extensions/StringExtensions.swift:51-72 | nothing for a name without `ext.`; for one with it, nothing iff every `__` segment after the prefix is empty; otherwise the condition is the first non-empty segment |
| StringExtensions.PrefixAloneIsNotACondition | Sources/BusinessRulesValidationCore/Extensions/StringExtensions.swift:56-71 | `ext.` alone names no condition |
| StringExtensions.ExternalParametersWellFormed | Sources/BusinessRulesValidationCore/Extensions/StringExtensions.swift:60-68 | every parsed parameter key and value is non-empty and free of `:` |
| StringExtensions.SubstringToFirstNonLetter | Sources/BusinessRulesValidationCore/Extensions/StringExtensions.swift:30-35 | the longest prefix made only of letters |
| StringExtensions.NormalizedName | Sources/BusinessRulesValidationCore/Extensions/StringExtensions.swift:45-46 | the lowercased name clipped before its first non-letter: a prefix of the lowercased name, all letters, and followed by a non-letter or nothing; a missing name counts as empty |
| StringExtensions.PersonGroupingIdentifier | Sources/BusinessRulesValidationCore/Extensions/StringExtensions.swift:44-49 | ends with the date of birth (empty when missing) after at least two characters, and when `_` is not a letter the part before the first `_` is the normalized family name |
| StringExtensions.LetterPrefixIsUnique | Sources/BusinessRulesValidationCore/Extensions/StringExtensions.swift:30-35 | a prefix made only of letters and followed by a non-letter or the end is the clipped string |
| StringExtensions.IdentifierOfParts | Sources/BusinessRulesValidationCore/Extensions/StringExtensions.swift:44-49 | the identifier is the normalized family name, `_`, the normalized given name, `_`, and the date of birth or nothing |
| StringExtensions.IndexOf | Sources/BusinessRulesValidationCore/Extensions/StringExtensions.swift:48 | the first occurrence of the character, or the length when there is none |
| StringExtensions.IndexOfAfterPrefix | Sources/BusinessRulesValidationCore/Extensions/StringExtensions.swift:48 | in a + c + b with no c in a, the first c follows a |
| StringExtensions.FirstUnderscoreSplits | Sources/BusinessRulesValidationCore/Extensions/StringExtensions.swift:48 | cutting at the first underscore recovers both parts when the first has none |
| StringExtensions.GroupingIdentifierDeterminesParts | Sources/BusinessRulesValidationCore/Extensions/StringExtensions.swift:44-49 | when `_` is not a letter, equal identifiers have equal normalized family names, given names and dates of birth |
| StringExtensions.NormalizedHasNoUnderscore | Sources/BusinessRulesValidationCore/Extensions/StringExtensions.swift:45-46 | a normalized name has no `_` when `_` is not a letter |
| StringExtensions.GroupingIdentifierClipsAtHyphen | Tests/BusinessRulesValidationCoreTests/GroupingIdentifierTests.swift:19-20 | hyphenated names are clipped at the hyphen: Mustermann-Mueller, Max-Peter, 1980-01-01 give `mustermann_max_1980-01-01` |
| StringExtensions.GroupingIdentifierClipsAtSpace | Tests/BusinessRulesValidationCoreTests/GroupingIdentifierTests.swift:18 | a given name is clipped at a space: Mustermann, Max Peter, 1980-01-01 give `mustermann_max_1980-01-01` |
| StringExtensions.GroupingIdentifierWithoutFamilyName | Tests/BusinessRulesValidationCoreTests/GroupingIdentifierTests.swift:24-25 | a missing or empty family name gives `_max_1980-01-01` |
| StringExtensions.GroupingIdentifierWithEmptyGivenName | Tests/BusinessRulesValidationCoreTests/GroupingIdentifierTests.swift:26 | an empty given name gives `mustermann__1980-01-01` |
| StringExtensions.GroupingIdentifierWithoutGivenName | Tests/BusinessRulesValidationCoreTests/GroupingIdentifierTests.swift:27 | a missing given name gives `mustermann__1980-01-01` |
| StringExtensions.GroupingIdentifierWithoutDateOfBirth | Tests/BusinessRulesValidationCoreTests/GroupingIdentifierTests.swift:28-29 | an empty or missing date of birth gives `mustermann_max_` |
| Validators.FailedConditions | Sources/BusinessRulesValidationCore/BusinessRuleValidator.swift:125 | no more names than results |
| Validators.FailedConditionsMembers | Sources/BusinessRulesValidationCore/BusinessRuleValidator.swift:125 | a name is listed iff a failure of that name is in the list |
| Validators.ViolationsOf | Sources/BusinessRulesValidationCore/BusinessRuleValidator.swift:129 | no more violations than results |
| Validators.ViolationsOfMembers | Sources/BusinessRulesValidationCore/BusinessRuleValidator.swift:129 | a violation is listed iff it is in the list as a violated result |
| Validators.NotFulfilledHasCause | Sources/BusinessRulesValidationCore/BusinessRuleValidator.swift:124-132 | a list that is not all fulfilled has a failed name or a violation |
| Validators.OrGroupOutcome | Sources/BusinessRulesValidationCore/BusinessRuleValidator.swift:227-250 | never empty; a fulfilled head means exactly `[fulfilled]`; no OR group gives `[fulfilled]` |
| Validators.OrGroupOutcomeCauses | Sources/BusinessRulesValidationCore/BusinessRuleValidator.swift:227-250 | `[fulfilled]` iff there is no OR group or some AND group is all fulfilled; otherwise all failures (every failed name of every group in order, or one empty name) or all violations (every violation of every group in order) |
| Validators.AllFailed | Sources/BusinessRulesValidationCore/BusinessRuleValidator.swift:244 | one failure per name, in order |
| Validators.AllFailedRoundTrip | Sources/BusinessRulesValidationCore/BusinessRuleValidator.swift:244 | reading the failures back gives the names, and no violation |
| Validators.AllViolated | Sources/BusinessRulesValidationCore/BusinessRuleValidator.swift:246 | one violated result per violation, in order |
| Validators.AllViolatedRoundTrip | Sources/BusinessRulesValidationCore/BusinessRuleValidator.swift:246 | reading the violations back gives them, and no failure |
| Validators.CausesSnoc | Sources/BusinessRulesValidationCore/BusinessRuleValidator.swift:239-240 | the causes up to a group are those before it followed by its own |
| Validators.NoGroupFulfilledYet | Sources/BusinessRulesValidationCore/BusinessRuleValidator.swift:236 | a group that is not all fulfilled keeps "none fulfilled so far" |
| Validators.ValidateConditionsInOrGroup | Sources/BusinessRulesValidationCore/BusinessRuleValidator.swift:227-250 | the loop that stops at the first fulfilled AND group returns the OR group's outcome and keeps the caches valid |
| Validators.LinkedStatus | Sources/BusinessRulesValidationCore/BusinessRuleValidator.swift:213-221 | fulfilled iff all fulfilled; failed iff not all fulfilled and some failed; violated only with some violation |
| Validators.ValidateLinkedConditions | Sources/BusinessRulesValidationCore/BusinessRuleValidator.swift:209-225 | one status per bundle, in order, each the bundle's status |
| Validators.LinkedResultsWhere | Sources/BusinessRulesValidationCore/BusinessRuleValidator.swift:201-202 | each result is a bundle with the asked status, no more of them than bundles |
| Validators.LinkedResultsWhereAppend | Sources/BusinessRulesValidationCore/BusinessRuleValidator.swift:201-202 | filtering bundles by status distributes over concatenation, so results keep the bundles' order; one bundle contributes itself exactly when its status matches |
| Validators.LinkedResultsWhereComplete | Sources/BusinessRulesValidationCore/BusinessRuleValidator.swift:201-202 | a bundle with the asked status appears in the results, between the results of the bundles before and after it |
| Validators.LinkedResultsPartition | Sources/BusinessRulesValidationCore/BusinessRuleValidator.swift:201-202 | the fulfilled and the other bundles together hold every bundle exactly once |
| Validators.LinkedConditionsForRuleSet | Sources/BusinessRulesValidationCore/BusinessRuleValidator.swift:198-206 | a pair iff the rule set has a non-empty bundle list, and then its two lists hold as many bundles as the rule set |
| Validators.LinkedConditionsLandByStatus | Sources/BusinessRulesValidationCore/BusinessRuleValidator.swift:198-206 | every bundle of a rule set with bundles lands in the fulfilled list when all its conditions are fulfilled and in the other list otherwise |
| Validators.ValidateLinkedConditionsForRuleSet | Sources/BusinessRulesValidationCore/BusinessRuleValidator.swift:198-206 | agrees with the value-level outcome and keeps the caches valid |
| Validators.TimeInGroups | Sources/BusinessRulesValidationCore/BusinessRuleValidator.swift:268-275 | a result iff the time string yields a date and some AND group is fulfilled; then the modified date, the format and the first fulfilled group |
| Validators.TimeOutcome | Sources/BusinessRulesValidationCore/BusinessRuleValidator.swift:267-282 | a result is the modified date with the time's format; without guard groups a result iff the string yields a date, with no conditions; recorded conditions are a fulfilled group of the guard |
| Validators.ValidateTime | Sources/BusinessRulesValidationCore/BusinessRuleValidator.swift:267-282 | agrees with the value-level outcome and keeps the caches valid |
| Validators.FirstFulfilledTime | Sources/BusinessRulesValidationCore/BusinessRuleValidator.swift:269-275 | the loop over the guard's groups agrees with the value-level search |
| Validators.InsertTime | Sources/BusinessRulesValidationCore/BusinessRuleValidator.swift:262-264 | inserting into a sorted list keeps it sorted and adds exactly the new result |
| Validators.HeadStaysAhead | Sources/BusinessRulesValidationCore/BusinessRuleValidator.swift:262-264 | a head that goes ahead of the new result stays ahead of the tail with it inserted |
| Validators.NothingAheadOf | Sources/BusinessRulesValidationCore/BusinessRuleValidator.swift:262-264 | when the head does not go ahead of the new result, it can go first |
| Validators.SortedCons | Sources/BusinessRulesValidationCore/BusinessRuleValidator.swift:262-264 | a result nothing goes ahead of can be put before a sorted list |
| Validators.SortTimes | Sources/BusinessRulesValidationCore/BusinessRuleValidator.swift:262-264 | sorted by the comparator and a permutation of the input |
| Validators.CollectTimes | Sources/BusinessRulesValidationCore/BusinessRuleValidator.swift:255-261 | no more results than times |
| Validators.CollectTimesMembers | Sources/BusinessRulesValidationCore/BusinessRuleValidator.swift:257-260 | every collected result is the outcome of one of the times |
| Validators.CollectTimesSingle | Sources/BusinessRulesValidationCore/BusinessRuleValidator.swift:255-261 | one time contributes its outcome when it resolves and nothing otherwise |
| Validators.CollectTimesSnoc | Sources/BusinessRulesValidationCore/BusinessRuleValidator.swift:255-261 | the last time's contribution comes last |
| Validators.CollectTimesAppend | Sources/BusinessRulesValidationCore/BusinessRuleValidator.swift:255-261 | collecting distributes over concatenation of the times, so results keep the times' order |
| Validators.CollectTimesComplete | Sources/BusinessRulesValidationCore/BusinessRuleValidator.swift:255-261 | every time that resolves contributes its outcome, in its place between the outcomes of the times before and after it |
| Validators.CollectTimesContains | Sources/BusinessRulesValidationCore/BusinessRuleValidator.swift:255-261 | the outcome of every time that resolves is among the collected results |
| Validators.TimesOutcome | Sources/BusinessRulesValidationCore/BusinessRuleValidator.swift:252-265 | nothing without times; otherwise sorted, and a permutation of the collected results |
| Validators.ValidateTimes | Sources/BusinessRulesValidationCore/BusinessRuleValidator.swift:252-265 | agrees with the value-level outcome and keeps the caches valid |
| Validators.FirstMatching | Sources/BusinessRulesValidationCore/BusinessRuleValidator.swift:140-145 | nothing iff no entry matches; otherwise the name of the first matching entry |
| Validators.FirstMatchingGroupIsFirst | Sources/BusinessRulesValidationCore/BusinessRuleValidator.swift:140-145 | the search finds the first target group whose OR group is all fulfilled, or none iff none is |
| Validators.ValidatorOutcome | Sources/BusinessRulesValidationCore/BusinessRuleValidator.swift:100-155 | a valid result names the region asked for and lists its times in the promised orders |
| Validators.RulesOutcome | Sources/BusinessRulesValidationCore/BusinessRuleValidator.swift:101-154 | a valid result names the region asked for and lists its times in the promised orders |
| Validators.DecideRule | Sources/BusinessRulesValidationCore/BusinessRuleValidator.swift:102-152 | a decision that is valid names the region and orders its times |
| Validators.ChosenRuleSet | Sources/BusinessRulesValidationCore/BusinessRuleValidator.swift:135-152 | the rule set under `all` unless the rule uses groups and the keys are not just `all`; then the given group's rule set; always one of the profile's rule sets |
| Validators.SelectedRuleSetOutcome | Sources/BusinessRulesValidationCore/BusinessRuleValidator.swift:135-152 | a missing profile gives no result; valid results are well formed |
| Validators.RuleSetOutcome | Sources/BusinessRulesValidationCore/BusinessRuleValidator.swift:157-196 | valid results are well formed; running out of fuel happens only on a delegation |
| Validators.DelegatedOutcome | Sources/BusinessRulesValidationCore/BusinessRuleValidator.swift:158-177 | a well-formed delegated result stays well formed; out of fuel exactly when the delegated evaluation was |
| Validators.GuardedOutcome | Sources/BusinessRulesValidationCore/BusinessRuleValidator.swift:178-195 | always an evaluated, well-formed outcome |
| Validators.FindMatchingGroup | Sources/BusinessRulesValidationCore/BusinessRuleValidator.swift:139-146 | the loop finds the value-level first matching group and keeps the caches valid |
| Validators.EvaluateCertificateWithValidator | Sources/BusinessRulesValidationCore/BusinessRuleValidator.swift:100-155 | the loop over the rules agrees with the value-level outcome and keeps the caches valid |
| Validators.ApplyRule | Sources/BusinessRulesValidationCore/BusinessRuleValidator.swift:102-121 | one turn agrees with the value-level decision |
| Validators.ApplyGeneralConditions | Sources/BusinessRulesValidationCore/BusinessRuleValidator.swift:123-152 | the rest of the turn agrees with the value-level decision |
| Validators.ChooseRuleSet | Sources/BusinessRulesValidationCore/BusinessRuleValidator.swift:137-150 | agrees with the value-level choice |
| Validators.ValidateSelectedRuleSet | Sources/BusinessRulesValidationCore/BusinessRuleValidator.swift:135-152 | agrees with the value-level outcome |
| Validators.ValidateRuleSet | Sources/BusinessRulesValidationCore/BusinessRuleValidator.swift:157-196 | agrees with the value-level outcome |
| Validators.ReissueDelegated | Sources/BusinessRulesValidationCore/BusinessRuleValidator.swift:160-177 | agrees with the value-level delegation half |
| Validators.ValidateGuardedRuleSet | Sources/BusinessRulesValidationCore/BusinessRuleValidator.swift:179-194 | agrees with the value-level guarded half |
| Validators.RuleDecidesPastItsGates | Sources/BusinessRulesValidationCore/BusinessRuleValidator.swift:101-133 | a rule ends the loop iff it passes the four gates (schema version, validity, region, certificate type) and its certificate type conditions are all fulfilled; then failed general conditions make an error naming them, violated ones make an invalid result with exactly those violations, and all-fulfilled ones hand over to the selected rule set |
| Validators.RuleSetWithoutDelegationDecides | Sources/BusinessRulesValidationCore/BusinessRuleValidator.swift:178-195 | without delegation there is always a result and never an error; a rule set marked invalid is invalid with no violations; otherwise valid iff the guard gives `[fulfilled]`, and invalid with the guard's violations when it does not; a valid result names this profile and has no bundles when there are none |
| Validators.SkippedPrefixIsIrrelevant | Sources/BusinessRulesValidationCore/BusinessRuleValidator.swift:101-153 | skipped rules at the front can be dropped |
| Validators.FirstDecidingRuleDecides | Sources/BusinessRulesValidationCore/BusinessRuleValidator.swift:101-153 | the outcome is the decision of the first rule that decides |
| Validators.NoDecidingRuleNoResult | Sources/BusinessRulesValidationCore/BusinessRuleValidator.swift:154 | when every rule is skipped there is no result |
| Validators.SkippedRuleIsIrrelevant | Sources/BusinessRulesValidationCore/BusinessRuleValidator.swift:101-153 | removing a skipped rule anywhere does not change the outcome |
| Validators.DelegationIgnoresOwnGuard | Sources/BusinessRulesValidationCore/BusinessRuleValidator.swift:158-177 | a delegating rule set's guard and invalid marker do not matter |
| Validators.DelegationPassesOnVerbatim | Sources/BusinessRulesValidationCore/BusinessRuleValidator.swift:158-177 | a delegation passes the other profile's outcome on unchanged when there are no bundles, and also when that outcome is anything but a valid result, bundles or not |
| Validators.FailedGuardIsInvalidWithoutViolations | Sources/BusinessRulesValidationCore/BusinessRuleValidator.swift:182-192 | a failed guard gives an invalid result with no violations, not an error |
| Validators.MoreFuelValidator | Sources/BusinessRulesValidationCore/BusinessRuleValidator.swift:100-155 | more fuel does not change an outcome that did not run out |
| Validators.MoreFuelRules | Sources/BusinessRulesValidationCore/BusinessRuleValidator.swift:101-154 | more fuel does not change the loop's outcome that did not run out |
| Validators.MoreFuelDecide | Sources/BusinessRulesValidationCore/BusinessRuleValidator.swift:102-152 | more fuel does not change a decision that did not run out |
| Validators.MoreFuelSelected | Sources/BusinessRulesValidationCore/BusinessRuleValidator.swift:135-152 | more fuel does not change the selected rule set's outcome that did not run out |
| Validators.MoreFuelRuleSet | Sources/BusinessRulesValidationCore/BusinessRuleValidator.swift:157-196 | more fuel does not change a rule set's outcome that did not run out |
| Validators.FuelBeyondNeedIsIrrelevant | Sources/BusinessRulesValidationCore/BusinessRuleValidator.swift:159 | any fuel beyond one that suffices gives the same outcome |
| Validators.ValidatorFor | Sources/BusinessRulesValidationCore/BusinessRuleValidator.swift:82-95 | the validator shares the document's conditions, the evaluator and strategy, and the region, profile and type asked for |
| Validators.CertificateOutcome | Sources/BusinessRulesValidationCore/BusinessRuleValidator.swift:81-98 | valid results are well formed; a document without rules gives no result |
| Validators.EvaluateCertificate | Sources/BusinessRulesValidationCore/BusinessRuleValidator.swift:81-98 | agrees with the value-level outcome and keeps the caches valid |
| Validators.ProfilesToEvaluate | Sources/BusinessRulesValidationCore/BusinessRuleValidator.swift:61 | the profiles asked for, or else the ids of all profiles in order |
| Validators.EvaluateCertificateForProfiles | Sources/BusinessRulesValidationCore/BusinessRuleValidator.swift:59-67 | a profile has an entry iff it is evaluated and yields a result, and the entry is that result; `tooDeep` holds exactly the profiles that ran out of fuel |

Some predicates of the source carry no contract of their own; the lemmas in the table state them:

- `DateExtensions.IsBefore` and `DateExtensions.IsAfter` by `DateExtensions.ComparisonsAreStrict`;
- `BusinessRules.BusinessRule.IsValid` by `BusinessRules.ValidityIsStrict`;
- `BusinessRules.BusinessRule.IsApplicableForRegion` by `BusinessRules.RegionGate`;
- `BusinessRules.BusinessRule.UsesTargetGroups` by `BusinessRules.UsesTargetGroupsIff`;
- `BusinessRules.BusinessRule.IsCompatibleToSupportedSchemaVersion` by `Validators.RuleDecidesPastItsGates`, as the first of the four gates;
- `Results.ResultEq` and `Results.RuleResultEq` by `Results.ResultEqIsEquivalence`, `Results.RuleResultEqIsEquivalence`, `Results.InvalidAndErrorEquality` and `Results.DifferentCasesDiffer`.

## Left out

- **Libraries called into.** The JsonLogic parser and evaluator, the JSON text parser, ISO-8601 date parsing, and the JSON encoder of the external parameters are separate libraries. They are parameters of type `CertificateValidators.Platform`, and nothing is assumed of them. JSON text is not parsed, so `CoreHelper.Json` values are given.
- **Foundation's calendar.** Time zones, daylight saving and the Gregorian rules behind `Calendar.autoupdatingCurrent` are uninterpreted functions of `DateExtensions.Calendar`. `Total` and `Regular` state the facts the lemmas rely on.
- **Time resolution.** Swift's `Date` is a floating-point `TimeInterval`. Here it is a whole number of seconds, so sub-second offsets are not modelled.
- DateExtensions.DateByAddingUnitAndValue: minutes and hours are added as exactly 60 and 3600 seconds per unit. The source goes through the calendar for them too (Sources/BusinessRulesValidationCore/Extensions/DateExtensions.swift:64-71), so a daylight-saving change inside the interval is not reflected.
- **Text formatting.** `formattedShortDate` and the text of a `Double` in placeholder substitution are parameters of type `CoreHelper.Formatters`. Their locale-dependent formats are not modelled.
- **Codable decoding and encoding.** The following are deserialisation plumbing, not rule interpretation, and are not modelled:
  - `BusinessRuleContainer.parsedFrom`;
  - every `init(from:)` and `encode(to:)`;
  - the language-key handling of `LocalizedValue` while decoding.
- **The external evaluator.** Its implementation belongs to the caller, and it is a function parameter. The `originalCertificateObject` that the source only passes on to it is not modelled.
- **Delegation depth.** In the source, `equalToProfile` chains have no cycle guard, and a cycle would recurse forever. The model bounds delegation by a fuel count: `Validators.Evaluation.DelegationTooDeep`, and the `tooDeep` set of the multi-profile method, mark where the fuel ran out.
- **Placeholder replacement.** The source's `while` loop need not terminate, because a substituted value may contain another `#…#`. The model bounds it by a fuel count.
  - `CoreHelper.HashFreeTextsTerminate` shows that the loop ends whenever substituted texts contain no `#`.
  - `CoreHelper.LengthIsEnoughFuel` shows that the length of the string is then enough fuel.
- **Swift string semantics.** Swift compares and indexes strings by extended grapheme cluster, and its equality is canonical equivalence. Here a string is a sequence of Unicode scalars, compared scalar by scalar. This affects `hasPrefix("ext.")`, `dropFirst(4)`, `split` and `components(separatedBy:)`, string `==`, `Dictionary` keys, and `Character.isLetter` in `substringToFirstNonLetter` (Sources/BusinessRulesValidationCore/Extensions/StringExtensions.swift:26-35,52-67). Inputs that differ only in normalisation or in combining marks may be treated differently by the model and by the source.
- **Thread safety.** Concurrent calls to the `CertificateCondition` parse cache are out of scope; the model is single-threaded.
- **Certificate types.** The raw values of `BusinessRuleCertificateType` and `CertificateType` are not part of this model. They are taken to be `vaccination`, `test`, `recovery` and `vaccinationExemption`. Case-insensitive comparison is the `fold` parameter.
- **Sorting.** `sorted(by:)` of validity times is modelled as a stable insertion sort. It is specified as sorted plus a permutation, so where Swift's sort breaks ties differently, equal times may appear in another order.
- RuleSets.RuleSetLint: its own ensures states only the kinds of errors it reports. The order of the parts and the reported names are stated by the lemmas next to it.
