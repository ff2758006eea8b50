/**
 * `BusinessRulesCoreHelper`: the evaluation context string, the JsonLogic
 * call, and the `#…#` placeholders that look values up in the evaluation
 * context.
 */
module CoreHelper {
  import opened Wrappers
  import opened DateExtensions
  import opened StringExtensions
  import opened CertificateConditions

  /**
   * The values of the JSON library, as far as this code tells them apart.
   * Parsing JSON text into a value is not part of this model.
   */
  datatype Json =
    | JsonNull
    | JsonError
    | JsonBool(b: bool)
    | JsonInt(i: int)
    | JsonDouble(d: real)
    | JsonString(s: string)
    | JsonDate(date: Instant)
    | JsonArray(items: seq<Json>)
    | JsonDictionary(members: map<string, Json>)

  const ExternalKey: string := "{\"external\":"
  const PayloadKey: string := ",\"payload\":"

  /**
   * `getJSONStringForValidation`: the external parameters and the payload
   * under the keys `external` and `payload` of one object.
   */
  function JsonStringForValidation(externalJsonString: string, payload: string): (r: string)
    ensures |r| == |ExternalKey| + |externalJsonString| + |PayloadKey| + |payload| + 1
    ensures r[..|ExternalKey|] == ExternalKey
    ensures r[|ExternalKey|..|ExternalKey| + |externalJsonString|] == externalJsonString
    ensures r[|ExternalKey| + |externalJsonString|..|ExternalKey| + |externalJsonString| + |PayloadKey|] == PayloadKey
    ensures r[|ExternalKey| + |externalJsonString| + |PayloadKey|..|r| - 1] == payload
    ensures r[|r| - 1] == '}'
  {
    ExternalKey + externalJsonString + PayloadKey + payload + "}"
  }

  /** Given the length of the external part, the validation string determines both parts. */
  lemma JsonStringForValidationDeterminesParts(e1: string, p1: string, e2: string, p2: string)
    requires |e1| == |e2|
    requires JsonStringForValidation(e1, p1) == JsonStringForValidation(e2, p2)
    ensures e1 == e2 && p1 == p2
  {
    var r := JsonStringForValidation(e1, p1);
    assert e1 == r[|ExternalKey|..|ExternalKey| + |e1|] == e2;
    assert p1 == r[|ExternalKey| + |e1| + |PayloadKey|..|r| - 1] == p2;
  }

  /** `ExternalParameter`: what the rules see under `external`. */
  datatype ExternalParameter = ExternalParameter(
    validationClock: Instant,
    valueSets: map<string, seq<string>>,
    issuerCountryCode: string,
    exp: Instant,
    iat: Instant)

  /**
   * `getExternalParameterStringForValidation`: the encoded external
   * parameters, or the empty string when encoding fails. The JSON encoder
   * is the parameter `encode`.
   */
  function ExternalParameterString(encode: ExternalParameter -> Option<string>, certificateIssueDate: Instant,
                                   certificateExpiresDate: Instant, countryCode: string,
                                   valueSets: map<string, seq<string>>, validationClock: Instant): (r: string)
    ensures var p := ExternalParameter(validationClock, valueSets, countryCode, certificateExpiresDate, certificateIssueDate);
      r == (if encode(p).Some? then encode(p).value else "")
  {
    var parameter := ExternalParameter(validationClock, valueSets, countryCode, certificateExpiresDate, certificateIssueDate);
    encode(parameter).GetOr("")
  }

  /**
   * `jsonObjectForValidation(forCertificatePayload:externalParameter:)`:
   * the validation string read back by the JSON parser `parseJson`.
   */
  function JsonObjectForValidation(parseJson: string -> Option<Json>, certificatePayload: string,
                                   externalParameter: string): (r: Option<Json>)
    ensures r == parseJson(ExternalKey + externalParameter + PayloadKey + certificatePayload + "}")
  {
    parseJson(JsonStringForValidation(externalParameter, certificatePayload))
  }

  /**
   * `evaluateBooleanRule`: nothing without a rule; otherwise what the
   * JsonLogic library answers, `None` standing for a thrown error. The
   * library itself is the parameter `apply`. The validation object is
   * handed on even when it is nil.
   */
  function EvaluateBooleanRule(rule: Option<JsonLogic>, validationObject: Option<Json>,
                               apply: (JsonLogic, Option<Json>) -> Option<bool>): (r: Option<bool>)
    ensures rule.None? ==> r.None?
    ensures r.Some? ==> apply(rule.value, validationObject) == r
  {
    match rule
    case None => None
    case Some(logic) => apply(logic, validationObject)
  }

  // ----- Integers as text -----

  const Int64Min: int := -0x8000_0000_0000_0000
  const Int64Max: int := 0x7FFF_FFFF_FFFF_FFFF

  predicate IsDigit(c: char)
  {
    '0' <= c <= '9'
  }

  predicate AllDigits(s: string)
  {
    forall i :: 0 <= i < |s| ==> IsDigit(s[i])
  }

  /** The value of a run of decimal digits. */
  function DigitsValue(s: string): nat
    requires AllDigits(s)
    decreases |s|
  {
    if s == [] then 0 else 10 * DigitsValue(s[..|s| - 1]) + (s[|s| - 1] - '0') as nat
  }

  /** `Int(_:)` on a string: an optional sign, one or more digits, and a value that fits 64 bits. */
  function ParseInt(s: string): (r: Option<int>)
    ensures r.Some? ==> Int64Min <= r.value <= Int64Max
    ensures r.Some? ==> s != [] && (IsDigit(s[0]) || s[0] == '-' || s[0] == '+')
  {
    var negative := |s| > 0 && s[0] == '-';
    var digits := if |s| > 0 && (s[0] == '-' || s[0] == '+') then s[1..] else s;
    if digits == [] || !AllDigits(digits) then None
    else
      var value: int := if negative then -(DigitsValue(digits) as int) else DigitsValue(digits);
      if Int64Min <= value <= Int64Max then Some(value) else None
  }

  /** The decimal digits of `n`, without leading zeros. */
  function NatText(n: nat): (r: string)
    ensures r != [] && AllDigits(r)
    ensures DigitsValue(r) == n
    decreases n
  {
    var digit := ['0' + (n % 10) as char];
    if n < 10 then digit
    else
      var r := NatText(n / 10) + digit;
      assert r[..|r| - 1] == NatText(n / 10);
      r
  }

  /** `"\(int)"`: the decimal text of an integer, with a minus sign when negative. */
  function DecimalText(i: int): (r: string)
    ensures Int64Min <= i <= Int64Max ==> ParseInt(r) == Some(i)
  {
    if i < 0 then "-" + NatText(-i) else NatText(i)
  }

  // ----- Placeholder lookup -----

  /** The JSON library's subscript by key: the member of a dictionary; nothing otherwise. */
  function Member(j: Json, key: string): (r: Option<Json>)
    ensures r.Some? <==> j.JsonDictionary? && key in j.members
    ensures r.Some? ==> r.value == j.members[key]
  {
    match j
    case JsonDictionary(members) => if key in members then Some(members[key]) else None
    case _ => None
  }

  /**
   * One step of the path: at an array, a key reading as an index in range
   * selects that element and any other key is a member lookup; elsewhere
   * the key is a member lookup. Once off the object, the path stays off.
   */
  function Descend(current: Option<Json>, key: string): (r: Option<Json>)
    ensures current.None? ==> r.None?
    ensures (current.Some? && current.value.JsonArray? && ParseInt(key).Some? &&
             0 <= ParseInt(key).value < |current.value.items|) ==> r == Some(current.value.items[ParseInt(key).value])
    ensures current.Some? && !current.value.JsonArray? ==> r == Member(current.value, key)
  {
    match current
    case None => None
    case Some(JsonArray(items)) =>
      var index := ParseInt(key);
      if index.Some? && 0 <= index.value < |items| then Some(items[index.value]) else Member(current.value, key)
    case Some(j) => Member(j, key)
  }

  /** The object reached by following the pieces one after the other. */
  function FollowPath(validationObject: Option<Json>, pieces: seq<string>): Option<Json>
    decreases |pieces|
  {
    if pieces == [] then validationObject
    else Descend(FollowPath(validationObject, pieces[..|pieces| - 1]), pieces[|pieces| - 1])
  }

  /** The value of a placeholder path: its `.`-separated pieces followed from the object, `Null` when off it. */
  function PlaceholderValue(variablePath: string, validationObject: Option<Json>): Json
  {
    FollowPath(validationObject, Split(variablePath, '.')).GetOr(JsonNull)
  }

  /** `evaluatePlaceholderSubstitution(withValue:onValidationObject:)`. */
  method EvaluatePlaceholderSubstitution(variablePath: string, validationObject: Option<Json>) returns (r: Json)
    ensures r == PlaceholderValue(variablePath, validationObject)
  {
    var parts := Split(variablePath, '.');
    var partialResult := validationObject;
    for i := 0 to |parts|
      invariant partialResult == FollowPath(validationObject, parts[..i])
    {
      assert parts[..i + 1][..i] == parts[..i];
      var key := parts[i];
      if partialResult.Some? && partialResult.value.JsonArray? {
        var index := ParseInt(key);
        if index.Some? && 0 <= index.value < |partialResult.value.items| {
          partialResult := Some(partialResult.value.items[index.value]);
        } else {
          partialResult := Member(partialResult.value, key);
        }
      } else if partialResult.Some? {
        partialResult := Member(partialResult.value, key);
      }
    }
    assert parts[..|parts|] == parts;
    r := partialResult.GetOr(JsonNull);
  }

  /** Following a path in two parts is following the second part from where the first one ends. */
  lemma {:induction false} FollowPathAppend(validationObject: Option<Json>, first: seq<string>, second: seq<string>)
    ensures FollowPath(validationObject, first + second) == FollowPath(FollowPath(validationObject, first), second)
    decreases |second|
  {
    if second == [] {
      assert first + second == first;
    } else {
      var init := second[..|second| - 1];
      assert (first + second)[..|first + second| - 1] == first + init;
      FollowPathAppend(validationObject, first, init);
    }
  }

  /** A path that falls off the object stays off it, however it goes on. */
  lemma {:induction false} OffTheObjectStaysOff(validationObject: Option<Json>, first: seq<string>, second: seq<string>)
    requires FollowPath(validationObject, first).None?
    ensures FollowPath(validationObject, first + second).None?
    decreases |second|
  {
    if second == [] {
      assert first + second == first;
    } else {
      var init := second[..|second| - 1];
      assert (first + second)[..|first + second| - 1] == first + init;
      OffTheObjectStaysOff(validationObject, first, init);
    }
  }

  /** A path without pieces (only dots, or nothing) yields the object itself, or `Null` when there is none. */
  lemma EmptyPathYieldsObject(variablePath: string, validationObject: Option<Json>)
    requires Split(variablePath, '.') == []
    ensures PlaceholderValue(variablePath, validationObject) == validationObject.GetOr(JsonNull)
  {
  }

  // ----- Placeholders in strings -----

  /**
   * The leftmost match of `#[^#]*#`: the first `#` and the next `#` after
   * it, when there are two.
   */
  function FirstPlaceholder(s: string): (r: Option<(nat, nat)>)
    ensures r.Some? ==> r.value.0 < r.value.1 < |s| && s[r.value.0] == '#' && s[r.value.1] == '#'
    ensures r.Some? ==> forall m :: 0 <= m < r.value.1 && m != r.value.0 ==> s[m] != '#'
    ensures r.None? ==> forall m, n :: 0 <= m < n < |s| ==> s[m] != '#' || s[n] != '#'
  {
    var i := NextHash(s, 0);
    if i == |s| then None
    else
      var j := NextHash(s, i + 1);
      if j == |s| then None else Some((i, j))
  }

  /** The index of the first `#` at or after `from`, or `|s|` when there is none. */
  function NextHash(s: string, from: nat): (r: nat)
    requires from <= |s|
    ensures from <= r <= |s|
    ensures forall m :: from <= m < r ==> s[m] != '#'
    ensures r < |s| ==> s[r] == '#'
    decreases |s| - from
  {
    if from == |s| then |s| else if s[from] == '#' then from else NextHash(s, from + 1)
  }

  /** Counting `c` in `a + [c] + b`. */
  lemma CountAround(a: string, c: char, b: string)
    ensures multiset(a + [c] + b)[c] == multiset(a)[c] + 1 + multiset(b)[c]
  {
    assert multiset(a + [c] + b) == multiset(a) + multiset{c} + multiset(b);
  }

  /** A string around two of its positions. */
  lemma Around(s: string, i: int, j: int)
    requires 0 <= i < j < |s|
    ensures s == s[..i] + [s[i]] + s[i + 1..j] + [s[j]] + s[j + 1..]
  {
  }

  /** A string without `c` counts no `c`. */
  lemma CountAbsent(s: string, c: char)
    requires c !in s
    ensures multiset(s)[c] == 0
  {
  }

  /** There is a placeholder exactly when the string has at least two `#`. */
  lemma PlaceholderIffTwoHashes(s: string)
    ensures FirstPlaceholder(s).None? <==> multiset(s)['#'] < 2
  {
    var i := NextHash(s, 0);
    if i == |s| {
      assert '#' !in s;
      CountAbsent(s, '#');
    } else if FirstPlaceholder(s).None? {
      OneHashCounted(s, i);
    } else {
      TwoHashesCounted(s, i, FirstPlaceholder(s).value.1);
    }
  }

  /** A string whose only `#` is at `i` counts one. */
  lemma OneHashCounted(s: string, i: nat)
    requires i < |s| && s[i] == '#'
    requires forall m :: 0 <= m < |s| && m != i ==> s[m] != '#'
    ensures multiset(s)['#'] == 1
  {
    assert s == s[..i] + ['#'] + s[i + 1..];
    CountAround(s[..i], '#', s[i + 1..]);
    assert '#' !in s[..i];
    assert '#' !in s[i + 1..];
    CountAbsent(s[..i], '#');
    CountAbsent(s[i + 1..], '#');
  }

  /** A string with `#` at two positions counts at least two. */
  lemma TwoHashesCounted(s: string, i: nat, j: nat)
    requires i < j < |s| && s[i] == '#' && s[j] == '#'
    ensures multiset(s)['#'] >= 2
  {
    Around(s, i, j);
    CountAround(s[..i], '#', s[i + 1..j] + [s[j]] + s[j + 1..]);
    assert s[..i] + [s[i]] + s[i + 1..j] + [s[j]] + s[j + 1..] == s[..i] + ['#'] + (s[i + 1..j] + ['#'] + s[j + 1..]);
    CountAround(s[i + 1..j], '#', s[j + 1..]);
  }

  /** `replacingOccurrences(of: "#", with: "")`. */
  function RemovingHashes(s: string): string
    decreases |s|
  {
    if s == [] then []
    else if s[0] == '#' then RemovingHashes(s[1..])
    else [s[0]] + RemovingHashes(s[1..])
  }

  /** The text formatting of Foundation: `"\(double)"` and `formattedShortDate()`. */
  datatype Formatters = Formatters(doubleText: real -> string, shortDate: Instant -> string)

  /**
   * The text that replaces a placeholder: nothing for `Null`, errors,
   * booleans, arrays and dictionaries; the decimal text of an integer;
   * the string itself; the formatted double or date.
   */
  function ValueText(v: Json, formatters: Formatters): (r: string)
    ensures v.JsonNull? || v.JsonError? || v.JsonBool? || v.JsonArray? || v.JsonDictionary? ==> r == ""
    ensures v.JsonInt? && Int64Min <= v.i <= Int64Max ==> ParseInt(r) == Some(v.i)
    ensures v.JsonString? ==> r == v.s
    ensures v.JsonDouble? ==> r == formatters.doubleText(v.d)
    ensures v.JsonDate? ==> r == formatters.shortDate(v.date)
  {
    match v
    case JsonInt(i) => DecimalText(i)
    case JsonDouble(d) => formatters.doubleText(d)
    case JsonString(s) => s
    case JsonDate(date) => formatters.shortDate(date)
    case _ => ""
  }

  /** The text a placeholder path is replaced by, for a given evaluation context. */
  function PlaceholderText(validationObject: Option<Json>, formatters: Formatters): string -> string
  {
    path => ValueText(PlaceholderValue(path, validationObject), formatters)
  }

  /**
   * One turn of the loop: the leftmost placeholder replaced by the text of
   * its path; nothing when there is no placeholder. The Swift code removes
   * every `#` from the match to get the path; that leaves exactly the text
   * between the two hashes (`MatchWithoutHashesIsInterior`).
   */
  function ReplaceFirstPlaceholder(s: string, text: string -> string): (r: Option<string>)
    ensures r.None? <==> FirstPlaceholder(s).None?
  {
    match FirstPlaceholder(s)
    case None => None
    case Some((i, j)) => Some(s[..i] + text(s[i + 1..j]) + s[j + 1..])
  }

  /** Removing every `#` from a match of `#[^#]*#` leaves the text between its hashes. */
  lemma MatchWithoutHashesIsInterior(s: string)
    requires FirstPlaceholder(s).Some?
    ensures var (i, j) := FirstPlaceholder(s).value;
      RemovingHashes(s[i..j + 1]) == s[i + 1..j]
  {
    var (i, j) := FirstPlaceholder(s).value;
    assert s[i..j + 1] == [s[i]] + s[i + 1..j] + [s[j]];
    assert '#' !in s[i + 1..j];
    RemovingHashesAround(s[i + 1..j]);
  }

  /** Removing the hashes of `#x#` gives `x` when `x` has none. */
  lemma RemovingHashesAround(x: string)
    requires '#' !in x
    ensures RemovingHashes(['#'] + x + ['#']) == x
  {
    assert (['#'] + x + ['#'])[1..] == x + ['#'];
    RemovingHashesAppend(x);
  }

  lemma {:induction false} RemovingHashesAppend(x: string)
    requires '#' !in x
    ensures RemovingHashes(x + ['#']) == x
    decreases |x|
  {
    if x == [] {
      assert x + ['#'] == ['#'];
    } else {
      assert x[0] in x;
      assert (x + ['#'])[1..] == x[1..] + ['#'];
      RemovingHashesAppend(x[1..]);
    }
  }

  /**
   * The `while` loop, bounded by `fuel` replacements: the string once no
   * placeholder is left, or `None` when the fuel runs out first.
   */
  function EvaluatePlaceholders(s: string, text: string -> string, fuel: nat): (r: Option<string>)
    ensures r.Some? ==> FirstPlaceholder(r.value).None?
    decreases fuel
  {
    match ReplaceFirstPlaceholder(s, text)
    case None => Some(s)
    case Some(next) => if fuel == 0 then None else EvaluatePlaceholders(next, text, fuel - 1)
  }

  /**
   * `evaluatePlaceholdersInString(_:onValidationObject:)`, with at most
   * `fuel` replacements.
   */
  method EvaluatePlaceholdersInString(s: string, validationObject: Option<Json>, formatters: Formatters, fuel: nat)
    returns (r: Option<string>)
    ensures r == EvaluatePlaceholders(s, PlaceholderText(validationObject, formatters), fuel)
  {
    r := ReplacePlaceholders(s, validationObject, formatters, PlaceholderText(validationObject, formatters), fuel);
  }

  /**
   * The loop of `evaluatePlaceholdersInString`: `text` names the text each
   * path is replaced by, which the loop computes by looking the path up.
   */
  method ReplacePlaceholders(s: string, validationObject: Option<Json>, formatters: Formatters,
                             text: string -> string, fuel: nat)
    returns (r: Option<string>)
    requires forall path {:trigger PlaceholderValue(path, validationObject)} ::
      text(path) == ValueText(PlaceholderValue(path, validationObject), formatters)
    ensures r == EvaluatePlaceholders(s, text, fuel)
  {
    var evaluationString := s;
    var remaining := fuel;
    var placeHolderRange := FirstPlaceholder(evaluationString);
    while placeHolderRange.Some?
      invariant placeHolderRange == FirstPlaceholder(evaluationString)
      invariant EvaluatePlaceholders(evaluationString, text, remaining) == EvaluatePlaceholders(s, text, fuel)
      decreases remaining
    {
      if remaining == 0 {
        OutOfFuel(evaluationString, text);
        return None;
      }
      var (i, j) := placeHolderRange.value;
      var placeholder := evaluationString[i + 1..j];
      var replacement := PlaceholderReplacement(placeholder, validationObject, formatters, text);
      EvaluateStep(evaluationString, text, remaining, i, j, replacement);
      evaluationString := ReplaceSubrange(evaluationString, i, j, replacement);
      remaining := remaining - 1;
      placeHolderRange := FirstPlaceholder(evaluationString);
    }
    NoPlaceholderLeft(evaluationString, text, remaining);
    r := Some(evaluationString);
  }

  /** The `switch` of the loop: the text that replaces the placeholder naming `placeholder`. */
  method PlaceholderReplacement(placeholder: string, validationObject: Option<Json>, formatters: Formatters,
                                ghost text: string -> string)
    returns (replacement: string)
    requires forall path {:trigger PlaceholderValue(path, validationObject)} ::
      text(path) == ValueText(PlaceholderValue(path, validationObject), formatters)
    ensures replacement == text(placeholder)
  {
    var placeholderValue := EvaluatePlaceholderSubstitution(placeholder, validationObject);
    replacement := ValueText(placeholderValue, formatters);
  }

  /** A placeholder found with no fuel left gives no result. */
  lemma OutOfFuel(s: string, text: string -> string)
    requires FirstPlaceholder(s).Some?
    ensures EvaluatePlaceholders(s, text, 0).None?
  {
  }

  /** Without a placeholder the string is the result. */
  lemma NoPlaceholderLeft(s: string, text: string -> string, fuel: nat)
    requires FirstPlaceholder(s).None?
    ensures EvaluatePlaceholders(s, text, fuel) == Some(s)
  {
  }

  /** A turn of the loop that finds a placeholder spends one unit of fuel. */
  lemma EvaluateStep(s: string, text: string -> string, fuel: nat, i: nat, j: nat, replacement: string)
    requires FirstPlaceholder(s) == Some((i, j)) && fuel > 0
    requires j < |s| && replacement == text(s[i + 1..j])
    ensures EvaluatePlaceholders(s, text, fuel) == EvaluatePlaceholders(ReplaceSubrange(s, i, j, replacement), text, fuel - 1)
  {
  }

  /** `replaceSubrange(_:with:)` of the characters from `i` to `j`, both included. */
  function ReplaceSubrange(s: string, i: nat, j: nat, t: string): string
    requires i <= j < |s|
  {
    s[..i] + t + s[j + 1..]
  }

  /** A string without a `#…#` placeholder is returned as it is. */
  lemma NoPlaceholderUnchanged(s: string, text: string -> string, fuel: nat)
    requires multiset(s)['#'] < 2
    ensures EvaluatePlaceholders(s, text, fuel) == Some(s)
  {
    PlaceholderIffTwoHashes(s);
  }

  /** What the loop returns has fewer than two `#` left. */
  lemma ResultHasNoPlaceholder(s: string, text: string -> string, fuel: nat)
    requires EvaluatePlaceholders(s, text, fuel).Some?
    ensures multiset(EvaluatePlaceholders(s, text, fuel).value)['#'] < 2
  {
    PlaceholderIffTwoHashes(EvaluatePlaceholders(s, text, fuel).value);
  }

  /** No replacement text contains `#`. */
  ghost predicate HashFree(text: string -> string)
  {
    forall path :: '#' !in text(path)
  }

  /** A replacement whose text has no `#` removes exactly the two hashes of the placeholder. */
  lemma ReplacementRemovesTwoHashes(s: string, text: string -> string)
    requires HashFree(text)
    requires ReplaceFirstPlaceholder(s, text).Some?
    ensures multiset(ReplaceFirstPlaceholder(s, text).value)['#'] + 2 == multiset(s)['#']
  {
    var (i, j) := FirstPlaceholder(s).value;
    var before, inside, after := s[..i], s[i + 1..j], s[j + 1..];
    Around(s, i, j);
    CountAround(before + ['#'] + inside, '#', after);
    CountAround(before, '#', inside);
    assert '#' !in inside;
    CountAbsent(inside, '#');
    CountAbsent(text(inside), '#');
    assert multiset(before + text(inside) + after) == multiset(before) + multiset(text(inside)) + multiset(after);
  }

  /**
   * When no replacement text has a `#`, every replacement removes two
   * hashes, so the loop ends within as many turns as there are hashes.
   */
  lemma {:induction false} HashFreeTextsTerminate(s: string, text: string -> string, fuel: nat)
    requires HashFree(text)
    requires fuel >= multiset(s)['#']
    ensures EvaluatePlaceholders(s, text, fuel).Some?
    decreases fuel
  {
    var next := ReplaceFirstPlaceholder(s, text);
    if next.Some? {
      ReplacementRemovesTwoHashes(s, text);
      HashFreeTextsTerminate(next.value, text, fuel - 1);
    }
  }

  /** In particular, `|s|` replacements are always enough then. */
  lemma LengthIsEnoughFuel(s: string, text: string -> string)
    requires HashFree(text)
    ensures EvaluatePlaceholders(s, text, |s|).Some?
  {
    assert multiset(s)['#'] <= |multiset(s)| == |s|;
    HashFreeTextsTerminate(s, text, |s|);
  }
}
