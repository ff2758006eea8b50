/**
 * The `String` extensions: the `ext.` naming convention of external
 * conditions, and the person grouping identifier.
 */
module StringExtensions {
  import opened Wrappers

  const ExternalPrefix: string := "ext."
  const SegmentSeparator: string := "__"

  /** `isExternalCondition`: the name starts with `ext.`, compared case-sensitively. */
  function IsExternalCondition(s: string): (r: bool)
    ensures r <==> |s| >= 4 && s[0] == 'e' && s[1] == 'x' && s[2] == 't' && s[3] == '.'
  {
    ExternalPrefix <= s
  }

  /**
   * Foundation's `components(separatedBy: "__")`: the pieces between the
   * leftmost non-overlapping occurrences of `__`, empty pieces included.
   */
  function Components(s: string): (pieces: seq<string>)
    ensures |pieces| >= 1
    decreases |s|
  {
    if |s| < 2 then [s]
    else if s[0] == '_' && s[1] == '_' then [""] + Components(s[2..])
    else
      var rest := Components(s[1..]);
      [[s[0]] + rest[0]] + rest[1..]
  }

  /** The inverse of `Components`: the pieces glued together with `__`. */
  function JoinComponents(pieces: seq<string>): string
    requires |pieces| >= 1
    decreases |pieces|
  {
    if |pieces| == 1 then pieces[0] else pieces[0] + SegmentSeparator + JoinComponents(pieces[1..])
  }

  /** Splitting on `__` loses nothing: joining the pieces gives the string back. */
  lemma {:induction false} ComponentsRoundTrip(s: string)
    ensures JoinComponents(Components(s)) == s
    decreases |s|
  {
    if |s| < 2 {
    } else if s[0] == '_' && s[1] == '_' {
      ComponentsRoundTrip(s[2..]);
      var rest := Components(s[2..]);
      assert Components(s) == [""] + rest;
      assert ([""] + rest)[1..] == rest;
      assert s == SegmentSeparator + s[2..];
    } else {
      ComponentsRoundTrip(s[1..]);
      var rest := Components(s[1..]);
      var pieces := [[s[0]] + rest[0]] + rest[1..];
      assert Components(s) == pieces;
      if |rest| == 1 {
        assert JoinComponents(pieces) == [s[0]] + rest[0];
      } else {
        assert pieces[1..] == rest[1..];
        assert JoinComponents(rest) == rest[0] + SegmentSeparator + JoinComponents(rest[1..]);
        assert JoinComponents(pieces) == [s[0]] + rest[0] + SegmentSeparator + JoinComponents(rest[1..]);
      }
      assert s == [s[0]] + s[1..];
    }
  }

  /** The `filter({ $0.isEmpty == false })` step: the non-empty pieces, in order. */
  function NonEmpty(pieces: seq<string>): (r: seq<string>)
    ensures forall p :: p in r <==> p in pieces && p != ""
    ensures |r| <= |pieces|
    ensures r != [] ==> exists k :: 0 <= k < |pieces| && pieces[k] == r[0] && forall j :: 0 <= j < k ==> pieces[j] == ""
    ensures r == [] ==> forall j :: 0 <= j < |pieces| ==> pieces[j] == ""
  {
    if pieces == [] then []
    else
      var rest := NonEmpty(pieces[1..]);
      assert forall j :: 0 < j < |pieces| ==> pieces[j] == pieces[1..][j - 1];
      if pieces[0] == "" then rest else [pieces[0]] + rest
  }

  /** Splitting at every `c`, keeping empty pieces; no piece contains `c`. */
  function SplitAll(s: string, c: char): (pieces: seq<string>)
    ensures |pieces| >= 1
    ensures forall p :: p in pieces ==> c !in p
    decreases |s|
  {
    if s == [] then [""]
    else if s[0] == c then [""] + SplitAll(s[1..], c)
    else
      var rest := SplitAll(s[1..], c);
      [[s[0]] + rest[0]] + rest[1..]
  }

  /** Swift's `split(separator:)`, which drops empty pieces. */
  function Split(s: string, c: char): (pieces: seq<string>)
    ensures forall p :: p in pieces ==> p != "" && c !in p
  {
    NonEmpty(SplitAll(s, c))
  }

  /** The parsed form of an external condition name. */
  datatype ExternalCondition = ExternalCondition(condition: string, parameters: map<string, string>)

  /** One step of the `reduce` over the argument segments. */
  function AddParameter(parameters: map<string, string>, argument: string): map<string, string>
  {
    var parameter := Split(argument, ':');
    if |parameter| == 2 then parameters[parameter[0] := parameter[1]] else parameters
  }

  /** The whole `reduce`, left to right: a later segment with the same key wins. */
  function Parameters(arguments: seq<string>): map<string, string>
    decreases |arguments|
  {
    if arguments == [] then map[]
    else AddParameter(Parameters(arguments[..|arguments| - 1]), arguments[|arguments| - 1])
  }

  ghost predicate IsParameterSegment(argument: string, key: string, value: string) {
    Split(argument, ':') == [key, value]
  }

  /** Keys and values of parsed parameters are non-empty and free of `:`. */
  lemma {:induction false} ParametersWellFormed(arguments: seq<string>)
    ensures forall k :: k in Parameters(arguments) ==>
      k != "" && ':' !in k && Parameters(arguments)[k] != "" && ':' !in Parameters(arguments)[k]
    decreases |arguments|
  {
    if arguments != [] {
      var init := arguments[..|arguments| - 1];
      ParametersWellFormed(init);
      var parameter := Split(arguments[|arguments| - 1], ':');
      if |parameter| == 2 {
        assert parameter[0] in parameter && parameter[1] in parameter;
      }
    }
  }

  /** The segment splits on `:` into exactly two pieces, the first being `key`. */
  ghost predicate NamesKey(argument: string, key: string) {
    var parameter := Split(argument, ':');
    |parameter| == 2 && parameter[0] == key
  }

  /** A key is a parameter iff some segment splits on `:` into exactly two pieces with that key. */
  lemma {:induction false} ParametersKeys(arguments: seq<string>, key: string)
    ensures key in Parameters(arguments) <==> exists i :: 0 <= i < |arguments| && NamesKey(arguments[i], key)
    decreases |arguments|
  {
    if arguments != [] {
      var n := |arguments| - 1;
      var init := arguments[..n];
      ParametersKeys(init, key);
      assert forall i :: 0 <= i < n ==> init[i] == arguments[i];
      if NamesKey(arguments[n], key) {
        assert key in Parameters(arguments);
      }
    }
  }

  /** A segment that does not name `key` leaves `key` and its value alone. */
  lemma AddParameterOtherKey(parameters: map<string, string>, argument: string, key: string)
    requires !NamesKey(argument, key)
    ensures key in AddParameter(parameters, argument) <==> key in parameters
    ensures key in parameters ==> AddParameter(parameters, argument)[key] == parameters[key]
  {
  }

  /** A segment that names `key` sets it to its second piece. */
  lemma AddParameterOwnKey(parameters: map<string, string>, argument: string, key: string)
    requires NamesKey(argument, key)
    ensures key in AddParameter(parameters, argument)
    ensures IsParameterSegment(argument, key, AddParameter(parameters, argument)[key])
  {
  }

  /** Segment `i` sets `key` to `value` and no later segment names `key`. */
  ghost predicate LastSegmentFor(arguments: seq<string>, i: int, key: string, value: string) {
    0 <= i < |arguments| && IsParameterSegment(arguments[i], key, value) &&
    forall j :: i < j < |arguments| ==> !NamesKey(arguments[j], key)
  }

  /** The value of a parameter comes from the last segment that names its key. */
  lemma {:induction false} ParametersLastSegment(arguments: seq<string>, key: string)
    requires key in Parameters(arguments)
    ensures exists i :: LastSegmentFor(arguments, i, key, Parameters(arguments)[key])
    decreases |arguments|
  {
    var n := |arguments| - 1;
    var init := arguments[..n];
    assert Parameters(arguments) == AddParameter(Parameters(init), arguments[n]);
    if NamesKey(arguments[n], key) {
      AddParameterOwnKey(Parameters(init), arguments[n], key);
      assert LastSegmentFor(arguments, n, key, Parameters(arguments)[key]);
    } else {
      AddParameterOtherKey(Parameters(init), arguments[n], key);
      ParametersLastSegment(init, key);
      var i :| LastSegmentFor(init, i, key, Parameters(init)[key]);
      assert init[i] == arguments[i];
      assert forall j :: i < j < n ==> init[j] == arguments[j];
      assert LastSegmentFor(arguments, i, key, Parameters(arguments)[key]);
    }
  }

  /**
   * `externalConditionNameAndArguments`: for an `ext.` name, the first
   * non-empty `__` segment after the prefix is the condition name, kept
   * verbatim, and the later segments are parameter candidates.
   */
  function ExternalConditionNameAndArguments(s: string): (r: Option<ExternalCondition>)
    ensures !IsExternalCondition(s) ==> r.None?
    ensures IsExternalCondition(s) ==> (r.None? <==> forall p :: p in Components(s[4..]) ==> p == "")
    ensures r.Some? ==> r.value.condition != ""
    ensures r.Some? ==>
      (exists k :: 0 <= k < |Components(s[4..])| && Components(s[4..])[k] == r.value.condition &&
        (forall j :: 0 <= j < k ==> Components(s[4..])[j] == ""))
  {
    if !IsExternalCondition(s) then None
    else
      var segments := NonEmpty(Components(s[4..]));
      assert segments != [] ==> segments[0] in segments && segments[0] in Components(s[4..]);
      if segments == [] then None
      else Some(ExternalCondition(segments[0], Parameters(segments[1..])))
  }

  /** The prefix `ext.` alone names no condition. */
  lemma PrefixAloneIsNotACondition()
    ensures ExternalConditionNameAndArguments("ext.") == None
  {
    assert "ext."[4..] == "";
  }

  /** Every parameter parsed from an external condition name is well formed. */
  lemma ExternalParametersWellFormed(s: string)
    ensures ExternalConditionNameAndArguments(s).Some? ==>
      var ps := ExternalConditionNameAndArguments(s).value.parameters;
      forall k :: k in ps ==> k != "" && ':' !in k && ps[k] != "" && ':' !in ps[k]
  {
    if ExternalConditionNameAndArguments(s).Some? {
      var segments := NonEmpty(Components(s[4..]));
      ParametersWellFormed(segments[1..]);
    }
  }

  /** `substringToFirstNonLetter`: the longest prefix made only of letters. */
  function SubstringToFirstNonLetter(s: string, isLetter: char -> bool): (r: string)
    ensures r <= s
    ensures forall i :: 0 <= i < |r| ==> isLetter(r[i])
    ensures |r| < |s| ==> !isLetter(s[|r|])
  {
    if s == [] || !isLetter(s[0]) then "" else [s[0]] + SubstringToFirstNonLetter(s[1..], isLetter)
  }

  /** A name lowercased and clipped at its first non-letter; nil counts as empty. */
  function NormalizedName(name: Option<string>, lowercase: string -> string, isLetter: char -> bool): (r: string)
    ensures r <= lowercase(name.GetOr(""))
    ensures forall i :: 0 <= i < |r| ==> isLetter(r[i])
    ensures |r| < |lowercase(name.GetOr(""))| ==> !isLetter(lowercase(name.GetOr(""))[|r|])
  {
    SubstringToFirstNonLetter(lowercase(name.GetOr("")), isLetter)
  }

  /**
   * `personGroupingIdentiferForDGCCertificate`. Unicode lowercasing and
   * `Character.isLetter` are parameters.
   */
  function PersonGroupingIdentifier(familyName: Option<string>, givenName: Option<string>, dateOfBirth: Option<string>,
                                    lowercase: string -> string, isLetter: char -> bool): (id: string)
    ensures |id| >= |dateOfBirth.GetOr("")| + 2 && id[|id| - |dateOfBirth.GetOr("")|..] == dateOfBirth.GetOr("")
    ensures !isLetter('_') ==> id[..IndexOf(id, '_')] == NormalizedName(familyName, lowercase, isLetter)
  {
    var family := NormalizedName(familyName, lowercase, isLetter);
    var rest := NormalizedName(givenName, lowercase, isLetter) + "_" + dateOfBirth.GetOr("");
    assert family + "_" + NormalizedName(givenName, lowercase, isLetter) + "_" + dateOfBirth.GetOr("") == family + "_" + rest;
    if isLetter('_') then family + "_" + rest
    else
      NormalizedHasNoUnderscore(familyName, lowercase, isLetter);
      IndexOfAfterPrefix(family, rest, '_');
      family + "_" + rest
  }

  /** The index of the first `c` in `s`, or `|s|` when there is none. */
  function IndexOf(s: string, c: char): (i: nat)
    ensures i <= |s|
    ensures forall j :: 0 <= j < i ==> s[j] != c
    ensures i < |s| ==> s[i] == c
  {
    if s == [] then 0 else if s[0] == c then 0 else 1 + IndexOf(s[1..], c)
  }

  /** In `a + [c] + b` with no `c` in `a`, the first `c` sits right after `a`. */
  lemma {:induction false} IndexOfAfterPrefix(a: string, b: string, c: char)
    requires c !in a
    ensures IndexOf(a + [c] + b, c) == |a|
  {
    if a != [] {
      assert a[0] in a;
      assert (a + [c] + b)[1..] == a[1..] + [c] + b;
      IndexOfAfterPrefix(a[1..], b, c);
    }
  }

  /** Cutting `a + "_" + b` at its first underscore recovers `a` and `b` when `a` has none. */
  lemma FirstUnderscoreSplits(a: string, b: string, a': string, b': string)
    requires '_' !in a && '_' !in a'
    requires a + "_" + b == a' + "_" + b'
    ensures a == a' && b == b'
  {
    var s := a + "_" + b;
    IndexOfAfterPrefix(a, b, '_');
    IndexOfAfterPrefix(a', b', '_');
    assert a == s[..|a|] == a';
    assert b == s[|a| + 1..] == b';
  }

  /**
   * The grouping identifier determines its parts: when `_` is not a letter,
   * two identifiers are equal only if the normalized family names, the
   * normalized given names and the dates of birth are equal.
   */
  lemma GroupingIdentifierDeterminesParts(f: Option<string>, g: Option<string>, d: Option<string>,
                                          f': Option<string>, g': Option<string>, d': Option<string>,
                                          lowercase: string -> string, isLetter: char -> bool)
    requires !isLetter('_')
    requires PersonGroupingIdentifier(f, g, d, lowercase, isLetter) == PersonGroupingIdentifier(f', g', d', lowercase, isLetter)
    ensures NormalizedName(f, lowercase, isLetter) == NormalizedName(f', lowercase, isLetter)
    ensures NormalizedName(g, lowercase, isLetter) == NormalizedName(g', lowercase, isLetter)
    ensures d.GetOr("") == d'.GetOr("")
  {
    var nf, ng := NormalizedName(f, lowercase, isLetter), NormalizedName(g, lowercase, isLetter);
    var nf', ng' := NormalizedName(f', lowercase, isLetter), NormalizedName(g', lowercase, isLetter);
    NormalizedHasNoUnderscore(f, lowercase, isLetter);
    NormalizedHasNoUnderscore(g, lowercase, isLetter);
    NormalizedHasNoUnderscore(f', lowercase, isLetter);
    NormalizedHasNoUnderscore(g', lowercase, isLetter);
    var dd, dd' := d.GetOr(""), d'.GetOr("");
    Reassociate(nf, ng, dd);
    Reassociate(nf', ng', dd');
    FirstUnderscoreSplits(nf, ng + "_" + dd, nf', ng' + "_" + dd');
    FirstUnderscoreSplits(ng, dd, ng', dd');
  }

  /** A normalized name holds only letters, so no `_` when `_` is not a letter. */
  lemma NormalizedHasNoUnderscore(name: Option<string>, lowercase: string -> string, isLetter: char -> bool)
    requires !isLetter('_')
    ensures '_' !in NormalizedName(name, lowercase, isLetter)
  {
    var n := NormalizedName(name, lowercase, isLetter);
    assert forall i :: 0 <= i < |n| ==> n[i] != '_';
  }

  /** Helper: the three parts of an identifier group either way. */
  lemma Reassociate(a: string, b: string, c: string)
    ensures a + "_" + b + "_" + c == a + "_" + (b + "_" + c)
  {
  }

  /** Lowercasing of an ASCII capital; every other character stays. */
  function AsciiLower(c: char): char
  {
    if 'A' <= c <= 'Z' then (c as int + 32) as char else c
  }

  /** Lowercasing of the ASCII capitals of a string. */
  function AsciiLowercase(s: string): (r: string)
    ensures |r| == |s|
  {
    seq(|s|, i requires 0 <= i < |s| => AsciiLower(s[i]))
  }

  /** The ASCII letters. */
  predicate IsAsciiLetter(c: char)
  {
    'a' <= c <= 'z' || 'A' <= c <= 'Z'
  }

  /** The letter prefix is the only prefix made of letters and followed by a non-letter or nothing. */
  lemma LetterPrefixIsUnique(s: string, isLetter: char -> bool, p: string)
    requires p <= s
    requires forall i :: 0 <= i < |p| ==> isLetter(p[i])
    requires |p| < |s| ==> !isLetter(s[|p|])
    ensures SubstringToFirstNonLetter(s, isLetter) == p
  {
    var r := SubstringToFirstNonLetter(s, isLetter);
    assert r == s[..|r|] && p == s[..|p|];
  }

  /** A name normalizes to `p` when `p` is the letter prefix of its lowercased form. */
  lemma NormalizedNameIs(name: string, lowered: string, p: string)
    requires AsciiLowercase(name) == lowered
    requires p <= lowered
    requires forall i :: 0 <= i < |p| ==> IsAsciiLetter(p[i])
    requires |p| < |lowered| ==> !IsAsciiLetter(lowered[|p|])
    ensures NormalizedName(Some(name), AsciiLowercase, IsAsciiLetter) == p
  {
    LetterPrefixIsUnique(lowered, IsAsciiLetter, p);
  }

  /** The identifier is the two normalized names and the date of birth, joined by underscores. */
  lemma IdentifierOfParts(f: Option<string>, g: Option<string>, d: Option<string>, nf: string, ng: string)
    requires NormalizedName(f, AsciiLowercase, IsAsciiLetter) == nf
    requires NormalizedName(g, AsciiLowercase, IsAsciiLetter) == ng
    ensures PersonGroupingIdentifier(f, g, d, AsciiLowercase, IsAsciiLetter) == nf + "_" + ng + "_" + d.GetOr("")
  {
  }

  // The names of the unit tests, normalized one by one.

  lemma HyphenatedFamilyNameIsClipped()
    ensures NormalizedName(Some("Mustermann-Mueller"), AsciiLowercase, IsAsciiLetter) == "mustermann"
  {
    NormalizedNameIs("Mustermann-Mueller", "mustermann-mueller", "mustermann");
  }

  lemma FamilyNameIsLowercased()
    ensures NormalizedName(Some("Mustermann"), AsciiLowercase, IsAsciiLetter) == "mustermann"
  {
    NormalizedNameIs("Mustermann", "mustermann", "mustermann");
  }

  lemma HyphenatedGivenNameIsClipped()
    ensures NormalizedName(Some("Max-Peter"), AsciiLowercase, IsAsciiLetter) == "max"
  {
    NormalizedNameIs("Max-Peter", "max-peter", "max");
  }

  lemma GivenNameIsClippedAtSpace()
    ensures NormalizedName(Some("Max Peter"), AsciiLowercase, IsAsciiLetter) == "max"
  {
    NormalizedNameIs("Max Peter", "max peter", "max");
  }

  lemma MissingNameIsEmpty()
    ensures NormalizedName(None, AsciiLowercase, IsAsciiLetter) == ""
    ensures NormalizedName(Some(""), AsciiLowercase, IsAsciiLetter) == ""
  {
    NormalizedNameIs("", "", "");
  }

  // The identifiers of the unit tests, with ASCII lowercasing and letters.

  /** Names are clipped at a hyphen. */
  lemma GroupingIdentifierClipsAtHyphen()
    ensures PersonGroupingIdentifier(Some("Mustermann-Mueller"), Some("Max-Peter"), Some("1980-01-01"), AsciiLowercase, IsAsciiLetter)
      == "mustermann_max_1980-01-01"
  {
    HyphenatedFamilyNameIsClipped();
    HyphenatedGivenNameIsClipped();
    IdentifierOfParts(Some("Mustermann-Mueller"), Some("Max-Peter"), Some("1980-01-01"), "mustermann", "max");
  }

  /** Names are clipped at a space. */
  lemma GroupingIdentifierClipsAtSpace()
    ensures PersonGroupingIdentifier(Some("Mustermann"), Some("Max Peter"), Some("1980-01-01"), AsciiLowercase, IsAsciiLetter)
      == "mustermann_max_1980-01-01"
  {
    FamilyNameIsLowercased();
    GivenNameIsClippedAtSpace();
    IdentifierOfParts(Some("Mustermann"), Some("Max Peter"), Some("1980-01-01"), "mustermann", "max");
  }

  /** A missing or empty family name leaves the first part empty. */
  lemma GroupingIdentifierWithoutFamilyName()
    ensures PersonGroupingIdentifier(None, Some("Max Peter"), Some("1980-01-01"), AsciiLowercase, IsAsciiLetter)
      == "_max_1980-01-01"
    ensures PersonGroupingIdentifier(Some(""), Some("Max Peter"), Some("1980-01-01"), AsciiLowercase, IsAsciiLetter)
      == "_max_1980-01-01"
  {
    MissingNameIsEmpty();
    GivenNameIsClippedAtSpace();
    IdentifierOfParts(None, Some("Max Peter"), Some("1980-01-01"), "", "max");
    IdentifierOfParts(Some(""), Some("Max Peter"), Some("1980-01-01"), "", "max");
  }

  /** An empty given name leaves the second part empty. */
  lemma GroupingIdentifierWithEmptyGivenName()
    ensures PersonGroupingIdentifier(Some("Mustermann"), Some(""), Some("1980-01-01"), AsciiLowercase, IsAsciiLetter)
      == "mustermann__1980-01-01"
  {
    FamilyNameIsLowercased();
    MissingNameIsEmpty();
    IdentifierOfParts(Some("Mustermann"), Some(""), Some("1980-01-01"), "mustermann", "");
  }

  /** A missing given name leaves the second part empty. */
  lemma GroupingIdentifierWithoutGivenName()
    ensures PersonGroupingIdentifier(Some("Mustermann"), None, Some("1980-01-01"), AsciiLowercase, IsAsciiLetter)
      == "mustermann__1980-01-01"
  {
    FamilyNameIsLowercased();
    MissingNameIsEmpty();
    IdentifierOfParts(Some("Mustermann"), None, Some("1980-01-01"), "mustermann", "");
  }

  /** An empty or missing date of birth leaves the last part empty. */
  lemma GroupingIdentifierWithoutDateOfBirth()
    ensures PersonGroupingIdentifier(Some("Mustermann"), Some("Max Peter"), Some(""), AsciiLowercase, IsAsciiLetter)
      == "mustermann_max_"
    ensures PersonGroupingIdentifier(Some("Mustermann"), Some("Max-Peter"), None, AsciiLowercase, IsAsciiLetter)
      == "mustermann_max_"
  {
    FamilyNameIsLowercased();
    GivenNameIsClippedAtSpace();
    HyphenatedGivenNameIsClipped();
    IdentifierOfParts(Some("Mustermann"), Some("Max Peter"), Some(""), "mustermann", "max");
    IdentifierOfParts(Some("Mustermann"), Some("Max-Peter"), None, "mustermann", "max");
  }
}
