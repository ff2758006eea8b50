/**
 * `ValidityTime`: one candidate valid-from or valid-until expression of a
 * rule set, with the offset, modifier and maximum applied to the date it
 * resolves to.
 */
module ValidityTimes {
  import opened Wrappers
  import opened DateExtensions
  import opened Results
  import opened ConditionGroups

  /** `ValidityTimeFormat(rawValue:)`. */
  function ParseFormat(raw: string): (r: Option<ValidityTimeFormat>)
    ensures r == Some(DateTime) <==> raw == "dateTime"
    ensures r == Some(DateOnly) <==> raw == "date"
  {
    if raw == "dateTime" then Some(DateTime)
    else if raw == "date" then Some(DateOnly)
    else None
  }

  /** The document's fields of a validity time, as decoded; the derived values are members. */
  datatype ValidityTime = ValidityTime(
    conditions: Option<OrConditionGroup>,
    value: string,
    maxDateString: Option<string>,
    unitString: Option<string>,
    interval: Option<int>,
    formatString: Option<string>,
    modifierString: Option<string>)
  {
    /** `maxDate`: the ISO-8601 reading of `max`; absent or unreadable means no maximum. */
    function MaxDate(parseIso: string -> Option<Instant>): (r: Option<Instant>)
      ensures r.Some? <==> maxDateString.Some? && parseIso(maxDateString.value).Some?
      ensures r.Some? ==> parseIso(maxDateString.value) == r
    {
      match maxDateString
      case None => None
      case Some(s) => parseIso(s)
    }

    /** `unit`: only the four unit names are recognized. */
    function Unit(): (r: Option<ModificationUnit>)
      ensures r.Some? <==> unitString.Some? && unitString.value in {"minute", "hour", "day", "month"}
      ensures r.Some? ==> unitString == Some(UnitName(r.value))
    {
      match unitString
      case None => None
      case Some(s) => ParseUnit(s)
    }

    /** `format`: `.date` only for the string `date`; absent or anything else means `.dateTime`. */
    function Format(): (f: ValidityTimeFormat)
      ensures f == DateOnly <==> formatString == Some("date")
    {
      match formatString
      case None => DateTime
      case Some(s) => ParseFormat(s).GetOr(DateTime)
    }

    /** `modifier`: only the four modifier names are recognized. */
    function Modifier(): (r: Option<Modifier>)
      ensures r.Some? <==> modifierString.Some? && modifierString.value in {"startOfDay", "endOfDay", "startOfMonth", "endOfMonth"}
      ensures r.Some? ==> modifierString == Some(ModifierName(r.value))
    {
      match modifierString
      case None => None
      case Some(s) => ParseModifier(s)
    }

    /**
     * `dateByModifying(date:)`. With a unit and an interval: add, then apply
     * the modifier, then clamp to the maximum. Without either, only the clamp;
     * the modifier is then ignored.
     */
    function DateByModifying(cal: Calendar, parseIso: string -> Option<Instant>, d: Instant): (r: Instant)
      requires cal.Total()
      ensures MaxDate(parseIso).Some? ==> r <= MaxDate(parseIso).value
      ensures (Unit().None? || interval.None?) ==> r == DateOrEarlierDate(d, MaxDate(parseIso))
      ensures Unit().Some? && interval.Some? ==>
        r == DateOrEarlierDate(DateByModifyingWith(cal, DateByAddingUnitAndValue(cal, d, Unit().value, interval.value), Modifier()), MaxDate(parseIso))
    {
      if Unit().None? || interval.None? then DateOrEarlierDate(d, MaxDate(parseIso))
      else
        var added := DateByAddingUnitAndValue(cal, d, Unit().value, interval.value);
        DateOrEarlierDate(DateByModifyingWith(cal, added, Modifier()), MaxDate(parseIso))
    }

    /** `validate`: the lint of the guard, or nothing when there is none. */
    function Validate(available: Conditions): (errors: seq<SyntaxError>)
      ensures conditions.None? ==> errors == []
      ensures forall e :: e in errors ==> e.UnavailableCondition? && IsUndefined(e.conditionName, available)
      ensures forall c :: UnavailableCondition(c) in errors <==>
        IsUndefined(c, available) && conditions.Some? && Mentions(conditions.value, c)
    {
      match conditions
      case None => []
      case Some(group) => OrGroupLint(group, available)
    }
  }

  /** Without a (readable) maximum, and without a unit or interval, the date is kept as it is. */
  lemma NoMaximumNoClamp(t: ValidityTime, cal: Calendar, parseIso: string -> Option<Instant>, d: Instant)
    requires cal.Total()
    requires t.maxDateString.None? || parseIso(t.maxDateString.value).None?
    ensures t.Unit().None? || t.interval.None? ==> t.DateByModifying(cal, parseIso, d) == d
    ensures t.Unit().Some? && t.interval.Some? ==>
      t.DateByModifying(cal, parseIso, d) == DateByModifyingWith(cal, DateByAddingUnitAndValue(cal, d, t.Unit().value, t.interval.value), t.Modifier())
  {
  }

  /**
   * An unknown unit name leaves the resolved date as it is (up to the
   * maximum), whatever the interval and modifier say.
   */
  lemma UnknownUnitKeepsDate(t: ValidityTime, cal: Calendar, parseIso: string -> Option<Instant>, d: Instant)
    requires cal.Total()
    requires t.unitString.Some? && ParseUnit(t.unitString.value).None?
    ensures t.DateByModifying(cal, parseIso, d) == DateOrEarlierDate(d, t.MaxDate(parseIso))
    ensures t.DateByModifying(cal, parseIso, d) <= d
  {
  }
}
