/**
 * The `Date` extensions: strict comparison, the earlier of two dates, adding
 * a calendar unit, and the start/end of day/month modifiers.
 *
 * A `Date` is a whole number of seconds since 2001-01-01 00:00:00 UTC. The
 * Foundation calendar is a value of type `Calendar` whose functions are
 * uninterpreted; `Total` and `Regular` state what is assumed of them.
 */
module DateExtensions {
  import opened Wrappers

  type Instant = int

  /** Foundation's `Date.distantPast` (0001-01-01) and `Date.distantFuture` (4001-01-01). */
  const DistantPast: Instant := -63114076800
  const DistantFuture: Instant := 63113904000

  /** `isBefore`: the distance to `other` is positive. */
  predicate IsBefore(d: Instant, other: Instant)
  {
    other - d > 0
  }

  /** `isAfter`: the distance to `other` is negative. */
  predicate IsAfter(d: Instant, other: Instant)
  {
    other - d < 0
  }

  /** Both comparisons are strict, each is the other read backwards, and exactly one of before, equal and after holds. */
  lemma ComparisonsAreStrict(d: Instant, other: Instant)
    ensures IsBefore(d, other) <==> d < other
    ensures IsAfter(d, other) <==> other < d
    ensures IsBefore(d, other) <==> IsAfter(other, d)
    ensures !IsBefore(d, d) && !IsAfter(d, d)
    ensures (IsBefore(d, other) || d == other || IsAfter(d, other)) && !(IsBefore(d, other) && IsAfter(d, other))
  {
  }

  /** `dateOrEarlierDate`: the earlier of the two dates; a missing date is ignored. */
  function DateOrEarlierDate(d: Instant, other: Option<Instant>): (r: Instant)
    ensures other.None? ==> r == d
    ensures other.Some? ==> r <= d && r <= other.value && (r == d || r == other.value)
  {
    match other
    case None => d
    case Some(o) => if IsBefore(d, o) then d else o
  }

  /** `ValidityTimeModificationUnit`. */
  datatype ModificationUnit = Minute | Hour | Day | Month

  /** `ValidityTimeModifier`. */
  datatype Modifier = StartOfDay | EndOfDay | StartOfMonth | EndOfMonth

  /** `ValidityTimeModificationUnit(rawValue:)`. */
  function ParseUnit(raw: string): (r: Option<ModificationUnit>)
    ensures r.Some? ==> UnitName(r.value) == raw
    ensures forall u :: UnitName(u) == raw ==> r == Some(u)
  {
    if raw == "minute" then Some(Minute)
    else if raw == "hour" then Some(Hour)
    else if raw == "day" then Some(Day)
    else if raw == "month" then Some(Month)
    else None
  }

  function UnitName(u: ModificationUnit): string {
    match u
    case Minute => "minute"
    case Hour => "hour"
    case Day => "day"
    case Month => "month"
  }

  /** `ValidityTimeModifier(rawValue:)`. */
  function ParseModifier(raw: string): (r: Option<Modifier>)
    ensures r.Some? ==> ModifierName(r.value) == raw
    ensures forall m :: ModifierName(m) == raw ==> r == Some(m)
  {
    if raw == "startOfDay" then Some(StartOfDay)
    else if raw == "endOfDay" then Some(EndOfDay)
    else if raw == "startOfMonth" then Some(StartOfMonth)
    else if raw == "endOfMonth" then Some(EndOfMonth)
    else None
  }

  function ModifierName(m: Modifier): string {
    match m
    case StartOfDay => "startOfDay"
    case EndOfDay => "endOfDay"
    case StartOfMonth => "startOfMonth"
    case EndOfMonth => "endOfMonth"
  }

  /** The components Foundation's calendar reports for an instant. */
  datatype DateFields = DateFields(year: int, month: int, day: int, hour: int, minute: int, second: int)

  /** The Gregorian length of a month. */
  function DaysInMonth(year: int, month: int): int
  {
    if month == 2 then (if IsLeapYear(year) then 29 else 28)
    else if month == 4 || month == 6 || month == 9 || month == 11 then 30
    else 31
  }

  predicate IsLeapYear(year: int)
  {
    year % 4 == 0 && (year % 100 != 0 || year % 400 == 0)
  }

  /**
   * The part of Foundation's `Calendar` the extensions call:
   * `date(byAdding: .day / .month, value:, to:)`, `startOfDay(for:)`,
   * `date(from:)` on a year and a month, `date(bySettingHour: 23, minute: 59,
   * second: 59, of:)` and `dateComponents(_:from:)`.
   */
  datatype Calendar = Calendar(
    addingDays: (Instant, int) -> Option<Instant>,
    addingMonths: (Instant, int) -> Option<Instant>,
    startOfDay: Instant -> Instant,
    dateFromYearAndMonth: (int, int) -> Option<Instant>,
    settingEndOfDayTime: Instant -> Option<Instant>,
    fields: Instant -> DateFields)
  {
    /** Every call the modifiers force-unwrap (`!`) returns a date. */
    ghost predicate Total()
    {
      (forall t :: addingDays(t, 1).Some?) &&
      (forall t :: addingDays(t, -1).Some?) &&
      (forall t :: addingMonths(t, 1).Some?) &&
      (forall y, m :: dateFromYearAndMonth(y, m).Some?) &&
      (forall t :: settingEndOfDayTime(t).Some?)
    }

    /**
     * The Gregorian facts the modifiers rely on: months run from 1 to 12; a
     * day starts at 00:00:00 and its last second, one second before the next
     * day starts, reads 23:59:59; `date(from:)` on a year and month gives the
     * first of that month at midnight; setting the time keeps the day; and one
     * month after the first of a month, less one day, is the last day of the
     * month.
     */
    ghost predicate Regular()
    {
      MonthsInRange() && DaysStartAtMidnight() && DaysEndAtLastSecond() && MonthsStartOnTheFirst()
      && SettingTimeKeepsDay() && MonthsEndOnTheirLastDay()
    }

    ghost predicate MonthsInRange()
    {
      forall t :: 1 <= fields(t).month <= 12
    }

    ghost predicate DaysStartAtMidnight()
    {
      forall t :: startOfDay(t) <= t && fields(startOfDay(t)) == fields(t).(hour := 0, minute := 0, second := 0)
    }

    ghost predicate DaysEndAtLastSecond()
    {
      forall t :: NextDayStartsAfter(t)
    }

    ghost predicate NextDayStartsAfter(t: Instant)
    {
      var start := startOfDay(t);
      var next := addingDays(start, 1);
      next.Some? ==> t < next.value && fields(next.value - 1) == fields(t).(hour := 23, minute := 59, second := 59)
    }

    ghost predicate MonthsStartOnTheFirst()
    {
      forall y, m :: 1 <= m <= 12 ==> FirstOfMonth(y, m)
    }

    ghost predicate FirstOfMonth(y: int, m: int)
    {
      var first := dateFromYearAndMonth(y, m);
      first.Some? ==> fields(first.value) == DateFields(y, m, 1, 0, 0, 0)
    }

    ghost predicate SettingTimeKeepsDay()
    {
      forall t :: EndOfDayTimeKeepsDay(t)
    }

    ghost predicate EndOfDayTimeKeepsDay(t: Instant)
    {
      var atEnd := settingEndOfDayTime(t);
      atEnd.Some? ==> fields(atEnd.value) == fields(t).(hour := 23, minute := 59, second := 59)
    }

    ghost predicate MonthsEndOnTheirLastDay()
    {
      forall u :: fields(u).day == 1 ==> LastDayOfMonth(u)
    }

    ghost predicate LastDayOfMonth(u: Instant)
    {
      var next := addingMonths(u, 1);
      next.Some? ==>
        var last := addingDays(next.value, -1);
        last.Some? ==>
          fields(last.value).year == fields(u).year && fields(last.value).month == fields(u).month &&
          fields(last.value).day == DaysInMonth(fields(u).year, fields(u).month)
    }
  }

  /**
   * `dateByAddingUnitAndValue`. Minutes and hours are fixed lengths of time;
   * days and months go through the calendar, and a date the calendar cannot
   * produce leaves `d` unchanged.
   */
  function DateByAddingUnitAndValue(cal: Calendar, d: Instant, unit: ModificationUnit, interval: int): (r: Instant)
    ensures unit == Minute ==> r - d == 60 * interval
    ensures unit == Hour ==> r - d == 3600 * interval
    ensures unit == Day ==> (r == d && cal.addingDays(d, interval).None?) || cal.addingDays(d, interval) == Some(r)
    ensures unit == Month ==> (r == d && cal.addingMonths(d, interval).None?) || cal.addingMonths(d, interval) == Some(r)
  {
    match unit
    case Minute => d + 60 * interval
    case Hour => d + 3600 * interval
    case Day => cal.addingDays(d, interval).GetOr(d)
    case Month => cal.addingMonths(d, interval).GetOr(d)
  }

  /** Adding minutes (or hours) twice is adding their sum, and adding `-n` undoes adding `n`. */
  lemma AddingFixedUnitsComposes(cal: Calendar, d: Instant, unit: ModificationUnit, a: int, b: int)
    requires unit == Minute || unit == Hour
    ensures DateByAddingUnitAndValue(cal, DateByAddingUnitAndValue(cal, d, unit, a), unit, b)
         == DateByAddingUnitAndValue(cal, d, unit, a + b)
    ensures DateByAddingUnitAndValue(cal, DateByAddingUnitAndValue(cal, d, unit, a), unit, -a) == d
  {
  }

  function StartOfDayOf(cal: Calendar, d: Instant): Instant
  {
    cal.startOfDay(d)
  }

  /** `endOfDay` as the modifier computes it: one day after the start of the day, less one second. */
  function EndOfDayOf(cal: Calendar, d: Instant): Instant
    requires cal.Total()
  {
    var start := cal.startOfDay(d);
    var next := cal.addingDays(start, 1);
    next.value - 1
  }

  /** `startOfMonth()`: `date(from:)` on the year and month of the start of the day. */
  function StartOfMonthOf(cal: Calendar, d: Instant): Instant
    requires cal.Total()
  {
    var f := cal.fields(cal.startOfDay(d));
    cal.dateFromYearAndMonth(f.year, f.month).value
  }

  /** `endOfMonth()`: one month after the start of the month, less one day, at 23:59:59 (`endOfDay()`). */
  function EndOfMonthOf(cal: Calendar, d: Instant): Instant
    requires cal.Total()
  {
    var start := StartOfMonthOf(cal, d);
    var next := cal.addingMonths(start, 1).value;
    var last := cal.addingDays(next, -1).value;
    cal.settingEndOfDayTime(last).value
  }

  /** `dateByModifyingWith(modifier:)`: a missing modifier leaves the date unchanged. */
  function DateByModifyingWith(cal: Calendar, d: Instant, modifier: Option<Modifier>): (r: Instant)
    requires cal.Total()
    ensures modifier.None? ==> r == d
  {
    match modifier
    case None => d
    case Some(StartOfDay) => StartOfDayOf(cal, d)
    case Some(EndOfDay) => EndOfDayOf(cal, d)
    case Some(StartOfMonth) => StartOfMonthOf(cal, d)
    case Some(EndOfMonth) => EndOfMonthOf(cal, d)
  }

  /** The modifiers applied one after another, left to right. */
  function ApplyModifiers(cal: Calendar, d: Instant, modifiers: seq<Modifier>): Instant
    requires cal.Total()
    decreases |modifiers|
  {
    if modifiers == [] then d
    else ApplyModifiers(cal, DateByModifyingWith(cal, d, Some(modifiers[0])), modifiers[1..])
  }

  /** Applying `ms1 + ms2` is applying `ms1`, then `ms2` to the result. */
  lemma {:induction false} ApplyModifiersAppend(cal: Calendar, d: Instant, ms1: seq<Modifier>, ms2: seq<Modifier>)
    requires cal.Total()
    ensures ApplyModifiers(cal, d, ms1 + ms2) == ApplyModifiers(cal, ApplyModifiers(cal, d, ms1), ms2)
    decreases |ms1|
  {
    if ms1 != [] {
      assert (ms1 + ms2)[0] == ms1[0];
      assert (ms1 + ms2)[1..] == ms1[1..] + ms2;
      ApplyModifiersAppend(cal, DateByModifyingWith(cal, d, Some(ms1[0])), ms1[1..], ms2);
    } else {
      assert ms1 + ms2 == ms2;
    }
  }

  /** `dateByModifyingWith(modifiers:)`: the loop over the modifiers; nil leaves the date unchanged. */
  method DateByModifyingWithModifiers(cal: Calendar, d: Instant, modifiers: Option<seq<Modifier>>) returns (r: Instant)
    requires cal.Total()
    ensures modifiers.None? ==> r == d
    ensures modifiers.Some? ==> r == ApplyModifiers(cal, d, modifiers.value)
  {
    if modifiers.None? {
      return d;
    }
    var ms := modifiers.value;
    r := d;
    for i := 0 to |ms|
      invariant ApplyModifiers(cal, r, ms[i..]) == ApplyModifiers(cal, d, ms)
    {
      assert ms[i..][0] == ms[i] && ms[i..][1..] == ms[i + 1..];
      r := DateByModifyingWith(cal, r, Some(ms[i]));
    }
  }

  /** `startOfDay`: the same day at 00:00:00, no later than `d`. */
  lemma StartOfDayProperties(cal: Calendar, d: Instant)
    requires cal.Total() && cal.Regular()
    ensures DateByModifyingWith(cal, d, Some(StartOfDay)) <= d
    ensures cal.fields(DateByModifyingWith(cal, d, Some(StartOfDay))) == cal.fields(d).(hour := 0, minute := 0, second := 0)
  {
    assert cal.DaysStartAtMidnight();
    var start := cal.startOfDay(d);
    assert start <= d && cal.fields(start) == cal.fields(d).(hour := 0, minute := 0, second := 0);
  }

  /**
   * `endOfDay`: one second before the next day starts, so the same day at
   * 23:59:59, and the day runs from its start through its end.
   */
  lemma EndOfDayProperties(cal: Calendar, d: Instant)
    requires cal.Total() && cal.Regular()
    ensures StartOfDayOf(cal, d) <= d <= DateByModifyingWith(cal, d, Some(EndOfDay))
    ensures DateByModifyingWith(cal, d, Some(EndOfDay)) + 1 == cal.addingDays(StartOfDayOf(cal, d), 1).value
    ensures cal.fields(DateByModifyingWith(cal, d, Some(EndOfDay))) == cal.fields(d).(hour := 23, minute := 59, second := 59)
  {
    var start := cal.startOfDay(d);
    assert start <= d by { assert cal.DaysStartAtMidnight(); }
    var next := cal.addingDays(start, 1);
    assert next.Some?;
    assert cal.NextDayStartsAfter(d) by { assert cal.DaysEndAtLastSecond(); }
  }

  /** `startOfMonth`: the first of the same month at 00:00:00. */
  lemma StartOfMonthProperties(cal: Calendar, d: Instant)
    requires cal.Total() && cal.Regular()
    ensures cal.fields(DateByModifyingWith(cal, d, Some(StartOfMonth))) == DateFields(cal.fields(d).year, cal.fields(d).month, 1, 0, 0, 0)
  {
    var start := cal.startOfDay(d);
    var f := cal.fields(start);
    assert f.year == cal.fields(d).year && f.month == cal.fields(d).month by {
      assert cal.DaysStartAtMidnight();
    }
    assert 1 <= f.month <= 12 by { assert cal.MonthsInRange(); }
    var first := cal.dateFromYearAndMonth(f.year, f.month);
    assert first.Some?;
    assert cal.FirstOfMonth(f.year, f.month) by { assert cal.MonthsStartOnTheFirst(); }
  }

  /** `endOfMonth`: the last day of the same month at 23:59:59. */
  lemma EndOfMonthProperties(cal: Calendar, d: Instant)
    requires cal.Total() && cal.Regular()
    ensures var f := cal.fields(d);
      cal.fields(DateByModifyingWith(cal, d, Some(EndOfMonth))) == DateFields(f.year, f.month, DaysInMonth(f.year, f.month), 23, 59, 59)
  {
    var f := cal.fields(d);
    var start := StartOfMonthOf(cal, d);
    StartOfMonthProperties(cal, d);
    assert cal.fields(start) == DateFields(f.year, f.month, 1, 0, 0, 0);
    assert cal.LastDayOfMonth(start) by { assert cal.MonthsEndOnTheirLastDay(); }
    var next := cal.addingMonths(start, 1);
    assert next.Some?;
    var n := next.value;
    var last := cal.addingDays(n, -1);
    assert last.Some?;
    assert cal.fields(last.value) == DateFields(f.year, f.month, DaysInMonth(f.year, f.month), cal.fields(last.value).hour, cal.fields(last.value).minute, cal.fields(last.value).second);
    var l := last.value;
    var atEnd := cal.settingEndOfDayTime(l);
    assert atEnd.Some?;
    assert cal.EndOfDayTimeKeepsDay(last.value) by { assert cal.SettingTimeKeepsDay(); }
  }

  /** The modifier example of 3 August 2022, 17:42: its start and end of day and of month. */
  lemma AugustThirdExample(cal: Calendar, d: Instant)
    requires cal.Total() && cal.Regular()
    requires cal.fields(d) == DateFields(2022, 8, 3, 17, 42, 0)
    ensures cal.fields(DateByModifyingWith(cal, d, Some(StartOfDay))) == DateFields(2022, 8, 3, 0, 0, 0)
    ensures cal.fields(DateByModifyingWith(cal, d, Some(EndOfDay))) == DateFields(2022, 8, 3, 23, 59, 59)
    ensures cal.fields(DateByModifyingWith(cal, d, Some(StartOfMonth))) == DateFields(2022, 8, 1, 0, 0, 0)
    ensures cal.fields(DateByModifyingWith(cal, d, Some(EndOfMonth))) == DateFields(2022, 8, 31, 23, 59, 59)
  {
    StartOfDayProperties(cal, d);
    EndOfDayProperties(cal, d);
    StartOfMonthProperties(cal, d);
    EndOfMonthProperties(cal, d);
  }
}
