/**
 * The calendar abstraction used by the importer. A date-time is a record whose
 * calendar fields (day of the year, day of the week, ISO 8601 week number) are
 * given rather than computed: the date library that derives them is not part of
 * this model.
 */
module Dates {

  type Month = m: int | 1 <= m <= 12 witness 1
  type Day = d: int | 1 <= d <= 31 witness 1
  type DayOfYear = d: int | 1 <= d <= 366 witness 1
  /** 0 is Sunday, 6 is Saturday. */
  type DayOfWeek = d: int | 0 <= d < 7
  /** Week number of ISO 8601 week dates (section 4.1.4 of ISO 8601:2004). */
  type IsoWeek = w: int | 1 <= w <= 53 witness 1
  type Hour = h: int | 0 <= h < 24
  type Minute = m: int | 0 <= m < 60
  type Second = s: int | 0 <= s < 60

  datatype DateTime = DateTime(
    year: int, month: Month, day: Day,
    dayOfYear: DayOfYear, dayOfWeek: DayOfWeek, isoWeek: IsoWeek,
    hour: Hour, minute: Minute, second: Second)

  /** A date without a time of day, as written by the `Y-m-d` format. */
  datatype CalendarDate = CalendarDate(year: int, month: Month, day: Day)

  /** Both date-times fall on the same calendar day. */
  predicate SameDay(a: DateTime, b: DateTime)
  {
    && a.year == b.year && a.month == b.month && a.day == b.day
    && a.dayOfYear == b.dayOfYear && a.dayOfWeek == b.dayOfWeek && a.isoWeek == b.isoWeek
  }

  /** The time of day is 00:00:00. */
  predicate IsMidnight(t: DateTime)
  {
    t.hour == 0 && t.minute == 0 && t.second == 0
  }

  function StartOfDay(d: DateTime): (r: DateTime)
    ensures SameDay(r, d) && IsMidnight(r)
  {
    d.(hour := 0, minute := 0, second := 0)
  }

  /** The last second of the day (sub-second precision is not modelled). */
  function EndOfDay(d: DateTime): (r: DateTime)
    ensures SameDay(r, d) && r.hour == 23 && r.minute == 59 && r.second == 59
  {
    d.(hour := 23, minute := 59, second := 59)
  }

  function DateOf(d: DateTime): (r: CalendarDate)
    ensures r.year == d.year && r.month == d.month && r.day == d.day
  {
    CalendarDate(d.year, d.month, d.day)
  }

  /**
   * A number that grows with the date and the time of day: seconds counted
   * on a calendar whose months all have 31 days. It orders date-times as
   * time does, though it is not a count of elapsed seconds.
   */
  function Ordinal(d: DateTime): int
  {
    ((((d.year * 12 + (d.month - 1)) * 31 + (d.day - 1)) * 24 + d.hour) * 60 + d.minute) * 60 + d.second
  }

  /**
   * `a` is not later than `b`: the negation of the date library's `a->gt(b)`,
   * compared field by field from the year down to the second.
   */
  predicate NotAfter(a: DateTime, b: DateTime)
  {
    if a.year != b.year then a.year < b.year
    else if a.month != b.month then a.month < b.month
    else if a.day != b.day then a.day < b.day
    else if a.hour != b.hour then a.hour < b.hour
    else if a.minute != b.minute then a.minute < b.minute
    else a.second <= b.second
  }

  /** The field-by-field comparison orders date-times as their ordinals do. */
  lemma NotAfterOrdinal(a: DateTime, b: DateTime)
    ensures NotAfter(a, b) <==> Ordinal(a) <= Ordinal(b)
  {
  }

  lemma NotAfterTotal(a: DateTime, b: DateTime)
    ensures NotAfter(a, b) || NotAfter(b, a)
  {
  }

  lemma NotAfterTransitive(a: DateTime, b: DateTime, c: DateTime)
    requires NotAfter(a, b) && NotAfter(b, c)
    ensures NotAfter(a, c)
  {
  }
}
