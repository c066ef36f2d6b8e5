/** The civil Gregorian calendar at minute resolution, without time zones or daylight saving. */
module Calendar {
  datatype Instant = Instant(year: int, month: int, day: int, hour: int, minute: int)

  predicate IsLeap(year: int) {
    year % 4 == 0 && (year % 100 != 0 || year % 400 == 0)
  }

  function DaysIn(year: int, month: int): int {
    if month == 2 then (if IsLeap(year) then 29 else 28)
    else if month in {4, 6, 9, 11} then 30
    else 31
  }

  /** The month lengths, and the leap years among some well-known ones; the calendar repeats after 400 years. */
  lemma KnownMonths(year: int)
    ensures forall m :: 1 <= m <= 12 && m != 2 ==> DaysIn(year, m) == [31, 28, 31, 30, 31, 30, 31, 31, 30, 31, 30, 31][m - 1]
    ensures DaysIn(2000, 2) == DaysIn(2024, 2) == 29 && DaysIn(1900, 2) == DaysIn(2023, 2) == DaysIn(2022, 2) == 28
    ensures DaysIn(year + 400, 2) == DaysIn(year, 2) && (year % 4 != 0 ==> DaysIn(year, 2) == 28)
  {
  }

  /** The dates that Python's datetime(year, month, day) accepts, with the year unbounded above. */
  predicate ValidDate(year: int, month: int, day: int) {
    1 <= year && 1 <= month <= 12 && 1 <= day <= DaysIn(year, month)
  }

  predicate Valid(t: Instant) {
    ValidDate(t.year, t.month, t.day) && 0 <= t.hour < 24 && 0 <= t.minute < 60
  }

  predicate Before(a: Instant, b: Instant) {
    a.year < b.year
    || (a.year == b.year && (a.month < b.month
    || (a.month == b.month && (a.day < b.day
    || (a.day == b.day && (a.hour < b.hour
    || (a.hour == b.hour && a.minute < b.minute)))))))
  }

  predicate AtOrBefore(a: Instant, b: Instant) {
    a == b || Before(a, b)
  }

  /** A strictly increasing numbering of the valid instants (with gaps). */
  function Index(t: Instant): int {
    (((t.year * 13 + t.month) * 32 + t.day) * 24 + t.hour) * 60 + t.minute
  }

  lemma IndexIsMonotone(a: Instant, b: Instant)
    requires Valid(a) && Valid(b)
    ensures Before(a, b) <==> Index(a) < Index(b)
  {
  }

  // The first instant of the minute, hour, day and month after the one that contains t.

  function NextMonth(t: Instant): Instant {
    if t.month == 12 then Instant(t.year + 1, 1, 1, 0, 0) else Instant(t.year, t.month + 1, 1, 0, 0)
  }

  function NextDay(t: Instant): Instant {
    if t.day >= DaysIn(t.year, t.month) then NextMonth(t) else Instant(t.year, t.month, t.day + 1, 0, 0)
  }

  function NextHour(t: Instant): Instant {
    if t.hour == 23 then NextDay(t) else Instant(t.year, t.month, t.day, t.hour + 1, 0)
  }

  function NextMinute(t: Instant): Instant {
    if t.minute == 59 then NextHour(t) else Instant(t.year, t.month, t.day, t.hour, t.minute + 1)
  }
}
