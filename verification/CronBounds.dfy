/**
 * How long the calendar search takes: bounds for whole families of entries, and the entries that the
 * cap of 200 passes gives up although they match again.
 */
module CronBounds {
  import opened Calendar
  import opened CronSearch

  // ---------- Bounds ----------

  /** A month, day and time of day that an entry offers, chosen among its listed values. */
  datatype Target = Target(month: int, day: int, hour: int, minute: int)

  predicate OffersTime(spec: CronSpec, g: Target) {
    0 <= g.hour < 24 && 0 <= g.minute < 60 && spec.hour.Matches(g.hour) && spec.minute.Matches(g.minute)
  }

  const COMMON_YEAR := 2001

  /** The target's day exists every year, in each month that the entry matches. */
  predicate InRange(spec: CronSpec, g: Target) {
    && OffersTime(spec, g)
    && 1 <= g.month <= 12 && spec.month.Matches(g.month)
    && 1 <= g.day && spec.day.Matches(g.day)
    && forall m :: 1 <= m <= 12 && spec.month.Matches(m) ==> g.day <= DaysIn(COMMON_YEAR, m)
  }

  /** 11 months, 30 days, 23 hours and 59 minutes. */
  const MAX_MISSES := 11 + 30 + 23 + 59

  /** A bound on the misses from each day of the month on bounds the misses from each minute of it. */
  lemma MinutesAddUp(spec: CronSpec, g: Target, t: Instant, months: nat, b: nat)
    requires Valid(t) && months > 0 && OffersTime(spec, g)
    requires spec.month.Matches(t.month) ==>
               forall d :: 1 <= d <= DaysIn(t.year, t.month) + 1 ==> FromDay(spec, t, d, months) <= b + g.hour + g.minute
    requires !spec.month.Matches(t.month) ==> 1 + FromMonth(spec, NextMonth(t), months - 1) <= b + g.hour + g.minute
    ensures Misses(spec, t, months) <= b + 23 + 59
  {
  }

  /** The months from month m to the target's, if the entry lists months. */
  function MonthsTo(spec: CronSpec, g: Target, m: int): int {
    if spec.month.Wild? then 0 else if m <= g.month then g.month - m else 12 + g.month - m
  }

  lemma {:induction false} FromMonthInRange(spec: CronSpec, g: Target, t: Instant, months: nat)
    requires Valid(t) && InRange(spec, g)
    ensures FromMonth(spec, t, months) <= MonthsTo(spec, g, t.month) + g.day - 1 + g.hour + g.minute
    decreases months
  {
    if months > 0 && !spec.month.Matches(t.month) {
      FromMonthInRange(spec, g, NextMonth(t), months - 1);
    }
  }

  lemma MissesAreBounded(spec: CronSpec, g: Target, t: Instant, months: nat)
    requires Valid(t) && InRange(spec, g) && months > 0
    ensures Misses(spec, t, months) <= MAX_MISSES
  {
    FromMonthInRange(spec, g, NextMonth(t), months - 1);
    MinutesAddUp(spec, g, t, months, 41);
  }

  /** The capped search from start finds a match. */
  predicate Found(spec: CronSpec, start: Instant) {
    Matches(spec, After(spec, start, MAX_ITERS - 1))
  }

  /**
   * From every start, an entry that offers a day that all its months have every year, a day of 28 or less
   * in particular, matches within 124 passes, so the cap of 200 never cuts its search off.
   */
  lemma AtMost124Passes(spec: CronSpec, g: Target, start: Instant)
    requires Valid(start) && InRange(spec, g)
    ensures Matches(spec, After(spec, start, MAX_MISSES))
    ensures After(spec, start, MAX_ITERS - 1) == After(spec, start, MAX_MISSES)
    ensures Found(spec, start)
  {
    var months := MAX_ITERS;
    MissesAreBounded(spec, g, start, months);
    FoundAfterMisses(spec, start, months, MAX_MISSES);
    MatchIsKept(spec, start, MAX_MISSES, MAX_ITERS - 1);
  }

  /** With a wild month, no two months in a row lack the target's day. */
  predicate InWildMonth(spec: CronSpec, g: Target) {
    OffersTime(spec, g) && spec.month.Wild? && 1 <= g.day <= 31 && spec.day.Matches(g.day)
  }

  /** 60 days, 23 hours and 59 minutes. */
  const MAX_WILD_MISSES := 60 + 23 + 59

  lemma {:induction false} FromWildMonth(spec: CronSpec, g: Target, t: Instant, months: nat)
    requires Valid(t) && InWildMonth(spec, g)
    ensures FromMonth(spec, t, months)
            <= (if g.day <= DaysIn(t.year, t.month) then 0 else DaysIn(t.year, t.month)) + g.day - 1 + g.hour + g.minute
    decreases months
  {
    if months > 0 && g.day > DaysIn(t.year, t.month) {
      var next := NextMonth(t);
      assert g.day <= DaysIn(next.year, next.month);
      FromWildMonth(spec, g, next, months - 1);
    }
  }

  lemma WildMissesAreBounded(spec: CronSpec, g: Target, t: Instant, months: nat)
    requires Valid(t) && InWildMonth(spec, g) && months > 0
    ensures Misses(spec, t, months) <= MAX_WILD_MISSES
  {
    FromWildMonth(spec, g, NextMonth(t), months - 1);
    forall d | 1 <= d <= DaysIn(t.year, t.month) + 1
      ensures FromDay(spec, t, d, months) <= 60 + g.hour + g.minute
    {
    }
    MinutesAddUp(spec, g, t, months, 60);
  }

  /** From every start, an entry with a wild month and any day up to 31 matches within 143 passes. */
  lemma WildMonthIsFound(spec: CronSpec, g: Target, start: Instant)
    requires Valid(start) && InWildMonth(spec, g)
    ensures Matches(spec, After(spec, start, MAX_WILD_MISSES)) && Found(spec, start)
  {
    var months := MAX_ITERS;
    WildMissesAreBounded(spec, g, start, months);
    FoundAfterMisses(spec, start, months, MAX_WILD_MISSES);
    MatchIsKept(spec, start, MAX_WILD_MISSES, MAX_ITERS - 1);
  }

  const EVERY_31ST := CronSpec(Wild, Listed([31]), Listed([22]), Listed([30]))

  /** The 143 passes are needed: from one minute too late on 31 March, 22:30 on day 31 misses 142 times. */
  lemma WildBoundIsReached(year: int, months: nat)
    requires 1 <= year && months >= 3
    ensures InWildMonth(EVERY_31ST, Target(3, 31, 22, 30))
    ensures Misses(EVERY_31ST, Instant(year, 3, 31, 22, 31), months) == MAX_WILD_MISSES
  {
    var april := Instant(year, 4, 1, 0, 0);
    assert NextMonth(Instant(year, 3, 31, 22, 31)) == april;
    MonthWithoutDay(EVERY_31ST, april, months - 1);
    LeastIs(EVERY_31ST.day, 1, 31, 31);
    LeastIs(EVERY_31ST.hour, 0, 23, 22);
    LeastIs(EVERY_31ST.minute, 0, 59, 30);
    assert FromMonth(EVERY_31ST, NextMonth(april), months - 2) == 30 + 22 + 30;
  }

  // ---------- Where the cap does cut a search off ----------

  // A stretch of k consecutive misses in one field can be taken at once.

  lemma {:induction false} SkipMonths(spec: CronSpec, t: Instant, k: nat, n: nat)
    requires t == Instant(t.year, t.month, 1, 0, 0) && t.month + k <= 12
    requires forall m :: t.month <= m < t.month + k ==> !spec.month.Matches(m)
    ensures After(spec, t, k + n) == After(spec, t.(month := t.month + k), n)
    decreases k
  {
    if k > 0 {
      SkipMonths(spec, NextMonth(t), k - 1, n);
    }
  }

  lemma {:induction false} SkipDays(spec: CronSpec, t: Instant, k: nat, n: nat)
    requires t == Instant(t.year, t.month, t.day, 0, 0) && t.day + k <= DaysIn(t.year, t.month)
    requires spec.month.Matches(t.month) && forall d :: t.day <= d < t.day + k ==> !spec.day.Matches(d)
    ensures After(spec, t, k + n) == After(spec, t.(day := t.day + k), n)
    decreases k
  {
    if k > 0 {
      SkipDays(spec, NextDay(t), k - 1, n);
    }
  }

  lemma {:induction false} SkipHours(spec: CronSpec, t: Instant, k: nat, n: nat)
    requires t.minute == 0 && t.hour + k <= 23
    requires spec.month.Matches(t.month) && spec.day.Matches(t.day)
    requires forall h :: t.hour <= h < t.hour + k ==> !spec.hour.Matches(h)
    ensures After(spec, t, k + n) == After(spec, t.(hour := t.hour + k), n)
    decreases k
  {
    if k > 0 {
      SkipHours(spec, NextHour(t), k - 1, n);
    }
  }

  lemma {:induction false} SkipMinutes(spec: CronSpec, t: Instant, k: nat, n: nat)
    requires t.minute + k <= 59
    requires spec.month.Matches(t.month) && spec.day.Matches(t.day) && spec.hour.Matches(t.hour)
    requires forall i :: t.minute <= i < t.minute + k ==> !spec.minute.Matches(i)
    ensures After(spec, t, k + n) == After(spec, t.(minute := t.minute + k), n)
    decreases k
  {
    if k > 0 {
      SkipMinutes(spec, NextMinute(t), k - 1, n);
    }
  }

  const JANUARY_28 := CronSpec(Listed([1]), Listed([28]), Listed([22]), Listed([30]))

  lemma OneMinuteLate(year: int, n: nat)
    ensures After(JANUARY_28, Instant(year, 1, 28, 22, 31), 33 + n) == After(JANUARY_28, Instant(year, 2, 1, 0, 0), n)
  {
    SkipMinutes(JANUARY_28, Instant(year, 1, 28, 22, 31), 28, 5 + n);
    assert NextMinute(Instant(year, 1, 28, 22, 59)) == Instant(year, 1, 28, 23, 0);
    assert NextHour(Instant(year, 1, 28, 23, 0)) == Instant(year, 1, 29, 0, 0);
    SkipDays(JANUARY_28, Instant(year, 1, 29, 0, 0), 2, 1 + n);
    assert NextDay(Instant(year, 1, 31, 0, 0)) == Instant(year, 2, 1, 0, 0);
  }

  lemma AroundTheYear(year: int, n: nat)
    ensures After(JANUARY_28, Instant(year, 2, 1, 0, 0), 38 + n) == After(JANUARY_28, Instant(year + 1, 1, 28, 0, 0), n)
  {
    SkipMonths(JANUARY_28, Instant(year, 2, 1, 0, 0), 10, 28 + n);
    assert NextMonth(Instant(year, 12, 1, 0, 0)) == Instant(year + 1, 1, 1, 0, 0);
    SkipDays(JANUARY_28, Instant(year + 1, 1, 1, 0, 0), 27, n);
  }

  lemma OnTheDay(year: int, k: nat)
    requires k <= 29
    ensures After(JANUARY_28, Instant(year, 1, 28, 0, 0), 22 + k) == Instant(year, 1, 28, 22, k)
  {
    SkipHours(JANUARY_28, Instant(year, 1, 28, 0, 0), 22, k);
    SkipMinutes(JANUARY_28, Instant(year, 1, 28, 22, 0), k, 0);
  }

  lemma AYearLater(year: int, n: nat)
    ensures After(JANUARY_28, Instant(year, 1, 28, 22, 31), 71 + n) == After(JANUARY_28, Instant(year + 1, 1, 28, 0, 0), n)
  {
    OneMinuteLate(year, 38 + n);
    AroundTheYear(year, n);
  }

  /** The 124 passes are needed: from one minute too late, an entry for 22:30 on 28 January misses 123 times. */
  lemma BoundIsReached(year: int)
    requires 1 <= year
    ensures InRange(JANUARY_28, Target(1, 28, 22, 30)) && Valid(Instant(year, 1, 28, 22, 31))
    ensures After(JANUARY_28, Instant(year, 1, 28, 22, 31), MAX_MISSES - 1) == Instant(year + 1, 1, 28, 22, 29)
  {
    AYearLater(year, MAX_MISSES - 72);
    OnTheDay(year + 1, 29);
  }

  const LEAP_EVENING := CronSpec(Listed([2]), Listed([29]), Listed([23]), Listed([58]))

  /** From 1 March to the next 1 February takes 11 passes, and 28 days of February then miss. */
  lemma ToEndOfFebruary(year: int, n: nat)
    ensures After(LEAP_EVENING, Instant(year, 3, 1, 0, 0), 38 + n) == After(LEAP_EVENING, Instant(year + 1, 2, 28, 0, 0), n)
  {
    SkipMonths(LEAP_EVENING, Instant(year, 3, 1, 0, 0), 9, 29 + n);
    assert After(LEAP_EVENING, Instant(year, 12, 1, 0, 0), 29 + n) == After(LEAP_EVENING, Instant(year + 1, 1, 1, 0, 0), 28 + n);
    assert After(LEAP_EVENING, Instant(year + 1, 1, 1, 0, 0), 28 + n) == After(LEAP_EVENING, Instant(year + 1, 2, 1, 0, 0), 27 + n);
    SkipDays(LEAP_EVENING, Instant(year + 1, 2, 1, 0, 0), 27, n);
  }

  lemma PastCommonFebruary(year: int, n: nat)
    requires !IsLeap(year + 1)
    ensures After(LEAP_EVENING, Instant(year, 3, 1, 0, 0), 39 + n) == After(LEAP_EVENING, Instant(year + 1, 3, 1, 0, 0), n)
  {
    ToEndOfFebruary(year, 1 + n);
    assert NextDay(Instant(year + 1, 2, 28, 0, 0)) == Instant(year + 1, 3, 1, 0, 0);
  }

  lemma ToLeapDay(year: int, n: nat)
    requires IsLeap(year + 1)
    ensures After(LEAP_EVENING, Instant(year, 3, 1, 0, 0), 39 + n) == After(LEAP_EVENING, Instant(year + 1, 2, 29, 0, 0), n)
  {
    ToEndOfFebruary(year, 1 + n);
    assert NextDay(Instant(year + 1, 2, 28, 0, 0)) == Instant(year + 1, 2, 29, 0, 0);
  }

  lemma OnLeapDay(year: int, k: nat)
    requires k <= 58
    ensures After(LEAP_EVENING, Instant(year, 2, 29, 0, 0), 23 + k) == Instant(year, 2, 29, 23, k)
  {
    SkipHours(LEAP_EVENING, Instant(year, 2, 29, 0, 0), 23, k);
    SkipMinutes(LEAP_EVENING, Instant(year, 2, 29, 23, 0), k, 0);
  }

  lemma FourYears(year: int, n: nat)
    requires 1 <= year && IsLeap(year) && IsLeap(year + 4)
    ensures After(LEAP_EVENING, Instant(year, 2, 29, 23, 59), 157 + n) == After(LEAP_EVENING, Instant(year + 4, 2, 29, 0, 0), n)
  {
    assert NextMinute(Instant(year, 2, 29, 23, 59)) == Instant(year, 3, 1, 0, 0);
    PastCommonFebruary(year, 117 + n);
    PastCommonFebruary(year + 1, 78 + n);
    PastCommonFebruary(year + 2, 39 + n);
    ToLeapDay(year + 3, n);
  }

  lemma FourYearsOn(year: int, k: nat)
    requires 1 <= year && IsLeap(year) && IsLeap(year + 4) && k <= 58
    ensures After(LEAP_EVENING, Instant(year, 2, 29, 23, 59), 180 + k) == Instant(year + 4, 2, 29, 23, k)
  {
    FourYears(year, 23 + k);
    OnLeapDay(year + 4, k);
  }

  /**
   * Beyond day 28 the cap can lose a cast: an entry for 23:58 on 29 February, searched for from
   * 23:59 on the last one, is given up at 23:19 on the next one, 39 minutes short of its match.
   */
  lemma CapLosesLeapDay(year: int, passes: nat)
    requires 1 <= year && IsLeap(year) && IsLeap(year + 4) && passes == MAX_ITERS - 1
    ensures Valid(Instant(year, 2, 29, 23, 59)) && Valid(Instant(year + 4, 2, 29, 23, 58))
    ensures Matches(LEAP_EVENING, Instant(year + 4, 2, 29, 23, 58))
    ensures After(LEAP_EVENING, Instant(year, 2, 29, 23, 59), passes) == Instant(year + 4, 2, 29, 23, 19)
    ensures !Matches(LEAP_EVENING, Instant(year + 4, 2, 29, 23, 19))
  {
    var k := passes - 180;
    FourYearsOn(year, k);
  }

  // ---------- Misses, month by month ----------

  function First(year: int, month: int): Instant {
    Instant(year, month, 1, 0, 0)
  }

  /** Months that are not listed, within one year. */
  lemma {:induction false} UnlistedMonths(spec: CronSpec, year: int, month: int, k: nat, months: nat)
    requires 1 <= year && 1 <= month && month + k <= 12 && k <= months
    requires forall m :: month <= m < month + k ==> !spec.month.Matches(m)
    ensures FromMonth(spec, First(year, month), months) == k + FromMonth(spec, First(year, month + k), months - k)
    decreases k
  {
    if k > 0 {
      UnlistedMonths(spec, year, month + 1, k - 1, months - 1);
    }
  }

  /** A listed month that has none of the listed days. */
  lemma MonthWithoutDay(spec: CronSpec, t: Instant, months: nat)
    requires Valid(t) && months > 0 && spec.month.Matches(t.month)
    requires forall d :: 1 <= d <= DaysIn(t.year, t.month) ==> !spec.day.Matches(d)
    ensures FromMonth(spec, t, months) == DaysIn(t.year, t.month) + FromMonth(spec, NextMonth(t), months - 1)
  {
  }

  // ---------- One listed value in each field ----------

  function OneDate(month: int, day: int, hour: int, minute: int): CronSpec {
    CronSpec(Listed([month]), Listed([day]), Listed([hour]), Listed([minute]))
  }

  /** From 1 March, a year without a leap day to come costs 11 months and 28 days. */
  lemma CommonYearCosts(spec: CronSpec, year: int, months: nat)
    requires spec.month == Listed([2]) && spec.day == Listed([29])
    requires 1 <= year && !IsLeap(year + 1) && months >= 12
    ensures FromMonth(spec, First(year, 3), months) == 39 + FromMonth(spec, First(year + 1, 3), months - 12)
  {
    UnlistedMonths(spec, year, 3, 9, months);
    assert NextMonth(First(year, 12)) == First(year + 1, 1);
    assert FromMonth(spec, First(year, 12), months - 9) == 1 + FromMonth(spec, First(year + 1, 1), months - 10);
    assert FromMonth(spec, First(year + 1, 1), months - 10) == 1 + FromMonth(spec, First(year + 1, 2), months - 11);
    MonthWithoutDay(spec, First(year + 1, 2), months - 11);
  }

  /** Before a leap day it costs 11 months, 28 days and the time of the day. */
  lemma LeapYearCosts(hour: int, minute: int, year: int, months: nat)
    requires 1 <= year && IsLeap(year + 1) && months >= 12 && 0 <= hour < 24 && 0 <= minute < 60
    ensures FromMonth(OneDate(2, 29, hour, minute), First(year, 3), months) == 39 + hour + minute
  {
    var spec := OneDate(2, 29, hour, minute);
    UnlistedMonths(spec, year, 3, 9, months);
    assert NextMonth(First(year, 12)) == First(year + 1, 1);
    assert FromMonth(spec, First(year, 12), months - 9) == 1 + FromMonth(spec, First(year + 1, 1), months - 10);
    assert FromMonth(spec, First(year + 1, 1), months - 10) == 1 + FromMonth(spec, First(year + 1, 2), months - 11);
    LeastIs(spec.day, 1, DaysIn(year + 1, 2), 29);
    LeastIs(spec.hour, 0, 23, hour);
    LeastIs(spec.minute, 0, 59, minute);
  }

  lemma LeastIs(f: Field, lo: int, hi: int, v: int)
    requires lo <= v <= hi && f == Listed([v])
    ensures Least(f, lo, hi) == v
  {
    assert f.Matches(v);
  }

  /** From the minute after a leap day's match, the next match is 238 misses away, whatever its time. */
  lemma LeapDayMisses(hour: int, minute: int, year: int, months: nat)
    requires 1 <= year && IsLeap(year) && IsLeap(year + 4) && months >= 60 && 0 <= hour < 24 && 0 <= minute < 60
    ensures Misses(OneDate(2, 29, hour, minute), NextMinute(Instant(year, 2, 29, hour, minute)), months) == 238
  {
    var spec := OneDate(2, 29, hour, minute);
    var march := First(year, 3);
    CommonYearCosts(spec, year, months - 1);
    CommonYearCosts(spec, year + 1, months - 13);
    CommonYearCosts(spec, year + 2, months - 25);
    LeapYearCosts(hour, minute, year + 3, months - 37);
    assert FromMonth(spec, march, months - 1) == 156 + hour + minute;
    RestOfLeapDay(hour, minute, year, months);
    if hour == 23 && minute == 59 {
      UnlistedMonths(spec, year, 3, 1, months);
      CommonYearCosts(spec, year, months);
      CommonYearCosts(spec, year + 1, months - 12);
      CommonYearCosts(spec, year + 2, months - 24);
      LeapYearCosts(hour, minute, year + 3, months - 36);
    }
  }

  lemma RestOfLeapDay(hour: int, minute: int, year: int, months: nat)
    requires 1 <= year && IsLeap(year) && months >= 60 && 0 <= hour < 24 && 0 <= minute < 60
    ensures var spec := OneDate(2, 29, hour, minute);
            Misses(spec, NextMinute(Instant(year, 2, 29, hour, minute)), months)
            == if hour == 23 && minute == 59 then FromMonth(spec, First(year, 3), months)
               else 82 - hour - minute + FromMonth(spec, First(year, 3), months - 1)
  {
    var spec := OneDate(2, 29, hour, minute);
    var t := Instant(year, 2, 29, hour, minute);
    assert NextMonth(t) == First(year, 3);
    assert FromDay(spec, t, 30, months) == FromMonth(spec, First(year, 3), months - 1);
    assert FromHour(spec, t, hour + 1, months) == 23 - hour + FromDay(spec, t, 30, months);
  }

  /**
   * An entry with one listed value in each field is found from every start exactly when it is a time of
   * day on a date that every year has.
   */
  lemma OneDateFoundExactlyWhen(month: int, day: int, hour: int, minute: int)
    ensures (forall start :: Valid(start) ==> Found(OneDate(month, day, hour, minute), start))
            <==> 1 <= month <= 12 && 1 <= day <= DaysIn(COMMON_YEAR, month) && 0 <= hour < 24 && 0 <= minute < 60
  {
    var spec := OneDate(month, day, hour, minute);
    var g := Target(month, day, hour, minute);
    if 1 <= month <= 12 && 1 <= day <= DaysIn(COMMON_YEAR, month) && 0 <= hour < 24 && 0 <= minute < 60 {
      forall start | Valid(start)
        ensures Found(spec, start)
      {
        AtMost124Passes(spec, g, start);
      }
    } else if month == 2 && day == 29 && 0 <= hour < 24 && 0 <= minute < 60 {
      var start := NextMinute(Instant(2000, 2, 29, hour, minute));
      LeapDayMisses(hour, minute, 2000, MAX_ITERS);
      SucceedsExactlyWhen(spec, start, MAX_ITERS);
      assert Valid(start) && !Found(spec, start);
    } else {
      var start := First(COMMON_YEAR, 1);
      AfterNeverPassesAMatch(spec, start, MAX_ITERS - 1);
      assert Valid(start) && !Found(spec, start);
    }
  }

  // ---------- A date that every year has, given up ----------

  const SHORT_MONTHS := CronSpec(Listed([1, 2, 4, 6, 9, 11]), Listed([31]), Listed([23]), Listed([58]))

  lemma ShortMonthsCost(year: int, months: nat)
    requires 1 <= year && !IsLeap(year) && months >= 12
    ensures FromMonth(SHORT_MONTHS, First(year, 2), months) == 265
  {
    ToSummer(year, months);
    ToWinter(year, months - 5);
    LeastIs(SHORT_MONTHS.day, 1, 31, 31);
    LeastIs(SHORT_MONTHS.hour, 0, 23, 23);
    LeastIs(SHORT_MONTHS.minute, 0, 59, 58);
    assert FromMonth(SHORT_MONTHS, First(year + 1, 1), months - 11) == 30 + 23 + 58;
  }

  lemma ToSummer(year: int, months: nat)
    requires 1 <= year && !IsLeap(year) && months >= 12
    ensures FromMonth(SHORT_MONTHS, First(year, 2), months) == 90 + FromMonth(SHORT_MONTHS, First(year, 7), months - 5)
  {
    MonthWithoutDay(SHORT_MONTHS, First(year, 2), months);
    UnlistedMonths(SHORT_MONTHS, year, 3, 1, months - 1);
    MonthWithoutDay(SHORT_MONTHS, First(year, 4), months - 2);
    UnlistedMonths(SHORT_MONTHS, year, 5, 1, months - 3);
    MonthWithoutDay(SHORT_MONTHS, First(year, 6), months - 4);
  }

  lemma ToWinter(year: int, months: nat)
    requires 1 <= year && months >= 7
    ensures FromMonth(SHORT_MONTHS, First(year, 7), months) == 64 + FromMonth(SHORT_MONTHS, First(year + 1, 1), months - 6)
  {
    UnlistedMonths(SHORT_MONTHS, year, 7, 2, months);
    MonthWithoutDay(SHORT_MONTHS, First(year, 9), months - 2);
    UnlistedMonths(SHORT_MONTHS, year, 10, 1, months - 3);
    MonthWithoutDay(SHORT_MONTHS, First(year, 11), months - 4);
    assert NextMonth(First(year, 12)) == First(year + 1, 1);
    assert FromMonth(SHORT_MONTHS, First(year, 12), months - 5) == 1 + FromMonth(SHORT_MONTHS, First(year + 1, 1), months - 6);
  }

  /**
   * The cap also gives up an entry for day 31 that lists short months: though it matches on 31 January of
   * every year, a search that starts a minute after one match misses 266 times before the next.
   */
  lemma CapLosesJanuary(year: int, months: nat)
    requires 1 <= year && !IsLeap(year) && months >= MAX_ITERS
    ensures Matches(SHORT_MONTHS, Instant(year, 1, 31, 23, 58)) && Matches(SHORT_MONTHS, Instant(year + 1, 1, 31, 23, 58))
    ensures Misses(SHORT_MONTHS, Instant(year, 1, 31, 23, 59), months) == 266
    ensures !Found(SHORT_MONTHS, Instant(year, 1, 31, 23, 59))
  {
    var start := Instant(year, 1, 31, 23, 59);
    ShortMonthsCost(year, months - 1);
    assert NextMonth(start) == First(year, 2);
    assert FromDay(SHORT_MONTHS, start, 32, months) == FromMonth(SHORT_MONTHS, First(year, 2), months - 1);
    assert FromMinute(SHORT_MONTHS, start, 59, months) == 1 + FromHour(SHORT_MONTHS, start, 24, months);
    SucceedsExactlyWhen(SHORT_MONTHS, start, months);
  }
}
