/**
 * The calendar search of _AVPSchedule.parse_db: from a start minute, field-by-field jumps
 * to the first minute that matches a crontab-like entry, given up after 200 passes.
 */
module CronSearch {
  import opened Calendar

  const MAX_ITERS := 200

  /** What is_wild returns: the wildcard or a list of integers. */
  datatype Field = Wild | Listed(values: seq<int>) {
    predicate Matches(v: int) {
      Wild? || v in values
    }
  }

  datatype CronSpec = CronSpec(month: Field, day: Field, hour: Field, minute: Field)

  predicate Matches(spec: CronSpec, t: Instant) {
    spec.month.Matches(t.month) && spec.day.Matches(t.day) && spec.hour.Matches(t.hour) && spec.minute.Matches(t.minute)
  }

  /** An entry matches an instant when each of its fields is the wildcard or lists the instant's value. */
  lemma MatchesMeans(spec: CronSpec, t: Instant)
    ensures Matches(spec, t) <==>
              && (spec.month == Wild || exists i :: 0 <= i < |spec.month.values| && spec.month.values[i] == t.month)
              && (spec.day == Wild || exists i :: 0 <= i < |spec.day.values| && spec.day.values[i] == t.day)
              && (spec.hour == Wild || exists i :: 0 <= i < |spec.hour.values| && spec.hour.values[i] == t.hour)
              && (spec.minute == Wild || exists i :: 0 <= i < |spec.minute.values| && spec.minute.values[i] == t.minute)
  {
  }

  /** The mutable candidate that the search bumps field by field. */
  class CronTime {
    var year: int
    var month: int
    var day: int
    var hour: int
    var minute: int

    function Value(): Instant
      reads this
    {
      Instant(year, month, day, hour, minute)
    }

    constructor (t: Instant)
      ensures Value() == t
    {
      year, month, day, hour, minute := t.year, t.month, t.day, t.hour, t.minute;
    }

    /** The block that repairs overflowed fields at the head of each pass. */
    method FixInvalid()
      modifies this
      ensures Value() == Carry(old(Value()))
    {
      if minute >= 60 {
        minute := minute - 60;
        hour := hour + 1;
      }
      if hour >= 24 {
        hour := hour - 24;
        day := day + 1;
      }
      if !ValidDate(year, month, day) {
        day := 1;
        month := month + 1;
        if month == 13 {
          month := month - 12;
          year := year + 1;
        }
      }
      if month >= 13 {
        month := 1;
        year := year + 1;
      }
    }

    /** The cron comparisons: bump the first field that does not match, or report a match. */
    method Bump(spec: CronSpec) returns (done: bool)
      modifies this
      ensures done == Matches(spec, old(Value()))
      ensures Value() == if done then old(Value()) else Bumped(spec, old(Value()))
    {
      if !spec.month.Matches(month) {
        month := month + 1;
        day := 1;
        hour := 0;
        minute := 0;
        return false;
      }
      if !spec.day.Matches(day) {
        day := day + 1;
        hour := 0;
        minute := 0;
        return false;
      }
      if !spec.hour.Matches(hour) {
        hour := hour + 1;
        minute := 0;
        return false;
      }
      if !spec.minute.Matches(minute) {
        minute := minute + 1;
        return false;
      }
      return true;
    }
  }

  function Carry(t: Instant): Instant {
    var t := if t.minute >= 60 then t.(minute := t.minute - 60, hour := t.hour + 1) else t;
    var t := if t.hour >= 24 then t.(hour := t.hour - 24, day := t.day + 1) else t;
    var t := if ValidDate(t.year, t.month, t.day) then t
             else if t.month == 12 then t.(year := t.year + 1, month := 1, day := 1)
             else t.(month := t.month + 1, day := 1);
    if t.month >= 13 then t.(year := t.year + 1, month := 1) else t
  }

  function Bumped(spec: CronSpec, t: Instant): Instant {
    if !spec.month.Matches(t.month) then Instant(t.year, t.month + 1, 1, 0, 0)
    else if !spec.day.Matches(t.day) then Instant(t.year, t.month, t.day + 1, 0, 0)
    else if !spec.hour.Matches(t.hour) then Instant(t.year, t.month, t.day, t.hour + 1, 0)
    else t.(minute := t.minute + 1)
  }

  /** What one missing pass means on the calendar: skip the rest of the unit that does not match. */
  function Advance(spec: CronSpec, t: Instant): Instant {
    if !spec.month.Matches(t.month) then NextMonth(t)
    else if !spec.day.Matches(t.day) then NextDay(t)
    else if !spec.hour.Matches(t.hour) then NextHour(t)
    else NextMinute(t)
  }

  /** The instant looked at after n missing passes (a match is never left). */
  function After(spec: CronSpec, t: Instant, n: nat): Instant
    decreases n
  {
    if n == 0 || Matches(spec, t) then t else After(spec, Advance(spec, t), n - 1)
  }

  // ---------- One pass ----------

  /** The four carries, 60 to hour, 24 to day, bad day to month and 13 to year, compute the calendar successor. */
  lemma CarryIsCalendarSuccessor(spec: CronSpec, t: Instant)
    requires Valid(t) && !Matches(spec, t)
    ensures Carry(Bumped(spec, t)) == Advance(spec, t)
    ensures Valid(Advance(spec, t)) && Before(t, Advance(spec, t))
  {
  }

  /** No pass jumps over a match: everything from t up to the next candidate misses in the same field as t. */
  lemma AdvanceSkipsNoMatch(spec: CronSpec, t: Instant, u: Instant)
    requires Valid(t) && Valid(u) && !Matches(spec, t)
    requires AtOrBefore(t, u) && Before(u, Advance(spec, t))
    ensures !Matches(spec, u)
  {
    if !spec.month.Matches(t.month) {
      assert u.month == t.month;
    } else if !spec.day.Matches(t.day) {
      assert u.month == t.month && u.day == t.day;
    } else if !spec.hour.Matches(t.hour) {
      assert u.day == t.day && u.hour == t.hour;
    } else {
      assert u == t;
    }
  }

  // ---------- Whole searches ----------

  ghost predicate IsFirstMatch(spec: CronSpec, start: Instant, t: Instant) {
    && Valid(t) && AtOrBefore(start, t) && Matches(spec, t)
    && forall u :: Valid(u) && AtOrBefore(start, u) && Before(u, t) ==> !Matches(spec, u)
  }

  lemma {:induction false} AfterNeverPassesAMatch(spec: CronSpec, start: Instant, n: nat)
    requires Valid(start)
    ensures Valid(After(spec, start, n)) && AtOrBefore(start, After(spec, start, n))
    ensures forall u :: Valid(u) && AtOrBefore(start, u) && Before(u, After(spec, start, n)) ==> !Matches(spec, u)
    decreases n
  {
    if n > 0 && !Matches(spec, start) {
      CarryIsCalendarSuccessor(spec, start);
      var next := Advance(spec, start);
      AfterNeverPassesAMatch(spec, next, n - 1);
      forall u | Valid(u) && AtOrBefore(start, u) && Before(u, After(spec, start, n))
        ensures !Matches(spec, u)
      {
        if Before(u, next) {
          AdvanceSkipsNoMatch(spec, start, u);
        }
      }
    }
  }

  lemma {:induction false} AfterStep(spec: CronSpec, t: Instant, n: nat)
    ensures After(spec, t, n + 1) ==
            if Matches(spec, After(spec, t, n)) then After(spec, t, n) else Advance(spec, After(spec, t, n))
    decreases n
  {
    if n > 0 && !Matches(spec, t) {
      AfterStep(spec, Advance(spec, t), n - 1);
    }
  }

  /** Without the cap, the search ends whenever any match exists from the start on. */
  lemma {:induction false} UncappedSearchTerminates(spec: CronSpec, start: Instant, u: Instant)
    requires Valid(start) && Valid(u) && AtOrBefore(start, u) && Matches(spec, u)
    ensures exists n: nat :: n <= Index(u) - Index(start) && Matches(spec, After(spec, start, n))
    decreases Index(u) - Index(start)
  {
    IndexIsMonotone(start, u);
    if Matches(spec, start) {
      assert Matches(spec, After(spec, start, 0));
    } else {
      var next := Advance(spec, start);
      CarryIsCalendarSuccessor(spec, start);
      IndexIsMonotone(start, next);
      if Before(u, next) {
        AdvanceSkipsNoMatch(spec, start, u);
      }
      UncappedSearchTerminates(spec, next, u);
      var n: nat :| n <= Index(u) - Index(next) && Matches(spec, After(spec, next, n));
      assert After(spec, start, n + 1) == After(spec, next, n);
    }
  }

  // ---------- How many passes miss ----------

  /** The least value from lo to hi that the field matches, or hi + 1. */
  function Least(f: Field, lo: int, hi: int): (r: int)
    requires lo <= hi + 1
    ensures lo <= r <= hi + 1
    ensures r <= hi ==> f.Matches(r)
    ensures forall v :: lo <= v < r ==> !f.Matches(v)
    decreases hi + 1 - lo
  {
    if lo > hi || f.Matches(lo) then lo else Least(f, lo + 1, hi)
  }

  /** The entry matches at some time of the day. */
  predicate HasTime(spec: CronSpec) {
    Least(spec.hour, 0, 23) <= 23 && Least(spec.minute, 0, 59) <= 59
  }

  // The misses left at the first instant of a month, and at day d, hour h or minute m of the one that
  // contains t. One miss is counted for each month that is not listed, for each day, hour and minute tried
  // before a listed one, and for each day of a listed month that lacks the listed days; no more than
  // `months` months are looked at.

  function FromMonth(spec: CronSpec, t: Instant, months: nat): nat
    requires Valid(t)
    decreases months, 1
  {
    if months == 0 then 0
    else if !spec.month.Matches(t.month) then 1 + FromMonth(spec, NextMonth(t), months - 1)
    else FromDay(spec, t, 1, months)
  }

  function FromDay(spec: CronSpec, t: Instant, d: int, months: nat): nat
    requires Valid(t) && 1 <= d <= DaysIn(t.year, t.month) + 1 && months > 0
    decreases months, 0
  {
    var days := DaysIn(t.year, t.month);
    var e := Least(spec.day, d, days);
    if e <= days then e - d + Least(spec.hour, 0, 23) + Least(spec.minute, 0, 59)
    else days + 1 - d + FromMonth(spec, NextMonth(t), months - 1)
  }

  function FromHour(spec: CronSpec, t: Instant, h: int, months: nat): nat
    requires Valid(t) && 0 <= h <= 24 && months > 0
  {
    var e := Least(spec.hour, h, 23);
    if e <= 23 then e - h + Least(spec.minute, 0, 59) else 24 - h + FromDay(spec, t, t.day + 1, months)
  }

  function FromMinute(spec: CronSpec, t: Instant, m: int, months: nat): nat
    requires Valid(t) && 0 <= m <= 60 && months > 0
  {
    var e := Least(spec.minute, m, 59);
    if e <= 59 then e - m else 60 - m + FromHour(spec, t, t.hour + 1, months)
  }

  /** The misses of a search that starts at t. */
  function Misses(spec: CronSpec, t: Instant, months: nat): nat
    requires Valid(t) && months > 0
  {
    if !spec.month.Matches(t.month) then 1 + FromMonth(spec, NextMonth(t), months - 1)
    else if !spec.day.Matches(t.day) then FromDay(spec, t, t.day, months)
    else if !spec.hour.Matches(t.hour) then FromHour(spec, t, t.hour, months)
    else FromMinute(spec, t, t.minute, months)
  }

  // At a candidate that has just been reset, these count the same.

  lemma AtHourStart(spec: CronSpec, t: Instant, months: nat)
    requires Valid(t) && HasTime(spec) && months > 0 && t.minute == 0
    requires spec.month.Matches(t.month) && spec.day.Matches(t.day)
    ensures Misses(spec, t, months) == FromHour(spec, t, t.hour, months)
  {
  }

  lemma AtDayStart(spec: CronSpec, t: Instant, months: nat)
    requires Valid(t) && HasTime(spec) && months > 0 && t.hour == t.minute == 0
    requires spec.month.Matches(t.month)
    ensures Misses(spec, t, months) == FromDay(spec, t, t.day, months)
  {
    if spec.day.Matches(t.day) {
      AtHourStart(spec, t, months);
    }
  }

  lemma AtMonthStart(spec: CronSpec, t: Instant, months: nat)
    requires Valid(t) && HasTime(spec) && months > 0 && t == Instant(t.year, t.month, 1, 0, 0)
    ensures Misses(spec, t, months) == FromMonth(spec, t, months)
  {
    if spec.month.Matches(t.month) {
      AtDayStart(spec, t, months);
    }
  }

  /** t is looked at after months - left months have gone by. */
  predicate Within(left: nat, months: nat) {
    months - 1 <= left <= months
  }

  lemma DaySpent(spec: CronSpec, t: Instant, months: nat) returns (left: nat)
    requires Valid(t) && HasTime(spec) && months > 1 && spec.month.Matches(t.month)
    ensures Within(left, months) && FromDay(spec, t, t.day + 1, months) == Misses(spec, NextDay(t), left)
  {
    if t.day == DaysIn(t.year, t.month) {
      left := months - 1;
      AtMonthStart(spec, NextDay(t), left);
    } else {
      left := months;
      AtDayStart(spec, NextDay(t), left);
    }
  }

  lemma HourSpent(spec: CronSpec, t: Instant, months: nat) returns (left: nat)
    requires Valid(t) && HasTime(spec) && months > 1 && spec.month.Matches(t.month) && spec.day.Matches(t.day)
    ensures Within(left, months) && FromHour(spec, t, t.hour + 1, months) == Misses(spec, NextHour(t), left)
  {
    if t.hour == 23 {
      left := DaySpent(spec, t, months);
    } else {
      left := months;
      AtHourStart(spec, NextHour(t), left);
    }
  }

  // Each kind of miss counts for one.

  lemma MonthMiss(spec: CronSpec, t: Instant, months: nat) returns (left: nat)
    requires Valid(t) && HasTime(spec) && months > 1 && !spec.month.Matches(t.month)
    ensures Within(left, months) && Misses(spec, t, months) == 1 + Misses(spec, NextMonth(t), left)
  {
    left := months - 1;
    AtMonthStart(spec, NextMonth(t), left);
  }

  lemma DayMiss(spec: CronSpec, t: Instant, months: nat) returns (left: nat)
    requires Valid(t) && HasTime(spec) && months > 1 && spec.month.Matches(t.month) && !spec.day.Matches(t.day)
    ensures Within(left, months) && Misses(spec, t, months) == 1 + Misses(spec, NextDay(t), left)
  {
    left := DaySpent(spec, t, months);
  }

  lemma HourMiss(spec: CronSpec, t: Instant, months: nat) returns (left: nat)
    requires Valid(t) && HasTime(spec) && months > 1 && spec.month.Matches(t.month) && spec.day.Matches(t.day)
    requires !spec.hour.Matches(t.hour)
    ensures Within(left, months) && Misses(spec, t, months) == 1 + Misses(spec, NextHour(t), left)
  {
    left := HourSpent(spec, t, months);
  }

  lemma MinuteMiss(spec: CronSpec, t: Instant, months: nat) returns (left: nat)
    requires Valid(t) && HasTime(spec) && months > 1 && spec.month.Matches(t.month) && spec.day.Matches(t.day)
    requires spec.hour.Matches(t.hour) && !spec.minute.Matches(t.minute)
    ensures Within(left, months) && Misses(spec, t, months) == 1 + Misses(spec, NextMinute(t), left)
  {
    left := months;
    if t.minute == 59 {
      left := HourSpent(spec, t, months);
    }
  }

  /** Every miss uses up exactly one. */
  lemma EachMissUsesOne(spec: CronSpec, t: Instant, months: nat) returns (left: nat)
    requires Valid(t) && HasTime(spec) && months > 1 && !Matches(spec, t)
    ensures Valid(Advance(spec, t)) && Within(left, months)
    ensures Misses(spec, t, months) == 1 + Misses(spec, Advance(spec, t), left)
  {
    CarryIsCalendarSuccessor(spec, t);
    if !spec.month.Matches(t.month) {
      left := MonthMiss(spec, t, months);
    } else if !spec.day.Matches(t.day) {
      left := DayMiss(spec, t, months);
    } else if !spec.hour.Matches(t.hour) {
      left := HourMiss(spec, t, months);
    } else {
      left := MinuteMiss(spec, t, months);
    }
  }

  lemma NoneLeftAtMatch(spec: CronSpec, t: Instant, months: nat)
    requires Valid(t) && months > 0
    ensures Misses(spec, t, months) == 0 <==> Matches(spec, t)
  {
  }

  /** n passes find a match exactly when no more than n passes miss. */
  lemma {:induction false} FoundAfterMisses(spec: CronSpec, t: Instant, months: nat, n: nat)
    requires Valid(t) && HasTime(spec) && n < months
    ensures Matches(spec, After(spec, t, n)) <==> Misses(spec, t, months) <= n
    decreases n
  {
    NoneLeftAtMatch(spec, t, months);
    if n > 0 && !Matches(spec, t) {
      var left := EachMissUsesOne(spec, t, months);
      FoundAfterMisses(spec, Advance(spec, t), left, n - 1);
    }
  }

  lemma MatchHasTime(spec: CronSpec, t: Instant)
    requires Valid(t) && Matches(spec, t)
    ensures HasTime(spec)
  {
  }

  /** The entry matches at some time of day and, with so many months looked at, misses fewer than 200 times. */
  predicate WithinCap(spec: CronSpec, start: Instant, months: nat)
    requires Valid(start) && months > 0
  {
    HasTime(spec) && Misses(spec, start, months) < MAX_ITERS
  }

  lemma SucceedsExactlyWhen(spec: CronSpec, start: Instant, months: nat)
    requires Valid(start) && months >= MAX_ITERS
    ensures Matches(spec, After(spec, start, MAX_ITERS - 1)) <==> WithinCap(spec, start, months)
  {
    var n := MAX_ITERS - 1;
    AfterNeverPassesAMatch(spec, start, n);
    if Matches(spec, After(spec, start, n)) {
      MatchHasTime(spec, After(spec, start, n));
    }
    if HasTime(spec) {
      FoundAfterMisses(spec, start, months, n);
    }
  }

  /** The loop of parse_db for one record. */
  method Search(start: Instant, spec: CronSpec) returns (success: bool, nextTime: CronTime)
    requires Valid(start)
    ensures fresh(nextTime)
    ensures success ==> IsFirstMatch(spec, start, nextTime.Value())
    ensures success <==> Matches(spec, After(spec, start, MAX_ITERS - 1))
    ensures !success ==> forall u :: Valid(u) && AtOrBefore(start, u) && Before(u, After(spec, start, MAX_ITERS)) ==> !Matches(spec, u)
  {
    nextTime := new CronTime(start);
    var iters := 0;
    success := false;
    while true
      invariant 0 <= iters <= MAX_ITERS && !success && fresh(nextTime)
      invariant Carry(nextTime.Value()) == After(spec, start, iters)
      invariant iters > 0 ==> !Matches(spec, After(spec, start, iters - 1))
      decreases MAX_ITERS - iters
    {
      AfterNeverPassesAMatch(spec, start, iters);
      iters := iters + 1;
      if iters > MAX_ITERS {
        break;
      }
      nextTime.FixInvalid();
      AfterStep(spec, start, iters - 1);
      var done := nextTime.Bump(spec);
      if done {
        MatchIsKept(spec, start, iters - 1, MAX_ITERS - 1);
        success := true;
        break;
      }
      CarryIsCalendarSuccessor(spec, After(spec, start, iters - 1));
    }
  }

  /** The next time of a record: the first match from the start on, unless 200 passes miss before it. */
  method NextOccurrence(start: Instant, spec: CronSpec) returns (success: bool, nextTime: CronTime)
    requires Valid(start)
    ensures fresh(nextTime)
    ensures success ==> IsFirstMatch(spec, start, nextTime.Value())
    ensures success <==> Matches(spec, After(spec, start, MAX_ITERS - 1))
    ensures forall months: nat :: months >= MAX_ITERS ==> (success <==> WithinCap(spec, start, months))
    ensures !success ==> forall u :: Valid(u) && AtOrBefore(start, u) && Before(u, After(spec, start, MAX_ITERS)) ==> !Matches(spec, u)
  {
    success, nextTime := Search(start, spec);
    forall months: nat | months >= MAX_ITERS
      ensures success <==> WithinCap(spec, start, months)
    {
      SucceedsExactlyWhen(spec, start, months);
    }
  }

  lemma {:induction false} MatchIsKept(spec: CronSpec, t: Instant, n: nat, k: nat)
    requires n <= k && Matches(spec, After(spec, t, n))
    ensures After(spec, t, k) == After(spec, t, n)
    decreases k
  {
    if n < k {
      MatchIsKept(spec, t, n, k - 1);
      AfterStep(spec, t, k - 1);
    }
  }
}
