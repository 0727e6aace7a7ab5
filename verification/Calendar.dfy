/**
The proleptic Gregorian calendar as datetime keeps it (years from 1 on, no last one), ISO weeks, and the next run of a
schedule.
*/
module Calendar {

  datatype Date = Date(year: int, month: int, day: int)

  const DAY_US: int := 86_400_000_000

  /** An instant of UTC: a date and the microseconds since its midnight. */
  datatype Instant = Instant(date: Date, micros: int)

  datatype Frequency = Daily | Weekly | Monthly

  predicate Leap(year: int)
  {
    year % 4 == 0 && (year % 100 != 0 || year % 400 == 0)
  }

  function DaysInMonth(year: int, month: int): int
  {
    if month == 2 then (if Leap(year) then 29 else 28)
    else if month in {4, 6, 9, 11} then 30
    else 31
  }

  predicate ValidDate(d: Date)
  {
    1 <= d.year && 1 <= d.month <= 12 && 1 <= d.day <= DaysInMonth(d.year, d.month)
  }

  predicate ValidInstant(t: Instant)
  {
    ValidDate(t.date) && 0 <= t.micros < DAY_US
  }

  function DaysInYear(year: int): int
  {
    if Leap(year) then 366 else 365
  }

  function DaysBeforeYear(year: int): int
    decreases year
  {
    if year <= 1 then 0 else DaysBeforeYear(year - 1) + DaysInYear(year - 1)
  }

  function DaysBeforeMonth(year: int, month: int): int
    decreases month
  {
    if month <= 1 then 0 else DaysBeforeMonth(year, month - 1) + DaysInMonth(year, month - 1)
  }

  /** January 1 of year 1 is day 1. */
  function Ordinal(d: Date): int
  {
    DaysBeforeYear(d.year) + DaysBeforeMonth(d.year, d.month) + d.day
  }

  function Weekday(d: Date): int
  {
    (Ordinal(d) + 6) % 7
  }

  function NextDay(d: Date): Date
  {
    if d.day < DaysInMonth(d.year, d.month) then d.(day := d.day + 1)
    else if d.month < 12 then Date(d.year, d.month + 1, 1)
    else Date(d.year + 1, 1, 1)
  }

  function Time(t: Instant): int
  {
    Ordinal(t.date) * DAY_US + t.micros
  }

  // ---- The Gregorian calendar ----

  /** The days of the first `n` years: a leap year every four, but for the hundreds that are not four hundreds. */
  function DaysInYears(n: nat): int
  {
    365 * n + n / 4 - n / 100 + n / 400
  }

  lemma QuotientSteps(n: nat)
    ensures (n + 1) / 4 == n / 4 + if (n + 1) % 4 == 0 then 1 else 0
    ensures (n + 1) / 100 == n / 100 + if (n + 1) % 100 == 0 then 1 else 0
    ensures (n + 1) / 400 == n / 400 + if (n + 1) % 400 == 0 then 1 else 0
    ensures ((n + 1) % 400 == 0 ==> (n + 1) % 100 == 0) && ((n + 1) % 100 == 0 ==> (n + 1) % 4 == 0)
  {
  }

  lemma OneYearMore(n: nat)
    ensures DaysInYears(n + 1) == DaysInYears(n) + DaysInYear(n + 1)
  {
    QuotientSteps(n);
  }

  lemma {:induction false} DaysBeforeYearInFull(year: nat)
    requires 1 <= year
    ensures DaysBeforeYear(year) == DaysInYears(year - 1)
    decreases year
  {
    if year > 1 {
      DaysBeforeYearInFull(year - 1);
      OneYearMore(year - 2);
    }
  }

  /** The months of a year, by the days before each. */
  lemma MonthsInFull(year: int)
    ensures var leap := if DaysInYear(year) == 366 then 1 else 0;
      && DaysBeforeMonth(year, 1) == 0 && DaysBeforeMonth(year, 2) == 31 && DaysBeforeMonth(year, 3) == 59 + leap
      && DaysBeforeMonth(year, 4) == 90 + leap && DaysBeforeMonth(year, 5) == 120 + leap
      && DaysBeforeMonth(year, 6) == 151 + leap && DaysBeforeMonth(year, 7) == 181 + leap
      && DaysBeforeMonth(year, 8) == 212 + leap && DaysBeforeMonth(year, 9) == 243 + leap
      && DaysBeforeMonth(year, 10) == 273 + leap && DaysBeforeMonth(year, 11) == 304 + leap
      && DaysBeforeMonth(year, 12) == 334 + leap && DaysInMonth(year, 12) == 31
  {
  }

  /** January 1 of 1970 is day 719163, a Thursday; January 1 of 2024 a Monday. */
  lemma KnownDays()
    ensures Ordinal(Date(1970, 1, 1)) == 719163 && Weekday(Date(1970, 1, 1)) == 3
    ensures Weekday(Date(2024, 1, 1)) == 0
  {
    DaysBeforeYearInFull(1970);
    assert DaysInYears(1969) == 719162;
    DaysBeforeYearInFull(2024);
    assert DaysInYears(2023) == 738885;
  }

  // ---- Dates in order ----

  lemma MonthsFillTheYear(year: int)
    ensures DaysBeforeMonth(year, 12) + 31 == DaysInYear(year)
  {
    var leap := if Leap(year) then 1 else 0;
    assert DaysBeforeMonth(year, 3) == 59 + leap;
    assert DaysBeforeMonth(year, 5) == 120 + leap;
    assert DaysBeforeMonth(year, 7) == 181 + leap;
    assert DaysBeforeMonth(year, 9) == 243 + leap;
    assert DaysBeforeMonth(year, 11) == 304 + leap;
  }

  lemma NextDayIsNext(d: Date)
    requires ValidDate(d)
    ensures ValidDate(NextDay(d)) && Ordinal(NextDay(d)) == Ordinal(d) + 1
  {
    MonthsFillTheYear(d.year);
  }

  predicate Earlier(a: Date, b: Date)
  {
    a.year < b.year || (a.year == b.year && (a.month < b.month || (a.month == b.month && a.day < b.day)))
  }

  lemma {:induction false} MonthsInOrder(year: int, m: int, n: int)
    requires 1 <= m < n <= 12
    ensures DaysBeforeMonth(year, m) + DaysInMonth(year, m) <= DaysBeforeMonth(year, n)
    decreases n
  {
    if m < n - 1 {
      MonthsInOrder(year, m, n - 1);
    }
  }

  lemma {:induction false} YearsInOrder(a: int, b: int)
    requires 1 <= a < b
    ensures DaysBeforeYear(a) + DaysInYear(a) <= DaysBeforeYear(b)
    decreases b
  {
    if a < b - 1 {
      YearsInOrder(a, b - 1);
    }
  }

  lemma DayOfYear(d: Date)
    requires ValidDate(d)
    ensures 1 <= DaysBeforeMonth(d.year, d.month) + d.day <= DaysInYear(d.year)
  {
    MonthsFillTheYear(d.year);
    if d.month < 12 {
      MonthsInOrder(d.year, d.month, 12);
    }
    MonthsNonNegative(d.year, d.month);
  }

  lemma {:induction false} MonthsNonNegative(year: int, m: int)
    ensures DaysBeforeMonth(year, m) >= 0
    decreases m
  {
    if m > 1 {
      MonthsNonNegative(year, m - 1);
    }
  }

  /** Ordinals order dates as the calendar does. */
  lemma OrdinalOrder(a: Date, b: Date)
    requires ValidDate(a) && ValidDate(b)
    ensures Earlier(a, b) <==> Ordinal(a) < Ordinal(b)
    ensures a == b <==> Ordinal(a) == Ordinal(b)
  {
    if Earlier(a, b) {
      EarlierIsLess(a, b);
    } else if Earlier(b, a) {
      EarlierIsLess(b, a);
    } else {
      assert a == b;
    }
  }

  lemma EarlierIsLess(a: Date, b: Date)
    requires ValidDate(a) && ValidDate(b) && Earlier(a, b)
    ensures Ordinal(a) < Ordinal(b)
  {
    if a.year < b.year {
      YearsInOrder(a.year, b.year);
      DayOfYear(a);
      DayOfYear(b);
    } else if a.month < b.month {
      MonthsInOrder(a.year, a.month, b.month);
    }
  }

  // ---- ISO weeks ----

  /** The day number of the Monday that begins the week of `d`. */
  function Monday(d: Date): int
  {
    Ordinal(d) - Weekday(d)
  }

  /** The Monday of a year's week 1: the week that holds the year's first Thursday. */
  function FirstMonday(year: int): int
  {
    var newYear := DaysBeforeYear(year) + 1;
    var weekday := (newYear + 6) % 7;
    newYear - weekday + if weekday > 3 then 7 else 0
  }

  /** The ISO year and week of a day of a year, as isocalendar computes them. */
  function WeekOfDay(year: int, day: int): (int, int)
  {
    var week := (day - FirstMonday(year)) / 7;
    if week < 0 then (year - 1, (day - FirstMonday(year - 1)) / 7 + 1)
    else if week >= 52 && day >= FirstMonday(year + 1) then (year + 1, 1)
    else (year, week + 1)
  }

  function IsoWeek(d: Date): (int, int)
  {
    WeekOfDay(d.year, Ordinal(d))
  }

  lemma IsoYearLength(year: int)
    requires 1 <= year
    ensures FirstMonday(year) % 7 == 1
    ensures FirstMonday(year) + 364 <= FirstMonday(year + 1)
  {
    assert DaysBeforeYear(year + 1) == DaysBeforeYear(year) + DaysInYear(year);
  }

  lemma {:induction false} IsoYearsInOrder(a: int, b: int)
    requires 1 <= a < b
    ensures FirstMonday(a + 1) <= FirstMonday(b)
    decreases b
  {
    if a < b - 1 {
      IsoYearsInOrder(a, b - 1);
      IsoYearLength(b - 1);
    }
  }

  lemma WholeWeeks(day: int, monday: int)
    requires monday % 7 == 1
    ensures monday + 7 * ((day - monday) / 7) == day - (day + 6) % 7
  {
  }

  /** Where week 1 lies around New Year. */
  lemma FirstMondayNearNewYear(year: int)
    ensures -3 <= FirstMonday(year) - (DaysBeforeYear(year) + 1) <= 3
  {
  }

  lemma YearOfDay(d: Date)
    requires ValidDate(d)
    ensures DaysBeforeYear(d.year) < Ordinal(d) <= DaysBeforeYear(d.year + 1)
  {
    DayOfYear(d);
  }

  /** The ISO week names the week's Monday, and its year is the one whose weeks that Monday falls among. */
  lemma WeekOfDayPlace(year: int, day: int)
    requires 1 <= year && DaysBeforeYear(year) < day <= DaysBeforeYear(year + 1)
    ensures var (isoYear, week) := WeekOfDay(year, day);
      && 1 <= isoYear
      && FirstMonday(isoYear) + 7 * (week - 1) == day - (day + 6) % 7
      && FirstMonday(isoYear) <= day - (day + 6) % 7 < FirstMonday(isoYear + 1)
  {
    if day < FirstMonday(year) {
      BeforeWeekOne(year, day);
    } else {
      FromWeekOne(year, day);
    }
  }

  lemma BeforeWeekOne(year: int, day: int)
    requires 1 <= year && DaysBeforeYear(year) < day < FirstMonday(year)
    ensures 1 < year && (day - FirstMonday(year)) / 7 < 0
    ensures FirstMonday(year - 1) + 7 * ((day - FirstMonday(year - 1)) / 7) == day - (day + 6) % 7
    ensures FirstMonday(year - 1) <= day - (day + 6) % 7 < FirstMonday(year)
  {
    IsoYearLength(year);
    FirstMondayNearNewYear(year);
    assert year != 1;
    IsoYearLength(year - 1);
    WholeWeeks(day, FirstMonday(year - 1));
    EarlyDay(day, FirstMonday(year - 1), FirstMonday(year));
  }

  lemma FromWeekOne(year: int, day: int)
    requires 1 <= year && FirstMonday(year) <= day <= DaysBeforeYear(year + 1)
    ensures var week := (day - FirstMonday(year)) / 7;
      && 0 <= week
      && FirstMonday(year) + 7 * week == day - (day + 6) % 7
      && (if week >= 52 && day >= FirstMonday(year + 1)
          then day - (day + 6) % 7 == FirstMonday(year + 1) < FirstMonday(year + 2)
          else day - (day + 6) % 7 < FirstMonday(year + 1))
  {
    IsoYearLength(year);
    IsoYearLength(year + 1);
    FirstMondayNearNewYear(year + 1);
    WholeWeeks(day, FirstMonday(year));
    LateDay(day, FirstMonday(year), FirstMonday(year + 1), FirstMonday(year + 2));
  }

  lemma EarlyDay(day: int, previous: int, first: int)
    requires previous % 7 == 1 && first % 7 == 1 && previous + 364 <= first && first - 3 <= day < first
    ensures (day - first) / 7 < 0
    ensures previous <= day - (day + 6) % 7 < first
  {
  }

  lemma LateDay(day: int, first: int, next: int, afterNext: int)
    requires first % 7 == 1 && next % 7 == 1 && first + 364 <= next && next + 364 <= afterNext
    requires first <= day <= next + 2
    ensures (day - first) / 7 >= 0
    ensures (day - first) / 7 >= 52 && day >= next ==> day - (day + 6) % 7 == next < afterNext
    ensures !((day - first) / 7 >= 52 && day >= next) ==> first <= day - (day + 6) % 7 < next
  {
  }

  /** The first Mondays leave room for one ISO year only. */
  lemma IsoYearUnique(a: int, b: int, monday: int)
    requires 1 <= a && 1 <= b
    requires FirstMonday(a) <= monday < FirstMonday(a + 1) && FirstMonday(b) <= monday < FirstMonday(b + 1)
    ensures a == b
  {
    if a < b {
      IsoYearsInOrder(a, b);
    } else if b < a {
      IsoYearsInOrder(b, a);
    }
  }

  lemma SameWeekOfDay(a: (int, int), b: (int, int), first: int, second: int)
    requires 1 <= a.0 && FirstMonday(a.0) + 7 * (a.1 - 1) == first
    requires 1 <= b.0 && FirstMonday(b.0) + 7 * (b.1 - 1) == second
    requires FirstMonday(a.0) <= first < FirstMonday(a.0 + 1)
    requires FirstMonday(b.0) <= second < FirstMonday(b.0 + 1)
    ensures a == b <==> first == second
  {
    if first == second {
      IsoYearUnique(a.0, b.0, first);
    }
  }

  lemma IsoWeekPlace(d: Date)
    requires ValidDate(d)
    ensures var (year, week) := IsoWeek(d);
      && 1 <= year
      && FirstMonday(year) + 7 * (week - 1) == Monday(d)
      && FirstMonday(year) <= Monday(d) < FirstMonday(year + 1)
  {
    YearOfDay(d);
    WeekOfDayPlace(d.year, Ordinal(d));
  }

  /** Two dates have the same ISO year and week exactly when they have the same Monday. */
  lemma SameIsoWeek(a: Date, b: Date)
    requires ValidDate(a) && ValidDate(b)
    ensures IsoWeek(a) == IsoWeek(b) <==> Monday(a) == Monday(b)
  {
    IsoWeekPlace(a);
    IsoWeekPlace(b);
    SameWeekOfDay(IsoWeek(a), IsoWeek(b), Monday(a), Monday(b));
  }

  /** The day number of the first day of the day, the week from Monday on, or the month that `d` is of. */
  function FirstDay(f: Frequency, d: Date): int
  {
    match f
    case Daily => Ordinal(d)
    case Weekly => Monday(d)
    case Monthly => Ordinal(d.(day := 1))
  }

  /** The ISO year of a date is the year of the Thursday of its week. */
  lemma IsoYearOfThursday(d: Date)
    requires ValidDate(d)
    ensures DaysBeforeYear(IsoWeek(d).0) < Monday(d) + 3 <= DaysBeforeYear(IsoWeek(d).0 + 1)
  {
    var year := IsoWeek(d).0;
    IsoWeekPlace(d);
    FirstThursday(year);
    FirstThursday(year + 1);
    ThursdayBetween(Monday(d), IsoWeek(d).1 - 1, FirstMonday(year), FirstMonday(year + 1), DaysBeforeYear(year),
                    DaysBeforeYear(year + 1));
  }

  lemma ThursdayBetween(monday: int, weeks: int, first: int, next: int, days: int, more: int)
    requires first <= monday < next && monday == first + 7 * weeks && first % 7 == 1 && next % 7 == 1
    requires days < first + 3 && next + 3 <= more + 7
    ensures days < monday + 3 <= more
  {
  }

  lemma FirstThursday(year: int)
    ensures FirstMonday(year) % 7 == 1
    ensures DaysBeforeYear(year) < FirstMonday(year) + 3 <= DaysBeforeYear(year) + 7
  {
    FirstThursdayAfter(DaysBeforeYear(year));
  }

  lemma FirstThursdayAfter(days: int)
    ensures var weekday := (days + 7) % 7;
      var first := days + 1 - weekday + if weekday > 3 then 7 else 0;
      first % 7 == 1 && days < first + 3 <= days + 7
  {
  }

  // ---- The next run ----

  predicate Matches(frequency: Frequency, d: Date)
  {
    match frequency
    case Daily => true
    case Weekly => Weekday(d) == 0
    case Monthly => d.day == 1
  }

  /** A run of the schedule: at the time of day, on a day of the frequency. */
  predicate IsRun(frequency: Frequency, micros: int, t: Instant)
  {
    ValidDate(t.date) && t.micros == micros && Matches(frequency, t.date)
  }

  function TimeOfDay(hour: int, minute: int): (micros: int)
    ensures 0 <= hour && 0 <= minute < 60 ==>
      micros / 3_600_000_000 == hour && micros / 60_000_000 % 60 == minute && micros % 60_000_000 == 0
  {
    (hour * 60 + minute) * 60_000_000
  }

  /** No run of any day lies between `base` and `t`. */
  ghost predicate FirstAfter(base: Instant, micros: int, t: Instant)
  {
    forall x | ValidDate(x) && Time(base) < Time(Instant(x, micros)) :: Time(t) <= Time(Instant(x, micros))
  }

  method NextDaily(base: Instant, micros: int) returns (r: Instant)
    requires ValidInstant(base) && 0 <= micros < DAY_US
    ensures IsRun(Daily, micros, r) && Time(base) < Time(r) && FirstAfter(base, micros, r)
  {
    r := Instant(base.date, micros);
    if micros <= base.micros {
      NextDayIsNext(base.date);
      r := Instant(NextDay(base.date), micros);
    }
  }

  /** The least run strictly after `base`. */
  method NextRun(frequency: Frequency, hour: int, minute: int, base: Instant) returns (r: Instant)
    requires ValidInstant(base) && 0 <= hour < 24 && 0 <= minute < 60
    ensures IsRun(frequency, TimeOfDay(hour, minute), r) && Time(base) < Time(r)
    ensures forall x | IsRun(frequency, TimeOfDay(hour, minute), x) && Time(base) < Time(x) :: Time(r) <= Time(x)
  {
    var micros := TimeOfDay(hour, minute);
    var candidate := NextDaily(base, micros);
    if frequency == Weekly {
      var monday := NextMonday(candidate.date);
      r := Instant(monday, micros);
      forall x | IsRun(Weekly, micros, x) && Time(base) < Time(x)
        ensures Time(r) <= Time(x)
      {
        assert Time(candidate) <= Time(Instant(x.date, micros));
      }
    } else if frequency == Monthly {
      r := NextFirst(base, candidate);
    } else {
      r := candidate;
    }
  }

  /** No Monday lies between `from` and `d`. */
  ghost predicate NoMondayBefore(from: Date, d: Date)
  {
    forall x | ValidDate(x) && Weekday(x) == 0 && Ordinal(from) <= Ordinal(x) :: Ordinal(d) <= Ordinal(x)
  }

  lemma WeekdayAfter(n: int)
    requires (n + 6) % 7 != 0
    ensures (7 - (n + 7) % 7) % 7 < (7 - (n + 6) % 7) % 7
  {
  }

  lemma PassOneDay(from: Date, d: Date, next: Date)
    requires ValidDate(d) && Weekday(d) != 0 && NoMondayBefore(from, d) && Ordinal(next) == Ordinal(d) + 1
    ensures NoMondayBefore(from, next)
    ensures (7 - Weekday(next)) % 7 < (7 - Weekday(d)) % 7
  {
    WeekdayAfter(Ordinal(d));
    forall x | ValidDate(x) && Weekday(x) == 0 && Ordinal(from) <= Ordinal(x)
      ensures Ordinal(next) <= Ordinal(x)
    {
      assert Ordinal(d) <= Ordinal(x);
    }
  }

  method NextMonday(from: Date) returns (d: Date)
    requires ValidDate(from)
    ensures ValidDate(d) && Weekday(d) == 0 && Ordinal(from) <= Ordinal(d)
    ensures NoMondayBefore(from, d)
  {
    d := from;
    while Weekday(d) != 0
      invariant ValidDate(d) && Ordinal(from) <= Ordinal(d) && NoMondayBefore(from, d)
      decreases (7 - Weekday(d)) % 7
    {
      NextDayIsNext(d);
      PassOneDay(from, d, NextDay(d));
      d := NextDay(d);
    }
  }

  function FirstOfNextMonth(d: Date): Date
  {
    Date(d.year + if d.month == 12 then 1 else 0, d.month % 12 + 1, 1)
  }

  lemma FirstsInOrder(d: Date, x: Date)
    requires ValidDate(d) && ValidDate(x) && x.day == 1
    ensures ValidDate(FirstOfNextMonth(d)) && Earlier(d, FirstOfNextMonth(d))
    ensures Earlier(d.(day := 1), x) ==> !Earlier(x, FirstOfNextMonth(d))
  {
  }

  lemma NextFirstIsLater(d: Date)
    requires ValidDate(d)
    ensures ValidDate(FirstOfNextMonth(d)) && Ordinal(d) < Ordinal(FirstOfNextMonth(d))
  {
    FirstsInOrder(d, d.(day := 1));
    EarlierIsLess(d, FirstOfNextMonth(d));
  }

  /** No first of a month lies strictly between the first of a month and that of the next. */
  lemma NextFirstIsNext(d: Date, x: Date)
    requires ValidDate(d) && ValidDate(x) && x.day == 1 && Ordinal(d.(day := 1)) < Ordinal(x)
    ensures Ordinal(FirstOfNextMonth(d)) <= Ordinal(x)
  {
    FirstsInOrder(d, x);
    OrdinalOrder(d.(day := 1), x);
    OrdinalOrder(x, FirstOfNextMonth(d));
  }

  method NextFirst(base: Instant, candidate: Instant) returns (r: Instant)
    requires ValidInstant(base) && ValidInstant(candidate)
    requires Time(base) < Time(candidate) && FirstAfter(base, candidate.micros, candidate)
    ensures IsRun(Monthly, candidate.micros, r) && Time(base) < Time(r)
    ensures forall x | IsRun(Monthly, candidate.micros, x) && Time(base) < Time(x) :: Time(r) <= Time(x)
  {
    r := candidate.(date := candidate.date.(day := 1));
    if Time(r) <= Time(base) {
      r := candidate.(date := FirstOfNextMonth(candidate.date));
      NextFirstIsLater(candidate.date);
      forall x | IsRun(Monthly, candidate.micros, x) && Time(base) < Time(x)
        ensures Time(r) <= Time(x)
      {
        NextFirstIsNext(candidate.date, x.date);
      }
    } else {
      forall x | IsRun(Monthly, candidate.micros, x) && Time(base) < Time(x)
        ensures Time(r) <= Time(x)
      {
        assert Time(candidate) <= Time(Instant(x.date, candidate.micros));
        OrdinalOrder(candidate.date, r.date);
      }
    }
  }
}
