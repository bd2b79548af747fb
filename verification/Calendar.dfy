/** UTC calendar arithmetic: instants are seconds since Go's zero time,
    midnight of 1 January of year 1, in the proleptic Gregorian calendar. */
module Calendar {

  type Instant = nat

  const HOUR: nat := 3600
  const DAY: nat := 86400

  function DayOf(t: Instant): nat { t / DAY }

  predicate IsLeap(year: nat) {
    year % 4 == 0 && (year % 100 != 0 || year % 400 == 0)
  }

  /** Months are numbered from 0, January of year 1. */
  function MonthLength(month: nat): (days: nat)
    ensures 28 <= days <= 31
  {
    var inYear := month % 12;
    if inYear == 1 then (if IsLeap(month / 12 + 1) then 29 else 28)
    else if inYear in {3, 5, 8, 10} then 30
    else 31
  }

  /** The number of days before the month begins. */
  function MonthStart(month: nat): nat {
    if month == 0 then 0 else MonthStart(month - 1) + MonthLength(month - 1)
  }

  function MonthFrom(month: nat, day: nat): (found: nat)
    requires MonthStart(month) <= day
    ensures found >= month && MonthStart(found) <= day < MonthStart(found + 1)
    decreases day - MonthStart(month)
  {
    if day < MonthStart(month + 1) then month else MonthFrom(month + 1, day)
  }

  function MonthOf(t: Instant): (month: nat)
    ensures MonthStart(month) <= DayOf(t) < MonthStart(month + 1)
  {
    MonthFrom(0, DayOf(t))
  }

  lemma {:induction false} MonthStartsRise(a: nat, b: nat)
    requires a <= b
    ensures MonthStart(a) <= MonthStart(b)
  {
    if a < b {
      MonthStartsRise(a, b - 1);
    }
  }

  /** Later instants lie in the same month or a later one. */
  lemma MonthsRise(s: Instant, t: Instant)
    requires s <= t
    ensures MonthOf(s) <= MonthOf(t)
  {
    if MonthOf(t) < MonthOf(s) {
      MonthStartsRise(MonthOf(t) + 1, MonthOf(s));
    }
  }

  // ---------------------------------------------------------------- civil dates

  /** A date as a calendar writes it; years, months and days count from 1. */
  datatype Date = Date(year: nat, month: nat, day: nat)

  function DaysIn(year: nat, month: nat): nat {
    if month == 2 then (if year % 4 == 0 && (year % 100 != 0 || year % 400 == 0) then 29 else 28)
    else if month == 4 || month == 6 || month == 9 || month == 11 then 30
    else 31
  }

  predicate IsDate(d: Date) {
    d.year >= 1 && 1 <= d.month <= 12 && 1 <= d.day <= DaysIn(d.year, d.month)
  }

  /** The days of the year's first n months. */
  function DaysBefore(year: nat, n: nat): nat {
    if n == 0 then 0 else DaysBefore(year, n - 1) + DaysIn(year, n)
  }

  /** The leap days of the first years. */
  function LeapDays(years: nat): int {
    years / 4 - years / 100 + years / 400
  }

  /** The days before a date: 365 a year, the leap days, the months and the days. */
  function DaysUntil(d: Date): int
    requires IsDate(d)
  {
    365 * (d.year - 1) + LeapDays(d.year - 1) + DaysBefore(d.year, d.month - 1) + d.day - 1
  }

  lemma MonthLengthIs(year: nat, month: nat)
    requires year >= 1 && 1 <= month <= 12
    ensures MonthLength(12 * (year - 1) + month - 1) == DaysIn(year, month)
  {
    assert (12 * (year - 1) + month - 1) % 12 == month - 1 && (12 * (year - 1) + month - 1) / 12 == year - 1;
  }

  lemma {:induction false} MonthsOfYear(year: nat, n: nat)
    requires year >= 1 && n <= 12
    ensures MonthStart(12 * (year - 1) + n) == MonthStart(12 * (year - 1)) + DaysBefore(year, n)
  {
    if n > 0 {
      var last := 12 * (year - 1) + n - 1;
      MonthsOfYear(year, n - 1);
      MonthLengthIs(year, n);
      assert MonthStart(last + 1) == MonthStart(last) + MonthLength(last);
    }
  }

  lemma YearDays(year: nat)
    ensures DaysBefore(year, 12) == if year % 4 == 0 && (year % 100 != 0 || year % 400 == 0) then 366 else 365
  {
    var days := 0;
    for n := 1 to 13
      invariant days == DaysBefore(year, n - 1)
      invariant days == [0, 31, 59, 90, 120, 151, 181, 212, 243, 273, 304, 334, 365][n - 1]
                        + if n - 1 >= 2 then DaysIn(year, 2) - 28 else 0
    {
      days := days + DaysIn(year, n);
    }
  }

  lemma OneMoreLeapDay(year: nat)
    requires year > 0
    ensures LeapDays(year) ==
              LeapDays(year - 1) + if year % 4 == 0 && (year % 100 != 0 || year % 400 == 0) then 1 else 0
  {
    OneMoreOf(year, 4);
    OneMoreOf(year, 100);
    OneMoreOf(year, 400);
    Hundreds(year);
  }

  lemma OneMoreOf(year: nat, n: nat)
    requires year > 0 && n in {4, 100, 400}
    ensures year / n == (year - 1) / n + if year % n == 0 then 1 else 0
  {
    if n == 4 {
    } else if n == 100 {
    } else {
    }
  }

  lemma Hundreds(year: nat)
    ensures (year % 100 == 0 ==> year % 4 == 0) && (year % 400 == 0 ==> year % 100 == 0)
  {
    assert year % 100 == 0 ==> year == 4 * (25 * (year / 100));
    assert year % 400 == 0 ==> year == 100 * (4 * (year / 400));
  }

  /** Years begin where the Gregorian rule puts them. */
  lemma {:induction false} YearStart(years: nat)
    ensures MonthStart(12 * years) == 365 * years + LeapDays(years)
  {
    if years > 0 {
      YearStart(years - 1);
      OneMoreYear(years);
      OneMoreLeapDay(years);
    }
  }

  lemma OneMoreYear(years: nat)
    requires years > 0
    ensures MonthStart(12 * years) == MonthStart(12 * (years - 1))
                                      + if years % 4 == 0 && (years % 100 != 0 || years % 400 == 0) then 366 else 365
  {
    MonthsOfYear(years, 12);
    YearDays(years);
    assert 12 * (years - 1) + 12 == 12 * years;
  }

  lemma MonthIs(t: Instant, month: nat)
    requires MonthStart(month) <= DayOf(t) < MonthStart(month) + MonthLength(month)
    ensures MonthOf(t) == month
  {
    if MonthOf(t) < month {
      MonthStartsRise(MonthOf(t) + 1, month);
    } else if month < MonthOf(t) {
      MonthStartsRise(month + 1, MonthOf(t));
    }
  }

  lemma MonthOfYear(year: nat, month: nat)
    requires year >= 1 && 1 <= month <= 12
    ensures MonthStart(12 * (year - 1) + month - 1) == 365 * (year - 1) + LeapDays(year - 1) + DaysBefore(year, month - 1)
    ensures MonthLength(12 * (year - 1) + month - 1) == DaysIn(year, month)
  {
    YearStart(year - 1);
    MonthsOfYear(year, month - 1);
    MonthLengthIs(year, month);
  }

  /** The month of an instant is the one its date is in. */
  lemma MonthOfDate(t: Instant, d: Date)
    requires IsDate(d) && t / 86400 == DaysUntil(d)
    ensures MonthOf(t) == 12 * (d.year - 1) + d.month - 1
    ensures DayOf(t) == MonthStart(MonthOf(t)) + d.day - 1
  {
    MonthOfYear(d.year, d.month);
    assert DayOf(t) == DaysUntil(d);
    MonthIs(t, 12 * (d.year - 1) + d.month - 1);
  }
}
