/** The proleptic Gregorian calendar in UTC.  Days are numbered from
    1970-01-01 (day 0) and instants are nanoseconds from the start of that day. */
module Calendar {
  import opened Tiling

  // Durations

  function Seconds(n: int): int { 1_000_000_000 * n }

  function Minutes(n: int): int { 60_000_000_000 * n }

  function Hours(n: int): int { 3_600_000_000_000 * n }

  function Days(n: int): int { 86_400_000_000_000 * n }

  datatype Civil = Civil(year: int, month: int, day: int)

  predicate IsLeap(year: int) {
    year % 4 == 0 && (year % 100 != 0 || year % 400 == 0)
  }

  function YearLength(year: int): int {
    if IsLeap(year) then 366 else 365
  }

  /** Day number of January 1st. */
  function YearStart(year: int): int {
    var y := year - 1;
    365 * y + y / 4 - y / 100 + y / 400 - 719162
  }

  /** Length of month `month` (0 for January) of a year. */
  function MonthLength(year: int, month: int): int {
    if month == 1 then (if IsLeap(year) then 29 else 28)
    else if month == 3 || month == 5 || month == 8 || month == 10 then 30
    else 31
  }

  /** Days of the year before month `month` (0 for January). */
  function DaysBeforeMonth(year: int, month: int): int
    requires 0 <= month
  {
    if month == 0 then 0 else DaysBeforeMonth(year, month - 1) + MonthLength(year, month - 1)
  }

  /** First day of the month with absolute index `i`, where month m of year y has
      index 12 * y + m - 1. */
  function MonthStart(i: int): int {
    YearStart(i / 12) + DaysBeforeMonth(i / 12, i % 12)
  }

  /** The day `time.Date(year, month, day, ...)` falls on: months outside 1..12 and days
      outside the month roll over. */
  function DateDay(year: int, month: int, day: int): int {
    MonthStart(12 * year + month - 1) + day - 1
  }

  /** The year holding a day, by 400-, 100-, 4- and 1-year cycles. */
  function YearOf(day: int): (year: int)
    ensures YearStart(year) <= day < YearStart(year + 1)
  {
    var d0 := day + 719162;
    var n400, d1 := d0 / 146097, d0 % 146097;
    var n100 := if d1 / 36524 == 4 then 3 else d1 / 36524;
    var d2 := d1 - 36524 * n100;
    var n4, d3 := d2 / 1461, d2 % 1461;
    var n1 := if d3 / 365 == 4 then 3 else d3 / 365;
    YearByCycles(day, n400, n100, n4, n1, d1, d2, d3);
    400 * n400 + 100 * n100 + 4 * n4 + n1 + 1
  }

  lemma YearByCycles(day: int, n400: int, n100: int, n4: int, n1: int, d1: int, d2: int, d3: int)
    requires day + 719162 == 146097 * n400 + d1 && 0 <= d1 < 146097
    requires d1 == 36524 * n100 + d2 && 0 <= n100 < 4 && 0 <= d2 && (n100 < 3 ==> d2 < 36524)
    requires d2 == 1461 * n4 + d3 && 0 <= d3 < 1461
    requires 0 <= n1 < 4 && 365 * n1 <= d3 && (n1 < 3 ==> d3 < 365 * (n1 + 1))
    ensures var y := 400 * n400 + 100 * n100 + 4 * n4 + n1 + 1; YearStart(y) <= day < YearStart(y + 1)
  {
    YearStartByCycles(n400, n100, n4, n1);
    if n1 < 3 {
      YearStartByCycles(n400, n100, n4, n1 + 1);
    } else if n4 < 24 {
      YearStartByCycles(n400, n100, n4 + 1, 0);
    } else if n100 < 3 {
      YearStartByCycles(n400, n100 + 1, 0, 0);
    } else {
      YearStartByCycles(n400 + 1, 0, 0, 0);
    }
  }

  /** The month of a year (0 for January) holding the day with offset `d` in the year,
      searched downwards from `month`. */
  function MonthOf(year: int, d: nat, month: nat := 11): (m: int)
    requires month < 12 && d < DaysBeforeMonth(year, month) + MonthLength(year, month)
    ensures 0 <= m < 12
    ensures DaysBeforeMonth(year, m) <= d < DaysBeforeMonth(year, m) + MonthLength(year, m)
  {
    if DaysBeforeMonth(year, month) <= d then month else MonthOf(year, d, month - 1)
  }

  lemma DaysBeforeDecember(year: int)
    ensures DaysBeforeMonth(year, 11) + MonthLength(year, 11) == YearLength(year)
  {
    assert DaysBeforeMonth(year, 1) == 31;
    assert DaysBeforeMonth(year, 2) == 31 + MonthLength(year, 1);
    assert DaysBeforeMonth(year, 4) == DaysBeforeMonth(year, 2) + 61;
    assert DaysBeforeMonth(year, 6) == DaysBeforeMonth(year, 4) + 61;
    assert DaysBeforeMonth(year, 8) == DaysBeforeMonth(year, 6) + 62;
    assert DaysBeforeMonth(year, 10) == DaysBeforeMonth(year, 8) + 61;
  }

  /** The calendar date of a day, as `Year()`, `Month()` and `Day()` report it. */
  function CivilOf(day: int): Civil {
    var y := YearOf(day);
    YearStartStep(y);
    DaysBeforeDecember(y);
    var d := day - YearStart(y);
    var m := MonthOf(y, d);
    Civil(y, m + 1, d - DaysBeforeMonth(y, m) + 1)
  }

  ghost predicate ValidCivil(c: Civil) {
    1 <= c.month <= 12 && 1 <= c.day <= MonthLength(c.year, c.month - 1)
  }

  lemma YearStartByCycles(n400: int, n100: int, n4: int, n1: int)
    requires 0 <= n100 < 4 && 0 <= n4 < 25 && 0 <= n1 < 4
    ensures YearStart(400 * n400 + 100 * n100 + 4 * n4 + n1 + 1)
         == 146097 * n400 + 36524 * n100 + 1461 * n4 + 365 * n1 - 719162
  {
    var y := 400 * n400 + 100 * n100 + 4 * n4 + n1;
    assert y / 4 == 100 * n400 + 25 * n100 + n4;
    assert y / 100 == 4 * n400 + n100;
    assert y / 400 == n400;
  }

  lemma YearStartStep(year: int)
    ensures YearStart(year + 1) == YearStart(year) + YearLength(year)
  {
    var y := year - 1;
    assert (y + 1) / 4 == y / 4 + (if year % 4 == 0 then 1 else 0);
    assert (y + 1) / 100 == y / 100 + (if year % 100 == 0 then 1 else 0);
    assert (y + 1) / 400 == y / 400 + (if year % 400 == 0 then 1 else 0);
    assert year % 400 == 0 ==> year % 100 == 0;
    assert year % 100 == 0 ==> year % 4 == 0;
  }

  /** Months follow each other without gap. */
  lemma MonthStartStep(i: int)
    ensures MonthStart(i + 1) == MonthStart(i) + MonthLength(i / 12, i % 12)
  {
    YearStartStep(i / 12);
    DaysBeforeDecember(i / 12);
    if i % 12 == 11 {
      assert (i + 1) / 12 == i / 12 + 1 && (i + 1) % 12 == 0;
    } else {
      assert (i + 1) / 12 == i / 12 && (i + 1) % 12 == i % 12 + 1;
    }
  }

  lemma MonthStartIncreasing()
    ensures Increasing(MonthStart)
  {
    forall k ensures Between(MonthStart, k, MonthStart(k)) {
      MonthStartStep(k);
    }
    IncreasingFromSteps(MonthStart);
  }

  /** Reading a day's calendar date and asking `time.Date` for it gives the day back. */
  lemma CivilOfIsValid(day: int)
    ensures var c := CivilOf(day); ValidCivil(c) && DateDay(c.year, c.month, c.day) == day
  {
    var c := CivilOf(day);
    var i := 12 * c.year + c.month - 1;
    assert i / 12 == c.year && i % 12 == c.month - 1;
  }

  lemma SameMonth(day: int, i: int, j: int)
    requires Between(MonthStart, i, day) && Between(MonthStart, j, day)
    ensures i == j
  {
    MonthStartIncreasing();
    BetweenUnique(MonthStart, day, i, j);
  }

  lemma DateDayInMonth(c: Civil)
    requires ValidCivil(c)
    ensures Between(MonthStart, MonthIndex(c), DateDay(c.year, c.month, c.day))
  {
    var i := 12 * c.year + c.month - 1;
    assert i / 12 == c.year && i % 12 == c.month - 1;
    MonthStartStep(i);
  }

  /** A day has only one calendar date. */
  lemma SameDate(c: Civil, d: Civil)
    requires ValidCivil(c) && ValidCivil(d)
    requires DateDay(c.year, c.month, c.day) == DateDay(d.year, d.month, d.day)
    ensures c == d
  {
    DateDayInMonth(c);
    DateDayInMonth(d);
    SameMonth(DateDay(c.year, c.month, c.day), MonthIndex(c), MonthIndex(d));
    assert c.year == d.year && c.month == d.month;
  }

  /** Every calendar date is reported unchanged by the day it denotes. */
  lemma DateDayRoundTrip(c: Civil)
    requires ValidCivil(c)
    ensures CivilOf(DateDay(c.year, c.month, c.day)) == c
  {
    var day := DateDay(c.year, c.month, c.day);
    CivilOfIsValid(day);
    SameDate(CivilOf(day), c);
  }

  /** The absolute index of the month with a given date in it. */
  function MonthIndex(c: Civil): int {
    12 * c.year + c.month - 1
  }

  lemma MonthOfDay(day: int)
    ensures Between(MonthStart, MonthIndex(CivilOf(day)), day)
  {
    CivilOfIsValid(day);
    DateDayInMonth(CivilOf(day));
  }

  // Instants

  function DayOf(t: int): int { t / 86_400_000_000_000 }

  function ClockOf(t: int): int { t % 86_400_000_000_000 }

  function Date(year: int, month: int, day: int, clock: int): int {
    Days(DateDay(year, month, day)) + clock
  }

  lemma SplitInstant(day: int, clock: int)
    requires 0 <= clock < Days(1)
    ensures DayOf(Days(day) + clock) == day
    ensures ClockOf(Days(day) + clock) == clock
  {
  }

  lemma InstantOrder(day: int, clock: int, t: int)
    requires 0 <= clock < Days(1)
    ensures day < DayOf(t) ==> Days(day) + clock <= t
    ensures day > DayOf(t) ==> t < Days(day) + clock
  {
  }

  /** `t.AddDate(0, months, days)`. */
  function AddDate(t: int, months: int, days: int): int {
    var c := CivilOf(DayOf(t));
    Date(c.year, c.month + months, c.day + days, ClockOf(t))
  }

  lemma AddDays(t: int, days: int)
    ensures AddDate(t, 0, days) == t + Days(days)
  {
    hide CivilOf, MonthStart;
    CivilOfIsValid(DayOf(t));
  }

  /** Weekday of a day, 0 for Sunday: 1970-01-01 was a Thursday. */
  function Weekday(day: int): int { (day + 4) % 7 }

  // Known values

  /** The lengths of the months of any year, by their numbers from 1 on. */
  lemma MonthLengthsKnown(year: int)
    ensures forall m :: m in {1, 3, 5, 7, 8, 10, 12} ==> DateDay(year, m + 1, 1) - DateDay(year, m, 1) == 31
    ensures forall m :: m in {4, 6, 9, 11} ==> DateDay(year, m + 1, 1) - DateDay(year, m, 1) == 30
    ensures DateDay(year, 3, 1) - DateDay(year, 2, 1) == if IsLeap(year) then 29 else 28
  {
    hide DateDay, IsLeap;
    forall m | 1 <= m <= 12 ensures DateDay(year, m + 1, 1) - DateDay(year, m, 1) == MonthLength(year, m - 1) {
      MonthFollows(year, m);
    }
  }

  lemma MonthFollows(year: int, m: int)
    requires 1 <= m <= 12
    ensures DateDay(year, m + 1, 1) - DateDay(year, m, 1) == MonthLength(year, m - 1)
  {
    MonthStartStep(12 * year + m - 1);
    assert (12 * year + m - 1) / 12 == year && (12 * year + m - 1) % 12 == m - 1;
    hide MonthStart, MonthLength;
  }

  lemma LeapYearsKnown()
    ensures IsLeap(2000) && IsLeap(2024) && !IsLeap(1900) && !IsLeap(2023)
  {
  }

  /** The day of January 1st of any year, counted from 1970. */
  lemma NewYearsDay(year: int)
    ensures DateDay(year, 1, 1)
      == 365 * (year - 1970) + ((year - 1) / 4 - 492) - ((year - 1) / 100 - 19) + ((year - 1) / 400 - 4)
  {
    DateDayIs(year, 1, 1);
    DaysBeforeSome(year);
    hide DateDay, DaysBeforeMonth;
  }

  /** March 1st comes 60 days later in leap years and 59 days later in others. */
  lemma MarchFirst(year: int)
    ensures DateDay(year, 3, 1) - DateDay(year, 1, 1) == if IsLeap(year) then 60 else 59
  {
    hide IsLeap;
    DateDayIs(year, 1, 1);
    DateDayIs(year, 3, 1);
    DaysBeforeSome(year);
    hide DateDay, DaysBeforeMonth, YearStart;
  }

  /** The day after December 31st is January 1st. */
  lemma NewYearsEve(year: int)
    ensures DateDay(year, 12, 31) + 1 == DateDay(year + 1, 1, 1)
  {
    DateDayIs(year, 12, 31);
    DateDayIs(year + 1, 1, 1);
    DaysBeforeSome(year);
    DaysBeforeSome(year + 1);
    YearStartStep(year);
    hide DateDay, DaysBeforeMonth, YearStart, YearLength;
  }

  lemma DaysBeforeSome(year: int)
    ensures DaysBeforeMonth(year, 0) == 0 && DaysBeforeMonth(year, 2) == 31 + (if IsLeap(year) then 29 else 28)
    ensures DaysBeforeMonth(year, 11) == YearLength(year) - 31
  {
    DaysBeforeDecember(year);
    assert DaysBeforeMonth(year, 1) == DaysBeforeMonth(year, 0) + MonthLength(year, 0);
    assert DaysBeforeMonth(year, 2) == DaysBeforeMonth(year, 1) + MonthLength(year, 1);
  }

  lemma DateDayIs(year: int, month: int, day: int)
    requires 1 <= month <= 12
    ensures DateDay(year, month, day) == YearStart(year) + DaysBeforeMonth(year, month - 1) + day - 1
  {
  }
}
