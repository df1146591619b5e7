/** Budget windows: which period an instant belongs to (internal/budget/types.go). */
module Periods {
  import opened Calendar
  import opened Tiling

  const HOURLY := 3600
  const DAILY := 86400
  const WEEKLY := 604800
  const MONTHLY := 2592000  // a key for calendar months, not a length

  // Bounds of Go's int64, which holds period_seconds and time.Duration.
  const TWO_63 := 0x8000_0000_0000_0000
  const MAX_DURATION_SECONDS := 9_223_372_036  // whole seconds below 2^63 nanoseconds

  datatype Settings = Settings(
    dailyHour: int, dailyMinute: int,
    weeklyWeekday: int, weeklyHour: int, weeklyMinute: int,
    monthlyDay: int, monthlyHour: int, monthlyMinute: int)

  datatype Window = Window(start: int, end: int)

  predicate ValidSettings(s: Settings) {
    && 0 <= s.dailyHour <= 23 && 0 <= s.dailyMinute <= 59
    && 0 <= s.weeklyWeekday <= 6
    && 0 <= s.weeklyHour <= 23 && 0 <= s.weeklyMinute <= 59
    && 1 <= s.monthlyDay <= 31
    && 0 <= s.monthlyHour <= 23 && 0 <= s.monthlyMinute <= 59
  }

  predicate IsInt64(n: int) { -TWO_63 <= n < TWO_63 }

  /** int64 arithmetic wraps around. */
  function WrapInt64(n: int): int { (n + TWO_63) % (2 * TWO_63) - TWO_63 }

  /** Go's `%`: the remainder takes the sign of the dividend. */
  function GoRemainder(a: int, b: int): int
    requires b > 0
  {
    if a >= 0 then a % b else -((-a) % b)
  }

  function Clock(hour: int, minute: int): int {
    Hours(hour) + Minutes(minute)
  }

  function UnixOf(t: int): int { t / 1_000_000_000 }

  function AnchoredDayStart(now: int, hour: int, minute: int): int {
    var c := CivilOf(DayOf(now));
    var start := Date(c.year, c.month, c.day, Clock(hour, minute));
    if now < start then AddDate(start, 0, -1) else start
  }

  function AnchoredWeekStart(now: int, weekday: int, hour: int, minute: int): int {
    var c := CivilOf(DayOf(now));
    var todayAnchor := Date(c.year, c.month, c.day, Clock(hour, minute));
    var daysBack := GoRemainder(Weekday(DayOf(todayAnchor)) - weekday + 7, 7);
    var start := AddDate(todayAnchor, 0, -daysBack);
    if now < start then AddDate(start, 0, -7) else start
  }

  /** Day 0 of the following month is the last day of this one. */
  function DaysInMonth(year: int, month: int): int {
    CivilOf(DateDay(year, month + 1, 0)).day
  }

  function MonthAnchor(year: int, month: int, day: int, hour: int, minute: int): int {
    var last := DaysInMonth(year, month);
    Date(year, month, if day < last then day else last, Clock(hour, minute))
  }

  function AnchoredMonthStart(now: int, day: int, hour: int, minute: int): int {
    var c := CivilOf(DayOf(now));
    var start := MonthAnchor(c.year, c.month, day, hour, minute);
    if now < start then
      var prevFirst := Date(c.year, c.month, 1, ClockOf(now));
      var prev := CivilOf(DayOf(AddDate(prevFirst, -1, 0)));
      MonthAnchor(prev.year, prev.month, day, hour, minute)
    else start
  }

  function PeriodBounds(now: int, seconds: int, s: Settings): Window {
    if seconds == HOURLY then
      // Truncate counts from year 1, a whole number of hours before 1970
      var start := Hours(now / 3_600_000_000_000);
      Window(start, start + Hours(1))
    else if seconds == DAILY then
      var start := AnchoredDayStart(now, s.dailyHour, s.dailyMinute);
      Window(start, AddDate(start, 0, 1))
    else if seconds == WEEKLY then
      var start := AnchoredWeekStart(now, s.weeklyWeekday, s.weeklyHour, s.weeklyMinute);
      Window(start, AddDate(start, 0, 7))
    else if seconds == MONTHLY then
      var start := AnchoredMonthStart(now, s.monthlyDay, s.monthlyHour, s.monthlyMinute);
      var c := CivilOf(DayOf(start));
      var next := CivilOf(DateDay(c.year, c.month + 1, 1));
      Window(start, MonthAnchor(next.year, next.month, s.monthlyDay, s.monthlyHour, s.monthlyMinute))
    else if seconds <= 0 then
      Window(now, now)
    else
      var unix := UnixOf(now);
      var start := Seconds(unix - GoRemainder(unix, seconds));
      Window(start, start + WrapInt64(Seconds(seconds)))
  }

  // The anchors, independently of any clock reading

  /** The monthly anchor day of the month with index `i`, clamped to the month's last day. */
  function MonthMarkDay(i: int, day: int): (d: int)
    ensures 1 <= day ==> Between(MonthStart, i, d)
  {
    MonthStartStep(i);
    var last := MonthLength(i / 12, i % 12);
    MonthStart(i) + (if day < last then day else last) - 1
  }

  function MonthMark(i: int, day: int, clock: int): int {
    Days(MonthMarkDay(i, day)) + clock
  }

  /** The `i`-th instant at which a period of this kind begins. */
  function Mark(seconds: int, s: Settings, i: int): int {
    if seconds == HOURLY then Hours(i)
    else if seconds == DAILY then Days(i) + Clock(s.dailyHour, s.dailyMinute)
    else if seconds == WEEKLY then
      Days(7 * i + s.weeklyWeekday - 4) + Clock(s.weeklyHour, s.weeklyMinute)
    else if seconds == MONTHLY then MonthMark(i, s.monthlyDay, Clock(s.monthlyHour, s.monthlyMinute))
    else i * (Seconds(seconds))
  }

  function Marks(seconds: int, s: Settings): int -> int {
    (i: int) => Mark(seconds, s, i)
  }

  predicate Calendrical(seconds: int) {
    seconds == HOURLY || seconds == DAILY || seconds == WEEKLY || seconds == MONTHLY
  }

  /** The inputs on which PeriodBounds delivers a tiling: a calendar period, or a custom
      length that fits a time.Duration, from the epoch on (one-second periods also before). */
  predicate Supported(now: int, seconds: int) {
    || Calendrical(seconds)
    || (0 < seconds <= MAX_DURATION_SECONDS && (seconds == 1 || UnixOf(now) >= 0))
  }

  lemma DaysInMonthIsLength(year: int, month: int)
    ensures DaysInMonth(year, month) == MonthLength((12 * year + month - 1) / 12, (12 * year + month - 1) % 12)
  {
    var i := 12 * year + month - 1;
    MonthStartStep(i);
    hide CivilOf, MonthStart;
    var c := Civil(i / 12, i % 12 + 1, MonthLength(i / 12, i % 12));
    assert MonthIndex(c) == i;
    assert DateDay(c.year, c.month, c.day) == DateDay(year, month + 1, 0);
    DateDayRoundTrip(c);
  }

  lemma MonthAnchorIsMark(year: int, month: int, day: int, hour: int, minute: int)
    ensures MonthAnchor(year, month, day, hour, minute) == MonthMark(12 * year + month - 1, day, Clock(hour, minute))
  {
    DaysInMonthIsLength(year, month);
  }

  lemma MonthMarkInMonth(i: int, day: int, hour: int, minute: int)
    requires 1 <= day && 0 <= hour <= 23 && 0 <= minute <= 59
    ensures Between(MonthStart, i, DayOf(MonthMark(i, day, Clock(hour, minute))))
    ensures ClockOf(MonthMark(i, day, Clock(hour, minute))) == Clock(hour, minute)
  {
    SplitInstant(MonthMarkDay(i, day), Clock(hour, minute));
  }

  lemma MonthMarksIncrease(i: int, day: int, clock: int)
    requires 1 <= day
    ensures MonthMark(i, day, clock) < MonthMark(i + 1, day, clock)
  {
    assert MonthMarkDay(i, day) < MonthStart(i + 1) <= MonthMarkDay(i + 1, day);
  }

  lemma CustomMarksIncrease(i: int, length: int)
    requires 0 < length
    ensures i * length < (i + 1) * length
  {
  }

  lemma MarkStep(seconds: int, s: Settings, i: int)
    requires ValidSettings(s) && seconds > 0
    ensures Mark(seconds, s, i) < Mark(seconds, s, i + 1)
  {
    if seconds == MONTHLY {
      MonthMarksIncrease(i, s.monthlyDay, Clock(s.monthlyHour, s.monthlyMinute));
    } else if !Calendrical(seconds) {
      CustomMarksIncrease(i, Seconds(seconds));
    }
  }

  lemma MarksIncrease(seconds: int, s: Settings)
    requires ValidSettings(s) && seconds > 0
    ensures Increasing(Marks(seconds, s))
  {
    forall k ensures Between(Marks(seconds, s), k, Marks(seconds, s)(k)) {
      MarkStep(seconds, s, k);
    }
    IncreasingFromSteps(Marks(seconds, s));
  }

  // PeriodBounds finds the marks around an instant

  lemma TodayAnchor(now: int, clock: int)
    requires 0 <= clock < Days(1)
    ensures var c := CivilOf(DayOf(now)); Date(c.year, c.month, c.day, clock) == Days(DayOf(now)) + clock
  {
    CivilOfIsValid(DayOf(now));
  }

  lemma HourBounds(now: int, s: Settings) returns (i: int)
    ensures Between(Marks(HOURLY, s), i, now)
    ensures PeriodBounds(now, HOURLY, s) == Window(Mark(HOURLY, s, i), Mark(HOURLY, s, i + 1))
  {
    i := now / 3_600_000_000_000;
  }

  lemma DailyStart(now: int, hour: int, minute: int)
    requires 0 <= hour <= 23 && 0 <= minute <= 59
    ensures var today := Days(DayOf(now)) + Clock(hour, minute);
      AnchoredDayStart(now, hour, minute) == (if now < today then today - Days(1) else today)
  {
    hide CivilOf, DateDay, MonthStart;
    TodayAnchor(now, Clock(hour, minute));
    AddDays(Days(DayOf(now)) + Clock(hour, minute), -1);
  }

  lemma DayBounds(now: int, s: Settings) returns (i: int)
    requires ValidSettings(s)
    ensures Between(Marks(DAILY, s), i, now)
    ensures PeriodBounds(now, DAILY, s) == Window(Mark(DAILY, s, i), Mark(DAILY, s, i + 1))
  {
    hide CivilOf, DateDay, AddDate, AnchoredDayStart, AnchoredWeekStart, AnchoredMonthStart, Clock, DayOf;
    ClockInDay(s.dailyHour, s.dailyMinute);
    DailyStart(now, s.dailyHour, s.dailyMinute);
    i := if now < Mark(DAILY, s, DayOf(now)) then DayOf(now) - 1 else DayOf(now);
    InstantOrder(DayOf(now) - 1, Clock(s.dailyHour, s.dailyMinute), now);
    InstantOrder(DayOf(now) + 1, Clock(s.dailyHour, s.dailyMinute), now);
    AddDays(Mark(DAILY, s, i), 1);
  }

  lemma WeeklyStart(now: int, weekday: int, hour: int, minute: int)
    requires 0 <= weekday <= 6 && 0 <= hour <= 23 && 0 <= minute <= 59
    ensures var back := (Weekday(DayOf(now)) - weekday) % 7;
      var start := Days(DayOf(now) - back) + Clock(hour, minute);
      AnchoredWeekStart(now, weekday, hour, minute) == (if now < start then start - Days(7) else start)
  {
    hide CivilOf, DateDay, AddDate, Clock, GoRemainder;
    ClockInDay(hour, minute);
    var clock := Clock(hour, minute);
    TodayAnchor(now, clock);
    SplitInstant(DayOf(now), clock);
    DaysBack(Weekday(DayOf(now)), weekday);
    var back := (Weekday(DayOf(now)) - weekday) % 7;
    AddDays(Days(DayOf(now)) + clock, -back);
    AddDays(Days(DayOf(now) - back) + clock, -7);
  }

  lemma ClockInDay(hour: int, minute: int)
    requires 0 <= hour <= 23 && 0 <= minute <= 59
    ensures 0 <= Clock(hour, minute) < Days(1)
  {
  }

  lemma DaysBack(today: int, weekday: int)
    requires 0 <= today <= 6 && 0 <= weekday <= 6
    ensures GoRemainder(today - weekday + 7, 7) == (today - weekday) % 7
  {
  }

  lemma WeekOf(day: int, weekday: int) returns (week: int)
    requires 0 <= weekday <= 6
    ensures day - (Weekday(day) - weekday) % 7 == 7 * week + weekday - 4
  {
    week := (day + 4 - weekday) / 7;
  }

  lemma WeekBounds(now: int, s: Settings) returns (i: int)
    requires ValidSettings(s)
    ensures Between(Marks(WEEKLY, s), i, now)
    ensures PeriodBounds(now, WEEKLY, s) == Window(Mark(WEEKLY, s, i), Mark(WEEKLY, s, i + 1))
  {
    hide CivilOf, DateDay, AddDate, AnchoredDayStart, AnchoredWeekStart, AnchoredMonthStart, Clock, Weekday, DayOf;
    ClockInDay(s.weeklyHour, s.weeklyMinute);
    WeeklyStart(now, s.weeklyWeekday, s.weeklyHour, s.weeklyMinute);
    var week := WeekOf(DayOf(now), s.weeklyWeekday);
    i := if now < Mark(WEEKLY, s, week) then week - 1 else week;
    WeekAround(DayOf(now), s.weeklyWeekday, week);
    InstantOrder(7 * (week + 1) + s.weeklyWeekday - 4, Clock(s.weeklyHour, s.weeklyMinute), now);
    InstantOrder(7 * (week - 1) + s.weeklyWeekday - 4, Clock(s.weeklyHour, s.weeklyMinute), now);
    AddDays(Mark(WEEKLY, s, i), 7);
  }

  lemma WeekAround(day: int, weekday: int, week: int)
    requires day - (Weekday(day) - weekday) % 7 == 7 * week + weekday - 4
    ensures 7 * (week - 1) + weekday - 4 < day < 7 * (week + 1) + weekday - 4
  {
  }

  lemma MonthIndexOfDay(day: int, i: int)
    requires Between(MonthStart, i, day)
    ensures MonthIndex(CivilOf(day)) == i
  {
    MonthOfDay(day);
    SameMonth(day, MonthIndex(CivilOf(day)), i);
  }

  lemma FirstOfMonth(year: int, month: int)
    ensures MonthIndex(CivilOf(DateDay(year, month, 1))) == 12 * year + month - 1
  {
    hide CivilOf, YearStart;
    MonthStartStep(12 * year + month - 1);
    MonthIndexOfDay(DateDay(year, month, 1), 12 * year + month - 1);
  }

  /** Stepping back one month from the first of a month reaches the previous month. */
  lemma PreviousMonth(now: int)
    ensures var c := CivilOf(DayOf(now));
      MonthIndex(CivilOf(DayOf(AddDate(Date(c.year, c.month, 1, ClockOf(now)), -1, 0)))) == MonthIndex(c) - 1
  {
    hide CivilOf, DateDay;
    var c := CivilOf(DayOf(now));
    CivilOfIsValid(DayOf(now));
    DateDayRoundTrip(Civil(c.year, c.month, 1));
    SplitInstant(DateDay(c.year, c.month, 1), ClockOf(now));
    SplitInstant(DateDay(c.year, c.month - 1, 1), ClockOf(now));
    FirstOfMonth(c.year, c.month - 1);
  }

  lemma MonthMarkAround(now: int, k: int, day: int, hour: int, minute: int)
    requires 1 <= day && 0 <= hour <= 23 && 0 <= minute <= 59
    requires Between(MonthStart, k, DayOf(now))
    ensures MonthMark(k - 1, day, Clock(hour, minute)) <= now < MonthMark(k + 1, day, Clock(hour, minute))
  {
    InstantOrder(MonthMarkDay(k - 1, day), Clock(hour, minute), now);
    InstantOrder(MonthMarkDay(k + 1, day), Clock(hour, minute), now);
  }

  lemma MonthlyStart(now: int, day: int, hour: int, minute: int)
    requires 1 <= day && 0 <= hour <= 23 && 0 <= minute <= 59
    ensures var k := MonthIndex(CivilOf(DayOf(now)));
      AnchoredMonthStart(now, day, hour, minute)
      == MonthMark(if now < MonthMark(k, day, Clock(hour, minute)) then k - 1 else k, day, Clock(hour, minute))
  {
    hide CivilOf, DateDay, MonthStart;
    var c := CivilOf(DayOf(now));
    MonthAnchorIsMark(c.year, c.month, day, hour, minute);
    PreviousMonth(now);
    var prev := CivilOf(DayOf(AddDate(Date(c.year, c.month, 1, ClockOf(now)), -1, 0)));
    MonthAnchorIsMark(prev.year, prev.month, day, hour, minute);
  }

  lemma MonthlyEnd(i: int, day: int, hour: int, minute: int)
    requires 1 <= day && 0 <= hour <= 23 && 0 <= minute <= 59
    ensures var c := CivilOf(DayOf(MonthMark(i, day, Clock(hour, minute))));
      var next := CivilOf(DateDay(c.year, c.month + 1, 1));
      MonthAnchor(next.year, next.month, day, hour, minute) == MonthMark(i + 1, day, Clock(hour, minute))
  {
    hide CivilOf, DateDay, MonthAnchor, MonthMark, MonthStart;
    MonthMarkInMonth(i, day, hour, minute);
    MonthIndexOfDay(DayOf(MonthMark(i, day, Clock(hour, minute))), i);
    var c := CivilOf(DayOf(MonthMark(i, day, Clock(hour, minute))));
    FirstOfMonth(c.year, c.month + 1);
    var next := CivilOf(DateDay(c.year, c.month + 1, 1));
    MonthAnchorIsMark(next.year, next.month, day, hour, minute);
  }

  lemma MonthBounds(now: int, s: Settings) returns (i: int)
    requires ValidSettings(s)
    ensures Between(Marks(MONTHLY, s), i, now)
    ensures PeriodBounds(now, MONTHLY, s) == Window(Mark(MONTHLY, s, i), Mark(MONTHLY, s, i + 1))
  {
    hide CivilOf, DateDay, MonthStart, AnchoredMonthStart, MonthAnchor, MonthMark;
    var k := MonthIndex(CivilOf(DayOf(now)));
    i := if now < Mark(MONTHLY, s, k) then k - 1 else k;
    MonthOfDay(DayOf(now));
    MonthMarkAround(now, k, s.monthlyDay, s.monthlyHour, s.monthlyMinute);
    MonthlyStart(now, s.monthlyDay, s.monthlyHour, s.monthlyMinute);
    MonthlyEnd(i, s.monthlyDay, s.monthlyHour, s.monthlyMinute);
  }

  lemma CustomStart(unix: int, seconds: int)
    requires seconds > 0 && (seconds == 1 || unix >= 0)
    ensures unix - GoRemainder(unix, seconds) == unix / seconds * seconds
    ensures unix / seconds * seconds <= unix < unix / seconds * seconds + seconds
  {
    assert unix == unix / seconds * seconds + unix % seconds;
  }

  lemma CustomMark(seconds: int, s: Settings, i: int)
    requires !Calendrical(seconds)
    ensures Mark(seconds, s, i) == Seconds(i * seconds)
    ensures Mark(seconds, s, i + 1) == Seconds(i * seconds + seconds)
  {
    assert i * (1_000_000_000 * seconds) == 1_000_000_000 * (i * seconds);
    assert (i + 1) * (1_000_000_000 * seconds) == i * (1_000_000_000 * seconds) + 1_000_000_000 * seconds;
  }

  lemma CustomBounds(now: int, seconds: int, s: Settings) returns (i: int)
    requires !Calendrical(seconds) && Supported(now, seconds)
    ensures Between(Marks(seconds, s), i, now)
    ensures PeriodBounds(now, seconds, s) == Window(Mark(seconds, s, i), Mark(seconds, s, i + 1))
  {
    hide GoRemainder, Mark;
    i := UnixOf(now) / seconds;
    CustomStart(UnixOf(now), seconds);
    CustomMark(seconds, s, i);
  }

  /** On every supported input PeriodBounds returns the neighbouring anchors of its kind
      that enclose the instant. */
  lemma BoundsAreMarks(now: int, seconds: int, s: Settings) returns (i: int)
    requires ValidSettings(s) && Supported(now, seconds)
    ensures Between(Marks(seconds, s), i, now)
    ensures PeriodBounds(now, seconds, s) == Window(Mark(seconds, s, i), Mark(seconds, s, i + 1))
  {
    hide PeriodBounds, Mark;
    if seconds == HOURLY {
      i := HourBounds(now, s);
    } else if seconds == DAILY {
      i := DayBounds(now, s);
    } else if seconds == WEEKLY {
      i := WeekBounds(now, s);
    } else if seconds == MONTHLY {
      i := MonthBounds(now, s);
    } else {
      i := CustomBounds(now, seconds, s);
    }
  }

  /** What it means for windows to tile time around `now`: the window holds the instant,
      every instant in it has the same window, and the next window starts where it ends. */
  ghost predicate Tiles(now: int, seconds: int, s: Settings) {
    var w := PeriodBounds(now, seconds, s);
    && w.start <= now < w.end
    && (forall t :: w.start <= t < w.end ==> PeriodBounds(t, seconds, s) == w)
    && PeriodBounds(w.end, seconds, s).start == w.end
  }

  lemma SupportedTiles(now: int, seconds: int, s: Settings)
    requires ValidSettings(s) && Supported(now, seconds)
    ensures Tiles(now, seconds, s)
  {
    hide PeriodBounds, Mark;
    var i := BoundsAreMarks(now, seconds, s);
    MarksIncrease(seconds, s);
    var w := PeriodBounds(now, seconds, s);
    forall t | w.start <= t < w.end ensures PeriodBounds(t, seconds, s) == w {
      SupportedInWindow(now, seconds, s, i, t);
      var j := BoundsAreMarks(t, seconds, s);
      BetweenUnique(Marks(seconds, s), t, i, j);
    }
    SupportedInWindow(now, seconds, s, i, w.end);
    var j := BoundsAreMarks(w.end, seconds, s);
    assert Between(Marks(seconds, s), i + 1, w.end);
    BetweenUnique(Marks(seconds, s), w.end, i + 1, j);
  }

  lemma NonNegativeMultiple(i: int, n: int)
    requires n > 0 && i * n + n > 0
    ensures i * n >= 0
  {
  }

  lemma SupportedInWindow(now: int, seconds: int, s: Settings, i: int, t: int)
    requires Supported(now, seconds) && Between(Marks(seconds, s), i, now)
    requires Mark(seconds, s, i) <= t
    ensures Supported(t, seconds)
  {
    hide Mark;
    if !Calendrical(seconds) && seconds > 1 {
      CustomMark(seconds, s, i);
      NonNegativeMultiple(i, seconds);
    }
  }

  // Outside the supported inputs the windows do not tile

  lemma GoQuotient(a: int, b: int) returns (q: int)
    requires b > 0
    ensures a - GoRemainder(a, b) == q * b
  {
    q := if a >= 0 then a / b else -((-a) / b);
  }

  /** Custom windows start on a multiple of their length, on either side of the epoch. */
  lemma CustomStartIsMultiple(t: int, seconds: int, s: Settings) returns (q: int)
    requires !Calendrical(seconds) && seconds > 0
    ensures PeriodBounds(t, seconds, s).start == Seconds(q * seconds)
  {
    q := GoQuotient(UnixOf(t), seconds);
  }

  lemma Multiples(k: int, n: int)
    requires n > 0
    ensures k * n > 0 ==> k * n >= n
    ensures -n < k * n < n ==> k == 0
  {
    if k >= 1 {
      assert (k - 1) * n >= 0;
    } else if k <= -1 {
      assert (k + 1) * n <= 0;
    }
  }

  /** A length past the range of time.Duration wraps, and the end misses the next start. */
  lemma TilingLengthFits(now: int, seconds: int, s: Settings)
    requires !Calendrical(seconds) && 0 < seconds < TWO_63 && Tiles(now, seconds, s)
    ensures seconds <= MAX_DURATION_SECONDS
  {
    hide GoRemainder;
    var w := PeriodBounds(now, seconds, s);
    var p := CustomStartIsMultiple(now, seconds, s);
    var q := CustomStartIsMultiple(w.end, seconds, s);
    assert q * seconds - p * seconds == (q - p) * seconds;
    Multiples(q - p, seconds);
    assert w.end - w.start == WrapInt64(Seconds(seconds)) < TWO_63;
  }

  lemma RoundsTowardsZero(unix: int, seconds: int)
    requires seconds > 1 && unix < 0
    ensures unix - GoRemainder(unix, seconds) >= unix
    ensures GoRemainder(unix, seconds) == 0 ==> unix + 1 - GoRemainder(unix + 1, seconds) > unix + 1
  {
    if GoRemainder(unix, seconds) == 0 {
      var q := GoQuotient(unix, seconds);
      assert (-unix - 1) % seconds == seconds - 1 by {
        assert -unix == (-q) * seconds;
        assert -unix - 1 == (-q - 1) * seconds + (seconds - 1);
        RemainderOf(-q - 1, seconds, seconds - 1);
      }
      assert unix + 1 < 0 by {
        NonNegativeMultiple(-q - 1, seconds);
      }
    }
  }

  lemma RemainderOf(q: int, n: int, r: int)
    requires 0 <= r < n
    ensures (q * n + r) % n == r
  {
    var x := q * n + r;
    assert x == x / n * n + x % n;
    assert (q - x / n) * n == x % n - r;
    Multiples(q - x / n, n);
  }

  /** Before the epoch `%` rounds towards zero, and a window longer than a second does not
      hold its own instants. */
  lemma TilingFromEpoch(now: int, seconds: int, s: Settings)
    requires !Calendrical(seconds) && 1 < seconds <= MAX_DURATION_SECONDS && Tiles(now, seconds, s)
    ensures UnixOf(now) >= 0
  {
    hide GoRemainder;
    var unix := UnixOf(now);
    if unix < 0 {
      RoundsTowardsZero(unix, seconds);
      var w := PeriodBounds(now, seconds, s);
      assert w.start == Seconds(unix);
      var t := Seconds(unix + 1);
      assert w.start <= t < w.end;
      var wt := PeriodBounds(t, seconds, s);
      assert false;
    }
  }

  /** The windows of PeriodBounds tile time around an instant exactly when the input is
      supported, for every int64 period and all valid reset anchors. */
  lemma PeriodsTile(now: int, seconds: int, s: Settings)
    requires ValidSettings(s) && IsInt64(seconds)
    ensures Tiles(now, seconds, s) <==> Supported(now, seconds)
  {
    hide PeriodBounds;
    if Supported(now, seconds) {
      SupportedTiles(now, seconds, s);
    } else if Tiles(now, seconds, s) {
      if seconds <= 0 {
        EmptyWindow(now, seconds, s);
      } else {
        TilingLengthFits(now, seconds, s);
        if seconds > 1 {
          TilingFromEpoch(now, seconds, s);
        }
      }
    }
  }

  /** A second before the epoch, a seven-second window starts at the epoch, after the instant. */
  lemma WindowBeforeEpoch(s: Settings)
    ensures PeriodBounds(Seconds(-1), 7, s) == Window(0, Seconds(7))
    ensures !Tiles(Seconds(-1), 7, s)
  {
    assert UnixOf(Seconds(-1)) == -1 && GoRemainder(-1, 7) == -1;
  }

  /** The first length past the range of time.Duration ends its window before it starts. */
  lemma WindowPastDuration(s: Settings)
    ensures PeriodBounds(0, MAX_DURATION_SECONDS + 1, s).end < PeriodBounds(0, MAX_DURATION_SECONDS + 1, s).start
    ensures !Tiles(0, MAX_DURATION_SECONDS + 1, s)
  {
    assert GoRemainder(0, MAX_DURATION_SECONDS + 1) == 0;
  }

  lemma EmptyWindow(now: int, seconds: int, s: Settings)
    requires seconds <= 0
    ensures PeriodBounds(now, seconds, s) == Window(now, now)
  {
  }

  // Each calendar window begins at its configured anchor

  lemma DailyStartsAtAnchor(now: int, s: Settings)
    requires ValidSettings(s)
    ensures ClockOf(PeriodBounds(now, DAILY, s).start) == Clock(s.dailyHour, s.dailyMinute)
  {
    hide PeriodBounds;
    var i := DayBounds(now, s);
    SplitInstant(i, Clock(s.dailyHour, s.dailyMinute));
  }

  lemma WeeklyStartsAtAnchor(now: int, s: Settings)
    requires ValidSettings(s)
    ensures var start := PeriodBounds(now, WEEKLY, s).start;
      ClockOf(start) == Clock(s.weeklyHour, s.weeklyMinute) && Weekday(DayOf(start)) == s.weeklyWeekday
  {
    hide PeriodBounds;
    var i := WeekBounds(now, s);
    hide Clock, Weekday;
    ClockInDay(s.weeklyHour, s.weeklyMinute);
    SplitInstant(7 * i + s.weeklyWeekday - 4, Clock(s.weeklyHour, s.weeklyMinute));
    WeekdayOfMark(i, s.weeklyWeekday);
  }

  lemma WeekdayOfMark(i: int, weekday: int)
    requires 0 <= weekday <= 6
    ensures Weekday(7 * i + weekday - 4) == weekday
  {
  }

  /** The monthly day is clamped to the length of the month the window starts in. */
  lemma MonthlyStartsAtAnchor(now: int, s: Settings)
    requires ValidSettings(s)
    ensures var start := PeriodBounds(now, MONTHLY, s).start;
      var c := CivilOf(DayOf(start));
      var last := MonthLength(c.year, c.month - 1);
      ClockOf(start) == Clock(s.monthlyHour, s.monthlyMinute)
      && c.day == if s.monthlyDay < last then s.monthlyDay else last
  {
    hide PeriodBounds, CivilOf, MonthMarkDay;
    var i := MonthBounds(now, s);
    SplitInstant(MonthMarkDay(i, s.monthlyDay), Clock(s.monthlyHour, s.monthlyMinute));
    MonthMarkDate(i, s.monthlyDay);
  }

  lemma MonthMarkDate(i: int, day: int)
    requires 1 <= day
    ensures var c := CivilOf(MonthMarkDay(i, day));
      var last := MonthLength(c.year, c.month - 1);
      c.day == if day < last then day else last
  {
    hide CivilOf, MonthStart;
    var last := MonthLength(i / 12, i % 12);
    var c := Civil(i / 12, i % 12 + 1, if day < last then day else last);
    assert MonthMarkDay(i, day) == DateDay(c.year, c.month, c.day);
    DateDayRoundTrip(c);
  }

  // The windows in plain numbers

  /** An hourly window starts on a full hour. */
  lemma HourlyWindow(now: int, s: Settings)
    ensures var w := PeriodBounds(now, 3600, s);
      && w.start <= now < w.end == w.start + 3_600_000_000_000
      && w.start % 3_600_000_000_000 == 0
  {
  }

  /** A daily window lasts a day from the configured time of day. */
  lemma DailyWindow(now: int, s: Settings)
    requires ValidSettings(s)
    ensures var w := PeriodBounds(now, 86_400, s);
      && w.start <= now < w.end == w.start + 86_400_000_000_000
      && w.start % 86_400_000_000_000 == (3600 * s.dailyHour + 60 * s.dailyMinute) * 1_000_000_000
  {
    hide PeriodBounds;
    var i := DayBounds(now, s);
    var clock := (3600 * s.dailyHour + 60 * s.dailyMinute) * 1_000_000_000;
    assert Mark(DAILY, s, i) == i * 86_400_000_000_000 + clock && 0 <= clock < 86_400_000_000_000;
    assert Mark(DAILY, s, i + 1) == Mark(DAILY, s, i) + 86_400_000_000_000;
    hide Mark;
    RemainderOf(i, 86_400_000_000_000, clock);
  }

  /** A weekly window lasts seven days from the configured time of the configured weekday;
      1970-01-04, the third day after the epoch, was a Sunday. */
  lemma WeeklyWindow(now: int, s: Settings)
    requires ValidSettings(s)
    ensures var w := PeriodBounds(now, 604_800, s);
      && w.start <= now < w.end == w.start + 604_800_000_000_000
      && (w.start - 259_200_000_000_000) % 604_800_000_000_000
         == (86_400 * s.weeklyWeekday + 3600 * s.weeklyHour + 60 * s.weeklyMinute) * 1_000_000_000
  {
    hide PeriodBounds;
    var i := WeekBounds(now, s);
    WeekMarkIs(i, s);
    hide Mark;
    var clock := (86_400 * s.weeklyWeekday + 3600 * s.weeklyHour + 60 * s.weeklyMinute) * 1_000_000_000;
    RemainderOf(i - 1, 604_800_000_000_000, clock);
  }

  lemma WeekMarkIs(i: int, s: Settings)
    requires ValidSettings(s)
    ensures
      var clock := (86_400 * s.weeklyWeekday + 3600 * s.weeklyHour + 60 * s.weeklyMinute) * 1_000_000_000;
      && 0 <= clock < 604_800_000_000_000
      && Mark(WEEKLY, s, i) == (i - 1) * 604_800_000_000_000 + clock + 259_200_000_000_000
      && Mark(WEEKLY, s, i + 1) == Mark(WEEKLY, s, i) + 604_800_000_000_000
  {
  }

  /** The configured day of a month, or its last day when it is shorter. */
  ghost predicate IsMonthlyAnchor(t: int, year: int, month: int, s: Settings) {
    var length := DateDay(year, month + 1, 1) - DateDay(year, month, 1);
    t == 86_400_000_000_000 * DateDay(year, month, if s.monthlyDay < length then s.monthlyDay else length)
         + (3600 * s.monthlyHour + 60 * s.monthlyMinute) * 1_000_000_000
  }

  /** A monthly window runs from the anchor of one month to the anchor of the next. */
  lemma MonthlyWindow(now: int, s: Settings) returns (year: int, month: int)
    requires ValidSettings(s)
    ensures var w := PeriodBounds(now, 2_592_000, s);
      && w.start <= now < w.end
      && IsMonthlyAnchor(w.start, year, month, s) && IsMonthlyAnchor(w.end, year, month + 1, s)
  {
    hide PeriodBounds, Mark, IsMonthlyAnchor;
    var i := MonthBounds(now, s);
    MarkIsAnchor(i, s);
    MarkIsAnchor(i + 1, s);
    return 0, i + 1;
  }

  lemma MarkIsAnchor(i: int, s: Settings)
    ensures IsMonthlyAnchor(Mark(MONTHLY, s, i), 0, i + 1, s)
  {
    hide MonthStart, MonthLength;
    MonthStartStep(i);
    assert DateDay(0, i + 2, 1) - DateDay(0, i + 1, 1) == MonthLength(i / 12, i % 12);
    assert Mark(MONTHLY, s, i) == MonthMark(i, s.monthlyDay, Clock(s.monthlyHour, s.monthlyMinute));
  }

  /** Any other length counts its windows from the epoch. */
  lemma CustomWindow(now: int, seconds: int, s: Settings)
    requires seconds !in {3600, 86_400, 604_800, 2_592_000} && 0 < seconds <= 9_223_372_036 && 0 <= now
    ensures var w := PeriodBounds(now, seconds, s);
      && w.start <= now < w.end == w.start + 1_000_000_000 * seconds
      && w.start % (1_000_000_000 * seconds) == 0
  {
    hide PeriodBounds;
    var i := CustomBounds(now, seconds, s);
    CustomMark(seconds, s, i);
    RemainderOf(i, 1_000_000_000 * seconds, 0);
    assert i * (1_000_000_000 * seconds) == 1_000_000_000 * (i * seconds);
  }
}
