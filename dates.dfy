/** System.DateTime as the program uses it: a day number counted from
    0001-01-01 in the proleptic Gregorian calendar plus a time of day down
    to the 100 ns tick.  Year, month and day are computed from the day
    number; the seven-field constructor fails (throws) on fields that name
    no date; adding a span fails when the result leaves
    [0001-01-01, 9999-12-31 23:59:59.9999999]. */
module Dates {
  import opened Wrappers

  // ---------------------------------------------------------------------
  // Calendar
  // ---------------------------------------------------------------------

  predicate IsLeapYear(y: int) {
    y % 4 == 0 && (y % 100 != 0 || y % 400 == 0)
  }

  function DaysInYear(y: int): int {
    if IsLeapYear(y) then 366 else 365
  }

  function DaysInMonth(y: int, m: int): (r: int)
    requires 1 <= m <= 12
    ensures 28 <= r <= 31
  {
    if m == 2 then (if IsLeapYear(y) then 29 else 28)
    else if m == 4 || m == 6 || m == 9 || m == 11 then 30
    else 31
  }

  /** Days of year y before the first of month m; month 13 stands for the
      end of the year. */
  function DaysBeforeMonth(y: int, m: int): int
    requires 1 <= m <= 13
  {
    var table := [0, 31, 59, 90, 120, 151, 181, 212, 243, 273, 304, 334, 365];
    table[m - 1] + (if IsLeapYear(y) && m > 2 then 1 else 0)
  }

  lemma DaysBeforeMonthStep(y: int, m: int)
    requires 1 <= m <= 12
    ensures DaysBeforeMonth(y, m + 1) == DaysBeforeMonth(y, m) + DaysInMonth(y, m)
    ensures DaysBeforeMonth(y, 1) == 0 && DaysBeforeMonth(y, 13) == DaysInYear(y)
  {
  }

  lemma DaysBeforeMonthMonotone(y: int, a: int, b: int)
    requires 1 <= a <= b <= 13
    ensures DaysBeforeMonth(y, a) <= DaysBeforeMonth(y, b)
    ensures a < b ==> DaysBeforeMonth(y, a + 1) <= DaysBeforeMonth(y, b)
  {
  }

  /** Days from 0001-01-01 to the first of year y. */
  function DaysBeforeYear(y: int): int
    requires y >= 1
  {
    var n := y - 1;
    n * 365 + n / 4 - n / 100 + n / 400
  }

  lemma DaysBeforeYearStep(y: int)
    requires y >= 1
    ensures DaysBeforeYear(y + 1) == DaysBeforeYear(y) + DaysInYear(y)
  {
    QuartersStep(y);
    CenturiesStep(y);
    FourCenturiesStep(y);
  }

  /** Leap days counted by y / 4 grow by one exactly at a multiple of 4. */
  lemma QuartersStep(y: int)
    requires y >= 1
    ensures y / 4 == (y - 1) / 4 + (if y % 4 == 0 then 1 else 0)
  {
  }

  /** y / 100 grows by one exactly at a multiple of 100, which is also a
      multiple of 4. */
  lemma CenturiesStep(y: int)
    requires y >= 1
    ensures y / 100 == (y - 1) / 100 + (if y % 100 == 0 then 1 else 0)
    ensures y % 100 == 0 ==> y % 4 == 0
  {
  }

  /** y / 400 grows by one exactly at a multiple of 400, which is also a
      multiple of 100 and of 4. */
  lemma FourCenturiesStep(y: int)
    requires y >= 1
    ensures y / 400 == (y - 1) / 400 + (if y % 400 == 0 then 1 else 0)
    ensures y % 400 == 0 ==> y % 100 == 0 && y % 4 == 0
  {
    var q := (y - 1) / 400;
    var s := (y - 1) % 400;
    assert y - 1 == 400 * q + s && 0 <= s < 400;
    if s == 399 {
      DivBy400(y, q + 1, 0);
      FourHundredDivides(q + 1);
    } else {
      DivBy400(y, q, s + 1);
    }
  }

  /** Division by 400 is determined by a quotient and a remainder below
      400. */
  lemma DivBy400(y: int, q: int, s: int)
    requires y == 400 * q + s && 0 <= s < 400
    ensures y / 400 == q && y % 400 == s
  {
  }

  /** A multiple of 400 is a multiple of 100 and of 4. */
  lemma FourHundredDivides(q: int)
    ensures (400 * q) % 100 == 0 && (400 * q) % 4 == 0
  {
    assert 400 * q == 100 * (4 * q);
    assert 400 * q == 4 * (100 * q);
  }

  lemma DaysBeforeYearMonotone(a: int, b: int)
    requires 1 <= a <= b
    ensures DaysBeforeYear(a) <= DaysBeforeYear(b)
    ensures a < b ==> DaysBeforeYear(a + 1) <= DaysBeforeYear(b)
  {
  }

  const MaxYear: int := 9999
  /** The day number of 9999-12-31, the last day a DateTime can hold. */
  const MaxDay: int := 3652058

  lemma MaxDayIsLastDay()
    ensures DaysBeforeYear(MaxYear + 1) == MaxDay + 1
  {
  }

  predicate ValidCivil(y: int, m: int, d: int) {
    1 <= y <= MaxYear && 1 <= m <= 12 && 1 <= d <= DaysInMonth(y, m)
  }

  /** The day number of the date y-m-d. */
  function DayNumber(y: int, m: int, d: int): int
    requires 1 <= y && 1 <= m <= 12
  {
    DaysBeforeYear(y) + DaysBeforeMonth(y, m) + d - 1
  }

  datatype Civil = Civil(year: int, month: int, day: int)

  /** The year holding day n, searched from year y upwards. */
  function YearFrom(n: int, y: int): (r: int)
    requires y >= 1 && DaysBeforeYear(y) <= n
    ensures r >= y && DaysBeforeYear(r) <= n < DaysBeforeYear(r + 1)
    decreases n - DaysBeforeYear(y)
  {
    DaysBeforeYearStep(y);
    if n < DaysBeforeYear(y + 1) then y else YearFrom(n, y + 1)
  }

  /** The month holding day `rem` of year y, searched from month m on. */
  function MonthFrom(rem: int, y: int, m: int): (r: int)
    requires 1 <= m <= 12 && DaysBeforeMonth(y, m) <= rem < DaysInYear(y)
    ensures m <= r <= 12 && DaysBeforeMonth(y, r) <= rem < DaysBeforeMonth(y, r + 1)
    decreases 12 - m
  {
    DaysBeforeMonthStep(y, m);
    if rem < DaysBeforeMonth(y, m + 1) then m else MonthFrom(rem, y, m + 1)
  }

  /** Year, month and day of day number n. */
  function CivilOf(n: int): (c: Civil)
    requires 0 <= n <= MaxDay
    ensures ValidCivil(c.year, c.month, c.day)
    ensures DayNumber(c.year, c.month, c.day) == n
  {
    var y := YearFrom(n, 1);
    MaxDayIsLastDay();
    if y > MaxYear then
      DaysBeforeYearMonotone(MaxYear + 1, y);
      assert false;
      Civil(1, 1, 1)
    else
      DaysBeforeYearStep(y);
      var rem := n - DaysBeforeYear(y);
      var m := MonthFrom(rem, y, 1);
      DaysBeforeMonthStep(y, m);
      Civil(y, m, rem - DaysBeforeMonth(y, m) + 1)
  }

  /** A valid date's day number falls inside its year and its month. */
  lemma DayNumberBounds(y: int, m: int, d: int)
    requires ValidCivil(y, m, d)
    ensures DaysBeforeYear(y) <= DayNumber(y, m, d) < DaysBeforeYear(y + 1)
    ensures DaysBeforeMonth(y, m) <= DayNumber(y, m, d) - DaysBeforeYear(y) < DaysBeforeMonth(y, m + 1)
  {
    DaysBeforeMonthStep(y, m);
    DaysBeforeMonthMonotone(y, m + 1, 13);
    DaysBeforeYearStep(y);
  }

  /** Every valid date has a day number in range, and CivilOf recovers the
      date from it. */
  lemma CivilOfDayNumber(y: int, m: int, d: int)
    requires ValidCivil(y, m, d)
    ensures 0 <= DayNumber(y, m, d) <= MaxDay
    ensures CivilOf(DayNumber(y, m, d)) == Civil(y, m, d)
  {
    var n := DayNumber(y, m, d);
    DayNumberBounds(y, m, d);
    DaysBeforeYearMonotone(y + 1, MaxYear + 1);
    DaysBeforeYearMonotone(1, y);
    MaxDayIsLastDay();
    var c := CivilOf(n);
    DayNumberBounds(c.year, c.month, c.day);
    if c.year < y {
      DaysBeforeYearMonotone(c.year, y);
    } else if c.year > y {
      DaysBeforeYearMonotone(y, c.year);
    }
    assert c.year == y;
    if c.month < m {
      DaysBeforeMonthMonotone(y, c.month, m);
    } else if c.month > m {
      DaysBeforeMonthMonotone(y, m, c.month);
    }
  }

  // ---------------------------------------------------------------------
  // Instants
  // ---------------------------------------------------------------------

  const TicksPerMillisecond: int := 10_000
  const TicksPerDay: int := 864_000_000_000
  /** DateTime.MaxValue.Ticks. */
  const MaxTicks: int := 3_155_378_975_999_999_999

  /** A DateTime: the day number, the clock fields and the ticks below one
      millisecond. */
  datatype DateTime = DateTime(day: int, hour: int, minute: int, second: int,
                               millisecond: int, subTicks: int)

  predicate Valid(d: DateTime) {
    0 <= d.day <= MaxDay && 0 <= d.hour < 24 && 0 <= d.minute < 60
    && 0 <= d.second < 60 && 0 <= d.millisecond < 1000 && 0 <= d.subTicks < 10_000
  }

  /** DateTime.Ticks. */
  function Ticks(d: DateTime): int {
    d.day * 864_000_000_000 + d.hour * 36_000_000_000 + d.minute * 600_000_000
    + d.second * 10_000_000 + d.millisecond * 10_000 + d.subTicks
  }

  /** new DateTime(ticks) for ticks in range. */
  function FromTicks(t: int): (d: DateTime)
    requires 0 <= t <= MaxTicks
    ensures Valid(d) && Ticks(d) == t
  {
    var ms := t / 10_000;
    var s := ms / 1000;
    var mi := s / 60;
    var h := mi / 60;
    DateTime(h / 24, h % 24, mi % 60, s % 60, ms % 1000, t % 10_000)
  }

  /** A valid DateTime is determined by its ticks, which lie in range. */
  lemma TicksRoundTrip(d: DateTime)
    requires Valid(d)
    ensures 0 <= Ticks(d) <= MaxTicks
    ensures FromTicks(Ticks(d)) == d
  {
    var t := Ticks(d);
    var ms := d.day * 86_400_000 + d.hour * 3_600_000 + d.minute * 60_000 + d.second * 1000 + d.millisecond;
    assert t == ms * 10_000 + d.subTicks;
    assert t / 10_000 == ms;
    var s := d.day * 86_400 + d.hour * 3600 + d.minute * 60 + d.second;
    assert ms == s * 1000 + d.millisecond;
    var mi := d.day * 1440 + d.hour * 60 + d.minute;
    assert s == mi * 60 + d.second;
    var h := d.day * 24 + d.hour;
    assert mi == h * 60 + d.minute;
    assert t % 10_000 == d.subTicks;
    assert ms / 1000 == s && ms % 1000 == d.millisecond;
    assert s / 60 == mi && s % 60 == d.second;
    assert mi / 60 == h && mi % 60 == d.minute;
    assert h / 24 == d.day && h % 24 == d.hour;
  }

  /** DateTime.DayOfWeek: 0 is Sunday; 0001-01-01 was a Monday. */
  function DayOfWeek(d: DateTime): (r: int)
    ensures 0 <= r < 7
  {
    (d.day + 1) % 7
  }

  function Year(d: DateTime): int
    requires Valid(d)
  {
    CivilOf(d.day).year
  }

  function Month(d: DateTime): int
    requires Valid(d)
  {
    CivilOf(d.day).month
  }

  function Day(d: DateTime): int
    requires Valid(d)
  {
    CivilOf(d.day).day
  }

  /** new DateTime(year, month, day, hour, minute, second, millisecond):
      None where the constructor throws. */
  function New(y: int, mo: int, dd: int, h: int, mi: int, s: int, ms: int): (r: Option<DateTime>)
    ensures r.Some? ==> Valid(r.value) && r.value.subTicks == 0
    ensures r.Some? <==> ValidCivil(y, mo, dd) && 0 <= h < 24 && 0 <= mi < 60 && 0 <= s < 60 && 0 <= ms < 1000
  {
    if ValidCivil(y, mo, dd) && 0 <= h < 24 && 0 <= mi < 60 && 0 <= s < 60 && 0 <= ms < 1000 then
      CivilOfDayNumber(y, mo, dd);
      Some(DateTime(DayNumber(y, mo, dd), h, mi, s, ms, 0))
    else None
  }

  /** Rebuilding a DateTime from its seven fields keeps everything but the
      ticks below one millisecond. */
  lemma NewFromFields(d: DateTime)
    requires Valid(d)
    ensures New(Year(d), Month(d), Day(d), d.hour, d.minute, d.second, d.millisecond)
      == Some(d.(subTicks := 0))
    ensures 0 <= Ticks(d) - Ticks(d.(subTicks := 0)) < TicksPerMillisecond
  {
  }

  /** Constructing from a DateTime's year, month and day with other clock
      fields gives the same day number. */
  lemma NewOnDay(t: DateTime, h: int, mi: int, s: int, ms: int)
    requires Valid(t)
    requires 0 <= h < 24 && 0 <= mi < 60 && 0 <= s < 60 && 0 <= ms < 1000
    ensures New(Year(t), Month(t), Day(t), h, mi, s, ms) == Some(DateTime(t.day, h, mi, s, ms, 0))
  {
  }

  /** The fields of a constructed DateTime read back as given. */
  lemma FieldsOfNew(y: int, mo: int, dd: int, h: int, mi: int, s: int, ms: int)
    requires New(y, mo, dd, h, mi, s, ms).Some?
    ensures var d := New(y, mo, dd, h, mi, s, ms).value;
      Year(d) == y && Month(d) == mo && Day(d) == dd
      && d.hour == h && d.minute == mi && d.second == s && d.millisecond == ms
  {
    CivilOfDayNumber(y, mo, dd);
  }

  /** DateTime.Add(TimeSpan) and DateTime + TimeSpan: None where the result
      would leave the representable range (the operation throws). */
  function Add(d: DateTime, span: int): (r: Option<DateTime>)
    requires Valid(d)
    ensures r.Some? <==> 0 <= Ticks(d) + span <= MaxTicks
    ensures r.Some? ==> Valid(r.value) && Ticks(r.value) == Ticks(d) + span
  {
    var t := Ticks(d) + span;
    if 0 <= t <= MaxTicks then Some(FromTicks(t)) else None
  }

  /** date.Subtract(TimeSpan.FromDays(1)): the same time one day earlier,
      and a failure on the first day. */
  lemma SubtractOneDay(d: DateTime)
    requires Valid(d)
    ensures Add(d, -TicksPerDay) == if d.day == 0 then None else Some(d.(day := d.day - 1))
  {
    TicksRoundTrip(d);
    if d.day > 0 {
      var e := d.(day := d.day - 1);
      assert Ticks(e) == Ticks(d) - TicksPerDay;
      TicksDetermine(Add(d, -TicksPerDay).value, e);
    }
  }

  /** Two valid DateTimes with the same ticks are the same. */
  lemma TicksDetermine(a: DateTime, b: DateTime)
    requires Valid(a) && Valid(b) && Ticks(a) == Ticks(b)
    ensures a == b
  {
    TicksRoundTrip(a);
    TicksRoundTrip(b);
  }

  /** The previous day has the previous weekday, Sunday going back to
      Saturday. */
  lemma PreviousWeekday(d: DateTime)
    requires d.day >= 1
    ensures DayOfWeek(d.(day := d.day - 1)) == if DayOfWeek(d) == 0 then 6 else DayOfWeek(d) - 1
  {
  }
}
