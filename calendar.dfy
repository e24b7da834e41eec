/** Calendar arithmetic on timestamps, as JavaScript's `Date` does it:
    milliseconds since 1970-01-01T00:00:00Z, a proleptic Gregorian
    calendar, and days that run from midnight to midnight in UTC. */
module Calendar {
  import opened Text

  const MsPerDay: int := 86400000

  /** The day a timestamp falls on, counted from 1970-01-01 (earlier days
      are negative). */
  function DayNumber(ms: int): int {
    ms / MsPerDay
  }

  /** Milliseconds since the midnight that starts the day. */
  function TimeInDay(ms: int): (t: int)
    ensures 0 <= t < MsPerDay && ms == DayNumber(ms) * MsPerDay + t
  {
    ms % MsPerDay
  }

  /** `getDay()`: 0 for Sunday through 6 for Saturday; 1970-01-01 was a
      Thursday. */
  function WeekDay(day: int): (w: int)
    ensures 0 <= w < 7
  {
    (day + 4) % 7
  }

  predicate Leap(y: int) {
    y % 4 == 0 && (y % 100 != 0 || y % 400 == 0)
  }

  function YearLength(y: int): int {
    if Leap(y) then 366 else 365
  }

  function MonthLength(y: int, m: int): (n: int)
    ensures 28 <= n <= 31
  {
    if m == 2 then (if Leap(y) then 29 else 28)
    else if m == 4 || m == 6 || m == 9 || m == 11 then 30
    else 31
  }

  /** The day number of the first of January of `y`. */
  function DayFromYear(y: int): int {
    365 * (y - 1970) + (y - 1969) / 4 - (y - 1901) / 100 + (y - 1601) / 400
  }

  /** Consecutive years start a year's length apart. */
  lemma YearStep(y: int)
    ensures DayFromYear(y + 1) == DayFromYear(y) + YearLength(y)
  {
    EveryFourth(y);
    EveryHundredth(y);
    EveryFourHundredth(y);
    Divisors(y);
    assert DayFromYear(y + 1) - DayFromYear(y) ==
      365 + ((y - 1968) / 4 - (y - 1969) / 4) - ((y - 1900) / 100 - (y - 1901) / 100) + ((y - 1600) / 400 - (y - 1601) / 400);
  }

  /** A multiple of 400 is one of 100, and a multiple of 100 one of 4. */
  lemma Divisors(y: int)
    ensures y % 400 == 0 ==> y % 100 == 0
    ensures y % 100 == 0 ==> y % 4 == 0
  {
    if y % 400 == 0 {
      MultipleOf100(y, 4 * (y / 400));
    }
    if y % 100 == 0 {
      MultipleOf4(y, 25 * (y / 100));
    }
  }

  lemma MultipleOf100(y: int, m: int)
    requires y == 100 * m
    ensures y % 100 == 0
  {
    assert y % 100 == 100 * (m - y / 100);
  }

  lemma MultipleOf4(y: int, m: int)
    requires y == 4 * m
    ensures y % 4 == 0
  {
    assert y % 4 == 4 * (m - y / 4);
  }

  /** The three terms of `DayFromYear` step up exactly at multiples of 4,
      100 and 400. */
  lemma EveryFourth(y: int)
    ensures (y - 1968) / 4 - (y - 1969) / 4 == if y % 4 == 0 then 1 else 0
  {
  }

  lemma EveryHundredth(y: int)
    ensures (y - 1900) / 100 - (y - 1901) / 100 == if y % 100 == 0 then 1 else 0
  {
  }

  lemma EveryFourHundredth(y: int)
    ensures (y - 1600) / 400 - (y - 1601) / 400 == if y % 400 == 0 then 1 else 0
  {
  }

  /** Days of `y` before the first of month `m` (1 for January; 13 gives
      the whole year). */
  function DaysBeforeMonth(y: int, m: int): int
    requires 1 <= m <= 13
  {
    if m == 1 then 0 else DaysBeforeMonth(y, m - 1) + MonthLength(y, m - 1)
  }

  lemma MonthsFillYear(y: int)
    ensures DaysBeforeMonth(y, 13) == YearLength(y)
  {
    assert DaysBeforeMonth(y, 2) == 31;
    assert DaysBeforeMonth(y, 3) == 31 + MonthLength(y, 2);
    assert DaysBeforeMonth(y, 4) == DaysBeforeMonth(y, 3) + 31;
    assert DaysBeforeMonth(y, 5) == DaysBeforeMonth(y, 3) + 61;
    assert DaysBeforeMonth(y, 6) == DaysBeforeMonth(y, 5) + 31;
    assert DaysBeforeMonth(y, 7) == DaysBeforeMonth(y, 5) + 61;
    assert DaysBeforeMonth(y, 8) == DaysBeforeMonth(y, 7) + 31;
    assert DaysBeforeMonth(y, 9) == DaysBeforeMonth(y, 7) + 62;
    assert DaysBeforeMonth(y, 10) == DaysBeforeMonth(y, 9) + 30;
    assert DaysBeforeMonth(y, 11) == DaysBeforeMonth(y, 9) + 61;
    assert DaysBeforeMonth(y, 12) == DaysBeforeMonth(y, 11) + 30;
  }

  /** A date with month 1..12 and day 1..31. */
  datatype Civil = Civil(year: int, month: int, day: int)

  /** The day number of a date. A day past the end of its month runs on
      into the next, as `setMonth` and `setDate` do. */
  function DaysFromCivil(y: int, m: int, d: int): int
    requires 1 <= m <= 12
  {
    DayFromYear(y) + DaysBeforeMonth(y, m) + d - 1
  }

  datatype YearDay = YearDay(year: int, dayOfYear: int)

  /** Moves a day offset from the first of January of `y` into the year
      it falls in. */
  function Normalize(y: int, d: int): (r: YearDay)
    ensures 0 <= r.dayOfYear < YearLength(r.year)
    ensures DayFromYear(r.year) + r.dayOfYear == DayFromYear(y) + d
    decreases if d < 0 then 1 else 0, if d < 0 then -d else d
  {
    if d < 0 then
      YearStep(y - 1);
      Normalize(y - 1, d + YearLength(y - 1))
    else if d >= YearLength(y) then
      YearStep(y);
      Normalize(y + 1, d - YearLength(y))
    else YearDay(y, d)
  }

  /** The month and day of the `d`-th day of `y` counted from the first of
      month `m`. */
  function MonthOf(y: int, m: int, d: int): (c: Civil)
    requires 1 <= m <= 12 && 0 <= d < DaysBeforeMonth(y, 13) - DaysBeforeMonth(y, m)
    ensures c.year == y && 1 <= c.month <= 12 && 1 <= c.day <= MonthLength(y, c.month)
    ensures DaysBeforeMonth(y, c.month) + c.day - 1 == DaysBeforeMonth(y, m) + d
    decreases 12 - m
  {
    if d < MonthLength(y, m) then Civil(y, m, d + 1)
    else MonthOf(y, m + 1, d - MonthLength(y, m))
  }

  /** The date of a day number, in UTC. */
  function CivilFromDays(day: int): (c: Civil)
    ensures 1 <= c.month <= 12 && 1 <= c.day <= MonthLength(c.year, c.month)
  {
    var yd := Normalize(1970, day);
    MonthsFillYear(yd.year);
    MonthOf(yd.year, 1, yd.dayOfYear)
  }

  /** Reading a day number as a date and back gives the day number. */
  lemma CivilRoundTrip(day: int)
    ensures var c := CivilFromDays(day); DaysFromCivil(c.year, c.month, c.day) == day
  {
    var yd := Normalize(1970, day);
    MonthsFillYear(yd.year);
    var c := MonthOf(yd.year, 1, yd.dayOfYear);
    assert DayFromYear(1970) == 0;
  }

  /** Distinct days have distinct dates. */
  lemma CivilInjective(a: int, b: int)
    requires CivilFromDays(a) == CivilFromDays(b)
    ensures a == b
  {
    CivilRoundTrip(a);
    CivilRoundTrip(b);
  }

  // ---------------------------------------------------------------------
  // The period starts of the dashboard

  /** `setHours(0, 0, 0, 0)`: midnight at the start of the day. */
  function StartOfDay(now: int): (r: int)
    ensures r <= now < r + MsPerDay && r % MsPerDay == 0
  {
    DayNumber(now) * MsPerDay
  }

  /** `setDate(getDate() - n)`: the same time `n` days earlier. */
  function DaysAgo(now: int, n: int): int {
    now - n * MsPerDay
  }

  /** `setMonth(getMonth() - 1)`: the same day of the month and time one
      month earlier, January going back to December of the year before, and
      a day the earlier month lacks running on into the next. */
  function MonthAgo(now: int): int {
    var c := CivilFromDays(DayNumber(now));
    var day := if c.month == 1 then DaysFromCivil(c.year - 1, 12, c.day)
               else DaysFromCivil(c.year, c.month - 1, c.day);
    day * MsPerDay + TimeInDay(now)
  }

  /** A month back is between 28 and 31 days back: the length of the month
      before. */
  lemma MonthAgoBounds(now: int)
    ensures now - 31 * MsPerDay <= MonthAgo(now) <= now - 28 * MsPerDay
  {
    var day := DayNumber(now);
    var c := CivilFromDays(day);
    CivilRoundTrip(day);
    if c.month == 1 {
      JanuaryBack(c.year, c.day);
    } else {
      MonthBack(c.year, c.month, c.day);
    }
  }

  lemma JanuaryBack(y: int, d: int)
    ensures DaysFromCivil(y - 1, 12, d) == DaysFromCivil(y, 1, d) - 31
  {
    YearStep(y - 1);
    MonthsFillYear(y - 1);
  }

  lemma MonthBack(y: int, m: int, d: int)
    requires 2 <= m <= 12
    ensures DaysFromCivil(y, m - 1, d) == DaysFromCivil(y, m, d) - MonthLength(y, m - 1)
  {
  }

  // ---------------------------------------------------------------------
  // The group keys of the financial report

  /** The year as `toISOString` writes it: four digits for 0..9999, else a
      sign and six digits. */
  function IsoYear(y: int): string {
    if 0 <= y <= 9999 then Pad4(y)
    else if y < 0 then "-" + Pad6(-y)
    else "+" + Pad6(y)
  }

  /** `toISOString().split('T')[0]`: the date part, `YYYY-MM-DD`. */
  function IsoDate(day: int): string {
    var c := CivilFromDays(day);
    IsoYear(c.year) + "-" + Pad2(c.month) + "-" + Pad2(c.day)
  }

  /** `${getFullYear()}-${String(getMonth() + 1).padStart(2, '0')}`: the
      year unpadded, the month in two digits. */
  function MonthKey(day: int): string {
    var c := CivilFromDays(day);
    IntToString(c.year) + "-" + Pad2(c.month)
  }

  /** The Sunday that starts the week of `day`. */
  function WeekStart(day: int): (r: int)
    ensures r <= day < r + 7
  {
    day - WeekDay(day)
  }

  /** The date of the Sunday that starts the week. */
  function WeekKey(day: int): string {
    IsoDate(WeekStart(day))
  }

  /** Weeks start on Sunday, and the seven days from a Sunday share their
      week key. */
  lemma WeekStartsSunday(day: int, k: int)
    requires 0 <= k < 7
    ensures WeekDay(WeekStart(day)) == 0
    ensures WeekStart(WeekStart(day) + k) == WeekStart(day)
    ensures WeekKey(WeekStart(day) + k) == WeekKey(day)
  {
    var sunday := WeekStart(day);
    assert WeekDay(sunday) == 0;
    assert WeekDay(sunday + k) == k;
  }
}
