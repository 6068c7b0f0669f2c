/** The week number the browser gives a date (`getWeekNumber`, written out
    identically in the report form and on the dashboard), over proleptic
    Gregorian civil dates counted in days, and the ISO 8601 week numbering
    it implements (ISO 8601:2004, section 4.1.4: week 01 of a year is the
    week with that year's first Thursday; weeks start on Monday). */
module IsoWeek {

  datatype Date = Date(year: int, month: int, day: int)

  predicate IsLeapYear(y: int) {
    y % 4 == 0 && (y % 100 != 0 || y % 400 == 0)
  }

  function DaysInMonth(y: int, m: int): int
    requires 1 <= m <= 12
  {
    if m == 2 then (if IsLeapYear(y) then 29 else 28)
    else if m == 4 || m == 6 || m == 9 || m == 11 then 30
    else 31
  }

  predicate IsValidDate(d: Date) {
    1 <= d.month <= 12 && 1 <= d.day <= DaysInMonth(d.year, d.month)
  }

  /** A calendar date that exists. */
  type CivilDate = d: Date | IsValidDate(d) witness Date(1970, 1, 1)

  /** A browser `Date` read in local time: the calendar date that
      `getFullYear`/`getMonth`/`getDate` report, and the time of day. */
  datatype LocalTime = LocalTime(date: CivilDate, millisOfDay: nat)

  function DaysBeforeMonth(y: int, m: int): int
    requires 1 <= m <= 12
  {
    [0, 31, 59, 90, 120, 151, 181, 212, 243, 273, 304, 334][m - 1]
    + (if m > 2 && IsLeapYear(y) then 1 else 0)
  }

  /** Day number of January 1 of year `y`; day 0 is 0001-01-01, a Monday. */
  function YearStart(y: int): int {
    365 * (y - 1) + (y - 1) / 4 - (y - 1) / 100 + (y - 1) / 400
  }

  function YearLength(y: int): int {
    if IsLeapYear(y) then 366 else 365
  }

  /** Day number of year `y`, month `m`, day `d`; a day past the end of its
      month rolls over into the next, as in `Date.UTC`. */
  function DayNumber(y: int, m: int, d: int): int
    requires 1 <= m <= 12
  {
    YearStart(y) + DaysBeforeMonth(y, m) + d - 1
  }

  /** Stepping `y - 1` to `y` raises `y / d` exactly when `d` divides `y`. */
  lemma DivStep4(y: int)
    ensures y / 4 - (y - 1) / 4 == if y % 4 == 0 then 1 else 0
  {
  }

  lemma DivStep100(y: int)
    ensures y / 100 - (y - 1) / 100 == if y % 100 == 0 then 1 else 0
  {
  }

  lemma DivStep400(y: int)
    ensures y / 400 - (y - 1) / 400 == if y % 400 == 0 then 1 else 0
  {
  }

  /** Consecutive years start a year's length apart. */
  lemma YearStartStep(y: int)
    ensures YearStart(y + 1) == YearStart(y) + YearLength(y)
  {
    DivStep4(y);
    DivStep100(y);
    DivStep400(y);
  }

  lemma {:induction false} YearStartMonotone(a: int, b: int)
    requires a <= b
    ensures YearStart(a) <= YearStart(b)
    decreases b - a
  {
    if a < b {
      YearStartStep(a);
      YearStartMonotone(a + 1, b);
    }
  }

  /** A day belongs to at most one year. */
  lemma YearUnique(t: int, a: int, b: int)
    requires YearStart(a) <= t < YearStart(a + 1)
    requires YearStart(b) <= t < YearStart(b + 1)
    ensures a == b
  {
    if a < b { YearStartMonotone(a + 1, b); }
    if b < a { YearStartMonotone(b + 1, a); }
  }

  /** `getUTCFullYear` of day `t`, which lies within three days of year `near`. */
  function YearOf(t: int, near: int): (ty: int)
    requires YearStart(near) - 3 <= t < YearStart(near + 1) + 3
    ensures YearStart(ty) <= t < YearStart(ty + 1)
    ensures near - 1 <= ty <= near + 1
  {
    YearStartStep(near - 1);
    YearStartStep(near);
    YearStartStep(near + 1);
    if t < YearStart(near) then near - 1
    else if t >= YearStart(near + 1) then near + 1
    else near
  }

  /** `Date.UTC` reads a year from 0 to 99 as 1900 to 1999. */
  function UtcYear(y: int): int {
    if 0 <= y <= 99 then 1900 + y else y
  }

  /** `getUTCDay`: 0 for Sunday, 1 for Monday, ..., 6 for Saturday. */
  function UtcDay(n: int): int {
    (n + 1) % 7
  }

  /** `Math.ceil(a / b)` for a positive divisor. */
  function CeilDiv(a: int, b: int): int
    requires b > 0
  {
    -((-a) / b)
  }

  lemma DayOfYearBounds(date: CivilDate)
    ensures var y := UtcYear(date.year);
      YearStart(y) <= DayNumber(y, date.month, date.day) < YearStart(y + 1)
  {
    YearStartStep(UtcYear(date.year));
  }

  /** The day number of the UTC midnight the function builds from the local date. */
  function MidnightDay(now: LocalTime): int {
    DayNumber(UtcYear(now.date.year), now.date.month, now.date.day)
  }

  /** The Thursday of the week of day `n`: `n + 4 - (getUTCDay() || 7)`. */
  function ShiftedThursday(n: int): int {
    var dayNum := if UtcDay(n) == 0 then 7 else UtcDay(n);
    n + 4 - dayNum
  }

  /** `getWeekNumber(date)`, step by step: the local calendar date taken as
      a UTC midnight, moved to the Thursday of its week, then the 1-based day
      of that Thursday's year divided by 7 and rounded up. */
  function GetWeekNumber(now: LocalTime): int {
    var n := MidnightDay(now);
    var t := ShiftedThursday(n);
    DayOfYearBounds(now.date);
    var ty := YearOf(t, UtcYear(now.date.year));
    var yearStart := YearStart(UtcYear(ty));
    CeilDiv(t - yearStart + 1, 7)
  }

  // ---------------------------------------------------------------------
  // ISO 8601 week numbering, defined independently.

  /** ISO weekday of day `n`: 1 for Monday ... 7 for Sunday. */
  function IsoWeekday(n: int): int {
    n % 7 + 1
  }

  /** The Thursday of the Monday-to-Sunday week that contains day `n`. */
  function WeekThursday(n: int): int {
    n - IsoWeekday(n) + 4
  }

  /** The first Thursday of year `y` (day numbers with `n % 7 == 3` are Thursdays). */
  function FirstThursday(y: int): int {
    YearStart(y) + (3 - YearStart(y) % 7) % 7
  }

  /** The ISO week-numbering year of a date: the year of its week's Thursday. */
  function IsoWeekYear(d: CivilDate): int {
    var n := DayNumber(d.year, d.month, d.day);
    YearStartStep(d.year);
    YearOf(WeekThursday(n), d.year)
  }

  /** The ISO week number: week 1 holds the first Thursday of the week year. */
  function IsoWeek(d: CivilDate): int {
    var n := DayNumber(d.year, d.month, d.day);
    (WeekThursday(n) - FirstThursday(IsoWeekYear(d))) / 7 + 1
  }

  /** Years where `Date.UTC`'s two-digit-year rule never applies, neither to
      the date nor to the year of its Thursday. */
  predicate LiteralYear(y: int) {
    y < -1 || y > 100
  }

  /** The shifted day is the ISO Thursday of the date's week. */
  lemma ShiftIsThursday(n: int)
    ensures ShiftedThursday(n) == WeekThursday(n)
    ensures WeekThursday(n) % 7 == 3
  {
  }

  /** `Math.ceil((j + 1) / 7)` for a day offset `j` counted from 0. */
  lemma CeilDivStep(j: int)
    requires j >= 0
    ensures CeilDiv(j + 1, 7) == j / 7 + 1
  {
    var q, r := j / 7, j % 7;
    assert j == 7 * q + r;
    assert -(j + 1) == 7 * (-q - 1) + (6 - r);
  }

  /** A Thursday `t` on or after day `ys` lies a whole number of weeks after
      the first Thursday on or after `ys`. */
  lemma ThursdayOffset(ys: int, t: int)
    requires ys <= t && t % 7 == 3
    ensures (3 - ys % 7) % 7 == (t - ys) % 7
    ensures (t - (ys + (3 - ys % 7) % 7)) / 7 == (t - ys) / 7
  {
    var j := t - ys;
    var q, r := j / 7, j % 7;
    assert j == 7 * q + r;
    assert ys == 7 * (ys / 7) + ys % 7;
    assert t == 7 * (t / 7) + 3;
    assert (3 - ys % 7) % 7 == r;
    assert t - (ys + r) == 7 * q;
  }

  /** The browser's computation is the ISO 8601 week number. */
  lemma GetWeekNumberIsIsoWeek(now: LocalTime)
    requires LiteralYear(now.date.year)
    ensures GetWeekNumber(now) == IsoWeek(now.date)
  {
    var d := now.date;
    var n := DayNumber(d.year, d.month, d.day);
    ShiftIsThursday(n);
    var t := WeekThursday(n);
    var ty := IsoWeekYear(d);
    DayOfYearBounds(d);
    assert UtcYear(d.year) == d.year;
    assert MidnightDay(now) == n;
    assert YearOf(t, d.year) == ty;
    assert UtcYear(ty) == ty;
    var ys := YearStart(ty);
    assert GetWeekNumber(now) == CeilDiv(t - ys + 1, 7);
    assert IsoWeek(d) == (t - FirstThursday(ty)) / 7 + 1;
    WeeksFromYearStart(ys, t);
  }

  /** Counting from the year's first day and rounding up gives the same week
      as counting whole weeks from its first Thursday. */
  lemma WeeksFromYearStart(ys: int, t: int)
    requires ys <= t && t % 7 == 3
    ensures CeilDiv(t - ys + 1, 7) == (t - (ys + (3 - ys % 7) % 7)) / 7 + 1
  {
    CeilDivStep(t - ys);
    ThursdayOffset(ys, t);
  }

  /** The week number is always between 1 and 53, except where `Date.UTC`
      reinterprets the Thursday's year (early January of year 100 and late
      December of year -1). */
  lemma WeekNumberRange(now: LocalTime)
    requires now.date.year != -1 && now.date.year != 100
    ensures 1 <= GetWeekNumber(now) <= 53
  {
    var y := UtcYear(now.date.year);
    var n := MidnightDay(now);
    DayOfYearBounds(now.date);
    var t := ShiftedThursday(n);
    var ty := YearOf(t, y);
    assert UtcYear(ty) == ty;
    YearStartStep(ty);
    var j := t - YearStart(ty);
    assert 0 <= j < 366;
    CeilDivStep(j);
  }

  /** Every day of a Monday-to-Sunday week has the same Thursday. */
  lemma WeekThursdayOfWeek(n: int, k: int)
    requires n % 7 == 0 && 0 <= k < 7
    ensures WeekThursday(n + k) == n + 3
  {
    assert n == 7 * (n / 7);
    assert (n + k) % 7 == k;
  }

  /** Two dates whose weeks share a Thursday share an ISO week. */
  lemma IsoWeekByThursday(a: CivilDate, b: CivilDate)
    requires WeekThursday(DayNumber(a.year, a.month, a.day))
          == WeekThursday(DayNumber(b.year, b.month, b.day))
    ensures IsoWeek(a) == IsoWeek(b)
  {
    var t := WeekThursday(DayNumber(a.year, a.month, a.day));
    YearUnique(t, IsoWeekYear(a), IsoWeekYear(b));
  }

  /** The ISO week of the dates from a Monday to the following Sunday. */
  lemma SameIsoWeekFromMonday(a: CivilDate, b: CivilDate, k: int)
    requires DayNumber(a.year, a.month, a.day) % 7 == 0 && 0 <= k < 7
    requires DayNumber(b.year, b.month, b.day) == DayNumber(a.year, a.month, a.day) + k
    ensures IsoWeek(b) == IsoWeek(a)
  {
    var n := DayNumber(a.year, a.month, a.day);
    WeekThursdayOfWeek(n, 0);
    WeekThursdayOfWeek(n, k);
    IsoWeekByThursday(a, b);
  }

  /** All seven days from a Monday to the following Sunday share one week number. */
  lemma SameWeekFromMonday(monday: LocalTime, later: LocalTime, k: int)
    requires LiteralYear(monday.date.year) && LiteralYear(later.date.year)
    requires IsoWeekday(MidnightDay(monday)) == 1
    requires 0 <= k < 7 && MidnightDay(later) == MidnightDay(monday) + k
    ensures GetWeekNumber(later) == GetWeekNumber(monday)
  {
    assert UtcYear(monday.date.year) == monday.date.year;
    assert UtcYear(later.date.year) == later.date.year;
    SameIsoWeekFromMonday(monday.date, later.date, k);
    GetWeekNumberIsIsoWeek(monday);
    GetWeekNumberIsIsoWeek(later);
  }

  /** Boundary cases: 2021-01-01 lies in week 53 (of 2020), 2021-01-04 starts
      week 1, and 2024-12-31 is already in week 1 (of 2025). */
  lemma BoundaryWeeks()
    ensures GetWeekNumber(LocalTime(Date(2021, 1, 1), 0)) == 53
    ensures GetWeekNumber(LocalTime(Date(2021, 1, 4), 0)) == 1
    ensures GetWeekNumber(LocalTime(Date(2024, 12, 31), 0)) == 1
  {
    assert YearStart(2020) == 737424;
    assert YearStart(2021) == 737790;
    assert YearStart(2022) == 738155;
    assert MidnightDay(LocalTime(Date(2021, 1, 1), 0)) == 737790;
    assert ShiftedThursday(737790) == 737789;
    assert YearOf(737789, 2021) == 2020;
    assert MidnightDay(LocalTime(Date(2021, 1, 4), 0)) == 737793;
    assert ShiftedThursday(737793) == 737796;
    assert YearOf(737796, 2021) == 2021;
    assert YearStart(2024) == 738885;
    assert YearStart(2025) == 739251;
    assert MidnightDay(LocalTime(Date(2024, 12, 31), 0)) == 739250;
    assert ShiftedThursday(739250) == 739252;
    assert YearOf(739252, 2024) == 2025;
  }

  /** On 0100-01-01, a Friday, the Thursday falls on 0099-12-31 and `Date.UTC`
      takes that year's January 1 as 1999-01-01: the result is negative. */
  lemma TwoDigitYearWeek()
    ensures GetWeekNumber(LocalTime(Date(100, 1, 1), 0)) == -99085
  {
    assert YearStart(99) == 35794;
    assert YearStart(100) == 36159;
    assert YearStart(101) == 36524;
    assert MidnightDay(LocalTime(Date(100, 1, 1), 0)) == 36159;
    assert ShiftedThursday(36159) == 36158;
    assert YearOf(36158, 100) == 99;
    assert YearStart(UtcYear(99)) == 729754;
  }
}
