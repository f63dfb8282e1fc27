/** Calendar dates as the browser's local-time `Date` sees them at midnight: a year, a
    0-based month and a day of the month in the proleptic Gregorian calendar, numbered
    consecutively by `DayNumber`. `MakeDate` is `new Date(y, m, d)`, including its
    roll-over of out-of-range months and days and its reading of years 0..99 as 19xx. */
module Dates {

  datatype Date = Date(year: int, month: int, day: int)

  predicate IsLeapYear(y: int) {
    y % 4 == 0 && (y % 100 != 0 || y % 400 == 0)
  }

  function DaysInMonth(y: int, m: int): (n: int)
    requires 0 <= m < 12
    ensures 28 <= n <= 31
    ensures n == 29 <==> m == 1 && IsLeapYear(y)
  {
    if m == 1 then (if IsLeapYear(y) then 29 else 28)
    else if m == 3 || m == 5 || m == 8 || m == 10 then 30
    else 31
  }

  /** A date the calendar has: `getMonth()` in 0..11 and `getDate()` within the month. */
  predicate ValidDate(d: Date) {
    0 <= d.month < 12 && 1 <= d.day <= DaysInMonth(d.year, d.month)
  }

  /** Days from 1 January of year 0 to 1 January of year `y`. */
  function DaysBeforeYear(y: int): int {
    365 * y + (y + 3) / 4 - (y + 99) / 100 + (y + 399) / 400
  }

  /** Days from 1 January to the first of month `m` (month 12 is the next 1 January). */
  function DaysBeforeMonth(y: int, m: int): int
    requires 0 <= m <= 12
  {
    var leap := if IsLeapYear(y) then 1 else 0;
    if m == 0 then 0
    else if m == 1 then 31
    else if m == 2 then 59 + leap
    else if m == 3 then 90 + leap
    else if m == 4 then 120 + leap
    else if m == 5 then 151 + leap
    else if m == 6 then 181 + leap
    else if m == 7 then 212 + leap
    else if m == 8 then 243 + leap
    else if m == 9 then 273 + leap
    else if m == 10 then 304 + leap
    else if m == 11 then 334 + leap
    else 365 + leap
  }

  /** The day number of the first of month `m` of year `y`. */
  function FirstOfMonth(y: int, m: int): int
    requires 0 <= m < 12
  {
    DaysBeforeYear(y) + DaysBeforeMonth(y, m)
  }

  /** Consecutive numbering of days: the time value of a midnight divided by a day's length. */
  function DayNumber(d: Date): int
    requires 0 <= d.month < 12
  {
    FirstOfMonth(d.year, d.month) + d.day - 1
  }

  function NextMonth(y: int, m: int): (r: (int, int))
    requires 0 <= m < 12
    ensures 0 <= r.1 < 12
  {
    if m == 11 then (y + 1, 0) else (y, m + 1)
  }

  function PrevMonth(y: int, m: int): (r: (int, int))
    requires 0 <= m < 12
    ensures 0 <= r.1 < 12
    ensures NextMonth(r.0, r.1) == (y, m)
  {
    if m == 0 then (y - 1, 11) else (y, m - 1)
  }

  /** Moves the day `d` of month `m` of year `y` into range by stepping whole months. */
  function Normalize(y: int, m: int, d: int): (r: Date)
    requires 0 <= m < 12
    ensures ValidDate(r)
    decreases if d < 1 then 1 else 0, if d < 1 then -d else d
  {
    if d < 1 then
      var p := PrevMonth(y, m);
      Normalize(p.0, p.1, d + DaysInMonth(p.0, p.1))
    else if d > DaysInMonth(y, m) then
      var n := NextMonth(y, m);
      Normalize(n.0, n.1, d - DaysInMonth(y, m))
    else
      Date(y, m, d)
  }

  /** The year `new Date(y, …)` uses: 0..99 stand for 1900..1999. */
  function JsYear(y: int): (r: int)
    ensures 0 <= y <= 99 ==> r == 1900 + y
    ensures !(0 <= y <= 99) ==> r == y
  {
    if 0 <= y <= 99 then 1900 + y else y
  }

  /** `new Date(y, m, d)` at local midnight. */
  function MakeDate(y: int, m: int, d: int): (r: Date)
    ensures ValidDate(r)
  {
    Normalize(JsYear(y) + m / 12, m % 12, d)
  }

  // ---------------------------------------------------------------- day arithmetic

  lemma LeapStep4(y: int)
    ensures (y + 4) / 4 == (y + 3) / 4 + (if y % 4 == 0 then 1 else 0)
  {
  }

  lemma LeapStep100(y: int)
    ensures (y + 100) / 100 == (y + 99) / 100 + (if y % 100 == 0 then 1 else 0)
  {
  }

  lemma LeapStep400(y: int)
    ensures (y + 400) / 400 == (y + 399) / 400 + (if y % 400 == 0 then 1 else 0)
  {
  }

  lemma LeapDivisors(y: int)
    ensures y % 100 == 0 ==> y % 4 == 0
    ensures y % 400 == 0 ==> y % 100 == 0
  {
  }

  /** A year has 366 days exactly when it is a leap year. */
  lemma YearLength(y: int)
    ensures DaysBeforeYear(y + 1) == DaysBeforeYear(y) + 365 + (if IsLeapYear(y) then 1 else 0)
  {
    LeapStep4(y);
    LeapStep100(y);
    LeapStep400(y);
    LeapDivisors(y);
    assert DaysBeforeYear(y + 1) == 365 * y + 365 + (y + 4) / 4 - (y + 100) / 100 + (y + 400) / 400;
  }

  /** The first of the next month comes `DaysInMonth` days after the first of this one. */
  lemma MonthLength(y: int, m: int)
    requires 0 <= m < 12
    ensures var n := NextMonth(y, m);
      FirstOfMonth(n.0, n.1) == FirstOfMonth(y, m) + DaysInMonth(y, m)
  {
    if m == 11 {
      YearLength(y);
    }
  }

  /** Roll-over is day arithmetic: day `d` of a month is `d - 1` days after its first. */
  lemma {:induction false} NormalizeDayNumber(y: int, m: int, d: int)
    requires 0 <= m < 12
    ensures DayNumber(Normalize(y, m, d)) == FirstOfMonth(y, m) + d - 1
    decreases if d < 1 then 1 else 0, if d < 1 then -d else d
  {
    if d < 1 {
      var p := PrevMonth(y, m);
      NormalizeDayNumber(p.0, p.1, d + DaysInMonth(p.0, p.1));
      MonthLength(p.0, p.1);
    } else if d > DaysInMonth(y, m) {
      var n := NextMonth(y, m);
      NormalizeDayNumber(n.0, n.1, d - DaysInMonth(y, m));
      MonthLength(y, m);
    }
  }

  /** `new Date(y, m, d)` lies `d - 1` days after the first of month `m` of year `y`,
      whatever the range of `m` and `d`. */
  lemma MakeDateDayNumber(y: int, m: int, d: int)
    ensures DayNumber(MakeDate(y, m, d)) == FirstOfMonth(JsYear(y) + m / 12, m % 12) + d - 1
  {
    NormalizeDayNumber(JsYear(y) + m / 12, m % 12, d);
  }

  /** A date the calendar has is built unchanged (years from 100 on). */
  lemma MakeDateValid(dt: Date)
    requires ValidDate(dt) && !(0 <= dt.year <= 99)
    ensures MakeDate(dt.year, dt.month, dt.day) == dt
  {
  }

  /** Day 0 of a month is the last day of the month before it. */
  lemma {:induction false} DayZero(y: int, m: int)
    requires 0 <= m < 12
    ensures var p := PrevMonth(JsYear(y), m);
      MakeDate(y, m, 0) == Date(p.0, p.1, DaysInMonth(p.0, p.1))
  {
    var p := PrevMonth(JsYear(y), m);
    assert MakeDate(y, m, 0) == Normalize(JsYear(y), m, 0);
    assert Normalize(JsYear(y), m, 0) == Normalize(p.0, p.1, DaysInMonth(p.0, p.1));
  }

  /** Days of one year lie between its first day and the next year's first day. */
  lemma DayNumberInYear(d: Date)
    requires ValidDate(d)
    ensures DaysBeforeYear(d.year) <= DayNumber(d) < DaysBeforeYear(d.year + 1)
  {
    YearLength(d.year);
  }

  lemma {:induction false} DaysBeforeYearMonotone(a: int, b: int)
    requires a <= b
    ensures DaysBeforeYear(a) <= DaysBeforeYear(b)
    decreases b - a
  {
    if a < b {
      DaysBeforeYearMonotone(a, b - 1);
      YearLength(b - 1);
    }
  }

  /** Calendar order on dates. */
  predicate Before(a: Date, b: Date) {
    a.year < b.year
    || (a.year == b.year && a.month < b.month)
    || (a.year == b.year && a.month == b.month && a.day < b.day)
  }

  /** Every day of an earlier month comes before the first of a later month. */
  lemma MonthOrder(y: int, m: int, n: int)
    requires 0 <= m < n < 12
    ensures DaysBeforeMonth(y, m) + DaysInMonth(y, m) <= DaysBeforeMonth(y, n)
  {
  }

  lemma EarlierYear(a: Date, b: Date)
    requires ValidDate(a) && ValidDate(b) && a.year < b.year
    ensures DayNumber(a) < DayNumber(b)
  {
    DayNumberInYear(a);
    DayNumberInYear(b);
    DaysBeforeYearMonotone(a.year + 1, b.year);
  }

  lemma SameYear(a: Date, b: Date)
    requires ValidDate(a) && ValidDate(b) && a.year == b.year
    ensures DayNumber(a) < DayNumber(b) <==> Before(a, b)
  {
    if a.month < b.month {
      MonthOrder(a.year, a.month, b.month);
    } else if b.month < a.month {
      MonthOrder(a.year, b.month, a.month);
    }
  }

  /** Comparing two dates as `Date` objects is comparing them in the calendar. */
  lemma DayNumberOrder(a: Date, b: Date)
    requires ValidDate(a) && ValidDate(b)
    ensures DayNumber(a) < DayNumber(b) <==> Before(a, b)
  {
    if a.year < b.year {
      EarlierYear(a, b);
    } else if b.year < a.year {
      EarlierYear(b, a);
    } else {
      SameYear(a, b);
    }
  }

  /** Distinct dates of the calendar have distinct day numbers. */
  lemma DayNumberInjective(a: Date, b: Date)
    requires ValidDate(a) && ValidDate(b)
    requires DayNumber(a) == DayNumber(b)
    ensures a == b
  {
    DayNumberOrder(a, b);
    DayNumberOrder(b, a);
  }
}
