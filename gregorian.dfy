/**
 * Proleptic Gregorian calendar arithmetic standing in for the JavaScript
 * `Date` constructor `new Date(y, m, d)` and `getDay()`.
 *
 * A day is identified by its day number: the count of days since
 * 1 January of year 1. Months are 0-based, as in `Date`.
 */
module Gregorian {

  predicate IsLeap(y: int) {
    y % 4 == 0 && (y % 100 != 0 || y % 400 == 0)
  }

  /** Days in month `m` (0 = January) of year `y`. */
  function DaysInMonth(y: int, m: int): (n: int)
    requires 0 <= m < 12
    ensures 28 <= n <= 31
    ensures m == 1 ==> (n == 29 <==> IsLeap(y)) && (n == 28 <==> !IsLeap(y))
    ensures m != 1 ==> (n == 30 <==> m in {3, 5, 8, 10}) && (n == 31 <==> m !in {3, 5, 8, 10})
  {
    if m == 1 then (if IsLeap(y) then 29 else 28)
    else if m == 3 || m == 5 || m == 8 || m == 10 then 30
    else 31
  }

  function YearLength(y: int): int {
    if IsLeap(y) then 366 else 365
  }

  /** Days from 1 January of year 1 to 1 January of year `y`. */
  function DaysBeforeYear(y: int): int {
    var p := y - 1;
    365 * p + p / 4 - p / 100 + p / 400
  }

  /** Days from 1 January to the first day of month `m` of year `y`. */
  function DaysBeforeMonth(y: int, m: int): (n: int)
    requires 0 <= m <= 12
    ensures 28 * m <= n <= 31 * m
  {
    if m == 0 then 0 else DaysBeforeMonth(y, m - 1) + DaysInMonth(y, m - 1)
  }

  /** Day number of day `d` of month `m` of year `y`; `d` may fall outside the month. */
  function DayNumber(y: int, m: int, d: int): int
    requires 0 <= m < 12
  {
    DaysBeforeYear(y) + DaysBeforeMonth(y, m) + d - 1
  }

  /** `Date` reads a year argument between 0 and 99 as a year of the 1900s. */
  function JsYear(y: int): (r: int)
    ensures 0 <= y <= 99 ==> r == 1900 + y
    ensures !(0 <= y <= 99) ==> r == y
    ensures !(0 <= r <= 99)
  {
    if 0 <= y <= 99 then 1900 + y else y
  }

  /** The day `new Date(y, m, d)` denotes: the month overflows into the year, the day into the following months. */
  function MakeDay(y: int, m: int, d: int): int {
    DayNumber(JsYear(y) + m / 12, m % 12, d)
  }

  /** `getDay()`: 0 = Sunday .. 6 = Saturday. Day number 0 (1 January of year 1) was a Monday. */
  function Weekday(n: int): (w: int)
    ensures 0 <= w < 7
  {
    (n + 1) % 7
  }

  // ---------------------------------------------------------------------------
  // Lemmas
  // ---------------------------------------------------------------------------

  lemma DivStep4(p: int)
    ensures (p + 1) / 4 == p / 4 + (if (p + 1) % 4 == 0 then 1 else 0)
  {
  }

  lemma DivStep100(p: int)
    ensures (p + 1) / 100 == p / 100 + (if (p + 1) % 100 == 0 then 1 else 0)
  {
  }

  lemma DivStep400(p: int)
    ensures (p + 1) / 400 == p / 400 + (if (p + 1) % 400 == 0 then 1 else 0)
  {
  }

  /** A year has 366 days when it is a leap year and 365 otherwise. */
  lemma YearStep(y: int)
    ensures DaysBeforeYear(y + 1) == DaysBeforeYear(y) + YearLength(y)
  {
    var p := y - 1;
    DivStep4(p);
    DivStep100(p);
    DivStep400(p);
    CenturiesAreQuadrennial(y);
    var q4 := if y % 4 == 0 then 1 else 0;
    var q100 := if y % 100 == 0 then 1 else 0;
    var q400 := if y % 400 == 0 then 1 else 0;
    assert q4 - q100 + q400 == YearLength(y) - 365;
    assert DaysBeforeYear(y + 1) - DaysBeforeYear(y) == 365 + q4 - q100 + q400;
  }

  /** A year divisible by 400 is divisible by 100, and one divisible by 100 is divisible by 4. */
  lemma CenturiesAreQuadrennial(y: int)
    ensures y % 400 == 0 ==> y % 100 == 0
    ensures y % 100 == 0 ==> y % 4 == 0
  {
  }

  /** The twelve months of a year add up to the year's length. */
  lemma MonthsFillYear(y: int)
    ensures DaysBeforeMonth(y, 11) + 31 == YearLength(y)
    ensures DaysBeforeMonth(y, 12) == YearLength(y)
  {
    assert DaysBeforeMonth(y, 1) == 31;
    assert DaysBeforeMonth(y, 2) == 31 + DaysInMonth(y, 1);
    assert DaysBeforeMonth(y, 3) == 90 + DaysInMonth(y, 1) - 28;
    assert DaysBeforeMonth(y, 4) == 120 + DaysInMonth(y, 1) - 28;
    assert DaysBeforeMonth(y, 5) == 151 + DaysInMonth(y, 1) - 28;
    assert DaysBeforeMonth(y, 6) == 181 + DaysInMonth(y, 1) - 28;
    assert DaysBeforeMonth(y, 7) == 212 + DaysInMonth(y, 1) - 28;
    assert DaysBeforeMonth(y, 8) == 243 + DaysInMonth(y, 1) - 28;
    assert DaysBeforeMonth(y, 9) == 273 + DaysInMonth(y, 1) - 28;
    assert DaysBeforeMonth(y, 10) == 304 + DaysInMonth(y, 1) - 28;
    assert DaysBeforeMonth(y, 11) == 334 + DaysInMonth(y, 1) - 28;
    assert DaysBeforeMonth(y, 12) == 365 + DaysInMonth(y, 1) - 28;
  }

  /** `new Date(y, m + 1, 1)` is `DaysInMonth` days after `new Date(y, m, 1)`, across the turn of the year too. */
  lemma NextMonth(y: int, m: int)
    ensures MakeDay(y, m + 1, 1) == MakeDay(y, m, 1) + DaysInMonth(JsYear(y) + m / 12, m % 12)
  {
    var yr := JsYear(y) + m / 12;
    if m % 12 == 11 {
      assert (m + 1) / 12 == m / 12 + 1 && (m + 1) % 12 == 0;
      YearStep(yr);
      MonthsFillYear(yr);
    } else {
      assert (m + 1) / 12 == m / 12 && (m + 1) % 12 == m % 12 + 1;
    }
  }

  /** `new Date(y, m + 1, 0)` is the last day of month `m`: its `getDate()` is the month's length. */
  lemma LastDayOfMonth(y: int, m: int)
    ensures MakeDay(y, m + 1, 0) == MakeDay(y, m, DaysInMonth(JsYear(y) + m / 12, m % 12))
  {
    NextMonth(y, m);
  }

  /** The weekday advances by one with each day. */
  lemma WeekdayOffset(n: int, k: int)
    ensures Weekday(n + k) == (Weekday(n) + k) % 7
  {
  }

  /** Inside the year, `new Date(y, m, d)` is day `d` of month `m` of the year `Date` reads `y` as. */
  lemma MakeDayInYear(y: int, m: int, d: int)
    requires 0 <= m < 12
    ensures MakeDay(y, m, d) == DayNumber(JsYear(y), m, d)
  {
  }

  /** January 1 is the first day of its year. */
  lemma JanuaryStart(y: int)
    ensures DayNumber(y, 0, 1) == DaysBeforeYear(y)
  {
  }

  /** A month starts where the previous one ends. */
  lemma MonthStartStep(y: int, m: int)
    requires 1 <= m < 12
    ensures DayNumber(y, m, 1) == DayNumber(y, m - 1, 1) + DaysInMonth(y, m - 1)
  {
  }

  /** Moving `k` days on from a day of weekday `w` lands on weekday `(w + k) % 7`. */
  lemma WeekdayShift(w: int, a: int, b: int, k: int)
    requires w == Weekday(a) && b == a + k
    ensures Weekday(b) == (w + k) % 7
  {
    WeekdayOffset(a, k);
  }

  /** Every day of a month lies inside its year. */
  lemma {:induction false} DayInYear(y: int, m: int, d: int)
    requires 0 <= m < 12 && 1 <= d <= DaysInMonth(y, m)
    ensures DaysBeforeYear(y) <= DayNumber(y, m, d) < DaysBeforeYear(y + 1)
  {
    assert DaysBeforeMonth(y, m + 1) == DaysBeforeMonth(y, m) + DaysInMonth(y, m);
    MonthsBefore(y, m + 1);
    MonthsFillYear(y);
    YearStep(y);
  }

  lemma {:induction false} MonthsBefore(y: int, m: int)
    requires 0 <= m <= 12
    ensures DaysBeforeMonth(y, m) <= DaysBeforeMonth(y, 12)
    decreases 12 - m
  {
    if m < 12 {
      MonthsBefore(y, m + 1);
    }
  }
}
