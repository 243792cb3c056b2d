/**
 * Proleptic Gregorian calendar arithmetic, standing in for JavaScript's
 * `new Date(year, month, day)`, `getDate()` of day 0 of the next month and
 * `getDay()`. Months are numbered 0..11 as in JavaScript; dates are day
 * numbers counted from 1 January of year 1 (day 0).
 */
module Gregorian {

  predicate IsLeapYear(y: int) {
    y % 4 == 0 && (y % 100 != 0 || y % 400 == 0)
  }

  predicate ValidMonth(m: int) {
    0 <= m < 12
  }

  /** `new Date(year, month + 1, 0).getDate()`. */
  function DaysInMonth(y: int, m: int): (n: int)
    requires ValidMonth(m)
    ensures 28 <= n <= 31
    ensures n == 29 <==> m == 1 && IsLeapYear(y)
  {
    if m == 1 then (if IsLeapYear(y) then 29 else 28)
    else if m == 3 || m == 5 || m == 8 || m == 10 then 30
    else 31
  }

  /** Days in the months of year `y` before month `m`. */
  function DaysBeforeMonth(y: int, m: int): (n: int)
    requires 0 <= m <= 12
    ensures 28 * m <= n <= 31 * m
  {
    if m == 0 then 0 else DaysBeforeMonth(y, m - 1) + DaysInMonth(y, m - 1)
  }

  /** The day number of 1 January of year `y`. */
  function DaysBeforeYear(y: int): int {
    365 * (y - 1) + (y - 1) / 4 - (y - 1) / 100 + (y - 1) / 400
  }

  /** The day number of `new Date(y, m, d)`, for 1 <= d <= DaysInMonth(y, m). */
  function DayNumber(y: int, m: int, d: int): int
    requires ValidMonth(m)
  {
    DaysBeforeYear(y) + DaysBeforeMonth(y, m) + d - 1
  }

  /** A real date of year `y` falls on or after its 1 January and before the next one. */
  lemma DayInYear(y: int, m: int, d: int)
    requires ValidMonth(m) && 1 <= d <= DaysInMonth(y, m)
    ensures DaysBeforeYear(y) <= DayNumber(y, m, d) < DaysBeforeYear(y + 1)
  {
    MonthsBeforeGrow(y, m + 1);
    YearLength(y);
  }

  /** The months before `m` never hold more days than the whole year. */
  lemma {:induction false} MonthsBeforeGrow(y: int, m: int)
    requires 0 <= m <= 12
    ensures DaysBeforeMonth(y, m) <= DaysBeforeMonth(y, 12)
    decreases 12 - m
  {
    if m < 12 {
      MonthsBeforeGrow(y, m + 1);
    }
  }

  /** `getDay()`: 0 is Sunday; day 0, 1 January of year 1, was a Monday. */
  function Weekday(n: int): (w: int)
    ensures 0 <= w < 7
  {
    (n + 1) % 7
  }

  /** 1 January 1970, the epoch of JavaScript dates, was a Thursday. */
  lemma EpochIsThursday()
    ensures DayNumber(1970, 0, 1) == 719162 && Weekday(DayNumber(1970, 0, 1)) == 4
  {
  }

  /** Among the years up to `y`, one more is a multiple of `k` than among those up to `y - 1` exactly when `y` is one. */
  lemma CountingMultiples(y: int, k: int)
    requires k == 4 || k == 100 || k == 400
    ensures y / k - (y - 1) / k == (if y % k == 0 then 1 else 0)
  {
    if k == 4 {
    } else if k == 100 {
    } else {
    }
  }

  /** The months of a year add up to 365 days, plus February's leap day. */
  lemma MonthsOfYear(y: int)
    ensures DaysBeforeMonth(y, 12) == 337 + DaysInMonth(y, 1)
  {
    var feb := DaysInMonth(y, 1);
    assert DaysBeforeMonth(y, 1) == 31;
    assert DaysBeforeMonth(y, 2) == 31 + feb;
    assert DaysBeforeMonth(y, 3) == 62 + feb;
    assert DaysBeforeMonth(y, 4) == 92 + feb;
    assert DaysBeforeMonth(y, 5) == 123 + feb;
    assert DaysBeforeMonth(y, 6) == 153 + feb;
    assert DaysBeforeMonth(y, 7) == 184 + feb;
    assert DaysBeforeMonth(y, 8) == 215 + feb;
    assert DaysBeforeMonth(y, 9) == 245 + feb;
    assert DaysBeforeMonth(y, 10) == 276 + feb;
    assert DaysBeforeMonth(y, 11) == 306 + feb;
  }

  /** A multiple of 400 is a multiple of 100, and a multiple of 100 is a multiple of 4. */
  lemma DivisibilityChain(y: int)
    ensures y % 400 == 0 ==> y % 100 == 0
    ensures y % 100 == 0 ==> y % 4 == 0
  {
    var q, r := y / 400, y % 400;
    assert y == 400 * q + r && 0 <= r < 400;
    assert y == 100 * (4 * q) + r;
    var q', r' := y / 100, y % 100;
    assert y == 100 * q' + r' && 0 <= r' < 100;
    assert y == 4 * (25 * q') + r';
  }

  /** January 1 of the next year is 366 days on in a leap year and 365 otherwise. */
  lemma NextNewYear(y: int)
    ensures DaysBeforeYear(y + 1) == DaysBeforeYear(y) + if IsLeapYear(y) then 366 else 365
  {
    CountingMultiples(y, 4);
    CountingMultiples(y, 100);
    CountingMultiples(y, 400);
    DivisibilityChain(y);
  }

  /** A year has 366 days when it is a leap year and 365 otherwise. */
  lemma YearLength(y: int)
    ensures DaysBeforeYear(y + 1) - DaysBeforeYear(y) == DaysBeforeMonth(y, 12)
    ensures DaysBeforeMonth(y, 12) == if IsLeapYear(y) then 366 else 365
  {
    MonthsOfYear(y);
    NextNewYear(y);
  }

  /** The month after (y, m): December wraps to January of the next year. */
  function NextMonth(y: int, m: int): (ym: (int, int))
    requires ValidMonth(m)
    ensures ValidMonth(ym.1)
  {
    if m == 11 then (y + 1, 0) else (y, m + 1)
  }

  /** The month before (y, m): January wraps to December of the previous year. */
  function PrevMonth(y: int, m: int): (ym: (int, int))
    requires ValidMonth(m)
    ensures ValidMonth(ym.1)
  {
    if m == 0 then (y - 1, 11) else (y, m - 1)
  }

  /** Going forward a month and back again, or back and forward, returns to the same month. */
  lemma PrevNextInverse(y: int, m: int)
    requires ValidMonth(m)
    ensures PrevMonth(NextMonth(y, m).0, NextMonth(y, m).1) == (y, m)
    ensures NextMonth(PrevMonth(y, m).0, PrevMonth(y, m).1) == (y, m)
  {
  }

  /** Days of one month are consecutive day numbers. */
  lemma DaysConsecutive(y: int, m: int, d: int)
    requires ValidMonth(m)
    ensures DayNumber(y, m, d + 1) == DayNumber(y, m, d) + 1
  {
  }

  /** The first day of the next month follows the last day of this one. */
  lemma NextMonthFollows(y: int, m: int)
    requires ValidMonth(m)
    ensures DayNumber(NextMonth(y, m).0, NextMonth(y, m).1, 1) == DayNumber(y, m, DaysInMonth(y, m)) + 1
  {
    if m == 11 {
      YearLength(y);
    }
  }
}
