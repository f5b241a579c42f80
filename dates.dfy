/** Calendar dates as PostgreSQL's `date` type treats them: proleptic
    Gregorian, astronomical year numbering, compared day by day.

    `AddMonths` is `date + make_interval(months => n)` followed by the cast
    back to `date`: the month counter moves by `n`, the day of month is kept,
    and it is clamped to the last day of the target month. */
module Dates {

  datatype CivilDate = CivilDate(year: int, month: int, day: int)

  predicate IsLeapYear(y: int) {
    y % 4 == 0 && (y % 100 != 0 || y % 400 == 0)
  }

  function DaysInMonth(y: int, m: int): (n: int)
    requires 1 <= m <= 12
    ensures 28 <= n <= 31
    ensures n == 29 <==> m == 2 && IsLeapYear(y)
  {
    if m == 2 then (if IsLeapYear(y) then 29 else 28)
    else if m == 4 || m == 6 || m == 9 || m == 11 then 30
    else 31
  }

  predicate IsValid(d: CivilDate) {
    1 <= d.month <= 12 && 1 <= d.day <= DaysInMonth(d.year, d.month)
  }

  /** A value of SQL type `date`. */
  type Date = d: CivilDate | IsValid(d) witness CivilDate(2000, 1, 1)

  /** The order of dates: earlier year, then earlier month, then earlier day. */
  predicate Before(a: Date, b: Date) {
    a.year < b.year
    || (a.year == b.year && a.month < b.month)
    || (a.year == b.year && a.month == b.month && a.day < b.day)
  }

  /** `a <= b` on dates. */
  predicate NotAfter(a: Date, b: Date) {
    a == b || Before(a, b)
  }

  lemma NotAfterTotal(a: Date, b: Date)
    ensures NotAfter(a, b) || NotAfter(b, a)
    ensures NotAfter(a, b) && NotAfter(b, a) ==> a == b
    ensures NotAfter(a, b) <==> !Before(b, a)
  {
  }

  /** Months elapsed since month 1 of year 0. */
  function MonthIndex(d: Date): int {
    d.year * 12 + d.month - 1
  }

  /** `(d + make_interval(months => n))::date`. */
  function AddMonths(d: Date, n: int): (r: Date)
    ensures MonthIndex(r) == MonthIndex(d) + n
    ensures r.day <= d.day
    ensures d.day <= DaysInMonth(r.year, r.month) ==> r.day == d.day
    ensures d.day > DaysInMonth(r.year, r.month) ==> r.day == DaysInMonth(r.year, r.month)
  {
    var k := MonthIndex(d) + n;
    var y := k / 12;
    var m := k % 12 + 1;
    var last := DaysInMonth(y, m);
    CivilDate(y, m, if d.day <= last then d.day else last)
  }

  /** A later month index means a later date, whatever the days are. */
  lemma MonthIndexOrder(a: Date, b: Date)
    requires MonthIndex(a) < MonthIndex(b)
    ensures Before(a, b)
  {
  }

  /** Adding at least one month moves strictly forward: this is what makes
      `next_due_date >= check_date` hold for every positive interval. */
  lemma AddMonthsIsLater(d: Date, n: int)
    requires n >= 1
    ensures Before(d, AddMonths(d, n))
  {
    MonthIndexOrder(d, AddMonths(d, n));
  }

  lemma AddMonthsZero(d: Date)
    ensures AddMonths(d, 0) == d
  {
  }

  /** More months give a strictly later date. */
  lemma AddMonthsStrictlyMonotone(d: Date, n1: int, n2: int)
    requires n1 < n2
    ensures Before(AddMonths(d, n1), AddMonths(d, n2))
  {
    MonthIndexOrder(AddMonths(d, n1), AddMonths(d, n2));
  }

  /** The date after `n` months is determined by its month and the day it keeps. */
  lemma MonthIndexDetermines(a: Date, b: Date)
    requires MonthIndex(a) == MonthIndex(b) && a.day == b.day
    ensures a == b
  {
  }

  /** Without clamping, month addition composes and is undone by subtracting. */
  lemma AddMonthsCompose(d: Date, n1: int, n2: int)
    requires d.day <= 28
    ensures AddMonths(AddMonths(d, n1), n2) == AddMonths(d, n1 + n2)
  {
    MonthIndexDetermines(AddMonths(AddMonths(d, n1), n2), AddMonths(d, n1 + n2));
  }

  lemma AddMonthsRoundTrip(d: Date, n: int)
    requires d.day <= 28
    ensures AddMonths(AddMonths(d, n), -n) == d
  {
    AddMonthsCompose(d, n, -n);
    AddMonthsZero(d);
  }

  /** Clamping makes month addition path dependent: one month twice from
      January 31 lands on March 28, two months at once on March 31. */
  lemma ClampingIsPathDependent()
    ensures AddMonths(AddMonths(CivilDate(2025, 1, 31), 1), 1) == CivilDate(2025, 3, 28)
    ensures AddMonths(CivilDate(2025, 1, 31), 2) == CivilDate(2025, 3, 31)
  {
  }

  // ----- Day numbers: the integer PostgreSQL stores for a date -----

  function DaysInYear(y: int): int {
    if IsLeapYear(y) then 366 else 365
  }

  /** Days from 0001-01-01 to January 1 of year `y` (negative before year 1). */
  function DaysBeforeYear(y: int): int {
    365 * (y - 1) + (y - 1) / 4 - (y - 1) / 100 + (y - 1) / 400
  }

  /** Days of year `y` that precede month `m`; month 13 stands for the year's end. */
  function DaysBeforeMonth(y: int, m: int): int
    requires 1 <= m <= 13
  {
    var common := [0, 31, 59, 90, 120, 151, 181, 212, 243, 273, 304, 334, 365][m - 1];
    if m > 2 && IsLeapYear(y) then common + 1 else common
  }

  /** The day count of a date; 0001-01-01 is day 0. */
  function DayNumber(d: Date): int {
    DaysBeforeYear(d.year) + DaysBeforeMonth(d.year, d.month) + d.day - 1
  }

  /** `b - a` for two dates: the number of days from `a` to `b`. */
  function DaysBetween(a: Date, b: Date): int {
    DayNumber(b) - DayNumber(a)
  }

  lemma DivStep(y: int)
    ensures y / 4 - (y - 1) / 4 == if y % 4 == 0 then 1 else 0
    ensures y / 100 - (y - 1) / 100 == if y % 100 == 0 then 1 else 0
    ensures y / 400 - (y - 1) / 400 == if y % 400 == 0 then 1 else 0
  {
  }

  lemma YearLength(y: int)
    ensures DaysBeforeYear(y + 1) == DaysBeforeYear(y) + DaysInYear(y)
  {
    DivStep(y);
    if y % 100 == 0 {
      assert y == 4 * (25 * (y / 100));
    }
    if y % 400 == 0 {
      assert y == 100 * (4 * (y / 400));
    }
  }

  lemma MonthLength(y: int, m: int)
    requires 1 <= m <= 12
    ensures DaysBeforeMonth(y, m + 1) == DaysBeforeMonth(y, m) + DaysInMonth(y, m)
  {
  }

  /** Every day of year `y1` comes before the first day of any later year. */
  lemma {:induction false} YearsAscend(y1: int, y2: int)
    requires y1 < y2
    ensures DaysBeforeYear(y1) + DaysInYear(y1) <= DaysBeforeYear(y2)
    decreases y2 - y1
  {
    YearLength(y1);
    if y1 + 1 < y2 {
      YearsAscend(y1 + 1, y2);
    }
  }

  lemma DayWithinYear(d: Date)
    ensures 0 <= DaysBeforeMonth(d.year, d.month) + d.day - 1 < DaysInYear(d.year)
  {
    MonthLength(d.year, d.month);
  }

  lemma {:induction false} MonthsAscend(y: int, m1: int, m2: int)
    requires 1 <= m1 < m2 <= 13
    ensures DaysBeforeMonth(y, m1) + DaysInMonth(y, m1) <= DaysBeforeMonth(y, m2)
  {
    MonthLength(y, m1);
  }

  /** The lexicographic order of dates is the order of their day numbers,
      so comparing dates and subtracting them agree. */
  lemma DayNumberOrder(a: Date, b: Date)
    ensures Before(a, b) <==> DayNumber(a) < DayNumber(b)
  {
    if Before(a, b) {
      BeforeHasSmallerDayNumber(a, b);
    } else if a != b {
      BeforeHasSmallerDayNumber(b, a);
    }
  }

  lemma BeforeHasSmallerDayNumber(a: Date, b: Date)
    requires Before(a, b)
    ensures DayNumber(a) < DayNumber(b)
  {
    if a.year < b.year {
      DayWithinYear(a);
      YearsAscend(a.year, b.year);
      DayWithinYear(b);
    } else if a.month < b.month {
      MonthsAscend(a.year, a.month, b.month);
    }
  }

  lemma DayNumberInjective(a: Date, b: Date)
    requires DayNumber(a) == DayNumber(b)
    ensures a == b
  {
    DayNumberOrder(a, b);
    DayNumberOrder(b, a);
  }

  // ----- Maximum and minimum of a set of dates (SQL max() and min()) -----

  lemma {:induction false} LatestExists(s: set<Date>)
    requires s != {}
    ensures exists r :: r in s && forall d :: d in s ==> NotAfter(d, r)
  {
    var x :| x in s;
    if s != {x} {
      LatestExists(s - {x});
      var m :| m in s - {x} && forall d :: d in s - {x} ==> NotAfter(d, m);
      if Before(m, x) {
        forall d | d in s ensures NotAfter(d, x) {
          if d != x { assert d in s - {x}; }
        }
      } else {
        forall d | d in s ensures NotAfter(d, m) {
          if d != x { assert d in s - {x}; }
        }
      }
    } else {
      assert forall d :: d in s ==> NotAfter(d, x);
    }
  }

  lemma {:induction false} EarliestExists(s: set<Date>)
    requires s != {}
    ensures exists r :: r in s && forall d :: d in s ==> NotAfter(r, d)
  {
    var x :| x in s;
    if s != {x} {
      EarliestExists(s - {x});
      var m :| m in s - {x} && forall d :: d in s - {x} ==> NotAfter(m, d);
      if Before(x, m) {
        forall d | d in s ensures NotAfter(x, d) {
          if d != x { assert d in s - {x}; }
        }
      } else {
        forall d | d in s ensures NotAfter(m, d) {
          if d != x { assert d in s - {x}; }
        }
      }
    } else {
      assert forall d :: d in s ==> NotAfter(x, d);
    }
  }

  /** `max(...)` over a non-empty set of dates. */
  function Latest(s: set<Date>): (r: Date)
    requires s != {}
    ensures r in s && forall d :: d in s ==> NotAfter(d, r)
  {
    LatestExists(s);
    var r :| r in s && forall d :: d in s ==> NotAfter(d, r);
    r
  }

  /** `min(...)` over a non-empty set of dates. */
  function Earliest(s: set<Date>): (r: Date)
    requires s != {}
    ensures r in s && forall d :: d in s ==> NotAfter(r, d)
  {
    EarliestExists(s);
    var r :| r in s && forall d :: d in s ==> NotAfter(r, d);
    r
  }
}
