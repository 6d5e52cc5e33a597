/** The proleptic Gregorian calendar from 1 January of year 0, as far as a UTC timestamp needs it. */
module Calendar {
  import opened Arithmetic

  datatype Date = Date(year: nat, month: nat, day: nat)

  predicate Leap(y: nat) { y % 4 == 0 && (y % 100 != 0 || y % 400 == 0) }

  function YearLength(y: nat): nat { if Leap(y) then 366 else 365 }

  function MonthLength(y: nat, m: nat): nat {
    if m == 2 then if Leap(y) then 29 else 28
    else if m == 4 || m == 6 || m == 9 || m == 11 then 30
    else 31
  }

  predicate IsDate(d: Date) {
    1 <= d.month <= 12 && 1 <= d.day <= MonthLength(d.year, d.month)
  }

  function DaysBeforeYear(y: nat): nat { if y == 0 then 0 else DaysBeforeYear(y - 1) + YearLength(y - 1) }

  function DaysBeforeMonth(y: nat, m: nat): nat { if m <= 1 then 0 else DaysBeforeMonth(y, m - 1) + MonthLength(y, m - 1) }

  function DayNumber(d: Date): int { DaysBeforeYear(d.year) + DaysBeforeMonth(d.year, d.month) + d.day - 1 }

  /** Every fourth year is a leap year, except every hundredth, except every four-hundredth. */
  lemma {:induction false} DaysBeforeYearIs(y: nat)
    ensures DaysBeforeYear(y) == 365 * y + (y + 3) / 4 - (y + 99) / 100 + (y + 399) / 400
  {
    if y > 0 {
      DaysBeforeYearIs(y - 1);
      OneMoreYear(y - 1);
    }
  }

  lemma OneMoreYear(y: nat)
    ensures (y + 4) / 4 - (y + 3) / 4 == if y % 4 == 0 then 1 else 0
    ensures (y + 100) / 100 - (y + 99) / 100 == if y % 100 == 0 then 1 else 0
    ensures (y + 400) / 400 - (y + 399) / 400 == if y % 400 == 0 then 1 else 0
    ensures (y % 400 == 0 ==> y % 100 == 0) && (y % 100 == 0 ==> y % 4 == 0)
  {
    assert (y + 4) / 4 - (y + 3) / 4 == if y % 4 == 0 then 1 else 0 by { CountMultiples(y, 4); }
    assert (y + 100) / 100 - (y + 99) / 100 == if y % 100 == 0 then 1 else 0 by { CountMultiples(y, 100); }
    assert (y + 400) / 400 - (y + 399) / 400 == if y % 400 == 0 then 1 else 0 by { CountMultiples(y, 400); }
    Nested(y);
  }

  lemma Nested(y: nat)
    ensures (y % 400 == 0 ==> y % 100 == 0) && (y % 100 == 0 ==> y % 4 == 0)
  {
    if y % 400 == 0 { QuotientIs(y, 100, 4 * (y / 400), 0); }
    if y % 100 == 0 { QuotientIs(y, 4, 25 * (y / 100), 0); }
  }

  /** Going from y to y + 1 passes a multiple of q exactly when y is one. */
  lemma CountMultiples(y: nat, q: nat)
    requires q > 0
    ensures (y + q) / q - (y + q - 1) / q == if y % q == 0 then 1 else 0
  {
    var d, r := y / q, y % q;
    assert y == d * q + r && (d + 1) * q == d * q + q;
    QuotientIs(y + q, q, d + 1, r);
    if r == 0 { QuotientIs(y + q - 1, q, d, q - 1); } else { QuotientIs(y + q - 1, q, d + 1, r - 1); }
  }

  function YearFrom(n: nat, y: nat): (r: nat)
    requires DaysBeforeYear(y) <= n
    ensures r >= y && DaysBeforeYear(r) <= n < DaysBeforeYear(r + 1)
    decreases n - DaysBeforeYear(y)
  {
    if n < DaysBeforeYear(y + 1) then y else YearFrom(n, y + 1)
  }

  function YearOf(n: nat): nat { YearFrom(n, 0) }

  /** The days before each month, in the calendar's own numbers. */
  lemma TwelveMonths(y: nat)
    ensures var leap := if y % 4 == 0 && (y % 100 != 0 || y % 400 == 0) then 1 else 0;
      && DaysBeforeMonth(y, 1) == 0
      && DaysBeforeMonth(y, 2) == 31
      && DaysBeforeMonth(y, 3) == 59 + leap
      && DaysBeforeMonth(y, 4) == 90 + leap
      && DaysBeforeMonth(y, 5) == 120 + leap
      && DaysBeforeMonth(y, 6) == 151 + leap
      && DaysBeforeMonth(y, 7) == 181 + leap
      && DaysBeforeMonth(y, 8) == 212 + leap
      && DaysBeforeMonth(y, 9) == 243 + leap
      && DaysBeforeMonth(y, 10) == 273 + leap
      && DaysBeforeMonth(y, 11) == 304 + leap
      && DaysBeforeMonth(y, 12) == 334 + leap
      && DaysBeforeMonth(y, 13) == 365 + leap == YearLength(y)
  {
    assert DaysBeforeMonth(y, 4) == DaysBeforeMonth(y, 3) + MonthLength(y, 3);
    assert DaysBeforeMonth(y, 7) == DaysBeforeMonth(y, 6) + MonthLength(y, 6);
    assert DaysBeforeMonth(y, 10) == DaysBeforeMonth(y, 9) + MonthLength(y, 9);
  }

  function MonthFrom(y: nat, n: nat, m: nat): (r: nat)
    requires 1 <= m <= 12 && DaysBeforeMonth(y, m) <= n < YearLength(y)
    ensures m <= r <= 12 && DaysBeforeMonth(y, r) <= n < DaysBeforeMonth(y, r + 1)
    decreases 12 - m
  {
    TwelveMonths(y);
    if n < DaysBeforeMonth(y, m + 1) then m else MonthFrom(y, n, m + 1)
  }

  /** The date of day n, counted from 1 January of year 0. */
  function DateOf(n: nat): (d: Date)
    ensures IsDate(d) && DayNumber(d) == n
  {
    var y := YearOf(n);
    var yday := n - DaysBeforeYear(y);
    var m := MonthFrom(y, yday, 1);
    Date(y, m, yday - DaysBeforeMonth(y, m) + 1)
  }

  predicate DateLess(a: Date, b: Date) {
    a.year < b.year || (a.year == b.year && (a.month < b.month || (a.month == b.month && a.day < b.day)))
  }

  lemma {:induction false} YearsGrow(y: nat, z: nat)
    requires y < z
    ensures DaysBeforeYear(y) + YearLength(y) <= DaysBeforeYear(z)
  {
    if y + 1 < z { YearsGrow(y, z - 1); }
  }

  lemma {:induction false} MonthsGrow(y: nat, m: nat, n: nat)
    requires 1 <= m < n
    ensures DaysBeforeMonth(y, m) + MonthLength(y, m) <= DaysBeforeMonth(y, n)
  {
    if m + 1 < n { MonthsGrow(y, m, n - 1); }
  }

  lemma DayInYear(d: Date)
    requires IsDate(d)
    ensures DaysBeforeMonth(d.year, d.month) + d.day <= YearLength(d.year)
  {
    TwelveMonths(d.year);
    MonthsGrow(d.year, d.month, 13);
  }

  /** Dates in calendar order have growing day numbers. */
  lemma DatesGrow(a: Date, b: Date)
    requires IsDate(a) && IsDate(b) && DateLess(a, b)
    ensures DayNumber(a) < DayNumber(b)
  {
    if a.year < b.year {
      DayInYear(a);
      YearsGrow(a.year, b.year);
    } else if a.month < b.month {
      MonthsGrow(a.year, a.month, b.month);
    }
  }

  /** Conversely, day numbers order dates. */
  lemma DaysOrderDates(m: nat, n: nat)
    requires m < n
    ensures DateLess(DateOf(m), DateOf(n))
  {
    if DateLess(DateOf(n), DateOf(m)) { DatesGrow(DateOf(n), DateOf(m)); }
  }

  /** Every date is found again from its day number. */
  lemma DateOfDayNumber(d: Date)
    requires IsDate(d)
    ensures DayNumber(d) >= 0 && DateOf(DayNumber(d)) == d
  {
    var e := DateOf(DayNumber(d));
    if DateLess(d, e) { DatesGrow(d, e); }
    if DateLess(e, d) { DatesGrow(e, d); }
  }

  // ---------------------------------------------------------------- the Gregorian table

  /** Days before each month of a common year. */
  const BEFORE_MONTH: seq<nat> := [0, 31, 59, 90, 120, 151, 181, 212, 243, 273, 304, 334, 365]

  function Before(y: nat, m: nat): nat
    requires 1 <= m <= 13
  {
    BEFORE_MONTH[m - 1] + if m > 2 && y % 4 == 0 && (y % 100 != 0 || y % 400 == 0) then 1 else 0
  }

  /** Day n is d.m.y by the table: 365 days a year, a leap day in every fourth year but not every hundredth unless every four-hundredth. */
  predicate Tabled(n: int, y: nat, m: nat, d: nat) {
    && 1 <= m <= 12 && 1 <= d <= Before(y, m + 1) - Before(y, m)
    && n == 365 * y + (y + 3) / 4 - (y + 99) / 100 + (y + 399) / 400 + Before(y, m) + d - 1
  }

  lemma MonthsAreTabled(y: nat, m: nat)
    requires 1 <= m <= 12
    ensures DaysBeforeMonth(y, m) == Before(y, m) && MonthLength(y, m) == Before(y, m + 1) - Before(y, m)
  {
    TwelveMonths(y);
    MonthStep(y, m);
    assert m in {1, 2, 3, 4, 5, 6, 7, 8, 9, 10, 11, 12};
  }

  lemma MonthStep(y: nat, m: nat)
    requires m >= 1
    ensures DaysBeforeMonth(y, m + 1) == DaysBeforeMonth(y, m) + MonthLength(y, m)
  {
  }

  lemma DateIsTabled(e: Date)
    requires IsDate(e)
    ensures Tabled(DayNumber(e), e.year, e.month, e.day)
  {
    MonthsAreTabled(e.year, e.month);
    DaysBeforeYearIs(e.year);
  }

  lemma TabledIsDate(n: int, y: nat, m: nat, d: nat)
    requires Tabled(n, y, m, d)
    ensures IsDate(Date(y, m, d)) && DayNumber(Date(y, m, d)) == n
  {
    MonthsAreTabled(y, m);
    DaysBeforeYearIs(y);
  }

  /** The date of a day is the table's, and the only one. */
  lemma DateOfIsTabled(n: nat, y: nat, m: nat, d: nat)
    ensures DateOf(n) == Date(y, m, d) <==> Tabled(n, y, m, d)
  {
    DateIsTabled(DateOf(n));
    if Tabled(n, y, m, d) {
      TabledIsDate(n, y, m, d);
      DateOfDayNumber(Date(y, m, d));
    }
  }
}
