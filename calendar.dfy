/**
 * Proleptic Gregorian dates in the range Python's `datetime` supports
 * (0001/01/01 through 9999/12/31), the successor of a date, and the day
 * number (`toordinal`) that fixes what "one calendar day later" means.
 */
module Calendar {

  datatype Date = Date(year: int, month: int, day: int)

  const MIN_YEAR := 1
  const MAX_YEAR := 9999

  /** The last date `datetime` can represent; adding a day to it overflows. */
  const MAX_DATE := Date(MAX_YEAR, 12, 31)

  predicate IsLeapYear(y: int) { y % 4 == 0 && (y % 100 != 0 || y % 400 == 0) }

  function DaysInMonth(y: int, m: int): (n: int)
    requires 1 <= m <= 12
    ensures 28 <= n <= 31
    ensures n == 29 <==> m == 2 && IsLeapYear(y)
  {
    if m == 2 then (if IsLeapYear(y) then 29 else 28)
    else if m == 4 || m == 6 || m == 9 || m == 11 then 30
    else 31
  }

  predicate IsValid(d: Date)
  {
    MIN_YEAR <= d.year <= MAX_YEAR && 1 <= d.month <= 12 && 1 <= d.day <= DaysInMonth(d.year, d.month)
  }

  /** `date + timedelta(days=1)`: the next day, rolling over month and year ends. */
  function Successor(d: Date): (r: Date)
    requires IsValid(d) && d != MAX_DATE
    ensures IsValid(r)
  {
    if d.day < DaysInMonth(d.year, d.month) then Date(d.year, d.month, d.day + 1)
    else if d.month < 12 then Date(d.year, d.month + 1, 1)
    else Date(d.year + 1, 1, 1)
  }

  function YearLength(y: int): int { if IsLeapYear(y) then 366 else 365 }

  /** Days in the years before `y`, counted from year 1 (the closed form `datetime` uses). */
  function DaysBeforeYear(y: int): int
    requires y >= 1
  {
    var p := y - 1;
    p * 365 + p / 4 - p / 100 + p / 400
  }

  /** Days in the months of year `y` before month `m`. */
  function DaysBeforeMonth(y: int, m: int): nat
    requires 1 <= m <= 12
    decreases m
  {
    if m == 1 then 0 else DaysBeforeMonth(y, m - 1) + DaysInMonth(y, m - 1)
  }

  /** The day number of `d`, 0001/01/01 being day 1 (Python's `date.toordinal`). */
  function Ordinal(d: Date): int
    requires IsValid(d)
  {
    DaysBeforeYear(d.year) + DaysBeforeMonth(d.year, d.month) + d.day
  }

  /** Chronological order of dates, field by field. */
  predicate Before(a: Date, b: Date)
  {
    a.year < b.year || (a.year == b.year && (a.month < b.month || (a.month == b.month && a.day < b.day)))
  }

  lemma LeapDays(y: int)
    requires y >= 1
    ensures (y / 4 - (y - 1) / 4 == 1) == (y % 4 == 0)
    ensures (y / 100 - (y - 1) / 100 == 1) == (y % 100 == 0)
    ensures (y / 400 - (y - 1) / 400 == 1) == (y % 400 == 0)
    ensures 0 <= y / 4 - (y - 1) / 4 <= 1
    ensures 0 <= y / 100 - (y - 1) / 100 <= 1
    ensures 0 <= y / 400 - (y - 1) / 400 <= 1
  {
  }

  /** A year contributes exactly its length to the day count. */
  lemma DaysBeforeNextYear(y: int)
    requires y >= 1
    ensures DaysBeforeYear(y + 1) == DaysBeforeYear(y) + YearLength(y)
  {
    LeapDays(y);
  }

  lemma {:induction false} DaysBeforeYearMonotone(x: int, y: int)
    requires 1 <= x <= y
    ensures DaysBeforeYear(x) <= DaysBeforeYear(y)
    decreases y - x
  {
    if x < y {
      DaysBeforeNextYear(x);
      DaysBeforeYearMonotone(x + 1, y);
    }
  }

  /** The twelve months together make up the year. */
  lemma MonthsFillYear(y: int)
    ensures DaysBeforeMonth(y, 12) + 31 == YearLength(y)
  {
    assert DaysBeforeMonth(y, 3) == 31 + DaysInMonth(y, 2);
    assert DaysBeforeMonth(y, 6) == DaysBeforeMonth(y, 3) + 31 + 30 + 31;
    assert DaysBeforeMonth(y, 9) == DaysBeforeMonth(y, 6) + 30 + 31 + 31;
    assert DaysBeforeMonth(y, 12) == DaysBeforeMonth(y, 9) + 30 + 31 + 30;
  }

  lemma {:induction false} DaysBeforeMonthMonotone(y: int, m1: int, m2: int)
    requires 1 <= m1 < m2 <= 12
    ensures DaysBeforeMonth(y, m1) + DaysInMonth(y, m1) <= DaysBeforeMonth(y, m2)
    decreases m2 - m1
  {
    if m1 + 1 < m2 {
      DaysBeforeMonthMonotone(y, m1 + 1, m2);
    }
  }

  /** A date's day number lies within its own year. */
  lemma OrdinalWithinYear(d: Date)
    requires IsValid(d)
    ensures DaysBeforeYear(d.year) < Ordinal(d) <= DaysBeforeYear(d.year + 1)
  {
    DaysBeforeNextYear(d.year);
    MonthsFillYear(d.year);
    if d.month < 12 {
      DaysBeforeMonthMonotone(d.year, d.month, 12);
    }
  }

  /** The successor is exactly one day later. */
  lemma SuccessorIsNextDay(d: Date)
    requires IsValid(d) && d != MAX_DATE
    ensures Ordinal(Successor(d)) == Ordinal(d) + 1
  {
    if d.day == DaysInMonth(d.year, d.month) && d.month == 12 {
      DaysBeforeNextYear(d.year);
      MonthsFillYear(d.year);
    }
  }

  /** Field order is day-number order. */
  lemma OrdinalOrder(a: Date, b: Date)
    requires IsValid(a) && IsValid(b)
    ensures Before(a, b) <==> Ordinal(a) < Ordinal(b)
    ensures a == b <==> Ordinal(a) == Ordinal(b)
  {
    if Before(a, b) {
      OrdinalBefore(a, b);
    } else if Before(b, a) {
      OrdinalBefore(b, a);
    } else {
      assert a == b;
    }
  }

  lemma OrdinalBefore(a: Date, b: Date)
    requires IsValid(a) && IsValid(b) && Before(a, b)
    ensures Ordinal(a) < Ordinal(b)
  {
    if a.year < b.year {
      OrdinalWithinYear(a);
      OrdinalWithinYear(b);
      DaysBeforeYearMonotone(a.year + 1, b.year);
    } else if a.month < b.month {
      DaysBeforeMonthMonotone(a.year, a.month, b.month);
    }
  }

  /** Every valid date is on or before the last one, and only the last one has its day number. */
  lemma OrdinalAtMostMax(d: Date)
    requires IsValid(d)
    ensures 1 <= Ordinal(d) <= Ordinal(MAX_DATE)
    ensures Ordinal(d) == Ordinal(MAX_DATE) <==> d == MAX_DATE
  {
    OrdinalOrder(d, MAX_DATE);
    OrdinalWithinYear(d);
    DaysBeforeYearMonotone(1, d.year);
  }

  /** No valid date lies between a date and its successor. */
  lemma SuccessorUnique(d: Date, e: Date)
    requires IsValid(d) && d != MAX_DATE && IsValid(e)
    requires Ordinal(e) == Ordinal(d) + 1
    ensures e == Successor(d)
  {
    SuccessorIsNextDay(d);
    OrdinalOrder(e, Successor(d));
  }
}
