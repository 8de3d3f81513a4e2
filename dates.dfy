/**
 Calendar dates and the month arithmetic used to page the class calendar
 (`add_months` in coderdojochi/views.py).

 The source is Python 2 code: `/` on two integers is floor division and `%`
 takes the sign of the divisor. Both divisors used here are positive
 constants, and for a positive divisor Dafny's Euclidean `/` and `%` agree
 with floor division; `FloorDivision` states this once.
 */
module Dates {
  import opened Wrappers

  /** The years a Python `date` can hold (`datetime.MINYEAR`, `datetime.MAXYEAR`). */
  const MinYear := 1
  const MaxYear := 9999

  datatype Date = Date(year: int, month: int, day: int)

  /** The Gregorian leap-year rule of `calendar.isleap`. */
  predicate IsLeapYear(year: int) {
    year % 4 == 0 && (year % 100 != 0 || year % 400 == 0)
  }

  /** The second component of `calendar.monthrange(year, month)`. */
  function DaysInMonth(year: int, month: int): (n: int)
    requires 1 <= month <= 12
    ensures 28 <= n <= 31
    ensures n == 29 <==> month == 2 && IsLeapYear(year)
    ensures n == 28 <==> month == 2 && !IsLeapYear(year)
    ensures n == 30 <==> month in {4, 6, 9, 11}
  {
    if month == 2 then (if IsLeapYear(year) then 29 else 28)
    else if month in {4, 6, 9, 11} then 30
    else 31
  }

  /** The days of the months of `year` before `month`. */
  function DaysBeforeMonth(year: int, month: int): (n: int)
    requires 1 <= month <= 13
    ensures n >= 0
    decreases month
  {
    if month == 1 then 0 else DaysBeforeMonth(year, month - 1) + DaysInMonth(year, month - 1)
  }

  /** The month lengths add up to the Gregorian year: 366 days exactly in a leap year, else 365. */
  lemma YearLength(year: int)
    ensures DaysBeforeMonth(year, 13) == if IsLeapYear(year) then 366 else 365
  {
  }

  /** A date that Python's `date(year, month, day)` accepts. */
  predicate ValidDate(d: Date) {
    && MinYear <= d.year <= MaxYear
    && 1 <= d.month <= 12
    && 1 <= d.day <= DaysInMonth(d.year, d.month)
  }

  /** The number of whole months from the start of year 0 to the month of `d`. */
  function MonthIndex(d: Date): int {
    d.year * 12 + (d.month - 1)
  }

  function Min(a: int, b: int): int {
    if a <= b then a else b
  }

  /** Floor division by a positive divisor: quotient and remainder as Python 2 computes them. */
  lemma FloorDivision(m: int, k: int)
    requires k > 0
    ensures m == k * (m / k) + m % k
    ensures 0 <= m % k < k
    ensures k * (m / k) <= m < k * (m / k) + k
  {
  }

  /**
   `add_months(sourcedate, months)`: shift the month by `months`, carrying or
   borrowing whole years, and clamp the day to the length of the target month.
   `date()` and `calendar.monthrange` raise for a year outside
   MinYear..MaxYear; that error is `None`.
   */
  function AddMonths(source: Date, months: int): (r: Option<Date>)
    requires ValidDate(source)
    ensures r.Some? <==> MinYear * 12 <= MonthIndex(source) + months < (MaxYear + 1) * 12
    ensures r.Some? ==> ValidDate(r.value)
    ensures r.Some? ==> MonthIndex(r.value) == MonthIndex(source) + months
    ensures r.Some? ==> r.value.day == Min(source.day, DaysInMonth(r.value.year, r.value.month))
  {
    var month := source.month - 1 + months;
    var year := source.year + month / 12;
    var month' := month % 12 + 1;
    FloorDivision(month, 12);
    if year < MinYear || year > MaxYear then None
    else Some(Date(year, month', Min(source.day, DaysInMonth(year, month'))))
  }

  /** A month index splits back into its year and month, by floor division. */
  lemma MonthIndexParts(d: Date)
    requires 1 <= d.month <= 12
    ensures MonthIndex(d) / 12 == d.year && MonthIndex(d) % 12 == d.month - 1
  {
  }

  /** A month index names exactly one (year, month) pair. */
  lemma MonthIndexInjective(a: Date, b: Date)
    requires 1 <= a.month <= 12 && 1 <= b.month <= 12
    requires MonthIndex(a) == MonthIndex(b)
    ensures a.year == b.year && a.month == b.month
  {
    MonthIndexParts(a);
    MonthIndexParts(b);
  }

  /**
   Moving forward by `n` months and back by `n` months gives the original date,
   unless the day was clamped on the way out.
   */
  lemma AddMonthsRoundTrip(d: Date, n: int)
    requires ValidDate(d)
    requires AddMonths(d, n).Some?
    requires d.day <= DaysInMonth(AddMonths(d, n).value.year, AddMonths(d, n).value.month)
    ensures AddMonths(AddMonths(d, n).value, -n) == Some(d)
  {
    var there := AddMonths(d, n).value;
    var back := AddMonths(there, -n);
    assert back.Some?;
    MonthIndexInjective(back.value, d);
  }

  /**
   Two shifts compose into one when no clamping happens: every month has at
   least 28 days.
   */
  lemma AddMonthsCompose(d: Date, a: int, b: int)
    requires ValidDate(d) && d.day <= 28
    requires AddMonths(d, a).Some?
    ensures AddMonths(AddMonths(d, a).value, b) == AddMonths(d, a + b)
  {
    var mid := AddMonths(d, a).value;
    var two := AddMonths(mid, b);
    var one := AddMonths(d, a + b);
    assert two.Some? <==> one.Some?;
    if two.Some? {
      MonthIndexInjective(two.value, one.value);
    }
  }

  /** The calendar's previous/next links from the first of a month never clamp. */
  lemma FirstOfMonthNeighbours(d: Date, n: int)
    requires ValidDate(d) && d.day == 1
    requires AddMonths(d, n).Some?
    ensures AddMonths(d, n).value.day == 1
  {
  }

  /** January 31st moves to the last day of February, 29 in a leap year. */
  lemma ClampToLeapFebruary()
    ensures AddMonths(Date(2024, 1, 31), 1) == Some(Date(2024, 2, 29))
    ensures AddMonths(Date(2023, 1, 31), 1) == Some(Date(2023, 2, 28))
    ensures AddMonths(Date(1900, 3, 31), -1) == Some(Date(1900, 2, 28))
    ensures AddMonths(Date(2000, 3, 30), -1) == Some(Date(2000, 2, 29))
  {
  }

  /** A negative shift borrows a year; leaving year 1 is an error. */
  lemma BorrowAndRange()
    ensures AddMonths(Date(2024, 1, 1), -1) == Some(Date(2023, 12, 1))
    ensures AddMonths(Date(2024, 12, 1), 1) == Some(Date(2025, 1, 1))
    ensures AddMonths(Date(1, 1, 1), -1) == None
    ensures AddMonths(Date(9999, 12, 1), 1) == None
  {
  }
}
