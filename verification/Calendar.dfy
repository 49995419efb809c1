/**
 The proleptic Gregorian calendar that `datetime` counts in.  Days are numbered from
 0 for 0001-01-01, a Monday.
 */
module Calendar {

  datatype Date = Date(year: nat, month: nat, day: nat)

  predicate IsLeap(y: nat) {
    y % 4 == 0 && (y % 100 != 0 || y % 400 == 0)
  }

  function YearLength(y: nat): nat {
    if IsLeap(y) then 366 else 365
  }

  function MonthLength(y: nat, m: nat): nat {
    if m == 2 then (if IsLeap(y) then 29 else 28)
    else if m == 4 || m == 6 || m == 9 || m == 11 then 30
    else 31
  }

  predicate IsDate(d: Date) {
    d.year >= 1 && 1 <= d.month <= 12 && 1 <= d.day <= MonthLength(d.year, d.month)
  }

  function DaysBeforeYear(y: nat): nat {
    if y <= 1 then 0 else DaysBeforeYear(y - 1) + YearLength(y - 1)
  }

  function DaysBeforeMonth(y: nat, m: nat): nat {
    if m <= 1 then 0 else DaysBeforeMonth(y, m - 1) + MonthLength(y, m - 1)
  }

  function DayNumber(d: Date): nat
    requires IsDate(d)
  {
    DaysBeforeYear(d.year) + DaysBeforeMonth(d.year, d.month) + (d.day - 1)
  }

  lemma MonthsFillTheYear(y: nat)
    ensures DaysBeforeMonth(y, 12) + 31 == YearLength(y)
  {
    assert DaysBeforeMonth(y, 2) == 31;
    assert DaysBeforeMonth(y, 4) == DaysBeforeMonth(y, 2) + MonthLength(y, 2) + 31;
    assert DaysBeforeMonth(y, 6) == DaysBeforeMonth(y, 4) + 61;
    assert DaysBeforeMonth(y, 8) == DaysBeforeMonth(y, 6) + 61;
    assert DaysBeforeMonth(y, 10) == DaysBeforeMonth(y, 8) + 61;
    assert DaysBeforeMonth(y, 12) == DaysBeforeMonth(y, 10) + 61;
  }

  function DateInMonth(y: nat, m: nat, left: nat): Date
    requires 1 <= m <= 12 && DaysBeforeMonth(y, m) + left < YearLength(y)
    decreases 12 - m
  {
    MonthsFillTheYear(y);
    if left < MonthLength(y, m) then Date(y, m, left + 1)
    else DateInMonth(y, m + 1, left - MonthLength(y, m))
  }

  function DateFrom(y: nat, left: nat): Date
    decreases left
  {
    if left < YearLength(y) then DateInMonth(y, 1, left) else DateFrom(y + 1, left - YearLength(y))
  }

  /** The date of a day number. */
  function DateOf(n: nat): Date {
    DateFrom(1, n)
  }

  // ---------------------------------------------------------------- day numbers and dates correspond

  lemma {:induction false} DateInMonthIsRight(y: nat, m: nat, left: nat)
    requires y >= 1 && 1 <= m <= 12 && DaysBeforeMonth(y, m) + left < YearLength(y)
    ensures var d := DateInMonth(y, m, left);
            && IsDate(d) && d.year == y
            && DaysBeforeMonth(y, d.month) + (d.day - 1) == DaysBeforeMonth(y, m) + left
    decreases 12 - m
  {
    MonthsFillTheYear(y);
    if left >= MonthLength(y, m) {
      DateInMonthIsRight(y, m + 1, left - MonthLength(y, m));
    }
  }

  lemma {:induction false} DateFromIsRight(y: nat, left: nat)
    requires y >= 1
    ensures var d := DateFrom(y, left);
            IsDate(d) && DayNumber(d) == DaysBeforeYear(y) + left
    decreases left
  {
    if left < YearLength(y) {
      DateInMonthIsRight(y, 1, left);
    } else {
      DateFromIsRight(y + 1, left - YearLength(y));
    }
  }

  lemma DateOfIsRight(n: nat)
    ensures IsDate(DateOf(n)) && DayNumber(DateOf(n)) == n
  {
    DateFromIsRight(1, n);
  }

  lemma {:induction false} DaysBeforeYearGrows(a: nat, b: nat)
    requires 1 <= a < b
    ensures DaysBeforeYear(a) + YearLength(a) <= DaysBeforeYear(b)
    decreases b
  {
    if a < b - 1 {
      DaysBeforeYearGrows(a, b - 1);
    }
  }

  lemma {:induction false} DaysBeforeMonthGrows(y: nat, a: nat, b: nat)
    requires 1 <= a < b
    ensures DaysBeforeMonth(y, a) + MonthLength(y, a) <= DaysBeforeMonth(y, b)
    decreases b
  {
    if a < b - 1 {
      DaysBeforeMonthGrows(y, a, b - 1);
    }
  }

  lemma DateIsWithinItsYear(d: Date)
    requires IsDate(d)
    ensures DaysBeforeYear(d.year) <= DayNumber(d) < DaysBeforeYear(d.year + 1)
  {
    MonthsFillTheYear(d.year);
    if d.month < 12 {
      DaysBeforeMonthGrows(d.year, d.month, 12);
    }
  }

  /** Two dates with one day number are one date. */
  lemma DayNumberIsInjective(a: Date, b: Date)
    requires IsDate(a) && IsDate(b) && DayNumber(a) == DayNumber(b)
    ensures a == b
  {
    DateIsWithinItsYear(a);
    DateIsWithinItsYear(b);
    if a.year < b.year {
      DaysBeforeYearGrows(a.year, b.year);
    } else if b.year < a.year {
      DaysBeforeYearGrows(b.year, a.year);
    } else if a.month < b.month {
      DaysBeforeMonthGrows(a.year, a.month, b.month);
    } else if b.month < a.month {
      DaysBeforeMonthGrows(a.year, b.month, a.month);
    }
  }

  lemma DateOfDayNumber(d: Date)
    requires IsDate(d)
    ensures DateOf(DayNumber(d)) == d
  {
    DateOfIsRight(DayNumber(d));
    DayNumberIsInjective(DateOf(DayNumber(d)), d);
  }
}
