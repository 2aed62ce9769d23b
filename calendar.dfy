/** Proleptic Gregorian calendar dates as Python's `datetime` handles them:
    validity, the comparison `<=`, the day of the year (`tm_yday`), the
    day count from 0001-01-01 (`toordinal`) and the step `+ timedelta(days=1)`,
    which fails past the last representable date. */
module Calendar {
  import opened Wrappers

  const MinYear := 1
  const MaxYear := 9999

  datatype Date = Date(year: int, month: int, day: int)

  predicate IsLeapYear(y: int) {
    y % 4 == 0 && (y % 100 != 0 || y % 400 == 0)
  }

  function DaysInMonth(y: int, m: int): (n: int)
    requires 1 <= m <= 12
    ensures 28 <= n <= 31
  {
    if m == 2 then (if IsLeapYear(y) then 29 else 28)
    else if m == 4 || m == 6 || m == 9 || m == 11 then 30
    else 31
  }

  function DaysInYear(y: int): int {
    if IsLeapYear(y) then 366 else 365
  }

  predicate IsValid(d: Date) {
    MinYear <= d.year <= MaxYear && 1 <= d.month <= 12 && 1 <= d.day <= DaysInMonth(d.year, d.month)
  }

  type ValidDate = d: Date | IsValid(d) witness Date(1, 1, 1)

  /** December 31 of the last representable year. */
  const LastDate: ValidDate := Date(MaxYear, 12, 31)

  /** Python's `a <= b` on two dates: year, then month, then day. */
  predicate OnOrBefore(a: Date, b: Date) {
    a.year < b.year || (a.year == b.year && (a.month < b.month || (a.month == b.month && a.day <= b.day)))
  }

  /** Days of the months before month `m` of year `y`. */
  function DaysBeforeMonth(y: int, m: int): int
    requires 1 <= m <= 12
  {
    var common :=
      match m
      case 1 => 0 case 2 => 31 case 3 => 59 case 4 => 90 case 5 => 120 case 6 => 151
      case 7 => 181 case 8 => 212 case 9 => 243 case 10 => 273 case 11 => 304 case _ => 334;
    common + if m > 2 && IsLeapYear(y) then 1 else 0
  }

  /** `timetuple().tm_yday`: the 1-based day of the year. */
  function DayOfYear(d: ValidDate): (doy: int)
    ensures 1 <= doy <= DaysInYear(d.year)
  {
    DaysBeforeMonth(d.year, d.month) + d.day
  }

  /** Days of the years before year `y`, counted from year 1. */
  function DaysBeforeYear(y: int): int
    requires y >= MinYear
  {
    if y == MinYear then 0 else DaysBeforeYear(y - 1) + DaysInYear(y - 1)
  }

  /** `toordinal()`: 0001-01-01 is day 1. */
  function Ordinal(d: ValidDate): int {
    DaysBeforeYear(d.year) + DayOfYear(d)
  }

  /** `d + timedelta(days=1)`, or None where Python raises OverflowError. */
  function Successor(d: ValidDate): (r: Option<ValidDate>)
    ensures r.None? <==> d == LastDate
  {
    if d.day < DaysInMonth(d.year, d.month) then Some(Date(d.year, d.month, d.day + 1))
    else if d.month < 12 then Some(Date(d.year, d.month + 1, 1))
    else if d.year < MaxYear then Some(Date(d.year + 1, 1, 1))
    else None
  }

  lemma DaysBeforeNextMonth(y: int, m: int)
    requires 1 <= m < 12
    ensures DaysBeforeMonth(y, m + 1) == DaysBeforeMonth(y, m) + DaysInMonth(y, m)
  {
  }

  /** The successor is the date one day later. */
  lemma SuccessorOrdinal(d: ValidDate)
    requires Successor(d).Some?
    ensures Ordinal(Successor(d).value) == Ordinal(d) + 1
  {
    var y, m := d.year, d.month;
    if d.day < DaysInMonth(y, m) {
      assert Successor(d).value == Date(y, m, d.day + 1);
    } else if m < 12 {
      assert Successor(d).value == Date(y, m + 1, 1);
      DaysBeforeNextMonth(y, m);
    } else {
      var next := Successor(d).value;
      assert next == Date(y + 1, 1, 1);
      assert DayOfYear(d) == DaysInYear(y);
      assert DaysBeforeYear(next.year) == DaysBeforeYear(y) + DaysInYear(y);
    }
  }

  /** Every year lies wholly before every later year. */
  lemma {:induction false} YearsInOrder(y1: int, y2: int)
    requires MinYear <= y1 < y2
    ensures DaysBeforeYear(y1) + DaysInYear(y1) <= DaysBeforeYear(y2)
  {
    if y1 < y2 - 1 {
      YearsInOrder(y1, y2 - 1);
    }
  }

  /** Every month lies wholly before every later month of the same year. */
  lemma {:induction false} MonthsInOrder(y: int, m1: int, m2: int)
    requires 1 <= m1 < m2 <= 12
    ensures DaysBeforeMonth(y, m1) + DaysInMonth(y, m1) <= DaysBeforeMonth(y, m2)
    decreases m2 - m1
  {
    DaysBeforeNextMonth(y, m1);
    if m1 + 1 < m2 {
      MonthsInOrder(y, m1 + 1, m2);
    }
  }

  lemma StrictlyBeforeOrdinal(a: ValidDate, b: ValidDate)
    requires OnOrBefore(a, b) && a != b
    ensures Ordinal(a) < Ordinal(b)
  {
    if a.year < b.year {
      YearsInOrder(a.year, b.year);
    } else if a.month < b.month {
      MonthsInOrder(a.year, a.month, b.month);
    }
  }

  /** Comparing two dates is comparing their day counts. */
  lemma OrderByOrdinal(a: ValidDate, b: ValidDate)
    ensures OnOrBefore(a, b) <==> Ordinal(a) <= Ordinal(b)
    ensures a == b <==> Ordinal(a) == Ordinal(b)
  {
    if a != b {
      if OnOrBefore(a, b) {
        StrictlyBeforeOrdinal(a, b);
      } else {
        StrictlyBeforeOrdinal(b, a);
      }
    }
  }

  /** Within one year, comparing two dates is comparing their days of the year. */
  lemma OrderByDayOfYear(a: ValidDate, b: ValidDate)
    requires a.year == b.year
    ensures OnOrBefore(a, b) <==> DayOfYear(a) <= DayOfYear(b)
    ensures a == b <==> DayOfYear(a) == DayOfYear(b)
  {
    OrderByOrdinal(a, b);
  }

  /** No valid date comes after the last one. */
  lemma LastDateIsLast(d: ValidDate)
    ensures OnOrBefore(d, LastDate)
  {
  }
}
