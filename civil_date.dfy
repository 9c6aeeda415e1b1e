/** Proleptic Gregorian calendar dates and their day numbers, counted from
    1970-01-01 (day 0), the epoch of ECMAScript time values. `FromDayNumber`
    is what a `Date` does to find year, month and day from a time value;
    `DayNumber` is its inverse, and `PrevDay` steps back one calendar day
    across month ends, year ends and leap days. */
module CivilDate {

  datatype Date = Date(year: int, month: int, day: int)

  predicate IsLeapYear(y: int) {
    y % 4 == 0 && (y % 100 != 0 || y % 400 == 0)
  }

  function DaysInYear(y: int): int {
    if IsLeapYear(y) then 366 else 365
  }

  function DaysInMonth(y: int, m: int): int
    requires 1 <= m <= 12
  {
    if m == 2 then (if IsLeapYear(y) then 29 else 28)
    else if m == 4 || m == 6 || m == 9 || m == 11 then 30
    else 31
  }

  predicate Valid(d: Date) {
    1 <= d.month <= 12 && 1 <= d.day <= DaysInMonth(d.year, d.month)
  }

  /** Days in the months of year `y` before month `m`. */
  function DaysBeforeMonth(y: int, m: int): (r: int)
    requires 1 <= m <= 12
    ensures m == 1 ==> r == 0
    ensures m == 12 ==> r + DaysInMonth(y, m) == DaysInYear(y)
  {
    var leap := if m > 2 && IsLeapYear(y) then 1 else 0;
    leap + (if m == 1 then 0 else if m == 2 then 31 else if m == 3 then 59
            else if m == 4 then 90 else if m == 5 then 120 else if m == 6 then 151
            else if m == 7 then 181 else if m == 8 then 212 else if m == 9 then 243
            else if m == 10 then 273 else if m == 11 then 304 else 334)
  }

  lemma MonthStep(y: int, m: int)
    requires 1 <= m < 12
    ensures DaysBeforeMonth(y, m + 1) == DaysBeforeMonth(y, m) + DaysInMonth(y, m)
  {
  }

  /** Leap years among the years before `y`, up to a constant. */
  function LeapsBefore(y: int): int {
    (y - 1) / 4 - (y - 1) / 100 + (y - 1) / 400
  }

  /** Day number of January 1st of year `y`. */
  function YearStart(y: int): int {
    365 * (y - 1970) + LeapsBefore(y) - LeapsBefore(1970)
  }

  /** Stepping from `y - 1` to `y` passes one multiple of `k` exactly when
      `y` is one. */
  lemma MultipleStep(y: int, k: int)
    requires k == 4 || k == 100 || k == 400
    ensures y / k - (y - 1) / k == if y % k == 0 then 1 else 0
  {
    if k == 4 {
      assert y / 4 - (y - 1) / 4 == if y % 4 == 0 then 1 else 0;
    } else if k == 100 {
      assert y / 100 - (y - 1) / 100 == if y % 100 == 0 then 1 else 0;
    } else {
      assert y / 400 - (y - 1) / 400 == if y % 400 == 0 then 1 else 0;
    }
  }

  lemma YearStartStep(y: int)
    ensures YearStart(y + 1) == YearStart(y) + DaysInYear(y)
  {
    MultipleStep(y, 4);
    MultipleStep(y, 100);
    MultipleStep(y, 400);
  }

  lemma {:induction false} YearStartMonotonic(a: int, b: int)
    requires a <= b
    ensures YearStart(a) + (b - a) * 365 <= YearStart(b)
    decreases b - a
  {
    if a < b {
      YearStartMonotonic(a, b - 1);
      YearStartStep(b - 1);
    }
  }

  /** Finds the year holding the day `n` days after January 1st of year `y`
      (before it when `n` is negative) and the day's offset within that year. */
  function Locate(n: int, y: int): (r: (int, int))
    ensures 0 <= r.1 < DaysInYear(r.0)
    ensures YearStart(r.0) + r.1 == YearStart(y) + n
    decreases if n < 0 then 1 else 0, if n < 0 then -n else n
  {
    if n < 0 then
      YearStartStep(y - 1);
      Locate(n + DaysInYear(y - 1), y - 1)
    else if n < DaysInYear(y) then
      (y, n)
    else
      YearStartStep(y);
      Locate(n - DaysInYear(y), y + 1)
  }

  /** The month holding day `doy` (0-based) of year `y`, searching down from `m`. */
  function MonthOf(y: int, doy: int, m: int): (r: int)
    requires 1 <= m <= 12 && 0 <= doy < DaysBeforeMonth(y, m) + DaysInMonth(y, m)
    ensures 1 <= r <= m
    ensures DaysBeforeMonth(y, r) <= doy < DaysBeforeMonth(y, r) + DaysInMonth(y, r)
  {
    if m == 1 || DaysBeforeMonth(y, m) <= doy then m
    else MonthStep(y, m - 1); MonthOf(y, doy, m - 1)
  }

  /** The day number of a calendar date. */
  function DayNumber(d: Date): int
    requires Valid(d)
  {
    YearStart(d.year) + DaysBeforeMonth(d.year, d.month) + d.day - 1
  }

  /** The calendar date of day number `n`: a valid date whose day number is
      `n` again. */
  function FromDayNumber(n: int): (d: Date)
    ensures Valid(d)
    ensures DayNumber(d) == n
  {
    var (y, doy) := Locate(n, 1970);
    var m := MonthOf(y, doy, 12);
    assert YearStart(1970) == 0;
    Date(y, m, doy - DaysBeforeMonth(y, m) + 1)
  }

  /** The calendar day before `d`. */
  function PrevDay(d: Date): (p: Date)
    requires Valid(d)
    ensures Valid(p)
  {
    if d.day > 1 then Date(d.year, d.month, d.day - 1)
    else if d.month > 1 then Date(d.year, d.month - 1, DaysInMonth(d.year, d.month - 1))
    else Date(d.year - 1, 12, 31)
  }

  /** Every day of year `a` comes before the first day of a later year `b`. */
  lemma YearsDisjoint(a: int, b: int)
    requires a < b
    ensures YearStart(a) + DaysInYear(a) <= YearStart(b)
  {
    YearStartMonotonic(a + 1, b);
    YearStartStep(a);
  }

  /** Distinct years start at distinct day numbers, so the year and day offset
      `Locate` finds are the only ones that fit. */
  lemma LocateUnique(n: int, y: int, doy: int)
    requires 0 <= doy < DaysInYear(y)
    requires YearStart(y) + doy == YearStart(1970) + n
    ensures Locate(n, 1970) == (y, doy)
  {
    var (y', doy') := Locate(n, 1970);
    if y' < y {
      YearsDisjoint(y', y);
    } else if y < y' {
      YearsDisjoint(y, y');
    }
  }

  lemma DayNumberInverse(d: Date)
    requires Valid(d)
    ensures FromDayNumber(DayNumber(d)) == d
  {
    var doy := DaysBeforeMonth(d.year, d.month) + d.day - 1;
    MonthBound(d.year, d.month);
    assert YearStart(1970) == 0;
    LocateUnique(DayNumber(d), d.year, doy);
    MonthOfUnique(d.year, doy, d.month, 12);
  }

  lemma MonthBound(y: int, m: int)
    requires 1 <= m <= 12
    ensures DaysBeforeMonth(y, m) + DaysInMonth(y, m) <= DaysInYear(y)
    decreases 12 - m
  {
    if m < 12 {
      MonthBound(y, m + 1);
      MonthStep(y, m);
    }
  }

  lemma {:induction false} MonthOfUnique(y: int, doy: int, m: int, top: int)
    requires 1 <= m <= top <= 12
    requires DaysBeforeMonth(y, m) <= doy < DaysBeforeMonth(y, m) + DaysInMonth(y, m)
    ensures MonthOf(y, doy, top) == m
    decreases top
  {
    if top > m {
      MonthStartsIncrease(y, m + 1, top);
      MonthOfUnique(y, doy, m, top - 1);
    }
  }

  lemma {:induction false} MonthStartsIncrease(y: int, a: int, b: int)
    requires 1 <= a <= b <= 12
    ensures DaysBeforeMonth(y, a) <= DaysBeforeMonth(y, b)
    decreases b - a
  {
    if a < b {
      MonthStartsIncrease(y, a, b - 1);
      MonthStep(y, b - 1);
    }
  }

  lemma PrevDayNumber(d: Date)
    requires Valid(d)
    ensures DayNumber(PrevDay(d)) == DayNumber(d) - 1
  {
    if d.day == 1 && d.month == 1 {
      YearStartStep(d.year - 1);
    } else if d.day == 1 {
      MonthStep(d.year, d.month - 1);
    }
  }

  /** Stepping a day number back by one steps its calendar date back by one
      calendar day. */
  lemma FromDayNumberPred(n: int)
    ensures FromDayNumber(n - 1) == PrevDay(FromDayNumber(n))
  {
    var d := FromDayNumber(n);
    PrevDayNumber(d);
    DayNumberInverse(PrevDay(d));
  }
}
