/** The proleptic Gregorian calendar, as ECMAScript's Date counts it: days from 1970-01-01. */
module Calendar {

  predicate LeapYear(y: int) {
    y % 4 == 0 && (y % 100 != 0 || y % 400 == 0)
  }

  function DaysInMonth(y: int, m: int): (d: nat)
    requires 1 <= m <= 12
    ensures 28 <= d <= 31
  {
    if m == 2 then (if LeapYear(y) then 29 else 28)
    else if m == 4 || m == 6 || m == 9 || m == 11 then 30
    else 31
  }

  function DaysBeforeMonth(y: int, m: int): nat
    requires 1 <= m <= 13
  {
    if m == 1 then 0 else DaysBeforeMonth(y, m - 1) + DaysInMonth(y, m - 1)
  }

  /** The day number of January 1st of year `y`. */
  function DayFromYear(y: int): int {
    365 * (y - 1970) + (y - 1969) / 4 - (y - 1901) / 100 + (y - 1601) / 400
  }

  /** The day number of a date; days past the end of the month run into the next one. */
  function DayNumber(y: int, m: int, d: int): int
    requires 1 <= m <= 12
  {
    DayFromYear(y) + DaysBeforeMonth(y, m) + d - 1
  }

  predicate ValidDate(y: int, m: int, d: int) {
    1 <= m <= 12 && 1 <= d <= DaysInMonth(y, m)
  }

  /** A date of the Gregorian calendar, every month's length written out. */
  predicate CalendarDate(y: int, m: int, d: int) {
    1 <= d &&
    match m
    case 1 => d <= 31
    case 2 => d <= 28 || (d == 29 && (y % 400 == 0 || (y % 4 == 0 && y % 100 != 0)))
    case 3 => d <= 31
    case 4 => d <= 30
    case 5 => d <= 31
    case 6 => d <= 30
    case 7 => d <= 31
    case 8 => d <= 31
    case 9 => d <= 30
    case 10 => d <= 31
    case 11 => d <= 30
    case 12 => d <= 31
    case _ => false
  }

  /** The last year from `y` on whose January 1st is not after day `n`. */
  function YearOnOrAfter(y: int, n: int): (r: int)
    requires DayFromYear(y) <= n
    ensures y <= r && DayFromYear(r) <= n < DayFromYear(r + 1)
    decreases n - DayFromYear(y)
  {
    YearLength(y);
    if DayFromYear(y + 1) <= n then YearOnOrAfter(y + 1, n) else y
  }

  function YearOf(n: int): (y: int)
    requires DayFromYear(0) <= n
    ensures 0 <= y && DayFromYear(y) <= n < DayFromYear(y + 1)
  {
    YearOnOrAfter(0, n)
  }

  /** The last month from `m` on that starts on or before the `k`th day of year `y`. */
  function MonthOnOrAfter(y: int, m: int, k: int): (r: int)
    requires 1 <= m <= 12
    requires DaysBeforeMonth(y, m) <= k < DaysBeforeMonth(y, 13)
    ensures m <= r <= 12 && DaysBeforeMonth(y, r) <= k < DaysBeforeMonth(y, r + 1)
    decreases 12 - m
  {
    if DaysBeforeMonth(y, m + 1) <= k then MonthOnOrAfter(y, m + 1, k) else m
  }

  function MonthOf(n: int): (m: int)
    requires DayFromYear(0) <= n
    ensures 1 <= m <= 12
  {
    var y := YearOf(n);
    YearLength(y);
    MonthsFillYear(y);
    MonthOnOrAfter(y, 1, n - DayFromYear(y))
  }

  function DayOf(n: int): int
    requires DayFromYear(0) <= n
  {
    n - DayFromYear(YearOf(n)) - DaysBeforeMonth(YearOf(n), MonthOf(n)) + 1
  }

  lemma FourthYears(y: int)
    ensures (y - 1968) / 4 == (y - 1969) / 4 + if y % 4 == 0 then 1 else 0
  {
  }

  lemma Centuries(y: int)
    ensures (y - 1900) / 100 == (y - 1901) / 100 + if y % 100 == 0 then 1 else 0
  {
  }

  lemma FourthCenturies(y: int)
    ensures (y - 1600) / 400 == (y - 1601) / 400 + if y % 400 == 0 then 1 else 0
  {
  }

  lemma Leaps(y: int)
    ensures y % 400 == 0 ==> y % 100 == 0
    ensures y % 100 == 0 ==> y % 4 == 0
  {
  }

  lemma YearLength(y: int)
    ensures DayFromYear(y + 1) == DayFromYear(y) + if LeapYear(y) then 366 else 365
  {
    FourthYears(y);
    Centuries(y);
    FourthCenturies(y);
    Leaps(y);
  }

  lemma MonthsFillYear(y: int)
    ensures DaysBeforeMonth(y, 13) == if LeapYear(y) then 366 else 365
  {
    var feb := DaysInMonth(y, 2);
    assert DaysBeforeMonth(y, 3) == DaysBeforeMonth(y, 2) + feb == 31 + feb;
    assert DaysBeforeMonth(y, 5) == DaysBeforeMonth(y, 4) + 30 == 92 + feb;
    assert DaysBeforeMonth(y, 7) == DaysBeforeMonth(y, 6) + 30 == 153 + feb;
    assert DaysBeforeMonth(y, 9) == DaysBeforeMonth(y, 8) + 31 == 215 + feb;
    assert DaysBeforeMonth(y, 11) == DaysBeforeMonth(y, 10) + 31 == 276 + feb;
    assert DaysBeforeMonth(y, 13) == DaysBeforeMonth(y, 12) + 31 == 337 + feb;
  }

  lemma {:induction false} YearsAscend(y: int, z: int)
    requires y <= z
    ensures DayFromYear(y) <= DayFromYear(z)
    ensures y < z ==> DayFromYear(y + 1) <= DayFromYear(z)
    decreases z - y
  {
    if y < z {
      YearLength(y);
      YearsAscend(y + 1, z);
    }
  }

  lemma {:induction false} MonthsAscend(y: int, m: int, k: int)
    requires 1 <= m <= k <= 13
    ensures DaysBeforeMonth(y, m) <= DaysBeforeMonth(y, k)
    ensures m < k ==> DaysBeforeMonth(y, m + 1) <= DaysBeforeMonth(y, k)
    decreases k - m
  {
    if m < k {
      MonthsAscend(y, m, k - 1);
    }
  }

  /** A day number lies in exactly one year. */
  lemma YearOfIsUnique(n: int, y: int)
    requires DayFromYear(0) <= n && DayFromYear(y) <= n < DayFromYear(y + 1)
    ensures YearOf(n) == y
  {
    var r := YearOf(n);
    if r < y { YearsAscend(r, y); }
    if y < r { YearsAscend(y, r); }
  }

  /** Every day number is the number of the valid date read off it. */
  lemma DateOfDay(n: int)
    requires DayFromYear(0) <= n
    ensures ValidDate(YearOf(n), MonthOf(n), DayOf(n))
    ensures DayNumber(YearOf(n), MonthOf(n), DayOf(n)) == n
  {
    var y := YearOf(n);
    YearLength(y);
    MonthsFillYear(y);
    assert DaysBeforeMonth(y, MonthOf(n) + 1) == DaysBeforeMonth(y, MonthOf(n)) + DaysInMonth(y, MonthOf(n));
  }

  /** Every valid date is the one read off its own day number. */
  lemma DayOfDate(y: int, m: int, d: int)
    requires 0 <= y && ValidDate(y, m, d)
    ensures DayFromYear(0) <= DayNumber(y, m, d) < DayFromYear(y + 1)
    ensures YearOf(DayNumber(y, m, d)) == y
    ensures MonthOf(DayNumber(y, m, d)) == m
    ensures DayOf(DayNumber(y, m, d)) == d
  {
    var n := DayNumber(y, m, d);
    YearsAscend(0, y);
    YearLength(y);
    MonthsFillYear(y);
    assert DaysBeforeMonth(y, m + 1) == DaysBeforeMonth(y, m) + DaysInMonth(y, m);
    MonthsAscend(y, m + 1, 13);
    YearOfIsUnique(n, y);
    var r := MonthOf(n);
    if r < m { MonthsAscend(y, r, m); }
    if m < r { MonthsAscend(y, m, r); }
  }

  // ----- Anchored outside these definitions

  /** The computed month lengths are the written ones, in every year. */
  lemma ValidDateExact(y: int, m: int, d: int)
    ensures ValidDate(y, m, d) <==> CalendarDate(y, m, d)
  {
    Leaps(y);
  }

  lemma EpochIsDayZero()
    ensures DayNumber(1970, 1, 1) == 0
  {
  }

  /** The date after a date: the next day of the month, else of the next month, else of the next year. */
  function DayAfter(y: int, m: int, d: int): (int, int, int) {
    if CalendarDate(y, m, d + 1) then (y, m, d + 1) else if m < 12 then (y, m + 1, 1) else (y + 1, 1, 1)
  }

  /** Day numbers count dates one by one; with day zero, this fixes the number of every date. */
  lemma NextDayNumber(y: int, m: int, d: int)
    requires CalendarDate(y, m, d)
    ensures var (y', m', d') := DayAfter(y, m, d);
            CalendarDate(y', m', d') && DayNumber(y', m', d') == DayNumber(y, m, d) + 1
  {
    hide CalendarDate, DayFromYear, LeapYear;
    ValidDateExact(y, m, d);
    ValidDateExact(y, m, d + 1);
    var (y', m', d') := DayAfter(y, m, d);
    ValidDateExact(y', m', d');
    if !CalendarDate(y, m, d + 1) {
      if m < 12 {
        assert DaysBeforeMonth(y, m + 1) == DaysBeforeMonth(y, m) + DaysInMonth(y, m);
      } else {
        LastMonth(y);
      }
    }
  }

  lemma LastMonth(y: int)
    ensures DayFromYear(y) + DaysBeforeMonth(y, 12) + 31 == DayFromYear(y + 1) && DaysInMonth(y, 12) == 31
  {
    hide DayFromYear, LeapYear;
    MonthsFillYear(y);
    YearLength(y);
    assert DaysBeforeMonth(y, 13) == DaysBeforeMonth(y, 12) + DaysInMonth(y, 12);
  }
}
