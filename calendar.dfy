/**
 * The proleptic Gregorian calendar that Go's `time` package uses, over day
 * numbers counted from 1970-01-01 (day 0; earlier days are negative).
 * A day number is split into year, month and day by walking whole years and
 * then whole months, so that turning the parts back into a day number is the
 * identity by construction.
 */
module Calendar {

  predicate IsLeap(y: int) {
    y % 4 == 0 && (y % 100 != 0 || y % 400 == 0)
  }

  function YearLength(y: int): int {
    if IsLeap(y) then 366 else 365
  }

  /** The day number of January 1st of year `y`. */
  function DaysBeforeYear(y: int): int
    decreases if y >= 1970 then y - 1970 else 1970 - y
  {
    if y == 1970 then 0
    else if y > 1970 then DaysBeforeYear(y - 1) + YearLength(y - 1)
    else DaysBeforeYear(y + 1) - YearLength(y)
  }

  lemma NextYear(y: int)
    ensures DaysBeforeYear(y + 1) == DaysBeforeYear(y) + YearLength(y)
  {
  }

  /** Every year has at least 365 days, so `b - a` years span at least `365 * (b - a)` days. */
  lemma {:induction false} YearsSpan(a: int, b: int)
    requires a <= b
    ensures DaysBeforeYear(b) - DaysBeforeYear(a) >= 365 * (b - a)
    decreases b - a
  {
    if a < b {
      YearsSpan(a, b - 1);
      NextYear(b - 1);
    }
  }

  function MonthLength(y: int, m: int): (n: int)
    requires 1 <= m <= 12
    ensures 28 <= n <= 31
  {
    if m == 2 then (if IsLeap(y) then 29 else 28)
    else if m == 4 || m == 6 || m == 9 || m == 11 then 30
    else 31
  }

  /** Days of year `y` before the first of month `m`; `m == 13` gives the whole year. */
  function DaysBeforeMonth(y: int, m: int): (n: int)
    requires 1 <= m <= 13
    ensures m == 13 <==> n == YearLength(y)
    ensures m == 1 <==> n == 0
    ensures 0 <= n <= 366
  {
    var leapDay := if IsLeap(y) && m > 2 then 1 else 0;
    leapDay + (
      if m == 1 then 0 else if m == 2 then 31 else if m == 3 then 59
      else if m == 4 then 90 else if m == 5 then 120 else if m == 6 then 151
      else if m == 7 then 181 else if m == 8 then 212 else if m == 9 then 243
      else if m == 10 then 273 else if m == 11 then 304 else if m == 12 then 334
      else 365)
  }

  /** Each month starts where the previous one ends. */
  lemma MonthStep(y: int, m: int)
    requires 1 <= m <= 12
    ensures DaysBeforeMonth(y, m + 1) == DaysBeforeMonth(y, m) + MonthLength(y, m)
  {
  }

  /** The year holding day `days`, searched upward from year `y`. */
  function YearUp(days: int, y: int): int
    requires DaysBeforeYear(y) <= days
    decreases days - DaysBeforeYear(y)
  {
    NextYear(y);
    if days < DaysBeforeYear(y + 1) then y else YearUp(days, y + 1)
  }

  lemma {:induction false} YearUpBounds(days: int, y: int)
    requires DaysBeforeYear(y) <= days
    ensures var r := YearUp(days, y); DaysBeforeYear(r) <= days < DaysBeforeYear(r + 1)
    decreases days - DaysBeforeYear(y)
  {
    NextYear(y);
    if days >= DaysBeforeYear(y + 1) {
      YearUpBounds(days, y + 1);
    }
  }

  /** The year holding day `days`, searched downward from year `y`. */
  function YearDown(days: int, y: int): int
    requires days < DaysBeforeYear(y + 1)
    decreases DaysBeforeYear(y + 1) - days
  {
    NextYear(y);
    if DaysBeforeYear(y) <= days then y else YearDown(days, y - 1)
  }

  lemma {:induction false} YearDownBounds(days: int, y: int)
    requires days < DaysBeforeYear(y + 1)
    ensures var r := YearDown(days, y); DaysBeforeYear(r) <= days < DaysBeforeYear(r + 1)
    decreases DaysBeforeYear(y + 1) - days
  {
    NextYear(y);
    if DaysBeforeYear(y) > days {
      YearDownBounds(days, y - 1);
    }
  }

  function YearOf(days: int): int {
    if days >= 0 then YearUp(days, 1970) else YearDown(days, 1969)
  }

  /** The year found for a day number is the one that holds it. */
  lemma YearOfBounds(days: int)
    ensures var r := YearOf(days); DaysBeforeYear(r) <= days < DaysBeforeYear(r + 1)
  {
    if days >= 0 { YearUpBounds(days, 1970); } else { YearDownBounds(days, 1969); }
  }

  /** The month holding day-of-year `doy` of year `y`, searched upward from month `m`. */
  function MonthFrom(y: int, doy: int, m: int): int
    requires 1 <= m <= 12 && DaysBeforeMonth(y, m) <= doy < YearLength(y)
    decreases 12 - m
  {
    MonthStep(y, m);
    if m == 12 || doy < DaysBeforeMonth(y, m + 1) then m else MonthFrom(y, doy, m + 1)
  }

  lemma {:induction false} MonthFromBounds(y: int, doy: int, m: int)
    requires 1 <= m <= 12 && DaysBeforeMonth(y, m) <= doy < YearLength(y)
    ensures var r := MonthFrom(y, doy, m); m <= r <= 12 && DaysBeforeMonth(y, r) <= doy < DaysBeforeMonth(y, r + 1)
    decreases 12 - m
  {
    MonthStep(y, m);
    if !(m == 12 || doy < DaysBeforeMonth(y, m + 1)) {
      MonthFromBounds(y, doy, m + 1);
    }
  }

  datatype Date = Date(year: int, month: int, day: int)

  predicate ValidDate(d: Date) {
    1 <= d.month <= 12 && 1 <= d.day <= MonthLength(d.year, d.month)
  }

  /**
   * The day number of a year, month and day. A day beyond the end of its
   * month counts on into the following months, as Go's `time.Date` normalises it.
   */
  function DaysFromCivil(y: int, m: int, d: int): int
    requires 1 <= m <= 12
  {
    DaysBeforeYear(y) + DaysBeforeMonth(y, m) + d - 1
  }

  /** The calendar date of a day number; its inverse is `DaysFromCivil`. */
  function CivilFromDays(days: int): Date {
    var y := YearOf(days);
    YearOfBounds(days);
    NextYear(y);
    var doy := days - DaysBeforeYear(y);
    MonthFromBounds(y, doy, 1);
    var m := MonthFrom(y, doy, 1);
    Date(y, m, doy - DaysBeforeMonth(y, m) + 1)
  }

  lemma CivilFromDaysInverse(days: int)
    ensures ValidDate(CivilFromDays(days))
    ensures var d := CivilFromDays(days); DaysFromCivil(d.year, d.month, d.day) == days
  {
    var y := YearOf(days);
    YearOfBounds(days);
    NextYear(y);
    var doy := days - DaysBeforeYear(y);
    MonthFromBounds(y, doy, 1);
    var m := MonthFrom(y, doy, 1);
    MonthStep(y, m);
  }
}
