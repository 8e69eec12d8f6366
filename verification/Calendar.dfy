/**
 UTC calendar days (sections 21.4.1.3 to 21.4.1.5 of ECMA-262) and their `YYYY-MM-DD` keys
 (apps/web/src/lib/codingStreak.ts:44-69). A day is the number of days since 1970-01-01.
 */
module Calendar {

  datatype Date = Date(year: int, month: int, day: int)

  // ---- day numbers

  function DayFromYear(y: int): int {
    365 * (y - 1970) + (y - 1969) / 4 - (y - 1901) / 100 + (y - 1601) / 400
  }

  predicate Leap(y: int) {
    y % 4 == 0 && (y % 100 != 0 || y % 400 == 0)
  }

  // A quotient steps up exactly when the next number is a multiple.
  lemma Step4(y: int)
    ensures (y - 1968) / 4 == (y - 1969) / 4 + (if y % 4 == 0 then 1 else 0)
  {
  }

  lemma Step100(y: int)
    ensures (y - 1900) / 100 == (y - 1901) / 100 + (if y % 100 == 0 then 1 else 0)
  {
  }

  lemma Step400(y: int)
    ensures (y - 1600) / 400 == (y - 1601) / 400 + (if y % 400 == 0 then 1 else 0)
  {
  }

  lemma Multiple400(y: int)
    ensures y % 400 == 0 ==> y % 100 == 0
  {
    if y % 400 == 0 { assert y == 100 * (4 * (y / 400)); }
  }

  lemma Multiple100(y: int)
    ensures y % 100 == 0 ==> y % 4 == 0
  {
    if y % 100 == 0 { assert y == 4 * (25 * (y / 100)); }
  }

  lemma LeapSteps(y: int)
    ensures (if y % 4 == 0 then 1 else 0) - (if y % 100 == 0 then 1 else 0) + (if y % 400 == 0 then 1 else 0)
         == if Leap(y) then 1 else 0
  {
    Multiple400(y);
    Multiple100(y);
  }

  lemma YearLength(y: int)
    ensures DayFromYear(y + 1) - DayFromYear(y) == if Leap(y) then 366 else 365
  {
    Step4(y);
    Step100(y);
    Step400(y);
    LeapSteps(y);
  }

  /** Days of the year before the given month (1 to 12). */
  function DaysBefore(month: int, leap: bool): int
    requires 1 <= month <= 12
  {
    (if leap && month > 2 then 1 else 0)
    + (if month == 1 then 0 else if month == 2 then 31 else if month == 3 then 59
       else if month == 4 then 90 else if month == 5 then 120 else if month == 6 then 151
       else if month == 7 then 181 else if month == 8 then 212 else if month == 9 then 243
       else if month == 10 then 273 else if month == 11 then 304 else 334)
  }

  function DaysIn(month: int, leap: bool): int
    requires 1 <= month <= 12
  {
    if month == 2 then (if leap then 29 else 28)
    else if month == 4 || month == 6 || month == 9 || month == 11 then 30
    else 31
  }

  predicate RealDate(d: Date) {
    1 <= d.month <= 12 && 1 <= d.day <= DaysIn(d.month, Leap(d.year))
  }

  /** `MakeDay`: months beyond 12 and days beyond the month's end roll over. */
  function DayOf(d: Date): int {
    var y := d.year + (d.month - 1) / 12;
    DayFromYear(y) + DaysBefore((d.month - 1) % 12 + 1, Leap(y)) + d.day - 1
  }

  function YearUp(n: int, y: int): (r: int)
    requires DayFromYear(y) <= n
    ensures DayFromYear(r) <= n < DayFromYear(r + 1)
    decreases n - DayFromYear(y)
  {
    YearLength(y);
    if n < DayFromYear(y + 1) then y else YearUp(n, y + 1)
  }

  function YearDown(n: int, y: int): (r: int)
    ensures DayFromYear(r) <= n < DayFromYear(r + 1)
    decreases DayFromYear(y) - n
  {
    YearLength(y - 1);
    if DayFromYear(y) <= n then YearUp(n, y) else YearDown(n, y - 1)
  }

  /** `YearFromTime`: the year whose first day is the last one not after `n`. */
  function YearOf(n: int): (r: int)
    ensures DayFromYear(r) <= n < DayFromYear(r + 1)
  {
    YearDown(n, 1970)
  }

  /** The first month from `m` on that has not ended by the given day of the year. */
  function MonthFrom(m: int, dayInYear: int, leap: bool): (r: int)
    requires 1 <= m <= 12 && DaysBefore(m, leap) <= dayInYear < (if leap then 366 else 365)
    ensures 1 <= r <= 12
    ensures DaysBefore(r, leap) <= dayInYear < DaysBefore(r, leap) + DaysIn(r, leap)
    decreases 12 - m
  {
    if m == 12 || dayInYear < DaysBefore(m + 1, leap) then m else MonthFrom(m + 1, dayInYear, leap)
  }

  function DateOf(n: int): (d: Date)
    ensures RealDate(d)
  {
    var y := YearOf(n);
    YearLength(y);
    var inYear := n - DayFromYear(y);
    var m := MonthFrom(1, inYear, Leap(y));
    Date(y, m, inYear - DaysBefore(m, Leap(y)) + 1)
  }

  lemma MonthIndex(month: int)
    requires 1 <= month <= 12
    ensures (month - 1) / 12 == 0 && (month - 1) % 12 == month - 1
  {
  }

  lemma MonthEnds(month: int, leap: bool)
    requires 1 <= month <= 12
    ensures 0 <= DaysBefore(month, leap) && DaysBefore(month, leap) + DaysIn(month, leap) <= (if leap then 366 else 365)
  {
  }

  lemma DayOfReal(d: Date)
    requires RealDate(d)
    ensures DayOf(d) == DayFromYear(d.year) + DaysBefore(d.month, Leap(d.year)) + d.day - 1
    ensures DayFromYear(d.year) <= DayOf(d) < DayFromYear(d.year + 1)
  {
    MonthIndex(d.month);
    MonthEnds(d.month, Leap(d.year));
    YearLength(d.year);
  }

  lemma {:induction false} YearsAscend(y: int, z: int)
    requires y < z
    ensures DayFromYear(y + 1) <= DayFromYear(z)
    decreases z - y
  {
    if y + 1 < z {
      YearLength(z - 1);
      YearsAscend(y, z - 1);
    }
  }

  predicate DateLess(a: Date, b: Date) {
    a.year < b.year || (a.year == b.year && (a.month < b.month || (a.month == b.month && a.day < b.day)))
  }

  lemma {:induction false} MonthsAscend(m: int, k: int, leap: bool)
    requires 1 <= m < k <= 12
    ensures DaysBefore(m, leap) + DaysIn(m, leap) <= DaysBefore(k, leap)
  {
    if m + 1 < k { MonthsAscend(m, k - 1, leap); }
  }

  lemma LaterYear(a: Date, b: Date)
    requires RealDate(a) && RealDate(b) && a.year < b.year
    ensures DayOf(a) < DayOf(b)
  {
    hide DayOf, DayFromYear, RealDate;
    DayOfReal(a);
    DayOfReal(b);
    YearsAscend(a.year, b.year);
  }

  lemma LaterInYear(a: Date, b: Date)
    requires RealDate(a) && RealDate(b) && a.year == b.year
    requires a.month < b.month || (a.month == b.month && a.day < b.day)
    ensures DayOf(a) < DayOf(b)
  {
    var start, leap := DayFromYear(a.year), Leap(a.year);
    assert DayOf(a) == start + DaysBefore(a.month, leap) + a.day - 1 by { DayOfReal(a); }
    assert DayOf(b) == start + DaysBefore(b.month, leap) + b.day - 1 by { DayOfReal(b); }
    if a.month < b.month { MonthsAscend(a.month, b.month, leap); }
  }

  /** Real dates are ordered as their day numbers are. */
  lemma DateOrder(a: Date, b: Date)
    requires RealDate(a) && RealDate(b)
    ensures DateLess(a, b) <==> DayOf(a) < DayOf(b)
    ensures DayOf(a) == DayOf(b) ==> a == b
  {
    if a.year < b.year {
      LaterYear(a, b);
    } else if b.year < a.year {
      LaterYear(b, a);
    } else if DateLess(a, b) {
      LaterInYear(a, b);
    } else if DateLess(b, a) {
      LaterInYear(b, a);
    }
  }

  /** Splitting a day number into a date and putting it together again. */
  lemma DayRoundTrip(n: int)
    ensures DayOf(DateOf(n)) == n
  {
    DayOfReal(DateOf(n));
  }

  lemma DateRoundTrip(d: Date)
    requires RealDate(d)
    ensures DateOf(DayOf(d)) == d
  {
    DayRoundTrip(DayOf(d));
    DateOrder(DateOf(DayOf(d)), d);
  }

  // ---- the calendar pinned down: one known day, and what the next day is

  lemma YearOfEpoch()
    ensures DayFromYear(1970) == 0
  {
  }

  /** Day 0 is the first of January 1970. */
  lemma Epoch()
    ensures DateOf(0) == Date(1970, 1, 1) && DayOf(Date(1970, 1, 1)) == 0
  {
    hide DateOf, DayOf, Leap;
    DayOfReal(Date(1970, 1, 1));
    YearOfEpoch();
    DateRoundTrip(Date(1970, 1, 1));
  }

  /** The last day of a month: "thirty days hath September, April, June and November". */
  predicate EndsMonth(d: Date) {
    if d.month in {4, 6, 9, 11} then d.day == 30
    else if d.month != 2 then d.day == 31
    else if d.year % 400 == 0 || (d.year % 4 == 0 && d.year % 100 != 0) then d.day == 29
    else d.day == 28
  }

  /** The date after a date. */
  function Tomorrow(d: Date): Date {
    if !EndsMonth(d) then Date(d.year, d.month, d.day + 1)
    else if d.month < 12 then Date(d.year, d.month + 1, 1)
    else Date(d.year + 1, 1, 1)
  }

  lemma LeapWritten(y: int)
    ensures Leap(y) <==> y % 400 == 0 || (y % 4 == 0 && y % 100 != 0)
  {
    Multiple400(y);
    Multiple100(y);
  }

  lemma MonthLength(d: Date)
    requires RealDate(d)
    ensures EndsMonth(d) <==> d.day == DaysIn(d.month, Leap(d.year))
  {
    LeapWritten(d.year);
  }

  lemma NextMonth(month: int, leap: bool)
    requires 1 <= month <= 12
    ensures month < 12 ==> DaysBefore(month + 1, leap) == DaysBefore(month, leap) + DaysIn(month, leap)
    ensures DaysBefore(12, leap) + DaysIn(12, leap) == if leap then 366 else 365
    ensures DaysBefore(1, leap) == 0
  {
  }

  lemma TomorrowIsNext(d: Date)
    requires RealDate(d)
    ensures RealDate(Tomorrow(d)) && DayOf(Tomorrow(d)) == DayOf(d) + 1
  {
    hide DayFromYear, DaysBefore, DayOf, Leap, EndsMonth;
    var e := Tomorrow(d);
    MonthLength(d);
    NextMonth(d.month, Leap(d.year));
    NextMonth(1, Leap(d.year + 1));
    YearLength(d.year);
    DayOfReal(d);
    DayOfReal(e);
  }

  /** One day later is the next date, over all years. With the epoch this says what date every day is. */
  lemma NextDay(n: int)
    ensures DateOf(n + 1) == Tomorrow(DateOf(n))
  {
    hide DateOf, DayOf, Tomorrow, RealDate;
    DayRoundTrip(n);
    TomorrowIsNext(DateOf(n));
    DateRoundTrip(Tomorrow(DateOf(n)));
  }

  /** Twelve months are a year, and a day more is one day later, also when they roll over. */
  lemma RollOver(d: Date)
    ensures DayOf(d.(month := d.month + 12)) == DayOf(d.(year := d.year + 1))
    ensures DayOf(d.(day := d.day + 1)) == DayOf(d) + 1
  {
    hide DayFromYear, DaysBefore, Leap;
    TwelveMore(d.month - 1);
  }

  lemma TwelveMore(m: int)
    ensures (m + 12) / 12 == m / 12 + 1 && (m + 12) % 12 == m % 12
  {
  }

  /** `getUTCDay`: Sunday is 0. 1970-01-01 was a Thursday. */
  function WeekDay(n: int): (r: int)
    ensures 0 <= r < 7
  {
    (n + 4) % 7
  }

  /** Day 0 was a Thursday, and the week days follow one another. */
  lemma WeekDays(n: int)
    ensures WeekDay(0) == 4 && WeekDay(n + 1) == if WeekDay(n) == 6 then 0 else WeekDay(n) + 1
  {
  }
}
