/**
 The proleptic Gregorian calendar: days since 1970-01-01 as civil dates.

 `DateOf` and `DayNumber` are the two directions of the bijection. `NextDay`
 is an independent account of the calendar (month lengths and leap years as in
 Appendix C of RFC 3339), and `DateOfFollowsTheCalendar` shows that `DateOf`
 enumerates exactly the dates it generates from 1970-01-01.
 */
module Calendar {

  datatype Date = Date(year: int, month: int, day: int)

  predicate Leap(year: int) {
    year % 4 == 0 && (year % 100 != 0 || year % 400 == 0)
  }

  function MonthLength(year: int, month: int): int {
    if month == 2 then (if Leap(year) then 29 else 28)
    else if month == 4 || month == 6 || month == 9 || month == 11 then 30
    else 31
  }

  predicate ValidDate(d: Date) {
    1 <= d.month <= 12 && 1 <= d.day <= MonthLength(d.year, d.month)
  }

  function NextDay(d: Date): Date {
    if d.day < MonthLength(d.year, d.month) then Date(d.year, d.month, d.day + 1)
    else if d.month < 12 then Date(d.year, d.month + 1, 1)
    else Date(d.year + 1, 1, 1)
  }

  // ----- years -----

  function YearLength(year: int): int {
    if Leap(year) then 366 else 365
  }

  /** Days from 0001-01-01 to the first of January of `year`. */
  function DaysBeforeYear(year: int): int {
    365 * (year - 1) + (year - 1) / 4 - (year - 1) / 100 + (year - 1) / 400
  }

  /** The year of the day `n` days after 0001-01-01, by 400-, 100-, 4- and
      1-year cycles; the last 100- and 1-year cycle are a day longer. */
  function YearOf(n: int): int {
    var r400 := n % 146097;
    var c := if r400 / 36524 > 3 then 3 else r400 / 36524;
    var r100 := r400 - 36524 * c;
    var r4 := r100 % 1461;
    var d := if r4 / 365 > 3 then 3 else r4 / 365;
    400 * (n / 146097) + 100 * c + 4 * (r100 / 1461) + d + 1
  }

  lemma YearCycles(a: int, b: int, c: int, d: int)
    requires 0 <= b <= 3 && 0 <= c <= 24 && 0 <= d <= 3
    ensures DaysBeforeYear(400 * a + 100 * b + 4 * c + d + 1) == 146097 * a + 36524 * b + 1461 * c + 365 * d
  {
    var y := 400 * a + 100 * b + 4 * c + d;
    assert y / 4 == 100 * a + 25 * b + c;
    assert y / 100 == 4 * a + b;
    assert y / 400 == a;
  }

  lemma YearStep(year: int)
    ensures DaysBeforeYear(year + 1) == DaysBeforeYear(year) + YearLength(year)
  {
    QuotientStep(year, 4);
    QuotientStep(year, 100);
    QuotientStep(year, 400);
    LeapNesting(year);
  }

  lemma LeapNesting(year: int)
    ensures year % 400 == 0 ==> year % 100 == 0
    ensures year % 100 == 0 ==> year % 4 == 0
  {
    if year % 400 == 0 {
      HasRemainder(year, 100, 4 * (year / 400), 0);
    }
    if year % 100 == 0 {
      HasRemainder(year, 4, 25 * (year / 100), 0);
    }
  }

  lemma HasRemainder(x: int, k: int, q: int, r: int)
    requires k == 4 || k == 100 || k == 400
    requires x == k * q + r && 0 <= r < k
    ensures x % k == r && x / k == q
  {
  }

  lemma QuotientStep(x: int, k: int)
    requires k == 4 || k == 100 || k == 400
    ensures x / k == (x - 1) / k + (if x % k == 0 then 1 else 0)
  {
  }

  lemma YearContains(n: int)
    ensures DaysBeforeYear(YearOf(n)) <= n < DaysBeforeYear(YearOf(n) + 1)
  {
    var a, r400 := n / 146097, n % 146097;
    var b := if r400 / 36524 > 3 then 3 else r400 / 36524;
    var r100 := r400 - 36524 * b;
    var c, r4 := r100 / 1461, r100 % 1461;
    var d := if r4 / 365 > 3 then 3 else r4 / 365;
    var year := 400 * a + 100 * b + 4 * c + d + 1;
    assert YearOf(n) == year;
    assert 0 <= r100 <= 36524 && 0 <= r4 < 1461 && r100 == 1461 * c + r4;
    YearCycles(a, b, c, d);
    YearStep(year);
    LastDayOfCycle(a, b, c, d, r100, r4);
    DayInYear(n, DaysBeforeYear(year), DaysBeforeYear(year + 1), YearLength(year), a, b, c, d, r4);
  }

  lemma DayInYear(n: int, first: int, next: int, length: int, a: int, b: int, c: int, d: int, r4: int)
    requires n == 146097 * a + 36524 * b + 1461 * c + r4 && first == 146097 * a + 36524 * b + 1461 * c + 365 * d
    requires next == first + length && 0 <= r4 - 365 * d < length
    ensures first <= n < next
  {
  }

  /** A remainder of 365 days is left only in a leap year. */
  lemma LastDayOfCycle(a: int, b: int, c: int, d: int, r100: int, r4: int)
    requires 0 <= b <= 3 && 0 <= r100 <= 36524 && c == r100 / 1461 && r4 == r100 % 1461
    requires r100 == 36524 ==> b == 3
    requires d == if r4 / 365 > 3 then 3 else r4 / 365
    ensures r4 - 365 * d < YearLength(400 * a + 100 * b + 4 * c + d + 1)
  {
    var y := 400 * a + 100 * b + 4 * c + d + 1;
    if r4 - 365 * d == 365 {
      assert d == 3 && r4 == 1460;
      HasRemainder(y, 4, 100 * a + 25 * b + c + 1, 0);
      if c == 24 {
        HasRemainder(y, 400, a + 1, 0);
      } else {
        HasRemainder(y, 100, 4 * a + b, 4 * c + 4);
      }
    }
  }

  lemma {:induction false} YearsAreOrdered(x: int, y: int)
    requires x <= y
    ensures DaysBeforeYear(x) <= DaysBeforeYear(y)
    decreases y - x
  {
    if x < y {
      YearStep(x);
      YearsAreOrdered(x + 1, y);
    }
  }

  lemma YearIsUnique(n: int, year: int)
    requires DaysBeforeYear(year) <= n < DaysBeforeYear(year + 1)
    ensures YearOf(n) == year
  {
    YearContains(n);
    if YearOf(n) < year {
      YearsAreOrdered(YearOf(n) + 1, year);
    } else if YearOf(n) > year {
      YearsAreOrdered(year + 1, YearOf(n));
    }
  }

  // ----- months -----

  /** Days from the first of January to the first of `month`. */
  function DaysBeforeMonth(year: int, month: int): int
    requires 1 <= month <= 13
    decreases month
  {
    if month == 1 then 0 else DaysBeforeMonth(year, month - 1) + MonthLength(year, month - 1)
  }

  /** The month, at least `from`, of the day `k` days after the first of January. */
  function MonthOf(year: int, k: int, from: int): (m: int)
    requires 1 <= from <= 12
    ensures from <= m <= 12
    decreases 12 - from
  {
    if from == 12 || k < DaysBeforeMonth(year, from + 1) then from else MonthOf(year, k, from + 1)
  }

  predicate InMonth(year: int, k: int, month: int) {
    1 <= month <= 12 && DaysBeforeMonth(year, month) <= k < DaysBeforeMonth(year, month + 1)
  }

  lemma {:induction false} MonthContains(year: int, k: int, from: int, last: int)
    requires 1 <= from <= 12 && last == 13 && DaysBeforeMonth(year, from) <= k < DaysBeforeMonth(year, last)
    ensures InMonth(year, k, MonthOf(year, k, from))
    decreases 12 - from
  {
    MonthStep(year, k, from);
    if from < 12 && k >= DaysBeforeMonth(year, from + 1) {
      MonthContains(year, k, from + 1, last);
    } else {
      assert from == 12 ==> last == from + 1;
      assert InMonth(year, k, from);
    }
  }

  lemma MonthStep(year: int, k: int, from: int)
    requires 1 <= from <= 12
    ensures MonthOf(year, k, from)
      == if from == 12 || k < DaysBeforeMonth(year, from + 1) then from else MonthOf(year, k, from + 1)
  {
  }

  lemma {:induction false} MonthsAreOrdered(year: int, x: int, y: int)
    requires 1 <= x <= y <= 13
    ensures DaysBeforeMonth(year, x) <= DaysBeforeMonth(year, y)
    decreases y - x
  {
    if x < y {
      MonthsAreOrdered(year, x, y - 1);
    }
  }

  lemma {:induction false} MonthIsUnique(year: int, k: int, month: int, from: int)
    requires 1 <= from <= month <= 12
    requires DaysBeforeMonth(year, month) <= k < DaysBeforeMonth(year, month + 1)
    ensures MonthOf(year, k, from) == month
    decreases 12 - from
  {
    if from < month {
      MonthsAreOrdered(year, from + 1, month);
      MonthIsUnique(year, k, month, from + 1);
    }
  }

  lemma MonthsFillTheYear(year: int)
    ensures DaysBeforeMonth(year, 13) == YearLength(year)
  {
    assert DaysBeforeMonth(year, 4) == DaysBeforeMonth(year, 3) + 31 == 59 + 31 + (if Leap(year) then 1 else 0);
    assert DaysBeforeMonth(year, 7) == DaysBeforeMonth(year, 4) + 30 + 31 + 30;
    assert DaysBeforeMonth(year, 10) == DaysBeforeMonth(year, 7) + 31 + 31 + 30;
    assert DaysBeforeMonth(year, 13) == DaysBeforeMonth(year, 10) + 31 + 30 + 31;
  }

  // ----- dates -----

  /** Days from 0001-01-01 to 1970-01-01. */
  const EPOCH := 719162

  /** The date of the day `n` days after 0001-01-01, which lies in `year`. */
  function DateIn(n: int, year: int): Date {
    var k := n - DaysBeforeYear(year);
    var month := MonthOf(year, k, 1);
    Date(year, month, k - DaysBeforeMonth(year, month) + 1)
  }

  function DateOf(day: int): Date {
    DateIn(day + EPOCH, YearOf(day + EPOCH))
  }

  function DayNumber(d: Date): int
    requires 1 <= d.month <= 12
  {
    DaysBeforeYear(d.year) + DaysBeforeMonth(d.year, d.month) + d.day - 1 - EPOCH
  }

  lemma DateInYear(n: int, year: int)
    requires DaysBeforeYear(year) <= n < DaysBeforeYear(year + 1)
    ensures var d := DateIn(n, year);
      ValidDate(d) && DayNumber(d) == n - EPOCH
  {
    YearStep(year);
    MonthsFillTheYear(year);
    MonthContains(year, n - DaysBeforeYear(year), 1, 13);
  }

  /** Every day has a date, and the date gives the day back. */
  lemma DateRoundTrip(day: int)
    ensures ValidDate(DateOf(day)) && DayNumber(DateOf(day)) == day
  {
    YearContains(day + EPOCH);
    DateInYear(day + EPOCH, YearOf(day + EPOCH));
  }

  /** Every valid date is the date of its day. */
  lemma DayRoundTrip(d: Date)
    requires ValidDate(d)
    ensures DateOf(DayNumber(d)) == d
  {
    var k := DaysBeforeMonth(d.year, d.month) + d.day - 1;
    DayOfYear(d, k);
    DateOfDay(d, k, DayNumber(d) + EPOCH);
  }

  lemma DateOfDay(d: Date, k: int, n: int)
    requires ValidDate(d) && k == DaysBeforeMonth(d.year, d.month) + d.day - 1
    requires DaysBeforeMonth(d.year, d.month) <= k < DaysBeforeMonth(d.year, d.month + 1)
    requires 0 <= k < YearLength(d.year) && n == DaysBeforeYear(d.year) + k
    ensures YearOf(n) == d.year && DateIn(n, d.year) == d
  {
    YearStep(d.year);
    YearIsUnique(n, d.year);
    DateInFits(d, k, n);
  }

  lemma DateInFits(d: Date, k: int, n: int)
    requires ValidDate(d) && k == DaysBeforeMonth(d.year, d.month) + d.day - 1
    requires DaysBeforeMonth(d.year, d.month) <= k < DaysBeforeMonth(d.year, d.month + 1)
    requires n == DaysBeforeYear(d.year) + k
    ensures DateIn(n, d.year) == d
  {
    MonthIsUnique(d.year, k, d.month, 1);
  }

  lemma DayOfYear(d: Date, k: int)
    requires ValidDate(d) && k == DaysBeforeMonth(d.year, d.month) + d.day - 1
    ensures 0 <= k < YearLength(d.year)
    ensures DaysBeforeMonth(d.year, d.month) <= k < DaysBeforeMonth(d.year, d.month + 1)
  {
    MonthsAreOrdered(d.year, 1, d.month);
    MonthsAreOrdered(d.year, d.month + 1, 13);
    MonthsFillTheYear(d.year);
  }

  lemma NextDayIsOneLater(d: Date)
    requires ValidDate(d)
    ensures ValidDate(NextDay(d)) && DayNumber(NextDay(d)) == DayNumber(d) + 1
  {
    YearStep(d.year);
    MonthsFillTheYear(d.year);
  }

  lemma NextDayIsNextDate(day: int, d: Date)
    requires ValidDate(d) && DayNumber(d) == day
    ensures DateOf(day + 1) == NextDay(d)
  {
    NextDayIsOneLater(d);
    DayRoundTrip(NextDay(d));
  }

  /** Day 0 is 1970-01-01. */
  lemma EpochDate()
    ensures DateOf(0) == Date(1970, 1, 1)
  {
    assert DayNumber(Date(1970, 1, 1)) == 0;
    DayRoundTrip(Date(1970, 1, 1));
  }

  /** Each day's date is followed by the next day's. */
  lemma DateOfFollowsTheCalendar(day: int)
    ensures DateOf(day + 1) == NextDay(DateOf(day))
  {
    DateRoundTrip(day);
    NextDayIsNextDate(day, DateOf(day));
  }

  /** The lengths of the months; leap years fall on every fourth year, but only on every
      fourth century. */
  lemma MonthLengths(year: int, month: int)
    requires 1 <= month <= 12
    ensures month in {1, 3, 5, 7, 8, 10, 12} ==> MonthLength(year, month) == 31
    ensures month in {4, 6, 9, 11} ==> MonthLength(year, month) == 30
    ensures MonthLength(400 * year, 2) == 29
    ensures MonthLength(100 * year, 2) == 29 <==> year % 4 == 0
    ensures year % 25 != 0 ==> MonthLength(4 * year, 2) == 29
    ensures year % 4 != 0 ==> MonthLength(year, 2) == 28
    ensures MonthLength(year, 2) == 29 || MonthLength(year, 2) == 28
  {
    HasRemainder(400 * year, 400, year, 0);
    HasRemainder(400 * year, 100, 4 * year, 0);
    HasRemainder(400 * year, 4, 100 * year, 0);
    HasRemainder(100 * year, 100, year, 0);
    HasRemainder(100 * year, 4, 25 * year, 0);
    HasRemainder(100 * year, 400, year / 4, 100 * (year % 4));
    HasRemainder(4 * year, 4, year, 0);
    HasRemainder(4 * year, 100, year / 25, 4 * (year % 25));
  }

  /** The calendar repeats after 400 years of 146097 days. */
  lemma FourCenturies(d: Date)
    requires 1 <= d.month <= 12
    ensures DayNumber(Date(d.year + 400, d.month, d.day)) == DayNumber(d) + 146097
  {
    var y := d.year - 1;
    assert (y + 400) / 4 == y / 4 + 100 && (y + 400) / 100 == y / 100 + 4 && (y + 400) / 400 == y / 400 + 1;
    SameMonths(d.year, d.month);
  }

  lemma {:induction false} SameMonths(year: int, month: int)
    requires 1 <= month <= 13
    ensures DaysBeforeMonth(year + 400, month) == DaysBeforeMonth(year, month)
    decreases month
  {
    assert Leap(year + 400) == Leap(year);
    if month > 1 {
      SameMonths(year, month - 1);
    }
  }

  // ----- instants -----

  datatype Civil = Civil(date: Date, hour: int, minute: int, second: int)

  /** The wall clock in UTC, `t` seconds after the epoch. */
  function SplitUtc(t: int): Civil {
    var s := t % 86400;
    Civil(DateOf(t / 86400), s / 3600, s % 3600 / 60, s % 60)
  }

  function Seconds(c: Civil): int
    requires 1 <= c.date.month <= 12
  {
    86400 * DayNumber(c.date) + 3600 * c.hour + 60 * c.minute + c.second
  }

  lemma SplitSeconds(s: int)
    requires 0 <= s < 86400
    ensures 3600 * (s / 3600) + 60 * (s % 3600 / 60) + s % 60 == s
    ensures 0 <= s / 3600 <= 23 && 0 <= s % 3600 / 60 <= 59
  {
    var h, r := s / 3600, s % 3600;
    assert s == 60 * (60 * h + r / 60) + r % 60;
    assert s % 60 == r % 60;
  }

  lemma SplitRoundTrip(t: int)
    ensures var c := SplitUtc(t);
      && ValidDate(c.date) && Seconds(c) == t
      && 86400 * DayNumber(c.date) + 3600 * c.hour + 60 * c.minute + c.second == t
      && 0 <= c.hour <= 23 && 0 <= c.minute <= 59 && 0 <= c.second <= 59
  {
    SplitSeconds(t % 86400);
    DateRoundTrip(t / 86400);
  }
}
