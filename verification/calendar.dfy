/** The Gregorian calendar from 1970 on: dates day by day, and the day number of a date by formula. */
module Calendar {

  datatype Date = Date(year: int, month: int, day: int)

  predicate IsLeapYear(year: int) { year % 4 == 0 && (year % 100 != 0 || year % 400 == 0) }

  function DaysInMonth(year: int, month: int): int {
    if month == 2 then if IsLeapYear(year) then 29 else 28
    else if month == 4 || month == 6 || month == 9 || month == 11 then 30 else 31
  }

  predicate IsDate(d: Date) {
    d.year >= 1970 && 1 <= d.month <= 12 && 1 <= d.day <= DaysInMonth(d.year, d.month)
  }

  function Tomorrow(d: Date): Date {
    if d.day < DaysInMonth(d.year, d.month) then Date(d.year, d.month, d.day + 1)
    else if d.month < 12 then Date(d.year, d.month + 1, 1)
    else Date(d.year + 1, 1, 1)
  }

  /** The date `n` days after the first of January 1970, one day after the other. */
  function DateOf(n: nat): (d: Date)
    ensures IsDate(d)
  {
    if n == 0 then Date(1970, 1, 1) else Tomorrow(DateOf(n - 1))
  }

  /** Days from the first of January 1970 to the first day of a year. */
  function DayOfYear(year: int): int {
    365 * (year - 1970) + (year - 1969) / 4 - (year - 1901) / 100 + (year - 1601) / 400
  }

  function DaysBefore(year: int, month: int): int
    decreases month
  {
    if month <= 1 then 0 else DaysBefore(year, month - 1) + DaysInMonth(year, month - 1)
  }

  function DayNumber(d: Date): int { DayOfYear(d.year) + DaysBefore(d.year, d.month) + d.day - 1 }

  lemma By4(x: int, q: int, r: int)
    requires x == 4 * q + r && 0 <= r < 4
    ensures x / 4 == q && x % 4 == r
  {
  }

  lemma By100(x: int, q: int, r: int)
    requires x == 100 * q + r && 0 <= r < 100
    ensures x / 100 == q && x % 100 == r
  {
  }

  lemma By400(x: int, q: int, r: int)
    requires x == 400 * q + r && 0 <= r < 400
    ensures x / 400 == q && x % 400 == r
  {
  }

  /** A year in its cycle of four hundred, of one hundred and of four years. */
  lemma Cycles(year: int, c: int, h: int, f: int, r: int)
    requires year == 400 * c + 100 * h + 4 * f + r && 0 <= h < 4 && 0 <= f < 25 && 0 <= r < 4
    ensures (year - 1601) / 400 == c - 5 + (if h == 0 && f == 0 && r == 0 then 0 else 1)
    ensures (year - 1901) / 100 == 4 * c + h - 20 + (if f == 0 && r == 0 then 0 else 1)
    ensures (year - 1969) / 4 == 100 * c + 25 * h + f - 493 + (if r == 0 then 0 else 1)
    ensures IsLeapYear(year) <==> r == 0 && (f != 0 || h == 0)
  {
    By4(year, 100 * c + 25 * h + f, r);
    By100(year, 4 * c + h, 4 * f + r);
    By400(year, c, 100 * h + 4 * f + r);
    if h == 0 && f == 0 && r == 0 { By400(year - 1601, c - 5, 399); } else { By400(year - 1601, c - 4, 100 * h + 4 * f + r - 1); }
    if f == 0 && r == 0 { By100(year - 1901, 4 * c + h - 20, 99); } else { By100(year - 1901, 4 * c + h - 19, 4 * f + r - 1); }
    if r == 0 { By4(year - 1969, 100 * c + 25 * h + f - 493, 3); } else { By4(year - 1969, 100 * c + 25 * h + f - 492, r - 1); }
  }

  lemma YearLength(year: int)
    ensures DayOfYear(year + 1) == DayOfYear(year) + if IsLeapYear(year) then 366 else 365
  {
    var (c, rest) := (year / 400, year % 400);
    var (h, f, r) := (rest / 100, rest % 100 / 4, rest % 100 % 4);
    Cycles(year, c, h, f, r);
    if r < 3 {
      Cycles(year + 1, c, h, f, r + 1);
    } else if f < 24 {
      Cycles(year + 1, c, h, f + 1, 0);
    } else if h < 3 {
      Cycles(year + 1, c, h + 1, 0, 0);
    } else {
      Cycles(year + 1, c + 1, 0, 0, 0);
    }
  }

  lemma MonthsOfYear(year: int)
    ensures DaysBefore(year, 12) + 31 == if IsLeapYear(year) then 366 else 365
  {
    assert DaysBefore(year, 3) == 31 + DaysInMonth(year, 2);
    assert DaysBefore(year, 6) == DaysBefore(year, 3) + 92;
    assert DaysBefore(year, 9) == DaysBefore(year, 6) + 92;
    assert DaysBefore(year, 12) == DaysBefore(year, 9) + 91;
  }

  lemma TomorrowIsNext(d: Date)
    requires IsDate(d)
    ensures IsDate(Tomorrow(d)) && DayNumber(Tomorrow(d)) == DayNumber(d) + 1
  {
    if d.day == DaysInMonth(d.year, d.month) && d.month == 12 {
      YearLength(d.year);
      MonthsOfYear(d.year);
    }
  }

  /** The formula counts the days. */
  lemma {:induction false} NumberOfDate(n: nat)
    ensures DayNumber(DateOf(n)) == n
  {
    if n > 0 {
      NumberOfDate(n - 1);
      TomorrowIsNext(DateOf(n - 1));
    }
  }

  /** Every real date is reached. */
  lemma {:induction false} DateOfNumber(d: Date)
    requires IsDate(d)
    ensures DayNumber(d) >= 0 && DateOf(DayNumber(d)) == d
    decreases d.year, d.month, d.day
  {
    if d == Date(1970, 1, 1) {
      assert DayNumber(d) == 0;
    } else {
      var before := Yesterday(d);
      DateOfNumber(before);
      TomorrowIsNext(before);
    }
  }

  function Yesterday(d: Date): (y: Date)
    requires IsDate(d) && d != Date(1970, 1, 1)
    ensures IsDate(y) && Tomorrow(y) == d
  {
    if d.day > 1 then Date(d.year, d.month, d.day - 1)
    else if d.month > 1 then Date(d.year, d.month - 1, DaysInMonth(d.year, d.month - 1))
    else Date(d.year - 1, 12, 31)
  }
}
