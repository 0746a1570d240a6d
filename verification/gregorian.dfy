/** The calendar against the Gregorian calendar's own arithmetic, and posting dates character by character. */
module Gregorian {
  import opened Wrappers
  import opened Calendar
  import opened AccountingMonth
  import opened PostingDate

  /** Every fourth year, but of the centuries only every fourth. */
  predicate Leap(year: int) { (year % 4 == 0 && year % 100 != 0) || year % 400 == 0 }

  predicate IsLong(month: int) { month == 1 || month == 3 || month == 5 || month == 7 || month == 8 || month == 10 || month == 12 }
  predicate IsShort(month: int) { month == 4 || month == 6 || month == 9 || month == 11 }

  /* ---- Where the months of a year begin ---- */

  lemma BeforeJune(year: int)
    ensures DaysBefore(year, 4) == DaysBefore(year, 3) + 31
    ensures DaysBefore(year, 5) == DaysBefore(year, 3) + 61
    ensures DaysBefore(year, 6) == DaysBefore(year, 3) + 92
  {
  }

  lemma BeforeSeptember(year: int)
    ensures DaysBefore(year, 7) == DaysBefore(year, 6) + 30
    ensures DaysBefore(year, 8) == DaysBefore(year, 6) + 61
    ensures DaysBefore(year, 9) == DaysBefore(year, 6) + 92
  {
  }

  lemma BeforeDecember(year: int)
    ensures DaysBefore(year, 10) == DaysBefore(year, 9) + 30
    ensures DaysBefore(year, 11) == DaysBefore(year, 9) + 61
    ensures DaysBefore(year, 12) == DaysBefore(year, 9) + 91
  {
  }

  /** From March on, the months of every year begin where five months of 153 days put them. */
  lemma MonthsFromMarch(year: int, month: int)
    requires 3 <= month <= 12
    ensures DayNumber(Date(year, month, 1)) - DayNumber(Date(year, 3, 1)) == (153 * (month - 3) + 2) / 5
  {
    BeforeJune(year);
    BeforeSeptember(year);
    BeforeDecember(year);
  }

  /** January has 31 days, February 28 or in a leap year 29, and the next year begins 306 days behind the
      first of March. */
  lemma MonthsToMarch(year: int)
    ensures DayNumber(Date(year, 2, 1)) - DayNumber(Date(year, 1, 1)) == 31
    ensures DayNumber(Date(year, 3, 1)) - DayNumber(Date(year, 2, 1)) == (if Leap(year) then 29 else 28)
    ensures DayNumber(Date(year + 1, 1, 1)) - DayNumber(Date(year, 3, 1)) == 306
  {
    YearLength(year);
    MonthsOfYear(year);
    BeforeJune(year);
    BeforeSeptember(year);
    BeforeDecember(year);
    LeapYearsAgree(year);
    assert DaysBefore(year, 1) == 0 && DaysBefore(year + 1, 1) == 0 && DaysBefore(year, 2) == 31;
  }

  /** Days are counted from the first of January 1970; four hundred years have 146,097 of them. */
  lemma DaysAreAnchored(year: int)
    ensures DayNumber(Date(1970, 1, 1)) == 0 && DayNumber(Date(2000, 3, 1)) == 11_017
    ensures DayNumber(Date(year + 400, 1, 1)) == DayNumber(Date(year, 1, 1)) + 146_097
  {
    assert DaysBefore(1970, 1) == 0 && DaysBefore(year, 1) == 0 && DaysBefore(year + 400, 1) == 0;
    assert DaysBefore(2000, 2) == 31 && DaysBefore(2000, 3) == 60;
    FourCenturies(year);
  }

  lemma FourCenturies(year: int)
    ensures DayOfYear(year + 400) == DayOfYear(year) + 146_097
  {
    assert (year + 400 - 1969) / 4 == (year - 1969) / 4 + 100;
    assert (year + 400 - 1901) / 100 == (year - 1901) / 100 + 4;
    assert (year + 400 - 1601) / 400 == (year - 1601) / 400 + 1;
  }

  /** The length of a month. */
  function Days(year: int, month: int): int {
    if IsLong(month) then 31 else if IsShort(month) then 30 else if Leap(year) then 29 else 28
  }

  lemma LeapYearsAgree(year: int)
    ensures IsLeapYear(year) <==> Leap(year)
  {
    if year % 400 == 0 {
      assert year == 4 * (100 * (year / 400));
      FourTimes(100 * (year / 400));
    }
  }

  lemma FourTimes(q: int)
    ensures (4 * q) % 4 == 0
  {
  }

  lemma LengthsAreDays(year: int, month: int)
    requires 1 <= month <= 12
    ensures DaysInMonth(year, month) == Days(year, month)
  {
    LeapYearsAgree(year);
  }

  /** On a clock without an offset a month lasts its days of 86,400,000 milliseconds. */
  lemma MonthLasts(year: int, month: int)
    requires 1 <= month <= 12
    ensures var (y, m) := if month == 12 then (year + 1, 1) else (year, month + 1);
            WallClock(y, m) - WallClock(year, month) == Days(year, month) * 86_400_000
  {
    LengthsAreDays(year, month);
    if month == 12 {
      YearLength(year);
      MonthsOfYear(year);
      assert DaysBefore(year + 1, 1) == 0;
    }
  }

  lemma WallClockIsAnchored()
    ensures WallClock(1970, 1) == 0 && WallClock(2000, 3) == 951_868_800_000
  {
    DaysAreAnchored(0);
  }

  /* ---- Posting dates, character by character ---- */

  function Value(c: char): int { c as int - 48 }

  predicate IsDecimal(c: char) { 48 <= c as int <= 57 }

  lemma TwoDigits(s: string)
    requires |s| == 2
    ensures Number(s) == 10 * Value(s[0]) + Value(s[1])
  {
    var t := s[..1];
    assert t[..0] == [] && Number([]) == 0;
    assert Number(t) == Value(s[0]);
  }

  lemma FourDigits(s: string)
    requires |s| == 4
    ensures Number(s) == 1000 * Value(s[0]) + 100 * Value(s[1]) + 10 * Value(s[2]) + Value(s[3])
  {
    TwoDigits(s[..2]);
    assert s[..3][..2] == s[..2] && s[..4] == s;
    assert Number(s[..3]) == Number(s[..2]) * 10 + Value(s[2]);
  }

  predicate HasForm(s: string) {
    && |s| == 10 && s[4] == '-' && s[7] == '-'
    && IsDecimal(s[0]) && IsDecimal(s[1]) && IsDecimal(s[2]) && IsDecimal(s[3])
    && IsDecimal(s[5]) && IsDecimal(s[6]) && IsDecimal(s[8]) && IsDecimal(s[9])
  }

  function YearOf(s: string): int
    requires HasForm(s)
  {
    1000 * Value(s[0]) + 100 * Value(s[1]) + 10 * Value(s[2]) + Value(s[3])
  }

  function MonthOf(s: string): int
    requires HasForm(s)
  {
    10 * Value(s[5]) + Value(s[6])
  }

  function DayOf(s: string): int
    requires HasForm(s)
  {
    10 * Value(s[8]) + Value(s[9])
  }

  lemma FormsAgree(s: string)
    ensures HasDateForm(s) <==> HasForm(s)
  {
    if |s| == 10 {
      assert s[..4][0] == s[0] && s[..4][1] == s[1] && s[..4][2] == s[2] && s[..4][3] == s[3];
      assert s[5..7][0] == s[5] && s[5..7][1] == s[6] && s[8..][0] == s[8] && s[8..][1] == s[9];
    }
  }

  lemma NumbersAreRead(s: string)
    requires HasForm(s)
    ensures Number(s[..4]) == YearOf(s) && Number(s[5..7]) == MonthOf(s) && Number(s[8..]) == DayOf(s)
  {
    FourDigits(s[..4]);
    TwoDigits(s[5..7]);
    TwoDigits(s[8..]);
  }

  predicate IsDay(y: int, m: int, d: int) {
    1 <= d && ((IsLong(m) && d <= 31) || (IsShort(m) && d <= 30) || (m == 2 && d <= if Leap(y) then 29 else 28))
  }

  lemma DaysDecide(y: int, m: int, d: int)
    ensures IsDay(y, m, d) <==> 1 <= m <= 12 && 1 <= d <= DaysInMonth(y, m)
  {
    if 1 <= m <= 12 { LengthsAreDays(y, m); }
  }

  /** A text is accepted exactly when it spells, year, month, day, a day of the years 2020 to 9999: of the
      months with 31 days, of those with 30, or of February. */
  lemma AcceptsExactly(s: string)
    ensures Parse(s).Ok? <==> HasForm(s) && 2020 <= YearOf(s) <= 9999 && IsDay(YearOf(s), MonthOf(s), DayOf(s))
    ensures Parse(s).Ok? ==> Parse(s).value == PostingDate(s, YearOf(s), MonthOf(s))
  {
    FormsAgree(s);
    if HasForm(s) {
      NumbersAreRead(s);
      DaysDecide(YearOf(s), MonthOf(s), DayOf(s));
    }
  }

  /* ---- The loop of local midnights, candidate by candidate ---- */

  /** The wall time, corrected so many times by the offset found at the last correction. */
  function Candidate(offset: Offset, wall: int, n: nat): int {
    if n == 0 then wall else wall - offset(Candidate(offset, wall, n - 1)) * 60_000
  }

  /** From a candidate that its correction leaves as it is, all further ones are the same. */
  lemma {:induction false} CandidateSettles(offset: Offset, wall: int, j: nat, n: nat)
    requires j <= n && Candidate(offset, wall, j + 1) == Candidate(offset, wall, j)
    ensures Candidate(offset, wall, n) == Candidate(offset, wall, j)
  {
    if j < n { CandidateSettles(offset, wall, j, n - 1); }
  }

  /** One of the offsets asked for cannot be read. */
  ghost predicate Unreadable(offset: Offset, wall: int, j: nat, n: nat) {
    exists k: nat :: j <= k < j + n && offset(Candidate(offset, wall, k)) == 0
  }

  lemma {:induction false} SettleIsCandidate(offset: Offset, wall: int, j: nat, attempts: nat)
    ensures var s := Settle(offset, wall, Candidate(offset, wall, j), attempts);
            if Unreadable(offset, wall, j, attempts) then s == None
            else s == Some(Candidate(offset, wall, j + attempts))
    decreases attempts
  {
    if attempts > 0 && offset(Candidate(offset, wall, j)) != 0 {
      if Candidate(offset, wall, j + 1) == Candidate(offset, wall, j) {
        forall k: nat | j <= k <= j + attempts ensures Candidate(offset, wall, k) == Candidate(offset, wall, j) {
          CandidateSettles(offset, wall, j, k);
        }
      } else {
        SettleIsCandidate(offset, wall, j + 1, attempts - 1);
      }
    }
  }

  /** A month's midnight is the fourth candidate, if none of the four offsets asked for is zero and the
      clock shows the wall time there. */
  lemma MidnightIsTheFourthCandidate(offset: Offset, wall: int)
    ensures var c := Candidate(offset, wall, 4);
            ResolveMidnight(offset, wall)
            == if Unreadable(offset, wall, 0, 4) then Err(UnsupportedOffset)
               else if c + offset(c) * 60_000 == wall then Ok(c) else Err(Unresolved)
  {
    SettleIsCandidate(offset, wall, 0, 4);
  }

  /** The months numbered from January 2020 follow one another in the calendar. */
  lemma NextMonthFollows(k: nat)
    ensures NextMonth(2020 + k / 12, k % 12 + 1) == (2020 + (k + 1) / 12, (k + 1) % 12 + 1)
    ensures StartOf((t: int) => 0, k) == MonthStart((t: int) => 0, 2020 + k / 12, k % 12 + 1)
  {
    if k % 12 < 11 {
      assert (k + 1) / 12 == k / 12 && (k + 1) % 12 == k % 12 + 1;
    } else {
      assert (k + 1) / 12 == k / 12 + 1 && (k + 1) % 12 == 0;
    }
  }
}
