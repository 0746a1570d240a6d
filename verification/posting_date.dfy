/** Posting dates in canonical form, `YYYY-MM-DD`. */
module PostingDate {
  import opened Wrappers
  import opened Calendar
  import opened AccountingMonth

  datatype PostingDate = PostingDate(value: string, year: int, month: int)

  datatype DateError = InvalidPostingDate

  predicate IsDigit(c: char) { '0' <= c <= '9' }

  function Digit(c: char): int { c as int - '0' as int }

  /** The number that decimal digits spell. */
  function Number(s: string): int {
    if s == [] then 0 else Number(s[..|s| - 1]) * 10 + Digit(s[|s| - 1])
  }

  predicate Digits(s: string) { forall k | 0 <= k < |s| :: IsDigit(s[k]) }

  /** `^(\d{4})-(\d{2})-(\d{2})$`. */
  predicate HasDateForm(s: string) {
    |s| == 10 && Digits(s[..4]) && s[4] == '-' && Digits(s[5..7]) && s[7] == '-' && Digits(s[8..])
  }

  function Parse(value: string): Result<PostingDate, DateError> {
    if !HasDateForm(value) then Err(InvalidPostingDate)
    else
      var (year, month, day) := (Number(value[..4]), Number(value[5..7]), Number(value[8..]));
      if year < MIN_YEAR || year > MAX_YEAR || month < 1 || month > 12 then Err(InvalidPostingDate)
      else if day < 1 || day > DaysInMonth(year, month) then Err(InvalidPostingDate)
      else Ok(PostingDate(value, year, month))
  }

  /** The last `width` decimal digits of a number. */
  function Spell(n: nat, width: nat): (s: string)
    ensures |s| == width && Digits(s)
  {
    if width == 0 then []
    else
      var s := Spell(n / 10, width - 1);
      s + [('0' as int + n % 10) as char]
  }

  function Format(d: Date): string
    requires d.year >= 0 && d.month >= 0 && d.day >= 0
  {
    Spell(d.year, 4) + "-" + Spell(d.month, 2) + "-" + Spell(d.day, 2)
  }

  function Power(width: nat): nat { if width == 0 then 1 else 10 * Power(width - 1) }

  lemma {:induction false} NumberOfSpelling(n: nat, width: nat)
    requires n < Power(width)
    ensures Number(Spell(n, width)) == n
  {
    if width > 0 {
      NumberOfSpelling(n / 10, width - 1);
      var s := Spell(n, width);
      assert s[..|s| - 1] == Spell(n / 10, width - 1);
    }
  }

  lemma {:induction false} SpellingOfNumber(s: string)
    requires Digits(s)
    ensures 0 <= Number(s) < Power(|s|) && Spell(Number(s), |s|) == s
  {
    if s != [] {
      var (front, last) := (s[..|s| - 1], s[|s| - 1]);
      SpellingOfNumber(front);
      TensAndOnes(Number(front), Digit(last));
      assert s == front + [last];
    }
  }

  lemma TensAndOnes(tens: int, ones: int)
    requires 0 <= ones < 10
    ensures (tens * 10 + ones) / 10 == tens && (tens * 10 + ones) % 10 == ones
  {
  }

  /** The dates that may be posted to: the real dates of the years 2020 to 9999. */
  predicate IsPostable(d: Date) { IsDate(d) && MIN_YEAR <= d.year <= MAX_YEAR }

  lemma FormatParts(d: Date)
    requires IsPostable(d)
    ensures var s := Format(d);
            HasDateForm(s) && s[..4] == Spell(d.year, 4) && s[5..7] == Spell(d.month, 2) && s[8..] == Spell(d.day, 2)
  {
    var s := Format(d);
    assert s[..4] == Spell(d.year, 4);
    assert s[5..7] == Spell(d.month, 2);
    assert s[8..] == Spell(d.day, 2);
  }

  lemma Powers()
    ensures Power(2) == 100 && Power(4) == 10_000
  {
    assert Power(3) == 10 * Power(2);
  }

  /** What is formatted is accepted, with its year and month. */
  lemma ParseOfFormat(d: Date)
    requires IsPostable(d)
    ensures Parse(Format(d)) == Ok(PostingDate(Format(d), d.year, d.month))
  {
    FormatParts(d);
    Powers();
    NumberOfSpelling(d.year, 4);
    NumberOfSpelling(d.month, 2);
    NumberOfSpelling(d.day, 2);
  }

  /** What is accepted is one formatted real date. */
  lemma FormatOfParse(value: string) returns (d: Date)
    requires Parse(value).Ok?
    ensures IsPostable(d) && value == Format(d) && Parse(value).value == PostingDate(value, d.year, d.month)
  {
    d := Date(Number(value[..4]), Number(value[5..7]), Number(value[8..]));
    SpellingOfNumber(value[..4]);
    SpellingOfNumber(value[5..7]);
    SpellingOfNumber(value[8..]);
    assert value == value[..4] + [value[4]] + value[5..7] + [value[7]] + value[8..];
  }

  /** The accepted posting dates are exactly the days of the calendar from the first of January 2020
      to the last of December 9999, each written in one way. */
  lemma AcceptsExactlyTheDays(value: string)
    ensures Parse(value).Ok? <==>
              exists n: nat | DayNumber(Date(MIN_YEAR, 1, 1)) <= n <= DayNumber(Date(MAX_YEAR, 12, 31)) :: value == Format(DateOf(n))
  {
    var (first, last) := (DayNumber(Date(MIN_YEAR, 1, 1)), DayNumber(Date(MAX_YEAR, 12, 31)));
    if Parse(value).Ok? {
      var d := FormatOfParse(value);
      DateOfNumber(d);
      PostableDays(d);
      assert value == Format(DateOf(DayNumber(d)));
    }
    forall n: nat | first <= n <= last && value == Format(DateOf(n)) ensures Parse(value).Ok? {
      NumberOfDate(n);
      PostableDays(DateOf(n));
      ParseOfFormat(DateOf(n));
    }
  }

  /** A real date is postable exactly when its day number lies between the two ends. */
  lemma PostableDays(d: Date)
    requires IsDate(d)
    ensures IsPostable(d) <==> DayNumber(Date(MIN_YEAR, 1, 1)) <= DayNumber(d) <= DayNumber(Date(MAX_YEAR, 12, 31))
  {
    WithinYear(d);
    WithinYear(Date(MAX_YEAR, 12, 31));
    if d.year < MIN_YEAR {
      YearsGrow(d.year + 1, MIN_YEAR);
    } else if d.year > MAX_YEAR {
      YearsGrow(MAX_YEAR + 1, d.year);
    } else {
      YearsGrow(MIN_YEAR, d.year);
      YearsGrow(d.year, MAX_YEAR);
      if d.year < MAX_YEAR { YearsGrow(d.year + 1, MAX_YEAR); }
    }
  }

  lemma {:induction false} YearsGrow(a: int, b: int)
    requires a <= b
    ensures DayOfYear(a) <= DayOfYear(b)
    decreases b - a
  {
    if a < b {
      YearLength(a);
      YearsGrow(a + 1, b);
    }
  }

  lemma WithinYear(d: Date)
    requires IsDate(d)
    ensures DayOfYear(d.year) <= DayNumber(d) < DayOfYear(d.year + 1)
    ensures d.month == 12 && d.day == 31 ==> DayNumber(d) == DayOfYear(d.year + 1) - 1
  {
    YearLength(d.year);
    MonthsOfYear(d.year);
    MonthsWithin(d.year, d.month);
  }

  lemma {:induction false} MonthsWithin(year: int, month: int)
    requires 1 <= month <= 12
    ensures 0 <= DaysBefore(year, month) && DaysBefore(year, month) + DaysInMonth(year, month) <= DaysBefore(year, 12) + 31
    decreases 12 - month
  {
    MonthsCount(year, month);
    if month < 12 { MonthsWithin(year, month + 1); }
  }
}
