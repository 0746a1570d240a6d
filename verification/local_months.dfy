/** Months on the time line and months on the local clock: where an instant's accounting month is the
    month of its local date, and which month a posting date belongs to. */
module LocalMonths {
  import opened Wrappers
  import opened Calendar
  import opened AccountingMonth
  import opened PostingDate

  /** The number of a date's month, January 2020 being the first. */
  function MonthIndex(d: Date): int { (d.year - MIN_YEAR) * 12 + d.month - 1 }

  function LocalDate(offset: Offset, t: int): Date
    requires LocalTime(offset, t) >= 0
  {
    DateOf(LocalTime(offset, t) / DAY)
  }

  lemma IndexOfMonth(d: Date)
    requires IsDate(d) && d.year >= MIN_YEAR
    ensures var k := MonthIndex(d); k >= 0 && MIN_YEAR + k / 12 == d.year && k % 12 + 1 == d.month
  {
  }

  lemma WallsAscend(j: nat, k: nat)
    requires j <= k
    ensures WallOf(j) <= WallOf(k)
  {
    if j < k { WallsIncrease(j, k); }
  }

  lemma WholeIsWhole(days: int)
    ensures days * DAY % DAY == 0
  {
  }

  lemma WallIsWhole(k: nat)
    ensures WallOf(k) % DAY == 0
  {
    WholeIsWhole(DayNumber(Date(MIN_YEAR + k / 12, k % 12 + 1, 1)));
  }

  lemma DateLiesInItsMonth(d: Date)
    requires IsDate(d) && d.year >= MIN_YEAR
    ensures var k: nat := MonthIndex(d); WallOf(k) <= DayNumber(d) * DAY < WallOf(k + 1)
  {
    var k: nat := MonthIndex(d);
    IndexOfMonth(d);
    MonthLength(k);
    assert DayNumber(d) * DAY == WallOf(k) + (d.day - 1) * DAY;
  }

  lemma EarlyDate(d: Date)
    requires IsDate(d) && d.year < MIN_YEAR
    ensures DayNumber(d) * DAY < WallOf(0)
  {
    WithinYear(d);
    YearsGrow(d.year + 1, MIN_YEAR);
  }

  lemma MonthsAreApart(x: int, j: nat, k: nat)
    requires WallOf(j) <= x < WallOf(j + 1) && j != k
    ensures !(WallOf(k) <= x < WallOf(k + 1))
  {
    if k < j { WallsAscend(k + 1, j); } else { WallsAscend(j + 1, k); }
  }

  /** The days of a month are those from its first to the next month's first. */
  lemma DaysOfMonth(d: Date, k: nat)
    requires IsDate(d)
    ensures MonthIndex(d) == k <==> WallOf(k) <= DayNumber(d) * DAY < WallOf(k + 1)
  {
    if d.year < MIN_YEAR {
      EarlyDate(d);
      WallsAscend(0, k);
    } else {
      DateLiesInItsMonth(d);
      if MonthIndex(d) != k { MonthsAreApart(DayNumber(d) * DAY, MonthIndex(d), k); }
    }
  }

  lemma WholeDays(local: nat, wall: int)
    requires wall % DAY == 0
    ensures wall <= local <==> wall <= local / DAY * DAY
  {
    var (q, days) := (local / DAY, wall / DAY);
    assert local == q * DAY + local % DAY && wall == days * DAY;
    if days <= q { assert days * DAY <= q * DAY; } else { assert days * DAY >= (q + 1) * DAY; }
  }

  /** The local date lies in a month exactly while the local clock stands within it. */
  lemma LocalDateInMonth(offset: Offset, t: int, k: nat)
    requires LocalTime(offset, t) >= 0
    ensures MonthIndex(LocalDate(offset, t)) == k <==> WallOf(k) <= LocalTime(offset, t) < WallOf(k + 1)
  {
    var local := LocalTime(offset, t);
    NumberOfDate(local / DAY);
    DaysOfMonth(LocalDate(offset, t), k);
    WallIsWhole(k);
    WallIsWhole(k + 1);
    WholeDays(local, WallOf(k));
    WholeDays(local, WallOf(k + 1));
  }

  /** An instant of an accounting month has its local date in that month exactly when the clock has not
      been set back since the month's start by more than has passed since, nor will be set back by the
      month's end by as much as is left. */
  lemma MonthIsLocalMonthExactly(offset: Offset, t: int, k: nat)
    requires StartOf(offset, k).Some? && StartOf(offset, k + 1).Some? && LocalTime(offset, t) >= 0
    requires StartOf(offset, k).value <= t < StartOf(offset, k + 1).value
    ensures var (s, e) := (StartOf(offset, k).value, StartOf(offset, k + 1).value);
            MonthIndex(LocalDate(offset, t)) == k
            <==> (offset(s) - offset(t)) * MINUTE <= t - s && (offset(t) - offset(e)) * MINUTE < e - t
  {
    LocalDateInMonth(offset, t, k);
    StartShowsWall(offset, k);
    StartShowsWall(offset, k + 1);
  }

  lemma StartShowsWall(offset: Offset, k: nat)
    requires StartOf(offset, k).Some?
    ensures LocalTime(offset, StartOf(offset, k).value) == WallOf(k)
  {
  }

  /** The offset does not change within two days of an instant. */
  ghost predicate Steady(offset: Offset, s: int) {
    forall t | s - 2 * DAY < t < s + 2 * DAY :: offset(t) == offset(s)
  }

  /** Month `k` has a start, and the clock is not changed around it. */
  ghost predicate SteadyStart(offset: Offset, k: nat) {
    StartOf(offset, k).Some? && Steady(offset, StartOf(offset, k).value)
  }

  /** When no clock is changed around the starts of a month and of the next, every instant of the month
      has its local date in it. */
  lemma SteadyMonthIsLocal(offset: Offset, t: int, k: nat)
    requires WithinADay(offset) && SteadyStart(offset, k) && SteadyStart(offset, k + 1) && LocalTime(offset, t) >= 0
    requires StartOf(offset, k).value <= t < StartOf(offset, k + 1).value
    ensures MonthIndex(LocalDate(offset, t)) == k
  {
    MonthIsLocalMonthExactly(offset, t, k);
    assert -2880 < offset(t) - offset(StartOf(offset, k).value) < 2880;
    assert -2880 < offset(t) - offset(StartOf(offset, k + 1).value) < 2880;
  }

  /** On a steady clock, the instants whose local date is in a month are those of the month's period. */
  lemma InstantIsInPeriod(offset: Offset, t: int, k: nat)
    requires WithinADay(offset) && SteadyStart(offset, k) && SteadyStart(offset, k + 1)
    requires WallOf(k) <= LocalTime(offset, t) < WallOf(k + 1)
    ensures StartOf(offset, k).value <= t < StartOf(offset, k + 1).value
  {
    StartShowsWall(offset, k);
    StartShowsWall(offset, k + 1);
    assert -2880 < offset(t) - offset(StartOf(offset, k).value) < 2880;
    assert -2880 < offset(t) - offset(StartOf(offset, k + 1).value) < 2880;
  }

  /** The months that posting dates fall in: January 2020 to December 9999. */
  const MONTHS: nat := 12 * (MAX_YEAR - MIN_YEAR + 1)

  /** The starts of the months, where they have one. */
  function StartsOf(offset: Offset): nat -> Option<int> { (k: nat) => StartOf(offset, k) }

  /** An instant lies in a month's period, from its start to the next month's start. */
  predicate InPeriod(starts: nat -> Option<int>, k: nat, t: int) {
    && starts(k).Some? && starts(k + 1).Some?
    && starts(k).value <= t < starts(k + 1).value
  }

  ghost predicate Ascending(starts: nat -> Option<int>) {
    forall j: nat, k: nat | j < k && starts(j).Some? && starts(k).Some? :: starts(j).value < starts(k).value
  }

  lemma StartsAscend(offset: Offset)
    requires WithinADay(offset)
    ensures Ascending(StartsOf(offset))
  {
    var starts := StartsOf(offset);
    forall j: nat, k: nat | j < k && starts(j).Some? && starts(k).Some? ensures starts(j).value < starts(k).value {
      StartsIncrease(offset, j, k);
    }
  }

  lemma OnlyPeriod(starts: nat -> Option<int>, t: int, k: nat)
    requires Ascending(starts) && InPeriod(starts, k, t)
    ensures forall j: nat | InPeriod(starts, j, t) :: j == k
  {
  }

  /** An accepted posting date names one of the months, that of its day. */
  lemma PostingDateNamesItsMonth(d: Date)
    requires IsPostable(d)
    ensures var k := MonthIndex(d);
            0 <= k < MONTHS && Parse(Format(d)) == Ok(PostingDate(Format(d), MIN_YEAR + k / 12, k % 12 + 1))
  {
    ParseOfFormat(d);
    IndexOfMonth(d);
  }

  lemma DateIsInPeriod(offset: Offset, t: int, k: nat)
    requires WithinADay(offset) && LocalTime(offset, t) >= 0 && MonthIndex(LocalDate(offset, t)) == k
    requires SteadyStart(offset, k) && SteadyStart(offset, k + 1)
    ensures InPeriod(StartsOf(offset), k, t)
  {
    LocalDateInMonth(offset, t, k);
    InstantIsInPeriod(offset, t, k);
  }

  /** Where no clock is changed around the starts of a date's month and of the next, every instant of
      the day lies in the period of that month and in no other. */
  lemma DayFallsInOnePeriod(d: Date, offset: Offset, t: int, k: nat)
    requires WithinADay(offset) && LocalTime(offset, t) >= 0 && LocalDate(offset, t) == d && MonthIndex(d) == k
    requires SteadyStart(offset, k) && SteadyStart(offset, k + 1)
    ensures InPeriod(StartsOf(offset), k, t) && forall j: nat | InPeriod(StartsOf(offset), j, t) :: j == k
  {
    DateIsInPeriod(offset, t, k);
    StartsAscend(offset);
    OnlyPeriod(StartsOf(offset), t, k);
  }
}
