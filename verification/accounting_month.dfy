/** Accounting months: where a local month starts and ends on the time line, for any time zone whose
    offset is a whole number of minutes and less than a day. */
module AccountingMonth {
  import opened Wrappers
  import opened Calendar

  const MINUTE := 60_000
  const DAY := 86_400_000

  const MIN_YEAR := 2020
  const MAX_YEAR := 9999

  /** Minutes east of UTC at each instant, in milliseconds since 1970. */
  type Offset = int -> int

  ghost predicate WithinADay(offset: Offset) { forall t :: -1440 < offset(t) < 1440 }

  datatype MonthError = InvalidYear | InvalidMonth | UnsupportedOffset | Unresolved

  datatype Boundaries = Boundaries(startsAt: int, endsAt: int)

  /** The first moment of a month on a clock without an offset. */
  function WallClock(year: int, month: int): int { DayNumber(Date(year, month, 1)) * DAY }

  function LocalTime(offset: Offset, t: int): int { t + offset(t) * MINUTE }

  datatype Parts = Parts(date: Date, hour: int, minute: int, second: int)

  /** What a formatter shows of a local time. */
  function PartsOf(local: int): Parts
    requires local >= 0
  {
    Parts(DateOf(local / DAY), local % DAY / 3_600_000, local % DAY % 3_600_000 / MINUTE, local % DAY % MINUTE / 1000)
  }

  /** The offset as the formatter prints it: at zero it prints a bare `GMT`, which is not read. */
  function ReadOffset(offset: Offset, t: int): Option<int> {
    if offset(t) == 0 then None else Some(offset(t) * MINUTE)
  }

  /** The candidate after at most so many corrections, if every offset on the way can be read. */
  function Settle(offset: Offset, wall: int, candidate: int, attempts: nat): Option<int>
    decreases attempts
  {
    if attempts == 0 then Some(candidate)
    else
      match ReadOffset(offset, candidate)
      case None => None
      case Some(shift) =>
        if wall - shift == candidate then Some(candidate) else Settle(offset, wall, wall - shift, attempts - 1)
  }

  function ResolveMidnight(offset: Offset, wall: int): Result<int, MonthError> {
    match Settle(offset, wall, wall, 4)
    case None => Err(UnsupportedOffset)
    case Some(candidate) => if LocalTime(offset, candidate) == wall then Ok(candidate) else Err(Unresolved)
  }

  function MonthStart(offset: Offset, year: int, month: int): Option<int> {
    match ResolveMidnight(offset, WallClock(year, month))
    case Ok(start) => Some(start)
    case Err(_) => None
  }

  /* ---- Local midnights ---- */

  lemma {:induction false} SettleStaysNear(offset: Offset, wall: int, candidate: int, attempts: nat)
    requires WithinADay(offset) && wall - DAY < candidate < wall + DAY && (candidate - wall) % MINUTE == 0
    ensures var c := Settle(offset, wall, candidate, attempts);
            c.Some? ==> wall - DAY < c.value < wall + DAY && (c.value - wall) % MINUTE == 0
    decreases attempts
  {
    if attempts > 0 && offset(candidate) != 0 {
      var next := wall - offset(candidate) * MINUTE;
      assert (next - wall) % MINUTE == 0 by { assert next - wall == -offset(candidate) * MINUTE; }
      SettleStaysNear(offset, wall, next, attempts - 1);
    }
  }

  lemma DayIsAfter1970(year: int, month: int)
    requires year >= MIN_YEAR && 1 <= month <= 12
    ensures DayNumber(Date(year, month, 1)) >= 18_262
  {
    YearsCount(year);
    MonthsCount(year, month);
  }

  lemma {:induction false} YearsCount(year: int)
    requires year >= 2020
    ensures DayOfYear(year) >= 18_262
    decreases year
  {
    if year > 2020 {
      YearsCount(year - 1);
      YearLength(year - 1);
    }
  }

  lemma {:induction false} MonthsCount(year: int, month: int)
    ensures DaysBefore(year, month) >= 0
    decreases month
  {
    if month > 1 { MonthsCount(year, month - 1); }
  }

  /** Within whole minutes, the formatter shows the month's midnight exactly at the month's midnight. */
  lemma ShowsMidnightExactly(local: int, year: int, month: int)
    requires local >= 0 && local % MINUTE == 0 && year >= MIN_YEAR && 1 <= month <= 12
    ensures PartsOf(local) == Parts(Date(year, month, 1), 0, 0, 0) <==> local == WallClock(year, month)
  {
    var (n, rest) := (local / DAY, local % DAY);
    var d := Date(year, month, 1);
    DayIsAfter1970(year, month);
    NumberOfDate(n);
    DateOfNumber(d);
    if local == WallClock(year, month) {
      assert n == DayNumber(d) && rest == 0;
    } else if DateOf(n) == d {
      assert n == DayNumber(d) && local == n * DAY + rest && rest != 0;
      RestIsShown(rest, local);
    }
  }

  lemma RestIsShown(rest: int, local: int)
    requires 0 < rest < DAY && rest == local % DAY && local % MINUTE == 0
    ensures rest / 3_600_000 != 0 || rest % 3_600_000 / MINUTE != 0
  {
    assert rest >= MINUTE by {
      var q := local / DAY;
      assert local == q * DAY + rest;
      assert rest % MINUTE == 0 by { assert local == (local / MINUTE) * MINUTE; assert rest == (local / MINUTE - q * 1440) * MINUTE; }
    }
  }

  /** The loop's last candidate, accepted exactly when it is the local midnight that starts the month. */
  method ResolveLocalMidnight(offset: Offset, year: int, month: int) returns (resolved: Result<int, MonthError>)
    requires WithinADay(offset) && year >= MIN_YEAR && 1 <= month <= 12
    ensures resolved == ResolveMidnight(offset, WallClock(year, month))
  {
    var wall := WallClock(year, month);
    var candidate := wall;
    for attempt := 0 to 4
      invariant Settle(offset, wall, candidate, 4 - attempt) == Settle(offset, wall, wall, 4)
    {
      var shift := ReadOffset(offset, candidate);
      if shift.None? {
        return Err(UnsupportedOffset);
      }
      var next := wall - shift.value;
      if next == candidate {
        break;
      }
      candidate := next;
    }
    AcceptedExactly(offset, year, month, candidate);
    if PartsOf(LocalTime(offset, candidate)) != Parts(Date(year, month, 1), 0, 0, 0) {
      return Err(Unresolved);
    }
    return Ok(candidate);
  }

  /** The formatter shows the month's midnight at the loop's last candidate exactly when it is that midnight. */
  lemma AcceptedExactly(offset: Offset, year: int, month: int, candidate: int)
    requires WithinADay(offset) && year >= MIN_YEAR && 1 <= month <= 12
    requires Settle(offset, WallClock(year, month), WallClock(year, month), 4) == Some(candidate)
    ensures var local := LocalTime(offset, candidate);
            && local >= 0
            && (PartsOf(local) == Parts(Date(year, month, 1), 0, 0, 0) <==> local == WallClock(year, month))
  {
    var wall := WallClock(year, month);
    DayIsAfter1970(year, month);
    SettleStaysNear(offset, wall, wall, 4);
    WholeMinutes(wall, candidate, offset(candidate));
    ShowsMidnightExactly(LocalTime(offset, candidate), year, month);
  }

  lemma WholeMinutes(wall: int, candidate: int, minutes: int)
    requires wall % DAY == 0 && (candidate - wall) % MINUTE == 0
    ensures (candidate + minutes * MINUTE) % MINUTE == 0
  {
    var (a, b) := (wall / DAY, (candidate - wall) / MINUTE);
    assert candidate + minutes * MINUTE == (a * 1440 + b + minutes) * MINUTE;
  }

  function NextMonth(year: int, month: int): (int, int) {
    if month == 12 then (year + 1, 1) else (year, month + 1)
  }

  /** A month resolves exactly when it is in range and both it and the next month have a start; it then
      ends where the next one starts. */
  method ResolveBoundaries(offset: Offset, year: int, month: int) returns (resolved: Result<Boundaries, MonthError>)
    requires WithinADay(offset)
    ensures resolved.Ok? <==>
              && MIN_YEAR <= year <= MAX_YEAR && 1 <= month <= 12
              && MonthStart(offset, year, month).Some?
              && var (y, m) := NextMonth(year, month); MonthStart(offset, y, m).Some?
    ensures resolved.Ok? ==>
              var (y, m) := NextMonth(year, month);
              resolved.value == Boundaries(MonthStart(offset, year, month).value, MonthStart(offset, y, m).value)
    ensures resolved == Err(InvalidYear) <==> !(MIN_YEAR <= year <= MAX_YEAR)
  {
    if year < MIN_YEAR || year > MAX_YEAR {
      return Err(InvalidYear);
    }
    if month < 1 || month > 12 {
      return Err(InvalidMonth);
    }
    var nextYear := if month == 12 then year + 1 else year;
    var nextMonth := if month == 12 then 1 else month + 1;
    var startsAt :- ResolveLocalMidnight(offset, year, month);
    var endsAt :- ResolveLocalMidnight(offset, nextYear, nextMonth);
    return Ok(Boundaries(startsAt, endsAt));
  }

  /* ---- Months tile time ---- */

  /** The months from January 2020 on, numbered. */
  function StartOf(offset: Offset, k: nat): Option<int> { MonthStart(offset, MIN_YEAR + k / 12, k % 12 + 1) }
  function WallOf(k: nat): int { WallClock(MIN_YEAR + k / 12, k % 12 + 1) }

  lemma MonthLength(k: nat)
    ensures WallOf(k + 1) == WallOf(k) + DaysInMonth(MIN_YEAR + k / 12, k % 12 + 1) * DAY
  {
    var (year, month) := (MIN_YEAR + k / 12, k % 12 + 1);
    if month < 12 {
      assert (k + 1) / 12 == k / 12 && (k + 1) % 12 == k % 12 + 1;
    } else {
      assert (k + 1) / 12 == k / 12 + 1 && (k + 1) % 12 == 0;
      YearLength(year);
      MonthsOfYear(year);
    }
  }

  lemma {:induction false} WallsIncrease(j: nat, k: nat)
    requires j < k
    ensures WallOf(k) >= WallOf(j) + 28 * DAY
  {
    MonthLength(k - 1);
    if j < k - 1 { WallsIncrease(j, k - 1); }
  }

  /** Later months start later, whatever the offset does. */
  lemma StartsIncrease(offset: Offset, j: nat, k: nat)
    requires WithinADay(offset) && j < k && StartOf(offset, j).Some? && StartOf(offset, k).Some?
    ensures StartOf(offset, j).value < StartOf(offset, k).value
  {
    WallsIncrease(j, k);
    var (s, t) := (StartOf(offset, j).value, StartOf(offset, k).value);
    assert LocalTime(offset, s) == WallOf(j) && LocalTime(offset, t) == WallOf(k);
  }

  /** The starts of the first `n + 1` months, when all of them resolve. */
  function Starts(offset: Offset, n: nat): (starts: seq<int>)
    requires forall k: nat | k <= n :: StartOf(offset, k).Some?
    ensures |starts| == n + 1 && forall k | 0 <= k <= n :: starts[k] == StartOf(offset, k).value
  {
    seq(n + 1, k requires 0 <= k <= n => StartOf(offset, k).value)
  }

  predicate Increasing(s: seq<int>) { forall i, j | 0 <= i < j < |s| :: s[i] < s[j] }

  predicate Between(s: seq<int>, k: nat, t: int) { k + 1 < |s| && s[k] <= t < s[k + 1] }

  /** An increasing list cuts the line between its ends into pieces: each point lies in exactly one. */
  lemma {:induction false} OnePiece(s: seq<int>, t: int) returns (k: nat)
    requires Increasing(s) && s != [] && s[0] <= t < s[|s| - 1]
    ensures Between(s, k, t) && forall j: nat | Between(s, j, t) :: j == k
  {
    var last := |s| - 1;
    if t >= s[last - 1] {
      k := last - 1;
    } else {
      k := OnePiece(s[..last], t);
      forall j: nat | Between(s, j, t) ensures j == k {
        assert j < last - 1 ==> Between(s[..last], j, t);
      }
    }
  }

  lemma StartsAreIncreasing(offset: Offset, n: nat)
    requires WithinADay(offset) && forall j: nat | j <= n :: StartOf(offset, j).Some?
    ensures Increasing(Starts(offset, n))
  {
    var starts := Starts(offset, n);
    forall i, j | 0 <= i < j < |starts| ensures starts[i] < starts[j] {
      StartsIncrease(offset, i, j);
    }
  }

  /** Every instant between the first start and the last lies in exactly one month, from its start to
      the start of the next. */
  lemma MonthsTileTime(offset: Offset, n: nat, t: int) returns (k: nat)
    requires WithinADay(offset) && forall j: nat | j <= n :: StartOf(offset, j).Some?
    requires StartOf(offset, 0).value <= t < StartOf(offset, n).value
    ensures Between(Starts(offset, n), k, t) && forall j: nat | Between(Starts(offset, n), j, t) :: j == k
  {
    StartsAreIncreasing(offset, n);
    k := OnePiece(Starts(offset, n), t);
  }

  /* ---- Which months resolve ---- */

  /** The first two corrections: by the offset at the wall time, and by the offset found there. */
  function First(offset: Offset, wall: int): int { wall - offset(wall) * MINUTE }
  function Second(offset: Offset, wall: int): int { wall - offset(First(offset, wall)) * MINUTE }

  lemma SettlesAtOnce(offset: Offset, wall: int)
    requires offset(wall) != 0 && offset(First(offset, wall)) == offset(wall)
    ensures ResolveMidnight(offset, wall) == Ok(First(offset, wall))
  {
    var first := First(offset, wall);
    assert Settle(offset, wall, first, 3) == Some(first);
  }

  lemma SettlesNext(offset: Offset, wall: int)
    requires offset(wall) != 0 && offset(First(offset, wall)) != 0 && offset(First(offset, wall)) != offset(wall)
    requires offset(Second(offset, wall)) == offset(First(offset, wall))
    ensures ResolveMidnight(offset, wall) == Ok(Second(offset, wall))
  {
    var (first, second) := (First(offset, wall), Second(offset, wall));
    assert Settle(offset, wall, second, 2) == Some(second);
    assert Settle(offset, wall, first, 3) == Some(second);
  }

  /** Each candidate asks for the other one, and the loop ends between them. */
  lemma NeverSettles(offset: Offset, wall: int)
    requires offset(wall) != 0 && offset(First(offset, wall)) != 0 && offset(First(offset, wall)) != offset(wall)
    requires offset(Second(offset, wall)) == offset(wall)
    ensures ResolveMidnight(offset, wall) == Err(Unresolved)
  {
    var (first, second) := (First(offset, wall), Second(offset, wall));
    assert Settle(offset, wall, first, 1) == Some(second);
    assert Settle(offset, wall, second, 2) == Some(second);
    assert Settle(offset, wall, first, 3) == Some(second);
  }

  lemma UnreadableOffset(offset: Offset, wall: int)
    requires offset(wall) == 0 || offset(First(offset, wall)) == 0
    ensures ResolveMidnight(offset, wall) == Err(UnsupportedOffset)
  {
    if offset(wall) != 0 { assert Settle(offset, wall, First(offset, wall), 3) == None; }
  }

  /** A month whose offset does not change within a day of its start resolves exactly when that offset
      is not zero. */
  lemma SettledMonthResolves(offset: Offset, year: int, month: int)
    requires WithinADay(offset)
    requires var wall := WallClock(year, month); forall t | wall - DAY < t < wall + DAY :: offset(t) == offset(wall)
    ensures var wall := WallClock(year, month);
            MonthStart(offset, year, month) == if offset(wall) != 0 then Some(wall - offset(wall) * MINUTE) else None
  {
    var wall := WallClock(year, month);
    assert wall - DAY < First(offset, wall) < wall + DAY;
    if offset(wall) != 0 { SettlesAtOnce(offset, wall); } else { UnreadableOffset(offset, wall); }
  }

  /** The clock changes its offset at most once within a day of `wall`. */
  ghost predicate OneChange(offset: Offset, wall: int, change: int, before: int, after: int) {
    forall t | wall - DAY < t < wall + DAY :: offset(t) == if t < change then before else after
  }

  lemma CandidatesAreNear(offset: Offset, wall: int)
    requires WithinADay(offset)
    ensures wall - DAY < First(offset, wall) < wall + DAY && wall - DAY < Second(offset, wall) < wall + DAY
    ensures forall t | LocalTime(offset, t) == wall :: wall - DAY < t < wall + DAY
  {
  }

  /** With one change of offset near the month's start, a month resolves exactly when its midnight
      exists on the local clock and the two offsets asked for first are not zero: the loop misses no
      midnight, and only one that the clock skips fails. */
  lemma OneChangeResolvesExactly(offset: Offset, year: int, month: int, change: int, before: int, after: int)
    requires WithinADay(offset) && OneChange(offset, WallClock(year, month), change, before, after)
    ensures var wall := WallClock(year, month);
            MonthStart(offset, year, month).Some?
            <==> (exists t :: LocalTime(offset, t) == wall) && offset(wall) != 0 && offset(First(offset, wall)) != 0
  {
    var wall := WallClock(year, month);
    var (first, second) := (First(offset, wall), Second(offset, wall));
    CandidatesAreNear(offset, wall);
    if offset(wall) == 0 || offset(first) == 0 {
      UnreadableOffset(offset, wall);
    } else if offset(first) == offset(wall) {
      SettlesAtOnce(offset, wall);
      assert LocalTime(offset, first) == wall;
    } else if offset(second) == offset(first) {
      SettlesNext(offset, wall);
      assert LocalTime(offset, second) == wall;
    } else {
      NeverSettles(offset, wall);
      forall t ensures LocalTime(offset, t) != wall {
        SkippedMidnight(offset, wall, change, before, after, t);
      }
    }
  }

  /** A clock between whose two offsets the loop swings shows the wall time never. */
  lemma SkippedMidnight(offset: Offset, wall: int, change: int, before: int, after: int, t: int)
    requires WithinADay(offset) && OneChange(offset, wall, change, before, after)
    requires offset(First(offset, wall)) != offset(wall) && offset(Second(offset, wall)) != offset(First(offset, wall))
    ensures LocalTime(offset, t) != wall
  {
    CandidatesAreNear(offset, wall);
  }
}
