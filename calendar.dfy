/**
  Civil calendar used by the receiver: the `struct tm` reading of the clock,
  the day partition names `/YYYY-MM-DD.txt`, the walk back over the last `n`
  days (`get_last_n_dates`), and the period labels of the weekly (`%Y-W%V`)
  and monthly (`%Y-%m` of the previous month) aggregates.
*/
module Calendar {
  import opened Text
  import opened Common

  predicate Leap(y: int) {
    y % 4 == 0 && (y % 100 != 0 || y % 400 == 0)
  }

  function DaysInYear(y: int): int {
    if Leap(y) then 366 else 365
  }

  function DaysInMonth(y: int, m: int): (n: int)
    requires 1 <= m <= 12
    ensures 28 <= n <= 31
  {
    if m == 2 then (if Leap(y) then 29 else 28)
    else if m == 4 || m == 6 || m == 9 || m == 11 then 30
    else 31
  }

  /** Days of year `y` that precede month `m`. */
  function DaysBeforeMonth(y: int, m: int): int
    requires 1 <= m <= 12
  {
    var common :=
      if m == 1 then 0 else if m == 2 then 31 else if m == 3 then 59
      else if m == 4 then 90 else if m == 5 then 120 else if m == 6 then 151
      else if m == 7 then 181 else if m == 8 then 212 else if m == 9 then 243
      else if m == 10 then 273 else if m == 11 then 304 else 334;
    common + (if m > 2 && Leap(y) then 1 else 0)
  }

  /** Days from 1 January of year 1 to 1 January of year `y` (proleptic Gregorian). */
  function DaysBeforeYear(y: int): int {
    var x := y - 1;
    365 * x + x / 4 - x / 100 + x / 400
  }

  /** A calendar date; `month` from 1, `day` from 1. */
  datatype Date = Date(year: int, month: int, day: int)

  predicate ValidDate(d: Date) {
    1 <= d.month <= 12 && 1 <= d.day <= DaysInMonth(d.year, d.month)
  }

  /** Day number: days since 0001-01-01. Stepping `time_t` by 86400 seconds moves it by one. */
  function Ordinal(d: Date): int
    requires ValidDate(d)
  {
    DaysBeforeYear(d.year) + DaysBeforeMonth(d.year, d.month) + d.day - 1
  }

  /** Calendar order on dates. */
  predicate Before(a: Date, b: Date) {
    a.year < b.year || (a.year == b.year && (a.month < b.month || (a.month == b.month && a.day < b.day)))
  }

  /** The calendar day before `d`. */
  function PrevDay(d: Date): (r: Date)
    requires ValidDate(d)
    ensures ValidDate(r)
  {
    if d.day > 1 then Date(d.year, d.month, d.day - 1)
    else if d.month > 1 then Date(d.year, d.month - 1, DaysInMonth(d.year, d.month - 1))
    else Date(d.year - 1, 12, 31)
  }

  /** The date `i` days before `d`. */
  function DaysBefore(d: Date, i: nat): (r: Date)
    requires ValidDate(d)
    ensures ValidDate(r)
  {
    if i == 0 then d else PrevDay(DaysBefore(d, i - 1))
  }

  lemma MulBounds(k: int, d: int)
    requires k > 0
    ensures d >= 1 ==> k * d >= k
    ensures d <= -1 ==> k * d <= -k
  {
    if d >= 1 {
      assert k * d == k * (d - 1) + k;
    } else if d <= -1 {
      assert k * d == -(k * (-d - 1)) - k;
    }
  }

  lemma DivUnique(a: int, k: int, q: int, r: int)
    requires k > 0 && 0 <= r < k && a == k * q + r
    ensures a / k == q && a % k == r
  {
    var q', r' := a / k, a % k;
    assert a == k * q' + r';
    var d := q - q';
    assert k * d == r' - r by {
      assert k * d == k * q - k * q';
    }
    MulBounds(k, d);
  }

  /** Counting multiples of `k` up to `y` instead of `y - 1` adds one exactly when `k` divides `y`. */
  lemma DivStep(y: int, k: int)
    requires k > 0
    ensures y / k == (y - 1) / k + (if y % k == 0 then 1 else 0)
  {
    var q, r := (y - 1) / k, (y - 1) % k;
    if r + 1 == k {
      DivUnique(y, k, q + 1, 0);
    } else {
      DivUnique(y, k, q, r + 1);
    }
  }

  lemma DividesMultiple(y: int, k: int, n: int)
    requires k > 0 && n > 0 && y % (k * n) == 0
    ensures y % k == 0
  {
    var q := y / (k * n);
    assert y == (k * n) * q;
    assert y == k * (n * q);
    DivUnique(y, k, n * q, 0);
  }

  lemma YearLength(y: int)
    ensures DaysBeforeYear(y + 1) == DaysBeforeYear(y) + DaysInYear(y)
  {
    DivStep(y, 4);
    DivStep(y, 100);
    DivStep(y, 400);
    if y % 400 == 0 {
      DividesMultiple(y, 100, 4);
    }
    if y % 100 == 0 {
      DividesMultiple(y, 4, 25);
    }
  }

  /** The previous day is one day earlier on the day-number line. */
  lemma PrevDayOrdinal(d: Date)
    requires ValidDate(d)
    ensures Ordinal(PrevDay(d)) == Ordinal(d) - 1
  {
    if d.day == 1 && d.month == 1 {
      YearLength(d.year - 1);
    }
  }

  /** The previous day comes before `d`, and no valid date lies strictly between them. */
  lemma PrevDayImmediate(d: Date, e: Date)
    requires ValidDate(d) && ValidDate(e)
    ensures Before(PrevDay(d), d)
    ensures Before(e, d) ==> !Before(PrevDay(d), e)
  {
  }

  /** Walking back `i` days lands `i` days earlier on the day-number line. */
  lemma {:induction false} DaysBeforeOrdinal(d: Date, i: nat)
    requires ValidDate(d)
    ensures Ordinal(DaysBefore(d, i)) == Ordinal(d) - i
  {
    if i > 0 {
      DaysBeforeOrdinal(d, i - 1);
      PrevDayOrdinal(DaysBefore(d, i - 1));
    }
  }

  /** The calendar day after `d`. */
  function NextDay(d: Date): (r: Date)
    requires ValidDate(d)
    ensures ValidDate(r)
  {
    if d.day < DaysInMonth(d.year, d.month) then Date(d.year, d.month, d.day + 1)
    else if d.month < 12 then Date(d.year, d.month + 1, 1)
    else Date(d.year + 1, 1, 1)
  }

  /** The next day is one day later on the day-number line. */
  lemma NextDayOrdinal(d: Date)
    requires ValidDate(d)
    ensures Ordinal(NextDay(d)) == Ordinal(d) + 1
  {
    if d.month == 12 && d.day == 31 {
      YearLength(d.year);
    }
  }

  /** The date `i` days after `d`. */
  function DaysAfter(d: Date, i: nat): (r: Date)
    requires ValidDate(d)
    ensures ValidDate(r)
  {
    if i == 0 then d else NextDay(DaysAfter(d, i - 1))
  }

  lemma {:induction false} DaysAfterOrdinal(d: Date, i: nat)
    requires ValidDate(d)
    ensures Ordinal(DaysAfter(d, i)) == Ordinal(d) + i
  {
    if i > 0 {
      DaysAfterOrdinal(d, i - 1);
      NextDayOrdinal(DaysAfter(d, i - 1));
    }
  }

  /** A valid date's day number lies within its year. */
  lemma OrdinalInYear(d: Date)
    requires ValidDate(d)
    ensures DaysBeforeYear(d.year) <= Ordinal(d) < DaysBeforeYear(d.year + 1)
  {
    YearLength(d.year);
  }

  lemma {:induction false} YearsGrow(a: int, b: int)
    requires a <= b
    ensures DaysBeforeYear(a) <= DaysBeforeYear(b)
    decreases b - a
  {
    if a < b {
      YearsGrow(a, b - 1);
      YearLength(b - 1);
    }
  }

  /** The year of a date is the one whose day numbers hold its day number. */
  lemma YearOfOrdinal(d: Date, y: int)
    requires ValidDate(d)
    requires DaysBeforeYear(y) <= Ordinal(d) < DaysBeforeYear(y + 1)
    ensures d.year == y
  {
    OrdinalInYear(d);
    if d.year < y {
      YearsGrow(d.year + 1, y);
    } else if d.year > y {
      YearsGrow(y + 1, d.year);
    }
  }

  // ---------------------------------------------------------------------------
  // The clock

  /**
    The fields of C's `struct tm` the receiver reads: `year` counts from 1900,
    `mon` from 0, `wday` from Sunday = 0, `yday` from 1 January = 0.
  */
  datatype Clock = Clock(year: int, mon: int, mday: int, hour: int, min: int, sec: int, wday: int, yday: int)

  function DateOf(c: Clock): Date {
    Date(c.year + 1900, c.mon + 1, c.mday)
  }

  /**
    A time `getLocalTime` reports: a real date (it reports success only after
    2016) with the weekday and day of year that belong to it.
  */
  predicate ValidClock(c: Clock) {
    && 0 <= c.mon < 12
    && ValidDate(DateOf(c))
    && 0 <= c.hour < 24 && 0 <= c.min < 60 && 0 <= c.sec <= 60
    && c.year > 116
    && c.yday == DaysBeforeMonth(c.year + 1900, c.mon + 1) + c.mday - 1
    && c.wday == (Ordinal(DateOf(c)) + 1) % 7
  }

  // ---------------------------------------------------------------------------
  // Names and labels

  /** `%Y` */
  function YearText(y: int): string {
    if y < 0 then "-" + Pad(-y, 4) else Pad(y, 4)
  }

  /** `strftime("/%Y-%m-%d.txt")`: the name of a day partition. */
  function DatePath(d: Date): string
    requires ValidDate(d)
  {
    "/" + YearText(d.year) + "-" + Pad(d.month, 2) + "-" + Pad(d.day, 2) + ".txt"
  }

  /** `strftime("%H:%M:%S")` */
  function TimeText(c: Clock): string
    requires ValidClock(c)
  {
    Pad(c.hour, 2) + ":" + Pad(c.min, 2) + ":" + Pad(c.sec, 2)
  }

  /** `getTodayFilename`: today's partition, or `/unknown.txt` when the clock cannot be read. */
  function TodayPath(now: Option<Clock>): string
    requires now.Some? ==> ValidClock(now.value)
  {
    match now
    case None => "/unknown.txt"
    case Some(c) => DatePath(DateOf(c))
  }

  /** The partition of the day `i` days before the clock's date. */
  function PathBefore(c: Clock, i: nat): string
    requires ValidClock(c)
  {
    DatePath(DaysBefore(DateOf(c), i))
  }

  /** The `n` partition names `get_last_n_dates` produces, newest first. */
  function LastNPaths(c: Clock, n: nat): seq<string>
    requires ValidClock(c)
  {
    seq(n, i requires 0 <= i < n => PathBefore(c, i))
  }

  lemma LastNPathsSnoc(c: Clock, i: nat)
    requires ValidClock(c)
    ensures LastNPaths(c, i + 1) == LastNPaths(c, i) + [PathBefore(c, i)]
  {
    var longer, shorter := LastNPaths(c, i + 1), LastNPaths(c, i);
    assert longer[..i] == shorter;
    assert longer == longer[..i] + [longer[i]];
  }

  /**
    `get_last_n_dates`: starting at the clock's date, `n` partition names, each
    one calendar day before the previous.
  */
  method LastNDates(current: Clock, n: int) returns (out: seq<string>)
    requires ValidClock(current) && n >= 0
    ensures |out| == n
    ensures forall i :: 0 <= i < n ==> out[i] == PathBefore(current, i)
    ensures out == LastNPaths(current, n)
  {
    var d := DateOf(current);
    out := [];
    var i := 0;
    while i < n
      invariant 0 <= i <= n
      invariant ValidDate(d) && d == DaysBefore(DateOf(current), i)
      invariant out == LastNPaths(current, i)
    {
      LastNPathsSnoc(current, i);
      out := out + [DatePath(d)];
      d := PrevDay(d);
      i := i + 1;
    }
  }

  /** The civil month before the clock's (years from 1900, month from 0): what `mktime` makes of
      `tm_mon - 1` on the 1st when daylight saving is the same on both dates (the shift it makes
      otherwise is not modelled). */
  function PreviousMonth(c: Clock): (r: (int, int))
    requires c.mday == 1 && 0 <= c.mon < 12
    ensures 0 <= r.1 < 12
    ensures 12 * r.0 + r.1 == 12 * c.year + c.mon - 1
  {
    if c.mon == 0 then (c.year - 1, 11) else (c.year, c.mon - 1)
  }

  /** `strftime("%Y-%m")` of the previous month: the label of the monthly aggregate. */
  function MonthLabel(c: Clock): string
    requires c.mday == 1 && 0 <= c.mon < 12
  {
    var (y, m) := PreviousMonth(c);
    YearText(y + 1900) + "-" + Pad(m + 1, 2)
  }

  /** Weeks of ISO year `y` whose 1 January falls on Monday-based weekday `jan1`. */
  function WeeksInIsoYear(y: int, jan1: int): int {
    if jan1 == 3 || (jan1 == 2 && Leap(y)) then 53 else 52
  }

  lemma DayOfYearBound(c: Clock)
    requires ValidClock(c)
    ensures 0 <= c.yday < DaysInYear(c.year + 1900)
  {
  }

  /**
    `%V`: the ISO 8601 week number, from `tm_yday`, `tm_wday` and `tm_year`.
    Days before the year's first ISO week belong to the last week of the
    previous year; days after its last ISO week belong to week 1.
  */
  function IsoWeek(c: Clock): (w: int)
    requires ValidClock(c)
    ensures 1 <= w <= 53
  {
    DayOfYearBound(c);
    WeekOfYear((c.wday + 6) % 7, c.yday, c.year + 1900)
  }

  /** `%V` from the Monday-based weekday `wd` (Monday 0), the day of the year `yday` (from 0) and the year `y`. */
  function WeekOfYear(wd: int, yday: int, y: int): (w: int)
    requires 0 <= wd < 7 && 0 <= yday < DaysInYear(y)
    ensures 1 <= w <= 53
  {
    var jan1 := (wd - yday) % 7;
    var w := (yday - wd + 10) / 7;
    if w < 1 then WeeksInIsoYear(y - 1, (jan1 - DaysInYear(y - 1)) % 7)
    else if w > WeeksInIsoYear(y, jan1) then 1
    else w
  }

  /** The Thursday of the Monday-to-Sunday week that holds the clock's date. */
  function ThursdayOf(c: Clock): (th: Date)
    requires ValidClock(c)
    ensures ValidDate(th)
    ensures Ordinal(th) == Ordinal(DateOf(c)) + 3 - (c.wday + 6) % 7
  {
    var wd := (c.wday + 6) % 7;
    if wd >= 3 then
      DaysBeforeOrdinal(DateOf(c), wd - 3);
      DaysBefore(DateOf(c), wd - 3)
    else
      DaysAfterOrdinal(DateOf(c), 3 - wd);
      DaysAfter(DateOf(c), 3 - wd)
  }

  /**
    A Thursday with day number `t`, in a year that starts at day number
    `start`, lies in week `(t - start) / 7 + 1` of that year. That week is
    within the year's weeks exactly when the Thursday is within the year, and
    it is the last of them when the Thursday a week later is not.
  */
  lemma ThursdayWeek(start: int, leap: bool, t: int)
    requires t % 7 == 3 && start <= t
    ensures var len := if leap then 366 else 365;
      var weeks := if start % 7 == 3 || (start % 7 == 2 && leap) then 53 else 52;
      && ((t - start) / 7 + 1 <= weeks <==> t < start + len)
      && (t < start + len <= t + 7 ==> (t - start) / 7 + 1 == weeks)
  {
    var q, r := (t - start) / 7, (t - start) % 7;
    assert t - start == 7 * q + r;
    assert r == if start % 7 <= 3 then 3 - start % 7 else 10 - start % 7;
  }

  lemma WeekOfThursday(y: int, t: int)
    requires t % 7 == 3 && DaysBeforeYear(y) <= t
    ensures var start := DaysBeforeYear(y);
      var k, weeks := (t - start) / 7 + 1, WeeksInIsoYear(y, start % 7);
      && (k <= weeks <==> t < start + DaysInYear(y))
      && (t < start + DaysInYear(y) <= t + 7 ==> k == weeks)
  {
    ThursdayWeek(DaysBeforeYear(y), Leap(y), t);
  }

  /** The Monday-based weekday, the first day of the year and the first-week estimate `IsoWeek` computes from `tm_wday` and `tm_yday`. */
  lemma WeekdayFields(o: int, start: int, wday: int, yday: int)
    requires wday == (o + 1) % 7 && o == start + yday
    ensures (wday + 6) % 7 == o % 7
    ensures ((wday + 6) % 7 - yday) % 7 == start % 7
    ensures (yday - (wday + 6) % 7 + 10) / 7 == (o - o % 7 + 3 - start) / 7 + 1
    ensures (o - o % 7 + 3) % 7 == 3
  {
    var q, r := o / 7, o % 7;
    assert o == 7 * q + r;
    assert wday == if r == 6 then 0 else r + 1;
    assert (wday + 6) % 7 == r;
    assert r - yday == start - 7 * q;
    DivUnique(start - 7 * q, 7, start / 7 - q, start % 7);
    DivUnique(7 * q + 3, 7, q, 3);
  }

  /** `WeekOfYear` in day numbers, given where the Thursday `t` and the years' starts lie. */
  lemma WeekOfYearIs(wd: int, yday: int, y: int, t: int, start: int, prev: int)
    requires 0 <= wd < 7 && 0 <= yday < DaysInYear(y)
    requires (yday - wd + 10) / 7 == (t - start) / 7 + 1
    requires (wd - yday) % 7 == start % 7
    requires (start % 7 - DaysInYear(y - 1)) % 7 == prev % 7
    ensures var w := (t - start) / 7 + 1;
      WeekOfYear(wd, yday, y)
        == if w < 1 then WeeksInIsoYear(y - 1, prev % 7) else if w > WeeksInIsoYear(y, start % 7) then 1 else w
  {
  }

  lemma ModAfterYear(next: int, start: int, len: int)
    requires next == start + len
    ensures (next % 7 - len) % 7 == start % 7
  {
  }

  /** Where the clock's Thursday lies relative to its date, and the first-week estimate `IsoWeek` starts from. */
  lemma ThursdayFacts(c: Clock)
    requires ValidClock(c)
    ensures var o, start, t := Ordinal(DateOf(c)), DaysBeforeYear(c.year + 1900), Ordinal(ThursdayOf(c));
      && t % 7 == 3 && o - 3 <= t <= o + 3
      && start <= o < start + DaysInYear(c.year + 1900)
      && ((c.wday + 6) % 7 - c.yday) % 7 == start % 7
      && (c.yday - (c.wday + 6) % 7 + 10) / 7 == (t - start) / 7 + 1
  {
    var d := DateOf(c);
    WeekdayFields(Ordinal(d), DaysBeforeYear(c.year + 1900), c.wday, c.yday);
    OrdinalInYear(d);
  }

  /** `IsoWeek` in day numbers: the Thursday's week of the year, moved to the previous year's last week or to week 1 when it falls outside. */
  lemma IsoWeekIs(c: Clock)
    requires ValidClock(c)
    ensures var y := c.year + 1900;
      var start, weeks := DaysBeforeYear(y), WeeksInIsoYear(y, DaysBeforeYear(y) % 7);
      var w := (Ordinal(ThursdayOf(c)) - start) / 7 + 1;
      IsoWeek(c) == if w < 1 then WeeksInIsoYear(y - 1, DaysBeforeYear(y - 1) % 7) else if w > weeks then 1 else w
  {
    var y := c.year + 1900;
    var start, prev := DaysBeforeYear(y), DaysBeforeYear(y - 1);
    ThursdayFacts(c);
    DayOfYearBound(c);
    YearLength(y - 1);
    ModAfterYear(start, prev, DaysInYear(y - 1));
    WeekOfYearIs((c.wday + 6) % 7, c.yday, y, Ordinal(ThursdayOf(c)), start, prev);
  }

  /** A Thursday in the year before: `%V` is the last week of that year. */
  lemma IsoWeekOfThursdayBefore(c: Clock)
    requires ValidClock(c) && Ordinal(ThursdayOf(c)) < DaysBeforeYear(c.year + 1900)
    ensures var th := ThursdayOf(c);
      IsoWeek(c) == (Ordinal(th) - Ordinal(Date(th.year, 1, 1))) / 7 + 1
  {
    var y := c.year + 1900;
    var th, prev := ThursdayOf(c), DaysBeforeYear(y - 1);
    var t := Ordinal(th);
    IsoWeekIs(c);
    ThursdayFacts(c);
    YearLength(y - 1);
    YearOfOrdinal(th, y - 1);
    assert Ordinal(Date(th.year, 1, 1)) == prev;
    WeekOfThursday(y - 1, t);
    assert (t - DaysBeforeYear(y)) / 7 + 1 < 1;
  }

  /** A Thursday in the same year: `%V` is its week of the year. */
  lemma IsoWeekOfThursdayWithin(c: Clock)
    requires ValidClock(c)
    requires DaysBeforeYear(c.year + 1900) <= Ordinal(ThursdayOf(c)) < DaysBeforeYear(c.year + 1900) + DaysInYear(c.year + 1900)
    ensures var th := ThursdayOf(c);
      IsoWeek(c) == (Ordinal(th) - Ordinal(Date(th.year, 1, 1))) / 7 + 1
  {
    var y := c.year + 1900;
    var th := ThursdayOf(c);
    IsoWeekIs(c);
    ThursdayFacts(c);
    YearLength(y);
    YearOfOrdinal(th, y);
    WeekOfThursday(y, Ordinal(th));
  }

  /** A Thursday in the year after: `%V` is week 1. */
  lemma IsoWeekOfThursdayAfter(c: Clock)
    requires ValidClock(c)
    requires DaysBeforeYear(c.year + 1900) + DaysInYear(c.year + 1900) <= Ordinal(ThursdayOf(c))
    ensures var th := ThursdayOf(c);
      IsoWeek(c) == (Ordinal(th) - Ordinal(Date(th.year, 1, 1))) / 7 + 1
  {
    var y := c.year + 1900;
    var th, next := ThursdayOf(c), DaysBeforeYear(y + 1);
    IsoWeekIs(c);
    ThursdayFacts(c);
    YearLength(y);
    YearLength(y + 1);
    YearOfOrdinal(th, y + 1);
    assert Ordinal(Date(th.year, 1, 1)) == next;
    WeekOfThursday(y, Ordinal(th));
  }

  /**
    `%V` is the ISO 8601 week of the date: the week, counted from 1, that the
    Thursday of its Monday-to-Sunday week falls in within that Thursday's year.
  */
  lemma IsoWeekOfThursday(c: Clock)
    requires ValidClock(c)
    ensures var th := ThursdayOf(c);
      IsoWeek(c) == (Ordinal(th) - Ordinal(Date(th.year, 1, 1))) / 7 + 1
  {
    var y := c.year + 1900;
    var t := Ordinal(ThursdayOf(c));
    if t < DaysBeforeYear(y) {
      IsoWeekOfThursdayBefore(c);
    } else if t < DaysBeforeYear(y) + DaysInYear(y) {
      IsoWeekOfThursdayWithin(c);
    } else {
      IsoWeekOfThursdayAfter(c);
    }
  }

  /** `strftime("%Y-W%V")`: the label of the weekly aggregate, calendar year with ISO week. */
  function WeekLabel(c: Clock): string
    requires ValidClock(c)
  {
    YearText(c.year + 1900) + "-W" + Pad(IsoWeek(c), 2)
  }

  lemma LabelOfSameYearAndWeek(a: Clock, b: Clock)
    requires ValidClock(a) && ValidClock(b)
    requires a.year == b.year && IsoWeek(a) == IsoWeek(b)
    ensures WeekLabel(a) == WeekLabel(b)
  {
  }

  /** Sunday 1 January 2023 lies in ISO week 52 (of ISO year 2022). */
  lemma FirstSundayOf2023()
    ensures var c := Clock(123, 0, 1, 0, 0, 0, 0, 0);
            ValidClock(c) && Ordinal(DateOf(c)) == 738520 && IsoWeek(c) == 52
  {
    var c := Clock(123, 0, 1, 0, 0, 0, 0, 0);
    assert DaysBeforeYear(2023) == 738520;
    assert Ordinal(DateOf(c)) == 738520;
    assert (6 - 365) % 7 == 5;
  }

  /** Sunday 31 December 2023 lies in ISO week 52 of 2023. */
  lemma LastSundayOf2023()
    ensures var c := Clock(123, 11, 31, 0, 0, 0, 0, 364);
            ValidClock(c) && Ordinal(DateOf(c)) == 738884 && IsoWeek(c) == 52
  {
    var c := Clock(123, 11, 31, 0, 0, 0, 0, 364);
    assert DaysBeforeYear(2023) == 738520;
    assert DaysBeforeMonth(2023, 12) == 334;
    assert Ordinal(DateOf(c)) == 738884;
    assert (6 - 364) % 7 == 6;
    assert (364 - 6 + 10) / 7 == 52;
  }

  /**
    `%Y-W%V` takes the calendar year with the ISO week: Sunday 1 January 2023
    (ISO week 52 of 2022) and Sunday 31 December 2023, 364 days later, both get
    the label `2023-W52`.
  */
  lemma WeekLabelRepeats(first: Clock, last: Clock)
    requires first == Clock(123, 0, 1, 0, 0, 0, 0, 0)
    requires last == Clock(123, 11, 31, 0, 0, 0, 0, 364)
    ensures ValidClock(first) && ValidClock(last)
    ensures first.wday == 0 && last.wday == 0
    ensures Ordinal(DateOf(last)) == Ordinal(DateOf(first)) + 364
    ensures WeekLabel(first) == WeekLabel(last)
  {
    FirstSundayOf2023();
    LastSundayOf2023();
    LabelOfSameYearAndWeek(first, last);
  }
}
