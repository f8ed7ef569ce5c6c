/**
  The arithmetic of the two averaging scans: running totals over the lines
  that pass a scan's test, the means (humidity and temperature rounded to
  hundredths as `%.2f` prints them, soil divided with C's truncating `/`), and
  the text each scan returns.
*/
module Averaging {
  import opened Common
  import opened Text
  import opened Calendar
  import opened Store
  import opened Codec

  /** Running sums of the three fields and the number of lines that counted. */
  datatype Totals = Totals(h: int, t: int, s: int, count: nat)

  const NoTotals := Totals(0, 0, 0, 0)

  /** One step of the accumulator loop: a line that passed adds its fields and one to the count. */
  function Add(tot: Totals, r: Option<Reading>): Totals {
    match r
    case None => tot
    case Some(x) => Totals(tot.h + x.h, tot.t + x.t, tot.s + x.s, tot.count + 1)
  }

  function Plus(a: Totals, b: Totals): Totals {
    Totals(a.h + b.h, a.t + b.t, a.s + b.s, a.count + b.count)
  }

  /** The totals an accumulator loop holds after the given lines, each read with `read`. */
  function Totalled(lines: seq<string>, read: string -> Option<Reading>): Totals {
    if |lines| == 0 then NoTotals
    else Add(Totalled(lines[..|lines| - 1], read), read(lines[|lines| - 1]))
  }

  /** What `calculate_day_average` has accumulated after the given lines of a day partition. */
  function DayTotals(lines: seq<string>): Totals {
    Totalled(lines, SampleReading)
  }

  /** What `calculate_average` has accumulated after the given aggregate lines, one per day. */
  function SummaryTotals(avgLines: seq<string>): Totals {
    Totalled(avgLines, DailyReading)
  }

  // ---------------------------------------------------------------------------
  // Division

  /** C's `int / int` for a positive divisor: the quotient truncated toward zero. */
  function TruncDiv(a: int, b: int): (q: int)
    requires b > 0
    ensures a >= 0 ==> 0 <= q && b * q <= a < b * (q + 1)
    ensures a < 0 ==> q <= 0 && b * (q - 1) < a <= b * q
  {
    if a >= 0 then
      DivBounds(a, b);
      a / b
    else
      var p := (-a) / b;
      DivBounds(-a, b);
      NegatedProducts(b, p);
      -p
  }

  lemma DivBounds(a: int, b: int)
    requires a >= 0 && b > 0
    ensures 0 <= a / b && b * (a / b) <= a < b * (a / b + 1)
  {
    var q, r := a / b, a % b;
    assert a == b * q + r && 0 <= r < b;
    assert b * (q + 1) == b * q + b;
  }

  lemma NegatedProducts(b: int, p: int)
    ensures b * -p == -(b * p) && b * (-p - 1) == -(b * p) - b
  {
  }

  /**
    A float mean `sum / n` printed with `%.2f`, in hundredths: the nearest
    integer to the exact quotient, ties away from zero.
  */
  function RoundedMean(sum: int, n: int): (q: int)
    requires n > 0
    ensures -n <= 2 * (sum - n * q) <= n
  {
    if sum >= 0 then
      var q := (2 * sum + n) / (2 * n);
      assert 2 * n * q <= 2 * sum + n < 2 * n * (q + 1);
      q
    else
      var p := (-2 * sum + n) / (2 * n);
      assert 2 * n * p <= -2 * sum + n < 2 * n * (p + 1);
      -p
  }

  /** The means of non-empty totals. */
  function Mean(tot: Totals): Reading
    requires tot.count > 0
  {
    Reading(RoundedMean(tot.h, tot.count), RoundedMean(tot.t, tot.count), TruncDiv(tot.s, tot.count))
  }

  /** `snprintf` into a buffer of `size` bytes: at most `size - 1` characters survive. */
  function Fit(s: string, size: nat): (r: string)
    requires size > 0
    ensures |r| == (if |s| < size then |s| else size - 1) && r == s[..|r|]
  {
    if |s| < size then s else s[..size - 1]
  }

  /** The text `calculate_day_average` returns for its totals (buffer of 64). */
  function DayAverageText(tot: Totals): string {
    if tot.count == 0 then "No valid data" else Fit(DailyLine(Mean(tot)), 64)
  }

  /** The text `calculate_average` returns for its totals (buffer of 128). */
  function AverageText(tot: Totals): string {
    if tot.count == 0 then "No data" else Fit(FieldsText(Mean(tot)), 128)
  }

  // ---------------------------------------------------------------------------
  // Properties of the totals

  /** The totals split over concatenation: each line counts on its own. */
  lemma {:induction false} TotalledConcat(a: seq<string>, b: seq<string>, read: string -> Option<Reading>)
    ensures Totalled(a + b, read) == Plus(Totalled(a, read), Totalled(b, read))
    decreases |b|
  {
    if |b| == 0 {
      assert a + b == a;
      assert Totalled(b, read) == NoTotals;
      PlusNone(Totalled(a, read));
    } else {
      var b', last := b[..|b| - 1], b[|b| - 1];
      assert b == b' + [last];
      assert a + b == (a + b') + [last];
      calc {
        Totalled(a + b, read);
      == { TotalledSnoc(a + b', last, read); }
        Add(Totalled(a + b', read), read(last));
      == { TotalledConcat(a, b', read); }
        Add(Plus(Totalled(a, read), Totalled(b', read)), read(last));
      == { AddPlus(Totalled(a, read), Totalled(b', read), read(last)); }
        Plus(Totalled(a, read), Add(Totalled(b', read), read(last)));
      == { TotalledSnoc(b', last, read); }
        Plus(Totalled(a, read), Totalled(b, read));
      }
    }
  }

  lemma PlusNone(x: Totals)
    ensures Plus(x, NoTotals) == x
  {
  }

  lemma AddPlus(x: Totals, y: Totals, r: Option<Reading>)
    ensures Add(Plus(x, y), r) == Plus(x, Add(y, r))
  {
  }

  /** The count is the number of lines that pass the scan's test, and zero exactly when none does. */
  lemma {:induction false} TotalledCount(lines: seq<string>, read: string -> Option<Reading>)
    ensures Totalled(lines, read).count <= |lines|
    ensures Totalled(lines, read).count == 0 <==> forall i :: 0 <= i < |lines| ==> read(lines[i]).None?
  {
    if |lines| > 0 {
      var init := lines[..|lines| - 1];
      TotalledCount(init, read);
      assert forall i :: 0 <= i < |init| ==> init[i] == lines[i];
    }
  }

  lemma TotalledSnoc(lines: seq<string>, line: string, read: string -> Option<Reading>)
    ensures Totalled(lines + [line], read) == Add(Totalled(lines, read), read(line))
  {
    assert (lines + [line])[..|lines|] == lines;
  }

  lemma TotalledPair(l1: string, l2: string, read: string -> Option<Reading>)
    ensures Totalled([l1, l2], read) == Add(Add(NoTotals, read(l1)), read(l2))
  {
    assert [l1, l2][..1] == [l1];
    assert [l1][..0] == [];
    assert Totalled([l1], read) == Add(Totalled([], read), read(l1));
    assert Totalled([l1, l2], read) == Add(Totalled([l1], read), read(l2));
  }

  /** A line the day scan rejects is skipped: the scan goes on as if it were absent. */
  lemma RejectedLineSkipped(a: seq<string>, line: string, b: seq<string>)
    requires SampleReading(line) == None
    ensures DayTotals(a + [line] + b) == DayTotals(a + b)
  {
    TotalledConcat(a + [line], b, SampleReading);
    TotalledSnoc(a, line, SampleReading);
    TotalledConcat(a, b, SampleReading);
  }

  /** The day scan counts the lines that pass its test, and none exactly when no line passes. */
  lemma DayTotalsCount(lines: seq<string>)
    ensures DayTotals(lines).count <= |lines|
    ensures DayTotals(lines).count == 0 <==> forall i :: 0 <= i < |lines| ==> SampleReading(lines[i]) == None
  {
    TotalledCount(lines, SampleReading);
  }

  /** Every recorded sample counts in the day scan with exactly the values written. */
  lemma SampleAdds(lines: seq<string>, c: Clock, r: Reading)
    requires ValidClock(c)
    ensures DayTotals(lines + [Printed(SampleLine(c, r))]) == Add(DayTotals(lines), Some(r))
  {
    TotalledSnoc(lines, Printed(SampleLine(c, r)), SampleReading);
    SampleLineDecodes(c, r);
  }

  /** Two samples with soil 1 and 2 average to soil 1: the sum 3 is divided by 2 with truncation. */
  lemma SoilTruncates(c: Clock, r1: Reading, r2: Reading)
    requires ValidClock(c) && r1.s == 1 && r2.s == 2
    ensures var tot := DayTotals([Printed(SampleLine(c, r1)), Printed(SampleLine(c, r2))]);
      tot.count == 2 && Mean(tot).s == 1
  {
    TotalledPair(Printed(SampleLine(c, r1)), Printed(SampleLine(c, r2)), SampleReading);
    SampleLineDecodes(c, r1);
    SampleLineDecodes(c, r2);
  }

  /** The multi-day scan counts the days whose aggregate line passes its test. */
  lemma SummaryTotalsCount(avgLines: seq<string>)
    ensures SummaryTotals(avgLines).count <= |avgLines|
    ensures SummaryTotals(avgLines).count == 0 <==> forall i :: 0 <= i < |avgLines| ==> DailyReading(avgLines[i]) == None
  {
    TotalledCount(avgLines, DailyReading);
  }

  // ---------------------------------------------------------------------------
  // Properties of the means

  lemma MulCancel(n: int, a: int, b: int)
    requires n > 0 && n * a <= n * b
    ensures a <= b
  {
    assert n * b - n * a == n * (b - a);
  }

  lemma MulCancelStrict(n: int, a: int, b: int)
    requires n > 0 && n * a < n * b
    ensures a < b
  {
    assert n * b - n * a == n * (b - a);
  }

  /** The truncated soil mean lies between the smallest and the largest possible value. */
  lemma TruncDivBetween(sum: int, n: int, lo: int, hi: int)
    requires n > 0 && n * lo <= sum <= n * hi
    ensures lo <= TruncDiv(sum, n) <= hi
  {
    var q := TruncDiv(sum, n);
    if sum >= 0 {
      assert n * (q + 1) == n * q + n;
      MulCancelStrict(n, lo, q + 1);
      MulCancel(n, q, hi);
    } else {
      assert n * (q - 1) == n * q - n;
      MulCancel(n, lo, q);
      MulCancelStrict(n, q - 1, hi);
    }
  }

  /** The rounded mean lies between the smallest and the largest possible value. */
  lemma RoundedMeanBetween(sum: int, n: int, lo: int, hi: int)
    requires n > 0 && n * lo <= sum <= n * hi
    ensures lo <= RoundedMean(sum, n) <= hi
  {
    var q := RoundedMean(sum, n);
    assert 2 * (n * q) == (2 * n) * q;
    assert (2 * n) * (lo - 1) == 2 * (n * lo) - 2 * n;
    assert (2 * n) * (hi + 1) == 2 * (n * hi) + 2 * n;
    MulCancelStrict(2 * n, lo - 1, q);
    MulCancelStrict(2 * n, q, hi + 1);
  }

  // ---------------------------------------------------------------------------
  // The returned text

  /** With no sample the day average is `No valid data`, which neither scan reads back. */
  lemma NoValidDataIgnored(tot: Totals)
    requires tot.count == 0
    ensures DayAverageText(tot) == "No valid data"
    ensures DailyReading(Printed(DayAverageText(tot))) == None
    ensures SampleReading(Printed(DayAverageText(tot))) == None
  {
    var line := Printed("No valid data");
    NotContains(line, "AVG:");
    var l := Trim(line);
    assert l == "No valid data" by {
      TrimDropsReturn("No valid data");
    }
    NotContains(l, "H:");
  }

  /** With no aggregate line the multi-day average is `No data`. */
  lemma NoDataWhenNothingCounts(avgLines: seq<string>)
    requires forall i :: 0 <= i < |avgLines| ==> DailyReading(avgLines[i]) == None
    ensures AverageText(SummaryTotals(avgLines)) == "No data"
  {
    SummaryTotalsCount(avgLines);
  }

  /**
    A day average that fits its buffer is an aggregate line the multi-day scan
    reads back as the day's means.
  */
  lemma DayAverageReadBack(tot: Totals)
    requires tot.count > 0 && |DailyLine(Mean(tot))| < 64
    ensures DayAverageText(tot) == DailyLine(Mean(tot))
    ensures DailyReading(Printed(DayAverageText(tot))) == Some(Mean(tot))
  {
    var m := Mean(tot);
    assert DayAverageText(tot) == DailyLine(m);
    DailyLineDecodes(m);
  }
}
