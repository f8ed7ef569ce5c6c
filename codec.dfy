/**
  The record lines of the store and how the averaging scans read them back.
  A sample line is `HH:MM:SS H:<h> T:<t> S:<s>`, a daily aggregate line is
  `AVG: H:<h> T:<t> S:<s>`; a scan accepts a line only when the markers `H:`,
  `T:` and `S:` are found in that order, and reads each field with the
  tolerant `toFloat` / `toInt` conversions.
*/
module Codec {
  import opened Common
  import opened Text
  import opened Calendar
  import opened Store

  /** One set of values: air humidity and temperature in hundredths, soil moisture in raw units. */
  datatype Reading = Reading(h: int, t: int, s: int)

  /** The three marked fields, `H:<x> T:<y> S:<z>`. */
  function FieldsWith(x: string, y: string, z: string): string {
    "H:" + x + " T:" + y + " S:" + z
  }

  /** `H:%.2f T:%.2f S:%d` */
  function FieldsText(r: Reading): string {
    FieldsWith(Fixed2Text(r.h), Fixed2Text(r.t), IntText(r.s))
  }

  /** A sample line, `%s H:%.2f T:%.2f S:%d` with the time of day first. */
  function SampleLine(c: Clock, r: Reading): string
    requires ValidClock(c)
  {
    TimeText(c) + " " + FieldsText(r)
  }

  /** A daily aggregate line, `AVG: H:%.2f T:%.2f S:%d`. */
  function DailyLine(r: Reading): string {
    "AVG: " + FieldsText(r)
  }

  /** The marker test: `H:` found at `minH` or later, `T:` after it, `S:` after that. */
  predicate MarkersOrdered(line: string, minH: int) {
    var h := IndexOf(line, "H:");
    var t := IndexOf(line, "T:");
    var s := IndexOf(line, "S:");
    h >= minH && t > h && s > t
  }

  /** The three fields between the markers, read with `toFloat`, `toFloat` and `toInt`. */
  function ReadFields(line: string): Reading
    requires MarkersOrdered(line, 0)
  {
    FieldsBetween(line, IndexOf(line, "H:"), IndexOf(line, "T:"), IndexOf(line, "S:"))
  }

  /** The fields after the markers found at `h`, `t` and `s`. */
  function FieldsBetween(line: string, h: nat, t: nat, s: nat): Reading {
    Reading(ParseFixed2(Slice(line, h + 2, t)), ParseFixed2(Slice(line, t + 2, s)), ParseLong(Substring(line, s + 2)))
  }

  /**
    What the day scan (`calculate_day_average`) takes from one line of a day
    partition: the trimmed line, unless it is blank or its markers are out of
    order or `H:` starts it.
  */
  function SampleReading(line: string): (r: Option<Reading>)
    ensures var l := Trim(line);
      var h, t, s := IndexOf(l, "H:"), IndexOf(l, "T:"), IndexOf(l, "S:");
      && (r.Some? <==> 0 < h < t < s)
      && (r.Some? ==> r.value == FieldsBetween(l, h, t, s))
  {
    var l := Trim(line);
    if |l| == 0 then None
    else if MarkersOrdered(l, 1) then Some(ReadFields(l))
    else None
  }

  /**
    What the multi-day scan (`calculate_average`) takes from a day's aggregate
    line: nothing unless it holds `AVG:` and its markers are in order
    (`H:` may start it).
  */
  function DailyReading(avgLine: string): (r: Option<Reading>)
    ensures var h, t, s := IndexOf(avgLine, "H:"), IndexOf(avgLine, "T:"), IndexOf(avgLine, "S:");
      && (r.Some? <==> Contains(avgLine, "AVG:") && 0 <= h < t < s)
      && (r.Some? ==> r.value == FieldsBetween(avgLine, h, t, s))
  {
    if !Contains(avgLine, "AVG:") then None
    else if MarkersOrdered(avgLine, 0) then Some(ReadFields(avgLine))
    else None
  }

  // ---------------------------------------------------------------------------
  // Layout of the marker fields

  predicate Lacks(s: string, c: char) {
    forall i :: 0 <= i < |s| ==> s[i] != c
  }

  /** Text without any character that starts a marker. */
  predicate Plain(s: string) {
    Lacks(s, 'H') && Lacks(s, 'T') && Lacks(s, 'S')
  }

  lemma DigitsArePlain(s: string)
    requires AllDigits(s)
    ensures Plain(s) && Lacks(s, 'A')
  {
  }

  lemma NumbersArePlain(r: Reading)
    ensures Plain(Fixed2Text(r.h)) && Plain(Fixed2Text(r.t)) && Plain(IntText(r.s))
    ensures Lacks(Fixed2Text(r.h), 'A') && Lacks(Fixed2Text(r.t), 'A') && Lacks(IntText(r.s), 'A')
    ensures |IntText(r.s)| > 0 && IsDigit(IntText(r.s)[|IntText(r.s)| - 1])
  {
    forall v: int ensures Plain(Fixed2Text(v)) && Lacks(Fixed2Text(v), 'A') {
      var a := if v < 0 then -v else v;
      DigitsArePlain(NatText(a / 100));
      DigitsArePlain(Pad(a % 100, 2));
    }
    var m := if r.s < 0 then -r.s else r.s;
    DigitsArePlain(NatText(m));
    assert IntText(r.s)[|IntText(r.s)| - 1] == NatText(m)[|NatText(m)| - 1];
  }

  /** `line` holds `H:<x> T:<y> S:` from index `p` on, index by index. */
  predicate FieldsAt(line: string, p: nat, x: string, y: string) {
    && p + |x| + |y| + 8 <= |line|
    && line[p] == 'H' && line[p + 1] == ':'
    && (forall j :: 0 <= j < |x| ==> line[p + 2 + j] == x[j])
    && line[p + |x| + 2] == ' '
    && line[p + |x| + 3] == 'T' && line[p + |x| + 4] == ':'
    && (forall j :: 0 <= j < |y| ==> line[p + |x| + 5 + j] == y[j])
    && line[p + |x| + |y| + 5] == ' '
    && line[p + |x| + |y| + 6] == 'S' && line[p + |x| + |y| + 7] == ':'
  }

  /** The pieces of `pre + FieldsWith(x, y, z)`. */
  lemma FieldsIndex(line: string, pre: string, x: string, y: string, z: string)
    requires line == pre + FieldsWith(x, y, z)
    ensures FieldsAt(line, |pre|, x, y)
    ensures line[..|pre|] == pre
    ensures line[|pre| + |x| + |y| + 8..] == z
  {
  }

  /** Where the scans find the markers when nothing before them holds a marker character. */
  lemma MarkerPositions(line: string, p: nat, x: string, y: string)
    requires FieldsAt(line, p, x, y)
    requires Plain(line[..p]) && Plain(x) && Plain(y)
    ensures IndexOf(line, "H:") == p
    ensures IndexOf(line, "T:") == p + |x| + 3
    ensures IndexOf(line, "S:") == p + |x| + |y| + 6
  {
    var t, s := p + |x| + 3, p + |x| + |y| + 6;
    assert line[p..p + 2] == "H:";
    assert line[t..t + 2] == "T:";
    assert line[s..s + 2] == "S:";
    forall j | 0 <= j < s
      ensures line[j] != 'H' || j == p
      ensures j < t ==> line[j] != 'T'
      ensures line[j] != 'S'
    {
      if j < p {
        assert line[..p][j] == line[j];
      } else if p + 2 <= j < p + |x| + 2 {
        assert line[p + 2 + (j - p - 2)] == x[j - p - 2];
      } else if t + 2 <= j < t + 2 + |y| {
        assert line[t + 2 + (j - t - 2)] == y[j - t - 2];
      }
    }
    IndexOfAt(line, "H:", p);
    IndexOfAt(line, "T:", t);
    IndexOfAt(line, "S:", s);
  }

  /** The text between the markers. */
  lemma FieldSlices(line: string, p: nat, x: string, y: string)
    requires FieldsAt(line, p, x, y)
    ensures Slice(line, p + 2, p + |x| + 3) == x + " "
    ensures Slice(line, p + |x| + 5, p + |x| + |y| + 6) == y + " "
  {
    var t := p + |x| + 3;
    assert line[p + 2..t] == x + " " by {
      forall j | 0 <= j < |x| + 1 ensures line[p + 2..t][j] == (x + " ")[j] {
        assert line[p + 2 + j] == if j < |x| then x[j] else ' ';
      }
    }
    assert line[t + 2..t + |y| + 3] == y + " " by {
      forall j | 0 <= j < |y| + 1 ensures line[t + 2..t + |y| + 3][j] == (y + " ")[j] {
        assert line[t + 2 + j] == if j < |y| then y[j] else ' ';
      }
    }
  }

  lemma ReadFieldsIs(line: string, h: nat, t: nat, s: nat)
    requires IndexOf(line, "H:") == h && IndexOf(line, "T:") == t && IndexOf(line, "S:") == s
    requires h < t < s
    ensures MarkersOrdered(line, h)
    ensures ReadFields(line) == FieldsBetween(line, h, t, s)
  {
  }

  lemma FieldsBetweenIs(line: string, h: nat, t: nat, s: nat, a: string, b: string, c: string)
    requires Slice(line, h + 2, t) == a && Slice(line, t + 2, s) == b && Substring(line, s + 2) == c
    ensures FieldsBetween(line, h, t, s) == Reading(ParseFixed2(a), ParseFixed2(b), ParseLong(c))
  {
  }

  /** The fields read from a line whose markers are found at `h`, `t` and `s`, with `a` and `b` between them. */
  lemma ReadFieldsAt(line: string, h: nat, t: nat, s: nat, a: string, b: string)
    requires IndexOf(line, "H:") == h && IndexOf(line, "T:") == t && IndexOf(line, "S:") == s
    requires h < t < s && s + 2 <= |line|
    requires Slice(line, h + 2, t) == a && Slice(line, t + 2, s) == b
    ensures MarkersOrdered(line, h)
    ensures ReadFields(line) == Reading(ParseFixed2(a), ParseFixed2(b), ParseLong(line[s + 2..]))
  {
    ReadFieldsIs(line, h, t, s);
    assert Substring(line, s + 2) == line[s + 2..];
    FieldsBetweenIs(line, h, t, s, a, b, line[s + 2..]);
  }

  /** The fields of `line == pre + FieldsWith(x, y, z)` as the scans read them. */
  lemma ReadFieldsWith(line: string, pre: string, x: string, y: string, z: string)
    requires Plain(pre) && Plain(x) && Plain(y)
    requires line == pre + FieldsWith(x, y, z)
    ensures IndexOf(line, "H:") == |pre|
    ensures MarkersOrdered(line, |pre|)
    ensures ReadFields(line) == Reading(ParseFixed2(x + " "), ParseFixed2(y + " "), ParseLong(z))
  {
    var p := |pre|;
    var t := p + |x| + 3;
    var s := t + |y| + 3;
    assert IndexOf(line, "H:") == p && IndexOf(line, "T:") == t && IndexOf(line, "S:") == s
      && Slice(line, p + 2, t) == x + " " && Slice(line, t + 2, s) == y + " "
      && s + 2 <= |line| && line[s + 2..] == z
    by {
      FieldsIndex(line, pre, x, y, z);
      MarkerPositions(line, p, x, y);
      FieldSlices(line, p, x, y);
    }
    ReadFieldsAt(line, p, t, s, x + " ", y + " ");
  }

  lemma Regroup(pre: string, x: string, y: string, z: string, post: string)
    ensures pre + FieldsWith(x, y, z) + post == pre + FieldsWith(x, y, z + post)
  {
  }

  /**
    Written fields read back as the values written, whatever marker-free text
    precedes them and whatever follows them, provided it does not continue the
    soil digits.
  */
  lemma FieldsLayout(pre: string, r: Reading, post: string)
    requires Plain(pre)
    requires post == [] || !IsDigit(post[0])
    ensures IndexOf(pre + FieldsText(r) + post, "H:") == |pre|
    ensures MarkersOrdered(pre + FieldsText(r) + post, |pre|)
    ensures ReadFields(pre + FieldsText(r) + post) == r
  {
    var x, y, z := Fixed2Text(r.h), Fixed2Text(r.t), IntText(r.s);
    NumbersArePlain(r);
    Regroup(pre, x, y, z, post);
    ReadFieldsWith(pre + FieldsText(r) + post, pre, x, y, z + post);
    ParseFixed2OfFixed2Text(r.h, " ");
    ParseFixed2OfFixed2Text(r.t, " ");
    ParseLongOfIntText(r.s, post);
  }

  // ---------------------------------------------------------------------------
  // Round trips through the card

  lemma DayScanOf(line: string, l: string, r: Reading)
    requires Trim(line) == l && |l| > 0
    requires MarkersOrdered(l, 1) && ReadFields(l) == r
    ensures SampleReading(line) == Some(r)
  {
  }

  lemma SummaryScanOf(line: string, r: Reading)
    requires Contains(line, "AVG:") && MarkersOrdered(line, 0) && ReadFields(line) == r
    ensures DailyReading(line) == Some(r)
  {
  }

  lemma SampleLineFields(c: Clock, r: Reading)
    requires ValidClock(c)
    ensures MarkersOrdered(SampleLine(c, r), 1) && ReadFields(SampleLine(c, r)) == r
  {
    var pre := TimeText(c) + " ";
    assert Plain(pre) by {
      DigitsArePlain(Pad(c.hour, 2));
      DigitsArePlain(Pad(c.min, 2));
      DigitsArePlain(Pad(c.sec, 2));
    }
    FieldsLayout(pre, r, "");
    assert SampleLine(c, r) + "" == SampleLine(c, r);
  }

  lemma SampleLineTrimmed(c: Clock, r: Reading)
    requires ValidClock(c)
    ensures Trim(Printed(SampleLine(c, r))) == SampleLine(c, r)
  {
    NumbersArePlain(r);
    var line := SampleLine(c, r);
    assert line[0] == Pad(c.hour, 2)[0];
    assert line[|line| - 1] == IntText(r.s)[|IntText(r.s)| - 1];
    TrimDropsReturn(line);
  }

  /** The day scan reads a stored sample line back as the values written. */
  lemma SampleLineDecodes(c: Clock, r: Reading)
    requires ValidClock(c)
    ensures SampleReading(Printed(SampleLine(c, r))) == Some(r)
  {
    SampleLineFields(c, r);
    SampleLineTrimmed(c, r);
    DayScanOf(Printed(SampleLine(c, r)), SampleLine(c, r), r);
  }

  lemma PrefixedFields(pre: string, r: Reading)
    requires Plain(pre)
    ensures MarkersOrdered(pre + FieldsText(r), |pre|) && ReadFields(pre + FieldsText(r)) == r
  {
    FieldsLayout(pre, r, "");
    assert pre + FieldsText(r) + "" == pre + FieldsText(r);
  }

  lemma DailyLineFields(r: Reading)
    ensures MarkersOrdered(DailyLine(r), 5) && ReadFields(DailyLine(r)) == r
  {
    PrefixedFields("AVG: ", r);
  }

  lemma StoredDailyLineFields(r: Reading)
    ensures MarkersOrdered(Printed(DailyLine(r)), 5) && ReadFields(Printed(DailyLine(r))) == r
  {
    FieldsLayout("AVG: ", r, "\r");
  }

  lemma StoredDailyLineTagged(r: Reading)
    ensures Contains(Printed(DailyLine(r)), "AVG:")
  {
    IndexOfLead("AVG:", "AVG: ", FieldsText(r));
    IndexOfZeroExtends(DailyLine(r), "AVG:", "\r");
  }

  lemma DailyLineTrimmed(r: Reading)
    ensures Trim(Printed(DailyLine(r))) == DailyLine(r)
  {
    NumbersArePlain(r);
    var line := DailyLine(r);
    assert line[|line| - 1] == IntText(r.s)[|IntText(r.s)| - 1];
    TrimDropsReturn(line);
  }

  /** The multi-day scan reads a stored daily aggregate line back as the means written. */
  lemma DailyLineDecodes(r: Reading)
    ensures DailyReading(Printed(DailyLine(r))) == Some(r)
  {
    StoredDailyLineFields(r);
    StoredDailyLineTagged(r);
    SummaryScanOf(Printed(DailyLine(r)), r);
  }

  /**
    A daily aggregate line left in a day partition passes the day scan's test
    too (its `H:` is at index 5), so a second day average of the same partition
    counts it as a sample.
  */
  lemma DailyLineCountsAsSample(r: Reading)
    ensures SampleReading(Printed(DailyLine(r))) == Some(r)
  {
    DailyLineFields(r);
    DailyLineTrimmed(r);
    DayScanOf(Printed(DailyLine(r)), DailyLine(r), r);
  }

  /** A line that starts with `H:` (after trimming) never counts in the day scan. */
  lemma LeadingMarkerRejectedByDayScan(line: string)
    requires StartsWith(Trim(line), "H:")
    ensures SampleReading(line) == None
  {
    var l := Trim(line);
    assert l == "H:" + l[2..];
    IndexOfPrefix("H:", l[2..]);
  }

  lemma FieldsWithTail(x: string, y: string, z: string, w: string)
    ensures FieldsWith(x, y, z) + w == "" + FieldsWith(x, y, z + w)
  {
  }

  lemma FieldsWithLacks(x: string, y: string, z: string, c: char)
    requires Lacks(x, c) && Lacks(y, c) && Lacks(z, c)
    requires c != 'H' && c != 'T' && c != 'S' && c != ':' && c != ' '
    ensures Lacks(FieldsWith(x, y, z), c)
  {
  }

  lemma FieldsTextLacksA(r: Reading)
    ensures Lacks(FieldsText(r), 'A')
    ensures FieldsText(r)[..2] == "H:"
  {
    NumbersArePlain(r);
    FieldsWithLacks(Fixed2Text(r.h), Fixed2Text(r.t), IntText(r.s), 'A');
  }

  /** The fields first, then the tag: `H:%.2f T:%.2f S:%d AVG:`. */
  function FieldsThenTag(r: Reading): string {
    FieldsText(r) + " AVG:"
  }

  lemma FieldsThenTagFields(r: Reading)
    ensures MarkersOrdered(FieldsThenTag(r), 0) && ReadFields(FieldsThenTag(r)) == r
  {
    var x, y, z := Fixed2Text(r.h), Fixed2Text(r.t), IntText(r.s);
    NumbersArePlain(r);
    FieldsWithTail(x, y, z, " AVG:");
    ReadFieldsWith(FieldsThenTag(r), "", x, y, z + " AVG:");
    ParseFixed2OfFixed2Text(r.h, " ");
    ParseFixed2OfFixed2Text(r.t, " ");
    ParseLongOfIntText(r.s, " AVG:");
  }

  lemma FieldsThenTagTagged(r: Reading)
    ensures Contains(FieldsThenTag(r), "AVG:")
  {
    FieldsTextLacksA(r);
    IndexOfShift(FieldsText(r), " AVG:", "AVG:");
    IndexOfAt(" AVG:", "AVG:", 1);
  }

  lemma FieldsThenTagTrimmed(r: Reading)
    ensures StartsWith(Trim(FieldsThenTag(r)), "H:")
  {
    var f := FieldsText(r);
    var line := FieldsThenTag(r);
    FieldsTextLacksA(r);
    assert line[0] == f[0] == 'H';
    assert line[|line| - 1] == ':';
    TrimOfTrimmed(line);
    assert line[..2] == f[..2];
  }

  /**
    The multi-day scan does accept `H:` at index 0, provided `AVG:` is
    somewhere in the line; the day scan rejects the same line.
  */
  lemma LeadingMarkerAcceptedBySummaryScan(r: Reading)
    ensures DailyReading(FieldsThenTag(r)) == Some(r)
    ensures SampleReading(FieldsThenTag(r)) == None
  {
    FieldsThenTagFields(r);
    FieldsThenTagTagged(r);
    SummaryScanOf(FieldsThenTag(r), r);
    FieldsThenTagTrimmed(r);
    LeadingMarkerRejectedByDayScan(FieldsThenTag(r));
  }
}
