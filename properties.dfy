/**
  What the receiver promises, stated over the functions its methods are
  proved equal to: the lookups return the last match, every response is
  framed by one `.` line, a packet adds exactly one line or nothing, each
  rollover appends at most its one line and only a successful append sets its
  latch, what one rollover writes is what the next lookup finds, and over runs
  of passes the week latch adds one weekly line per stretch of Sundays and the
  month latch one monthly line per stretch of 1sts.
*/
module Properties {
  import opened Common
  import opened Text
  import opened Calendar
  import opened Store
  import opened Codec
  import opened Averaging
  import opened Rollover
  import opened Protocol
  import opened Receiver

  // ---------------------------------------------------------------------------
  // Lookups

  /** A last-match lookup returns `""` or one of the lines it scanned. */
  lemma LastWhereIn(lines: seq<string>, f: Filter)
    ensures LastWhere(lines, f) == "" || LastWhere(lines, f) in lines
  {
    LastWhereIsLast(lines, f);
  }

  /**
    `get_AVG_line_from_file` returns `""` when the partition does not open, and
    otherwise the last line holding `AVG:`, or `""` when no line does.
  */
  lemma LastAvgLineIsLast(card: Card, path: string)
    ensures Open(card, path).None? ==> LastAvgLine(card, path) == ""
    ensures Open(card, path).Some? ==>
      var lines, r := card.files[path], LastAvgLine(card, path);
      || (r == "" && forall i :: 0 <= i < |lines| ==> !Contains(lines[i], "AVG:"))
      || (exists i :: 0 <= i < |lines| && lines[i] == r && Contains(r, "AVG:")
            && forall j :: i < j < |lines| ==> !Contains(lines[j], "AVG:"))
  {
    if Open(card, path).Some? {
      LastWhereIsLast(card.files[path], Containing("AVG:"));
    }
  }

  /**
    `get_avg` answers `404 not found` for a granularity other than week or
    month, `""` when the aggregate file does not open, and otherwise the last
    line holding the period, or `""` when no line does.
  */
  lemma PeriodLineIsLast(card: Card, period: string, granularity: string)
    ensures granularity != "week" && granularity != "month" ==> PeriodLine(card, period, granularity) == "404 not found"
    ensures granularity == "week" || granularity == "month" ==>
      var path := if granularity == "week" then WeeksFile else MonthsFile;
      var r := PeriodLine(card, period, granularity);
      && (Open(card, path).None? ==> r == "")
      && (Open(card, path).Some? ==>
        var lines := card.files[path];
        || (r == "" && forall i :: 0 <= i < |lines| ==> !Contains(lines[i], period))
        || (exists i :: 0 <= i < |lines| && lines[i] == r && Contains(r, period)
              && forall j :: i < j < |lines| ==> !Contains(lines[j], period)))
  {
    if granularity == "week" || granularity == "month" {
      var path := if granularity == "week" then WeeksFile else MonthsFile;
      if Open(card, path).Some? {
        LastWhereIsLast(card.files[path], Containing(period));
      }
    }
  }

  /**
    `getLastLineOfTodayFile` answers `Failed to open file` when today's
    partition does not open, `No data found` when no line is longer than two
    characters, and otherwise the last line that is.
  */
  lemma TodayLastLineIsLast(card: Card, now: Option<Clock>)
    requires now.Some? ==> ValidClock(now.value)
    ensures Open(card, TodayPath(now)).None? ==> TodayLastLine(card, now) == "Failed to open file"
    ensures Open(card, TodayPath(now)).Some? ==>
      var lines, r := card.files[TodayPath(now)], TodayLastLine(card, now);
      || (r == "No data found" && forall i :: 0 <= i < |lines| ==> |lines[i]| <= 2)
      || (exists i :: 0 <= i < |lines| && lines[i] == r && |r| > 2
            && forall j :: i < j < |lines| ==> |lines[j]| <= 2)
  {
    if Open(card, TodayPath(now)).Some? {
      LastWhereIsLast(card.files[TodayPath(now)], LongerThan(2));
    }
  }

  /**
    `get_file_all_lines` answers `404 not found` for an unknown granularity and
    `""` when the file does not open, sending nothing; otherwise it sends, in
    file order, exactly the lines that do not start with `AVG:`.
  */
  lemma AllLinesSendsUnmarked(card: Card, path: string, granularity: string)
    ensures granularity != "day" && granularity != "week" && granularity != "month" ==>
      AllLines(card, path, granularity) == Listing([], "404 not found")
    ensures (granularity == "day" || granularity == "week" || granularity == "month") && Open(card, path).None? ==>
      AllLines(card, path, granularity) == Listing([], "")
    ensures (granularity == "day" || granularity == "week" || granularity == "month") && Open(card, path).Some? ==>
      var l, lines := AllLines(card, path, granularity), card.files[path];
      && l.result == "multiple datas returned"
      && l.sent == Unmarked(lines)
      && |l.sent| <= |lines|
      && forall x :: x in l.sent <==> x in lines && !StartsWith(x, "AVG:")
  {
    if (granularity == "day" || granularity == "week" || granularity == "month") && Open(card, path).Some? {
      var lines := card.files[path];
      UnmarkedLength(lines);
      forall x
        ensures x in Unmarked(lines) <==> x in lines && !StartsWith(x, "AVG:")
      {
        UnmarkedMembers(lines, x);
      }
    }
  }

  // ---------------------------------------------------------------------------
  // Responses

  lemma PairFramed(line: string)
    requires line != EndOfResponse
    ensures Framed([line, EndOfResponse])
  {
  }

  lemma LookupNotBareDot(card: Card, path: string, f: Filter)
    requires NoBareDot(card)
    ensures OrNotFound(match Open(card, path) case None => "" case Some(lines) => LastWhere(lines, f)) != EndOfResponse
  {
    if Open(card, path).Some? {
      LastWhereIn(card.files[path], f);
    }
  }

  lemma TodayLineNotBareDot(card: Card, now: Option<Clock>)
    requires now.Some? ==> ValidClock(now.value)
    ensures TodayLastLine(card, now) != EndOfResponse
  {
    if Open(card, TodayPath(now)).Some? {
      LastWhereIsLast(card.files[TodayPath(now)], LongerThan(2));
    }
  }

  /**
    On a card where no stored line is a bare `.`, every response the
    dispatcher sends ends with the `.` line and holds no other.
  */
  lemma ReplyFramed(card: Card, now: Option<Clock>, raw: string)
    requires now.Some? ==> ValidClock(now.value)
    requires NoBareDot(card)
    ensures Framed(Reply(card, now, raw))
  {
    RespondFramed(card, now, Route(raw));
  }

  lemma RespondFramed(card: Card, now: Option<Clock>, c: Command)
    requires now.Some? ==> ValidClock(now.value)
    requires NoBareDot(card)
    ensures Framed(Respond(card, now, c))
  {
    match c
    case Last =>
      TodayLineNotBareDot(card, now);
      PairFramed(TodayLastLine(card, now));
    case AvgDay(path) =>
      LookupNotBareDot(card, path, Containing("AVG:"));
      PairFramed(OrNotFound(LastAvgLine(card, path)));
    case AvgWeek(w) =>
      LookupNotBareDot(card, WeeksFile, Containing(w));
      PairFramed(OrNotFound(PeriodLine(card, w, "week")));
    case AvgMonth(m) =>
      LookupNotBareDot(card, MonthsFile, Containing(m));
      PairFramed(OrNotFound(PeriodLine(card, m, "month")));
    case AllDay(path) =>
      ListedFramed(card, path, "day");
    case AllWeek =>
      ListedFramed(card, WeeksFile, "week");
    case AllMonth =>
      ListedFramed(card, MonthsFile, "month");
    case Unknown =>
      PairFramed(NotFound);
  }

  lemma ListedFramed(card: Card, path: string, granularity: string)
    requires NoBareDot(card)
    ensures Framed(Listed(AllLines(card, path, granularity)))
  {
    var l := AllLines(card, path, granularity);
    var out := Listed(l);
    if Open(card, path).Some? {
      AllLinesSendsUnmarked(card, path, granularity);
    }
    forall i | 0 <= i < |out| - 1
      ensures out[i] != EndOfResponse
    {
      if i < |l.sent| {
        assert out[i] == l.sent[i];
        assert l.sent[i] in l.sent;
      }
    }
  }

  /** An empty or blank command gets `404 Not Found` and the end line. */
  lemma BlankCommandReply(card: Card, now: Option<Clock>, raw: string)
    requires now.Some? ==> ValidClock(now.value)
    requires forall i :: 0 <= i < |raw| ==> IsSpace(raw[i])
    ensures Reply(card, now, raw) == [NotFound, EndOfResponse]
  {
    BlankIsUnknown(raw);
  }

  /** A day lookup for a partition that does not open gets the long not-found message and the end line. */
  lemma MissingDayReply(card: Card, now: Option<Clock>, d: string)
    requires now.Some? ==> ValidClock(now.value)
    requires Trim("GET /avg/day" + d) == "GET /avg/day" + d
    requires Open(card, d + ".txt").None?
    ensures Reply(card, now, "GET /avg/day" + d) == [DataNotFound, EndOfResponse]
  {
    AvgDayArgument(d);
  }

  // ---------------------------------------------------------------------------
  // Writing a packet

  /**
    A packet with a zero field, or one that arrives while the card is not
    mounted, changes nothing; any other adds exactly one line, at the end of
    its day's partition, and leaves every other file as it was.
  */
  lemma RecordedAppendsOneLine(card: Card, d: SensorData, c: Clock)
    requires ValidClock(c)
    ensures HasZeroField(d) || !card.mounted ==> Recorded(card, d, c) == card
    ensures !HasZeroField(d) && card.mounted ==>
      var path, next := DatePath(DateOf(c)), Recorded(card, d, c);
      && next.mounted
      && next.files.Keys == card.files.Keys + {path}
      && next.files[path] == FileLines(card, path) + [Printed(SampleText(d, c))]
      && forall p :: p in card.files && p != path ==> next.files[p] == card.files[p]
  {
  }

  /** A written packet counts in its day's average with exactly the values it carried. */
  lemma RecordedSampleCounts(card: Card, d: SensorData, c: Clock)
    requires ValidClock(c) && !HasZeroField(d) && card.mounted
    requires |SampleLine(c, ReadingOf(d))| < 128
    ensures var path := DatePath(DateOf(c));
      DayTotals(FileLines(Recorded(card, d, c), path)) == Add(DayTotals(FileLines(card, path)), Some(ReadingOf(d)))
  {
    SampleAdds(FileLines(card, DatePath(DateOf(c))), c, ReadingOf(d));
  }

  // ---------------------------------------------------------------------------
  // Rollovers

  /**
    A rollover step appends its line exactly when the latch is clear, the
    clock is in the firing window and the file opens, and changes nothing
    otherwise; the latch becomes set only through that append.
  */
  lemma StepAppendsOnlyWhenLatching(card: Card, done: bool, m: Moment, path: string, text: string)
    requires m.ok == card.mounted
    ensures var (next, latch) := Step(card, done, m, path, text);
      && latch == Latch(done, m)
      && (!Appends(done, m) ==> next == card)
      && (Appends(done, m) ==>
            && next.files.Keys == card.files.Keys + {path}
            && next.files[path] == FileLines(card, path) + [Printed(text)]
            && forall p :: p in card.files && p != path ==> next.files[p] == card.files[p])
      && (latch && !done ==> next.files[path] == FileLines(card, path) + [Printed(text)])
  {
  }

  /**
    When the day rollover appends and the day had samples, the partition's
    last `AVG:` line becomes the new aggregate, and the multi-day scan reads
    it back as the day's means.
  */
  lemma DayLineReadBack(card: Card, done: bool, c: Clock)
    requires ValidClock(c) && Appends(done, DayMoment(c, card.mounted))
    requires var tot := DayTotals(FileLines(card, TodayPath(Some(c))));
      tot.count > 0 && |DailyLine(Mean(tot))| < 64
    ensures var path, tot := TodayPath(Some(c)), DayTotals(FileLines(card, TodayPath(Some(c))));
      var avgLine := LastAvgLine(DayStep(card, done, c).0, path);
      avgLine == Printed(DailyLine(Mean(tot))) && DailyReading(avgLine) == Some(Mean(tot))
  {
    var path := TodayPath(Some(c));
    var tot := DayTotals(FileLines(card, path));
    DayAverageReadBack(tot);
    StoredDailyLineTagged(Mean(tot));
    LastWhereAppendMatch(FileLines(card, path), Printed(DailyLine(Mean(tot))), Containing("AVG:"));
  }

  /**
    When the day had no sample, the day rollover appends `No valid data`,
    which holds no `AVG:`: the lookup the multi-day scan makes for that day is
    unchanged.
  */
  lemma NoValidDataLeavesLookup(card: Card, done: bool, c: Clock)
    requires ValidClock(c) && Appends(done, DayMoment(c, card.mounted))
    requires DayTotals(FileLines(card, TodayPath(Some(c)))).count == 0
    ensures var path := TodayPath(Some(c));
      LastAvgLine(DayStep(card, done, c).0, path) == LastAvgLine(card, path)
  {
    var path := TodayPath(Some(c));
    NotContains(Printed("No valid data"), "AVG:");
    LastWhereAppendOther(FileLines(card, path), Printed("No valid data"), Containing("AVG:"));
  }

  /** A labelled aggregate line keeps a short label at its start, so a lookup for the label finds it. */
  lemma LabelledLineHoldsLabel(tag: string, avg: string)
    requires 0 < |tag| < 16
    ensures Contains(Printed(Fit(Fit(tag, 16) + " " + avg, 64)), tag)
  {
    var line := Fit(tag + " " + avg, 64);
    assert line[..|tag|] == tag;
    IndexOfLead(tag, line, "\r");
  }

  lemma CommandTrimmed(prefix: string, tag: string)
    requires |prefix| > 0 && !IsSpace(prefix[0])
    requires |tag| > 0 && IsDigit(tag[|tag| - 1])
    ensures Trim(prefix + tag) == prefix + tag
  {
    var cmd := prefix + tag;
    assert cmd[|cmd| - 1] == tag[|tag| - 1];
    TrimOfTrimmed(cmd);
  }

  lemma WeekLabelEndsInDigit(c: Clock)
    requires ValidClock(c)
    ensures |WeekLabel(c)| > 0 && IsDigit(WeekLabel(c)[|WeekLabel(c)| - 1])
  {
    var w := Pad(IsoWeek(c), 2);
    var tag := WeekLabel(c);
    assert tag[|tag| - 1] == w[|w| - 1];
  }

  lemma MonthLabelEndsInDigit(c: Clock)
    requires ValidClock(c) && c.mday == 1
    ensures |MonthLabel(c)| > 0 && IsDigit(MonthLabel(c)[|MonthLabel(c)| - 1])
  {
    var (y, m) := PreviousMonth(c);
    var p := Pad(m + 1, 2);
    var tag := MonthLabel(c);
    assert tag[|tag| - 1] == p[|p| - 1];
  }

  /**
    After a step appends the line labelled `tag` to the weekly or the monthly
    file, the lookup command routed to that label answers with the line.
  */
  lemma LabelledLineAnswered(card: Card, done: bool, m: Moment, weekly: bool, tag: string, avg: string, now: Option<Clock>)
    requires now.Some? ==> ValidClock(now.value)
    requires m.ok == card.mounted && Appends(done, m) && 0 < |tag| < 16
    ensures var text := Fit(Fit(tag, 16) + " " + avg, 64);
      var next := Step(card, done, m, if weekly then WeeksFile else MonthsFile, text).0;
      Respond(next, now, if weekly then AvgWeek(tag) else AvgMonth(tag)) == [Printed(text), EndOfResponse]
  {
    LabelledLineFound(card, done, m, weekly, tag, avg);
  }

  lemma LabelledLineFound(card: Card, done: bool, m: Moment, weekly: bool, tag: string, avg: string)
    requires m.ok == card.mounted && Appends(done, m) && 0 < |tag| < 16
    ensures var text := Fit(Fit(tag, 16) + " " + avg, 64);
      var next := Step(card, done, m, if weekly then WeeksFile else MonthsFile, text).0;
      PeriodLine(next, tag, if weekly then "week" else "month") == Printed(text)
  {
    var path := if weekly then WeeksFile else MonthsFile;
    var text := Fit(Fit(tag, 16) + " " + avg, 64);
    var next := Step(card, done, m, path, text).0;
    LabelledLineHoldsLabel(tag, avg);
    LastWhereAppendMatch(FileLines(card, path), Printed(text), Containing(tag));
    assert Open(next, path) == Some(FileLines(card, path) + [Printed(text)]);
  }

  /**
    Right after the week rollover appends, `GET /avg/week/<label>` with the
    label it wrote answers with the line it wrote.
  */
  lemma WeekLineAnswered(card: Card, done: bool, c: Clock, now: Option<Clock>)
    requires ValidClock(c) && (now.Some? ==> ValidClock(now.value))
    requires Appends(done, WeekMoment(c, card.mounted)) && |WeekLabel(c)| < 16
    ensures var next, tag := WeekStep(card, done, c).0, WeekLabel(c);
      Reply(next, now, "GET /avg/week/" + tag) == [Printed(WeekLine(card, c)), EndOfResponse]
  {
    var tag := WeekLabel(c);
    var raw := "GET /avg/week/" + tag;
    assert Route(raw) == AvgWeek(tag) by {
      WeekLabelEndsInDigit(c);
      CommandTrimmed("GET /avg/week/", tag);
      AvgWeekArgument(tag);
    }
    LabelledLineAnswered(card, done, WeekMoment(c, card.mounted), true, tag, AverageOf(card, c, 7), now);
  }

  /**
    Right after the month rollover appends, `GET /avg/month/<label>` with the
    previous month's label answers with the line it wrote.
  */
  lemma MonthLineAnswered(card: Card, done: bool, c: Clock, now: Option<Clock>)
    requires ValidClock(c) && (now.Some? ==> ValidClock(now.value))
    requires Appends(done, MonthMoment(c, card.mounted)) && |MonthLabel(c)| < 16
    ensures var next, tag := MonthStep(card, done, c).0, MonthLabel(c);
      Reply(next, now, "GET /avg/month/" + tag) == [Printed(MonthLine(card, c)), EndOfResponse]
  {
    var tag := MonthLabel(c);
    var raw := "GET /avg/month/" + tag;
    assert Route(raw) == AvgMonth(tag) by {
      MonthLabelEndsInDigit(c);
      CommandTrimmed("GET /avg/month/", tag);
      AvgMonthArgument(tag);
    }
    LabelledLineAnswered(card, done, MonthMoment(c, card.mounted), false, tag, AverageOf(card, c, 29), now);
  }

  /** The weekly average covers the 7 partitions ending today, the monthly one the 29 ending today. */
  lemma AverageWindows(c: Clock)
    requires ValidClock(c)
    ensures |LastNPaths(c, 7)| == 7 && |LastNPaths(c, 29)| == 29
    ensures LastNPaths(c, 7)[0] == LastNPaths(c, 29)[0] == DatePath(DateOf(c))
    ensures LastNPaths(c, 7) == LastNPaths(c, 29)[..7]
    ensures forall i :: 0 < i < 29 ==>
      && LastNPaths(c, 29)[i] == DatePath(DaysBefore(DateOf(c), i))
      && Ordinal(DaysBefore(DateOf(c), i)) == Ordinal(DateOf(c)) - i
  {
    forall i | 0 < i < 29
      ensures Ordinal(DaysBefore(DateOf(c), i)) == Ordinal(DateOf(c)) - i
    {
      DaysBeforeOrdinal(DateOf(c), i);
    }
  }

  // ---------------------------------------------------------------------------
  // One pass of loop()

  lemma RecordedKeeps(card: Card, d: SensorData, c: Clock)
    requires ValidClock(c)
    ensures Recorded(card, d, c).mounted == card.mounted
    ensures NoBareDot(card) ==> NoBareDot(Recorded(card, d, c))
  {
    if !HasZeroField(d) && card.mounted && NoBareDot(card) {
      AppendKeepsNoBareDot(card, DatePath(DateOf(c)), SampleText(d, c));
    }
  }

  lemma StepKeeps(card: Card, done: bool, m: Moment, path: string, text: string)
    requires m.ok == card.mounted
    ensures Step(card, done, m, path, text).0.mounted == card.mounted
    ensures NoBareDot(card) ==> NoBareDot(Step(card, done, m, path, text).0)
  {
    if Appends(done, m) && NoBareDot(card) {
      AppendKeepsNoBareDot(card, path, text);
    }
  }

  /** The rollovers keep the mount state and the absence of bare `.` lines, and move each latch as its window says. */
  lemma RolloversKeep(card: Card, l: Latches, c: Clock)
    requires ValidClock(c)
    ensures Rollovers(card, l, c).0.mounted == card.mounted
    ensures Rollovers(card, l, c).1
      == Latches(Latch(l.day, DayMoment(c, card.mounted)), Latch(l.week, WeekMoment(c, card.mounted)), Latch(l.month, MonthMoment(c, card.mounted)))
    ensures NoBareDot(card) ==> NoBareDot(Rollovers(card, l, c).0)
  {
    var path := TodayPath(Some(c));
    var day := DayStep(card, l.day, c);
    StepKeeps(card, l.day, DayMoment(c, card.mounted), path, DayAverageOf(card, path));
    var week := WeekStep(day.0, l.week, c);
    StepKeeps(day.0, l.week, WeekMoment(c, day.0.mounted), WeeksFile, WeekLine(day.0, c));
    StepKeeps(week.0, l.month, MonthMoment(c, week.0.mounted), MonthsFile, if c.mday == 1 then MonthLine(week.0, c) else "");
  }

  /**
    One pass of `loop()`: without a clock nothing happens; otherwise the
    mount state is kept, each latch moves as its window and the append say,
    no bare `.` line ever reaches the card, and a command's response is framed.
  */
  lemma NextKeepsInvariants(card: Card, l: Latches, now: Option<Clock>, packet: Option<SensorData>, cmd: Option<string>)
    requires now.Some? ==> ValidClock(now.value)
    ensures now.None? ==> Next(card, l, now, packet, cmd) == After(card, l, [])
    ensures Next(card, l, now, packet, cmd).card.mounted == card.mounted
    ensures now.Some? ==> var c := now.value;
      Next(card, l, now, packet, cmd).latches
        == Latches(Latch(l.day, DayMoment(c, card.mounted)), Latch(l.week, WeekMoment(c, card.mounted)), Latch(l.month, MonthMoment(c, card.mounted)))
    ensures now.Some? && cmd.None? ==> Next(card, l, now, packet, cmd).sent == []
    ensures NoBareDot(card) ==> NoBareDot(Next(card, l, now, packet, cmd).card)
    ensures NoBareDot(card) && now.Some? && cmd.Some? ==> Framed(Next(card, l, now, packet, cmd).sent)
  {
    if now.Some? {
      var c := now.value;
      var written := Received(card, packet, c);
      if packet.Some? {
        RecordedKeeps(card, packet.value, c);
      }
      if cmd.Some? && NoBareDot(written) {
        ReplyFramed(written, now, cmd.value);
      }
      RolloversKeep(written, l, c);
    }
  }

  // ---------------------------------------------------------------------------
  // Runs of loop(), and the weekly and monthly latches

  /** The inputs of one pass of `loop()` whose clock read succeeds: the time, the packet received and the command line read. */
  datatype Pass = Pass(clock: Clock, packet: Option<SensorData>, cmd: Option<string>)

  predicate ValidPasses(ps: seq<Pass>) {
    forall i :: 0 <= i < |ps| ==> ValidClock(ps[i].clock)
  }

  /** The card and latches one pass of `loop()` leaves behind. */
  function Advance(card: Card, l: Latches, p: Pass): (Card, Latches)
    requires ValidClock(p.clock)
  {
    Rollovers(Received(card, p.packet, p.clock), l, p.clock)
  }

  /** `Advance` is the state part of `Next`. */
  lemma AdvanceIsNext(card: Card, l: Latches, p: Pass)
    requires ValidClock(p.clock)
    ensures var a := Next(card, l, Some(p.clock), p.packet, p.cmd);
      Advance(card, l, p) == (a.card, a.latches)
  {
  }

  /** The card and latches after a run of passes of `loop()`. */
  function Run(card: Card, l: Latches, ps: seq<Pass>): (Card, Latches)
    requires ValidPasses(ps)
    decreases |ps|
  {
    if |ps| == 0 then (card, l)
    else
      var a := Advance(card, l, ps[0]);
      Run(a.0, a.1, ps[1..])
  }

  /** What each pass of a run tells the week latch, on a card whose mount state is `mounted`. */
  function WeekMoments(ps: seq<Pass>, mounted: bool): seq<Moment> {
    seq(|ps|, i requires 0 <= i < |ps| => WeekMoment(ps[i].clock, mounted))
  }

  /** The number of weekly aggregate lines on the card. */
  function WeekLines(card: Card): nat {
    |FileLines(card, WeeksFile)|
  }

  /** The number of monthly aggregate lines on the card. */
  function MonthLines(card: Card): nat {
    |FileLines(card, MonthsFile)|
  }

  /** A day partition is never an aggregate file: its name starts with a digit after the `/`. */
  lemma DayPathIsNoAggregate(c: Clock)
    requires ValidClock(c)
    ensures DatePath(DateOf(c)) != WeeksFile && DatePath(DateOf(c)) != MonthsFile
  {
    var year := YearText(c.year + 1900);
    assert DatePath(DateOf(c))[1] == year[0];
    assert IsDigit(year[0]);
    assert WeeksFile[1] == 'w' && MonthsFile[1] == 'm';
  }

  /** A latch step adds a line to file `q` exactly when it appends and `q` is its own file. */
  lemma StepLines(card: Card, done: bool, m: Moment, path: string, text: string, q: string)
    requires m.ok == card.mounted
    ensures |FileLines(Step(card, done, m, path, text).0, q)|
      == |FileLines(card, q)| + (if q == path && Appends(done, m) then 1 else 0)
  {
  }

  /** The rollovers add a line to `/weeks_average.txt` exactly when the week latch appends. */
  lemma RolloversWeekLines(card: Card, l: Latches, c: Clock)
    requires ValidClock(c)
    ensures WeekLines(Rollovers(card, l, c).0)
      == WeekLines(card) + (if Appends(l.week, WeekMoment(c, card.mounted)) then 1 else 0)
  {
    var path := TodayPath(Some(c));
    DayPathIsNoAggregate(c);
    var day := DayStep(card, l.day, c);
    StepKeeps(card, l.day, DayMoment(c, card.mounted), path, DayAverageOf(card, path));
    StepLines(card, l.day, DayMoment(c, card.mounted), path, DayAverageOf(card, path), WeeksFile);
    var week := WeekStep(day.0, l.week, c);
    StepKeeps(day.0, l.week, WeekMoment(c, day.0.mounted), WeeksFile, WeekLine(day.0, c));
    StepLines(day.0, l.week, WeekMoment(c, day.0.mounted), WeeksFile, WeekLine(day.0, c), WeeksFile);
    var text := if c.mday == 1 then MonthLine(week.0, c) else "";
    StepLines(week.0, l.month, MonthMoment(c, week.0.mounted), MonthsFile, text, WeeksFile);
  }

  /** A packet never touches `/weeks_average.txt` or `/months_average.txt`. */
  lemma ReceivedKeepsAggregates(card: Card, packet: Option<SensorData>, c: Clock)
    requires ValidClock(c)
    ensures Received(card, packet, c).mounted == card.mounted
    ensures WeekLines(Received(card, packet, c)) == WeekLines(card)
    ensures MonthLines(Received(card, packet, c)) == MonthLines(card)
  {
    DayPathIsNoAggregate(c);
    if packet.Some? {
      RecordedKeeps(card, packet.value, c);
    }
  }

  /**
    One pass of `loop()` keeps the mount state, moves the week latch as its
    window says, and adds a line to `/weeks_average.txt` exactly when the week
    latch appends.
  */
  lemma AdvanceWeekLines(card: Card, l: Latches, p: Pass)
    requires ValidClock(p.clock)
    ensures var (next, latches) := Advance(card, l, p);
      && next.mounted == card.mounted
      && latches.week == Latch(l.week, WeekMoment(p.clock, card.mounted))
      && WeekLines(next) == WeekLines(card) + (if Appends(l.week, WeekMoment(p.clock, card.mounted)) then 1 else 0)
  {
    var written := Received(card, p.packet, p.clock);
    ReceivedKeepsAggregates(card, p.packet, p.clock);
    RolloversWeekLines(written, l, p.clock);
    RolloversKeep(written, l, p.clock);
  }

  /** Over a run, the weekly lines grow by the week latch's appends, and the latch ends where the latch moments leave it. */
  lemma {:induction false} RunWeekLines(card: Card, l: Latches, ps: seq<Pass>)
    requires ValidPasses(ps)
    ensures var ms := WeekMoments(ps, card.mounted);
      && Run(card, l, ps).0.mounted == card.mounted
      && WeekLines(Run(card, l, ps).0) == WeekLines(card) + Appended(l.week, ms)
      && Run(card, l, ps).1.week == LatchAfter(l.week, ms)
    decreases |ps|
  {
    if |ps| > 0 {
      var a := Advance(card, l, ps[0]);
      AdvanceWeekLines(card, l, ps[0]);
      RunWeekLines(a.0, a.1, ps[1..]);
      assert Run(card, l, ps) == Run(a.0, a.1, ps[1..]);
      WeekMomentsTail(ps, card.mounted);
    }
  }

  lemma WeekMomentsTail(ps: seq<Pass>, m: bool)
    requires |ps| > 0
    ensures var ms := WeekMoments(ps, m);
      && ms[0] == WeekMoment(ps[0].clock, m)
      && ms[1..] == WeekMoments(ps[1..], m)
  {
  }

  lemma WeekMomentsConcat(xs: seq<Pass>, p: Pass, ys: seq<Pass>, m: bool)
    ensures WeekMoments(xs + [p] + ys, m) == WeekMoments(xs, m) + [WeekMoment(p.clock, m)] + WeekMoments(ys, m)
  {
    var all, left, right := WeekMoments(xs + [p] + ys, m), WeekMoments(xs, m), WeekMoments(ys, m);
    assert forall i :: 0 <= i < |xs| ==> all[i] == left[i];
    assert all[|xs|] == WeekMoment(p.clock, m);
    assert forall i :: 0 <= i < |ys| ==> all[|xs| + 1 + i] == right[i];
  }

  predicate OnSundays(ps: seq<Pass>) {
    forall i :: 0 <= i < |ps| ==> ps[i].clock.wday == 0
  }

  lemma SundaysHeld(ps: seq<Pass>, mounted: bool)
    requires OnSundays(ps)
    ensures AllHeld(WeekMoments(ps, mounted))
  {
  }

  /**
    While every pass falls on a Sunday, `/weeks_average.txt` gains at most one
    line, and none when the week latch is already set.
  */
  lemma SundaysAppendAtMostOnce(card: Card, l: Latches, ps: seq<Pass>)
    requires ValidPasses(ps) && OnSundays(ps)
    ensures WeekLines(card) <= WeekLines(Run(card, l, ps).0) <= WeekLines(card) + 1
    ensures l.week ==> WeekLines(Run(card, l, ps).0) == WeekLines(card)
  {
    RunWeekLines(card, l, ps);
    SundaysHeld(ps, card.mounted);
    AtMostOnce(l.week, WeekMoments(ps, card.mounted));
  }

  /**
    From a clear week latch on a mounted card, a run of Sunday passes adds
    exactly one line to `/weeks_average.txt` and leaves the latch set.
  */
  lemma SundaysAppendOnce(card: Card, l: Latches, ps: seq<Pass>)
    requires ValidPasses(ps) && OnSundays(ps) && |ps| > 0
    requires card.mounted && !l.week
    ensures WeekLines(Run(card, l, ps).0) == WeekLines(card) + 1
    ensures Run(card, l, ps).1.week
  {
    RunWeekLines(card, l, ps);
    SundaysHeld(ps, card.mounted);
    ExactlyOnce(WeekMoments(ps, card.mounted), 0);
  }

  /**
    A pass on another weekday re-arms the week latch: whatever the passes
    before it did, that pass and the run of Sunday passes after it add exactly
    one more line to `/weeks_average.txt` on a mounted card.
  */
  lemma WeekLatchRearms(card: Card, l: Latches, ps: seq<Pass>, k: nat)
    requires ValidPasses(ps) && k + 1 < |ps|
    requires ps[k].clock.wday != 0 && OnSundays(ps[k + 1..]) && card.mounted
    ensures WeekLines(Run(card, l, ps).0) == WeekLines(Run(card, l, ps[..k]).0) + 1
  {
    RunWeekLines(card, l, ps);
    RunWeekLines(card, l, ps[..k]);
    MomentsRearm(l.week, ps, k);
  }

  /** The week latch moments of a mounted card's run, re-armed by pass `k`, append once more after it. */
  lemma MomentsRearm(done: bool, ps: seq<Pass>, k: nat)
    requires k + 1 < |ps| && ps[k].clock.wday != 0 && OnSundays(ps[k + 1..])
    ensures Appended(done, WeekMoments(ps, true)) == Appended(done, WeekMoments(ps[..k], true)) + 1
  {
    var xs, ys := ps[..k], ps[k + 1..];
    assert ps == xs + [ps[k]] + ys;
    WeekMomentsConcat(xs, ps[k], ys, true);
    SundaysHeld(ys, true);
    Rearms(done, WeekMoments(xs, true), WeekMoment(ps[k].clock, true), WeekMoments(ys, true), 0);
  }

  // The monthly latch over runs

  /** What each pass of a run tells the month latch, on a card whose mount state is `mounted`. */
  function MonthMoments(ps: seq<Pass>, mounted: bool): seq<Moment> {
    seq(|ps|, i requires 0 <= i < |ps| => MonthMoment(ps[i].clock, mounted))
  }

  /** The rollovers add a line to `/months_average.txt` exactly when the month latch appends. */
  lemma RolloversMonthLines(card: Card, l: Latches, c: Clock)
    requires ValidClock(c)
    ensures MonthLines(Rollovers(card, l, c).0)
      == MonthLines(card) + (if Appends(l.month, MonthMoment(c, card.mounted)) then 1 else 0)
  {
    var path := TodayPath(Some(c));
    DayPathIsNoAggregate(c);
    var day := DayStep(card, l.day, c);
    StepKeeps(card, l.day, DayMoment(c, card.mounted), path, DayAverageOf(card, path));
    StepLines(card, l.day, DayMoment(c, card.mounted), path, DayAverageOf(card, path), MonthsFile);
    var week := WeekStep(day.0, l.week, c);
    StepKeeps(day.0, l.week, WeekMoment(c, day.0.mounted), WeeksFile, WeekLine(day.0, c));
    StepLines(day.0, l.week, WeekMoment(c, day.0.mounted), WeeksFile, WeekLine(day.0, c), MonthsFile);
    var text := if c.mday == 1 then MonthLine(week.0, c) else "";
    StepLines(week.0, l.month, MonthMoment(c, week.0.mounted), MonthsFile, text, MonthsFile);
  }

  /**
    One pass of `loop()` keeps the mount state, moves the month latch as its
    window says, and adds a line to `/months_average.txt` exactly when the
    month latch appends.
  */
  lemma AdvanceMonthLines(card: Card, l: Latches, p: Pass)
    requires ValidClock(p.clock)
    ensures var (next, latches) := Advance(card, l, p);
      && next.mounted == card.mounted
      && latches.month == Latch(l.month, MonthMoment(p.clock, card.mounted))
      && MonthLines(next) == MonthLines(card) + (if Appends(l.month, MonthMoment(p.clock, card.mounted)) then 1 else 0)
  {
    var written := Received(card, p.packet, p.clock);
    ReceivedKeepsAggregates(card, p.packet, p.clock);
    RolloversMonthLines(written, l, p.clock);
    RolloversKeep(written, l, p.clock);
  }

  /** Over a run, the monthly lines grow by the month latch's appends, and the latch ends where the latch moments leave it. */
  lemma {:induction false} RunMonthLines(card: Card, l: Latches, ps: seq<Pass>)
    requires ValidPasses(ps)
    ensures var ms := MonthMoments(ps, card.mounted);
      && Run(card, l, ps).0.mounted == card.mounted
      && MonthLines(Run(card, l, ps).0) == MonthLines(card) + Appended(l.month, ms)
      && Run(card, l, ps).1.month == LatchAfter(l.month, ms)
    decreases |ps|
  {
    if |ps| > 0 {
      var a := Advance(card, l, ps[0]);
      AdvanceMonthLines(card, l, ps[0]);
      RunMonthLines(a.0, a.1, ps[1..]);
      assert Run(card, l, ps) == Run(a.0, a.1, ps[1..]);
      MonthMomentsTail(ps, card.mounted);
    }
  }

  lemma MonthMomentsTail(ps: seq<Pass>, m: bool)
    requires |ps| > 0
    ensures var ms := MonthMoments(ps, m);
      && ms[0] == MonthMoment(ps[0].clock, m)
      && ms[1..] == MonthMoments(ps[1..], m)
  {
  }

  lemma MonthMomentsConcat(xs: seq<Pass>, p: Pass, ys: seq<Pass>, m: bool)
    ensures MonthMoments(xs + [p] + ys, m) == MonthMoments(xs, m) + [MonthMoment(p.clock, m)] + MonthMoments(ys, m)
  {
    var all, left, right := MonthMoments(xs + [p] + ys, m), MonthMoments(xs, m), MonthMoments(ys, m);
    assert forall i :: 0 <= i < |xs| ==> all[i] == left[i];
    assert all[|xs|] == MonthMoment(p.clock, m);
    assert forall i :: 0 <= i < |ys| ==> all[|xs| + 1 + i] == right[i];
  }

  predicate OnFirsts(ps: seq<Pass>) {
    forall i :: 0 <= i < |ps| ==> ps[i].clock.mday == 1
  }

  lemma FirstsHeld(ps: seq<Pass>, mounted: bool)
    requires OnFirsts(ps)
    ensures AllHeld(MonthMoments(ps, mounted))
  {
  }

  /**
    While every pass falls on the 1st of a month, `/months_average.txt` gains
    at most one line, and none when the month latch is already set.
  */
  lemma FirstsAppendAtMostOnce(card: Card, l: Latches, ps: seq<Pass>)
    requires ValidPasses(ps) && OnFirsts(ps)
    ensures MonthLines(card) <= MonthLines(Run(card, l, ps).0) <= MonthLines(card) + 1
    ensures l.month ==> MonthLines(Run(card, l, ps).0) == MonthLines(card)
  {
    RunMonthLines(card, l, ps);
    FirstsHeld(ps, card.mounted);
    AtMostOnce(l.month, MonthMoments(ps, card.mounted));
  }

  /**
    From a clear month latch on a mounted card, a run of passes on the 1st
    adds exactly one line to `/months_average.txt` and leaves the latch set.
  */
  lemma FirstsAppendOnce(card: Card, l: Latches, ps: seq<Pass>)
    requires ValidPasses(ps) && OnFirsts(ps) && |ps| > 0
    requires card.mounted && !l.month
    ensures MonthLines(Run(card, l, ps).0) == MonthLines(card) + 1
    ensures Run(card, l, ps).1.month
  {
    RunMonthLines(card, l, ps);
    FirstsHeld(ps, card.mounted);
    ExactlyOnce(MonthMoments(ps, card.mounted), 0);
  }

  /**
    A pass on another day of the month re-arms the month latch: whatever the
    passes before it did, that pass and the run of passes on the 1st after it
    add exactly one more line to `/months_average.txt` on a mounted card.
  */
  lemma MonthLatchRearms(card: Card, l: Latches, ps: seq<Pass>, k: nat)
    requires ValidPasses(ps) && k + 1 < |ps|
    requires ps[k].clock.mday != 1 && OnFirsts(ps[k + 1..]) && card.mounted
    ensures MonthLines(Run(card, l, ps).0) == MonthLines(Run(card, l, ps[..k]).0) + 1
  {
    RunMonthLines(card, l, ps);
    RunMonthLines(card, l, ps[..k]);
    MonthMomentsRearm(l.month, ps, k);
  }

  /** The month latch moments of a mounted card's run, re-armed by pass `k`, append once more after it. */
  lemma MonthMomentsRearm(done: bool, ps: seq<Pass>, k: nat)
    requires k + 1 < |ps| && ps[k].clock.mday != 1 && OnFirsts(ps[k + 1..])
    ensures Appended(done, MonthMoments(ps, true)) == Appended(done, MonthMoments(ps[..k], true)) + 1
  {
    var xs, ys := ps[..k], ps[k + 1..];
    assert ps == xs + [ps[k]] + ys;
    MonthMomentsConcat(xs, ps[k], ys, true);
    FirstsHeld(ys, true);
    Rearms(done, MonthMoments(xs, true), MonthMoment(ps[k].clock, true), MonthMoments(ys, true), 0);
  }
}
