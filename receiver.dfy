/**
  The receiver's state and its `loop()`: the SD card and the three aggregate
  latches, the file scans that answer Bluetooth commands, the sample writer
  and the three rollovers. Each scan is a loop proved equal to a function of
  the card; each state change is proved equal to a function of the old state,
  and the properties the receiver promises are lemmas about those functions.
*/
module Receiver {
  import opened Common
  import opened Text
  import opened Calendar
  import opened Store
  import opened Codec
  import opened Averaging
  import opened Rollover
  import opened Protocol

  /** C's `int16_t`. */
  type Int16 = x: int | -0x8000 <= x < 0x8000

  /** A radio packet: temperature and humidity in hundredths, soil moisture as sent. */
  datatype SensorData = SensorData(temperature: int, humidity: int, soil: Int16)

  const WeeksFile := "/weeks_average.txt"
  const MonthsFile := "/months_average.txt"

  /** `write_data_to_file` discards a packet in which any of the three fields is zero. */
  predicate HasZeroField(d: SensorData) {
    d.soil == 0 || d.humidity == 0 || d.temperature == 0
  }

  /** The reading a packet is written as: `H:` is the air humidity, `T:` the air temperature. */
  function ReadingOf(d: SensorData): Reading {
    Reading(d.humidity, d.temperature, d.soil)
  }

  // ---------------------------------------------------------------------------
  // What the scans return, as functions of the card

  /** The lines a read loop sees: none when the file does not open. */
  function FileLines(card: Card, path: string): seq<string> {
    match Open(card, path)
    case None => []
    case Some(lines) => lines
  }

  /** `get_AVG_line_from_file`: the last line holding `AVG:`, or `""`. */
  function LastAvgLine(card: Card, path: string): string {
    match Open(card, path)
    case None => ""
    case Some(lines) => LastWhere(lines, Containing("AVG:"))
  }

  /** `get_avg`: the last line of the weekly or monthly file that holds `period`. */
  function PeriodLine(card: Card, period: string, granularity: string): string {
    if granularity != "week" && granularity != "month" then "404 not found"
    else
      match Open(card, if granularity == "week" then WeeksFile else MonthsFile)
      case None => ""
      case Some(lines) => LastWhere(lines, Containing(period))
  }

  /** `getLastLineOfTodayFile`: the last line of today's partition longer than two characters. */
  function TodayLastLine(card: Card, now: Option<Clock>): string
    requires now.Some? ==> ValidClock(now.value)
  {
    match Open(card, TodayPath(now))
    case None => "Failed to open file"
    case Some(lines) =>
      var last := LastWhere(lines, LongerThan(2));
      if |last| == 0 then "No data found" else last
  }

  /** What `get_file_all_lines` sends over Bluetooth, and the string it returns. */
  datatype Listing = Listing(sent: seq<string>, result: string)

  function AllLines(card: Card, path: string, granularity: string): Listing {
    if granularity != "day" && granularity != "week" && granularity != "month" then Listing([], "404 not found")
    else
      match Open(card, path)
      case None => Listing([], "")
      case Some(lines) => Listing(Unmarked(lines), "multiple datas returned")
  }

  /** `calculate_day_average` over a partition. */
  function DayAverageOf(card: Card, path: string): string {
    DayAverageText(DayTotals(FileLines(card, path)))
  }

  /** The aggregate line of each partition, in order. */
  function AvgLines(card: Card, paths: seq<string>): (r: seq<string>)
    ensures |r| == |paths|
    ensures forall i :: 0 <= i < |paths| ==> r[i] == LastAvgLine(card, paths[i])
  {
    if |paths| == 0 then []
    else AvgLines(card, paths[..|paths| - 1]) + [LastAvgLine(card, paths[|paths| - 1])]
  }

  /** `calculate_average(n)`: the mean of the aggregate lines of the `n` partitions ending today. */
  function AverageOf(card: Card, c: Clock, n: nat): string
    requires ValidClock(c)
  {
    AverageText(SummaryTotals(AvgLines(card, LastNPaths(c, n))))
  }

  // ---------------------------------------------------------------------------
  // Responses

  /** A lookup's answer line: the found line, or the long not-found message when it is empty. */
  function OrNotFound(found: string): string {
    if found != "" then found else DataNotFound
  }

  /** A listing's response: the sent lines, the not-found message when the listing returned `""`, and the end line. */
  function Listed(l: Listing): seq<string> {
    l.sent + (if l.result != "" then [] else [DataNotFound]) + [EndOfResponse]
  }

  /** The Bluetooth lines the dispatcher sends for one command line; `now` is the clock as `getTodayFilename` reads it. */
  function Reply(card: Card, now: Option<Clock>, raw: string): seq<string>
    requires now.Some? ==> ValidClock(now.value)
  {
    Respond(card, now, Route(raw))
  }

  /** The lines sent for one branch of the dispatcher. */
  function Respond(card: Card, now: Option<Clock>, c: Command): seq<string>
    requires now.Some? ==> ValidClock(now.value)
  {
    match c
    case Last => [TodayLastLine(card, now), EndOfResponse]
    case AvgDay(path) => [OrNotFound(LastAvgLine(card, path)), EndOfResponse]
    case AvgWeek(w) => [OrNotFound(PeriodLine(card, w, "week")), EndOfResponse]
    case AvgMonth(m) => [OrNotFound(PeriodLine(card, m, "month")), EndOfResponse]
    case AllDay(path) => Listed(AllLines(card, path, "day"))
    case AllWeek => Listed(AllLines(card, WeeksFile, "week"))
    case AllMonth => Listed(AllLines(card, MonthsFile, "month"))
    case Unknown => [NotFound, EndOfResponse]
  }

  // ---------------------------------------------------------------------------
  // State changes, as functions of the old state

  /** The text `write_data_to_file` prints (buffer of 128). */
  function SampleText(d: SensorData, c: Clock): string
    requires ValidClock(c)
  {
    Fit(SampleLine(c, ReadingOf(d)), 128)
  }

  /** The card after `write_data_to_file`. */
  function Recorded(card: Card, d: SensorData, c: Clock): Card
    requires ValidClock(c)
  {
    if HasZeroField(d) then card
    else
      match Append(card, DatePath(DateOf(c)), SampleText(d, c))
      case None => card
      case Some(next) => next
  }

  /** One latch step: the card after the guarded append, and the latch after the tick. */
  function Step(card: Card, done: bool, m: Moment, path: string, text: string): (Card, bool)
    requires m.ok == card.mounted
  {
    (if Appends(done, m) then Append(card, path, text).value else card, Latch(done, m))
  }

  /** The weekly aggregate line, `%s %s` of the `%Y-W%V` label (buffer of 16) and the 7-day average (buffer of 64). */
  function WeekLine(card: Card, c: Clock): string
    requires ValidClock(c)
  {
    Fit(Fit(WeekLabel(c), 16) + " " + AverageOf(card, c, 7), 64)
  }

  /** The monthly aggregate line: the previous month's `%Y-%m` label and the 29-day average. */
  function MonthLine(card: Card, c: Clock): string
    requires ValidClock(c) && c.mday == 1
  {
    Fit(Fit(MonthLabel(c), 16) + " " + AverageOf(card, c, 29), 64)
  }

  function DayStep(card: Card, done: bool, c: Clock): (Card, bool)
    requires ValidClock(c)
  {
    var path := TodayPath(Some(c));
    Step(card, done, DayMoment(c, card.mounted), path, DayAverageOf(card, path))
  }

  function WeekStep(card: Card, done: bool, c: Clock): (Card, bool)
    requires ValidClock(c)
  {
    Step(card, done, WeekMoment(c, card.mounted), WeeksFile, WeekLine(card, c))
  }

  function MonthStep(card: Card, done: bool, c: Clock): (Card, bool)
    requires ValidClock(c)
  {
    Step(card, done, MonthMoment(c, card.mounted), MonthsFile, if c.mday == 1 then MonthLine(card, c) else "")
  }

  /** The three latches. */
  datatype Latches = Latches(day: bool, week: bool, month: bool)

  /** The state after one pass of `loop()`, and the Bluetooth lines it sent. */
  datatype After = After(card: Card, latches: Latches, sent: seq<string>)

  /** The card after the radio branch of `loop()`. */
  function Received(card: Card, packet: Option<SensorData>, c: Clock): Card
    requires ValidClock(c)
  {
    if packet.Some? then Recorded(card, packet.value, c) else card
  }

  /** The lines the Bluetooth branch of `loop()` sends. */
  function Answer(card: Card, now: Option<Clock>, cmd: Option<string>): seq<string>
    requires now.Some? ==> ValidClock(now.value)
  {
    if cmd.Some? then Reply(card, now, cmd.value) else []
  }

  /** The card and latches after the day, week and month rollovers, in that order. */
  function Rollovers(card: Card, l: Latches, c: Clock): (Card, Latches)
    requires ValidClock(c)
  {
    var day := DayStep(card, l.day, c);
    var week := WeekStep(day.0, l.week, c);
    var month := MonthStep(week.0, l.month, c);
    (month.0, Latches(day.1, week.1, month.1))
  }

  /**
    One pass of `loop()`: nothing without a clock; otherwise the packet is
    written, the command answered, and the rollovers run on the card the
    packet left.
  */
  function Next(card: Card, l: Latches, now: Option<Clock>, packet: Option<SensorData>, cmd: Option<string>): After
    requires now.Some? ==> ValidClock(now.value)
  {
    match now
    case None => After(card, l, [])
    case Some(c) =>
      var written := Received(card, packet, c);
      var rolled := Rollovers(written, l, c);
      After(rolled.0, rolled.1, Answer(written, now, cmd))
  }

  // ---------------------------------------------------------------------------
  // The loops

  /** The read loop of the three last-match lookups: remember each line the filter keeps. */
  method LastMatching(lines: seq<string>, f: Filter) returns (found: string)
    ensures found == LastWhere(lines, f)
  {
    found := "";
    var i := 0;
    while i < |lines|
      invariant 0 <= i <= |lines|
      invariant found == LastWhere(lines[..i], f)
    {
      assert lines[..i + 1][..i] == lines[..i];
      if Matches(f, lines[i]) {
        found := lines[i];
      }
      i := i + 1;
    }
    assert lines[..|lines|] == lines;
  }

  /** The accumulator loop of `calculate_day_average`. */
  method SumDay(lines: seq<string>) returns (tot: Totals)
    ensures tot == DayTotals(lines)
  {
    tot := NoTotals;
    var i := 0;
    while i < |lines|
      invariant 0 <= i <= |lines|
      invariant tot == DayTotals(lines[..i])
    {
      assert lines[..i + 1] == lines[..i] + [lines[i]];
      TotalledSnoc(lines[..i], lines[i], SampleReading);
      var line := Trim(lines[i]);
      if |line| > 0 {
        var h := IndexOf(line, "H:");
        var t := IndexOf(line, "T:");
        var s := IndexOf(line, "S:");
        if h > 0 && t > h && s > t {
          var r := FieldsBetween(line, h, t, s);
          tot := Add(tot, Some(r));
        }
      }
      i := i + 1;
    }
    assert lines[..|lines|] == lines;
  }

  /** The accumulator step of `calculate_average` for one day's aggregate line. */
  method AddDay(tot: Totals, avgLine: string) returns (next: Totals)
    ensures next == Add(tot, DailyReading(avgLine))
  {
    next := tot;
    if IndexOf(avgLine, "AVG:") == -1 {
      return;
    }
    var h := IndexOf(avgLine, "H:");
    var t := IndexOf(avgLine, "T:");
    var s := IndexOf(avgLine, "S:");
    if h >= 0 && t > h && s > t {
      var r := FieldsBetween(avgLine, h, t, s);
      next := Add(tot, Some(r));
    }
  }

  /** The receiver: the SD card and the day, week and month latches. */
  class Receiver {
    var card: Card
    var dayDone: bool
    var weekDone: bool
    var monthDone: bool

    /** After `setup()`: the card as mounted, every latch clear. */
    constructor (mounted: bool, files: map<string, seq<string>>)
      ensures card == Card(mounted, files)
      ensures !dayDone && !weekDone && !monthDone
    {
      card := Card(mounted, files);
      dayDone := false;
      weekDone := false;
      monthDone := false;
    }

    function Latched(): Latches
      reads this
    {
      Latches(dayDone, weekDone, monthDone)
    }

    /** `get_AVG_line_from_file` */
    method GetAvgLineFromFile(path: string) returns (avgLine: string)
      ensures avgLine == LastAvgLine(card, path)
    {
      var file := Open(card, path);
      if file.None? {
        return "";
      }
      avgLine := LastMatching(file.value, Containing("AVG:"));
    }

    /** `get_avg` */
    method GetAvg(period: string, timeValue: string) returns (avgLine: string)
      ensures avgLine == PeriodLine(card, period, timeValue)
    {
      var file: Option<seq<string>>;
      if timeValue == "week" {
        file := Open(card, WeeksFile);
      } else if timeValue == "month" {
        file := Open(card, MonthsFile);
      } else {
        return "404 not found";
      }
      if file.None? {
        return "";
      }
      avgLine := LastMatching(file.value, Containing(period));
    }

    /** `getLastLineOfTodayFile`, with the clock `getTodayFilename` reads. */
    method GetLastLineOfTodayFile(now: Option<Clock>) returns (lastLine: string)
      requires now.Some? ==> ValidClock(now.value)
      ensures lastLine == TodayLastLine(card, now)
    {
      var file := Open(card, TodayPath(now));
      if file.None? {
        return "Failed to open file";
      }
      lastLine := LastMatching(file.value, LongerThan(2));
      if |lastLine| == 0 {
        lastLine := "No data found";
      }
    }

    /** `get_file_all_lines`: the lines sent over Bluetooth, and the returned string. */
    method GetFileAllLines(fileName: string, timeValue: string) returns (sent: seq<string>, result: string)
      ensures Listing(sent, result) == AllLines(card, fileName, timeValue)
    {
      sent := [];
      if timeValue != "day" && timeValue != "week" && timeValue != "month" {
        return [], "404 not found";
      }
      var file := Open(card, fileName);
      if file.None? {
        return [], "";
      }
      var lines := file.value;
      var i := 0;
      while i < |lines|
        invariant 0 <= i <= |lines|
        invariant sent == Unmarked(lines[..i])
      {
        assert lines[..i + 1][..i] == lines[..i];
        if !StartsWith(lines[i], "AVG:") {
          sent := sent + [lines[i]];
        }
        i := i + 1;
      }
      assert lines[..|lines|] == lines;
      result := "multiple datas returned";
    }

    /** `calculate_day_average`: a partition that does not open reads as empty. */
    method CalculateDayAverage(fileName: string) returns (avgLine: string)
      ensures avgLine == DayAverageOf(card, fileName)
    {
      var tot := SumDay(FileLines(card, fileName));
      if tot.count == 0 {
        return "No valid data";
      }
      avgLine := Fit(DailyLine(Mean(tot)), 64);
    }

    /** The accumulator loop of `calculate_average` over the given partitions. */
    method SumAverages(fileNames: seq<string>) returns (tot: Totals)
      ensures tot == SummaryTotals(AvgLines(card, fileNames))
    {
      tot := NoTotals;
      var i := 0;
      while i < |fileNames|
        invariant 0 <= i <= |fileNames|
        invariant tot == SummaryTotals(AvgLines(card, fileNames[..i]))
      {
        var avgLine := GetAvgLineFromFile(fileNames[i]);
        assert fileNames[..i + 1][..i] == fileNames[..i];
        TotalledSnoc(AvgLines(card, fileNames[..i]), avgLine, DailyReading);
        tot := AddDay(tot, avgLine);
        i := i + 1;
      }
      assert fileNames[..i] == fileNames;
    }

    /** `calculate_average(daysNumber)` at the clock `c`. */
    method CalculateAverage(c: Clock, daysNumber: int) returns (result: string)
      requires ValidClock(c) && daysNumber >= 0
      ensures result == AverageOf(card, c, daysNumber)
    {
      var fileNames := LastNDates(c, daysNumber);
      var tot := SumAverages(fileNames);
      if tot.count == 0 {
        return "No data";
      }
      result := Fit(FieldsText(Mean(tot)), 128);
    }

    /** The Bluetooth branch of `loop()`: the lines sent for one command line. */
    method HandleCommand(raw: string, now: Option<Clock>) returns (out: seq<string>)
      requires now.Some? ==> ValidClock(now.value)
      ensures out == Reply(card, now, raw)
    {
      var command := Route(raw);
      out := Dispatch(command, now);
    }

    /** The dispatcher's branches, each answering with its line or listing and the end line. */
    method Dispatch(command: Command, now: Option<Clock>) returns (out: seq<string>)
      requires now.Some? ==> ValidClock(now.value)
      ensures out == Respond(card, now, command)
    {
      match command
      case Last =>
        var lastLine := GetLastLineOfTodayFile(now);
        out := [lastLine, EndOfResponse];
      case AvgDay(fileName) =>
        var dayAvg := GetAvgLineFromFile(fileName);
        out := [OrNotFound(dayAvg), EndOfResponse];
      case AvgWeek(week) =>
        var weekAvg := GetAvg(week, "week");
        out := [OrNotFound(weekAvg), EndOfResponse];
      case AvgMonth(month) =>
        var monthAvg := GetAvg(month, "month");
        out := [OrNotFound(monthAvg), EndOfResponse];
      case AllDay(fileName) =>
        var sent, response := GetFileAllLines(fileName, "day");
        out := Listed(Listing(sent, response));
      case AllWeek =>
        var sent, response := GetFileAllLines(WeeksFile, "week");
        out := Listed(Listing(sent, response));
      case AllMonth =>
        var sent, response := GetFileAllLines(MonthsFile, "month");
        out := Listed(Listing(sent, response));
      case Unknown =>
        out := [NotFound, EndOfResponse];
    }

    /** `write_data_to_file` */
    method WriteDataToFile(received: SensorData, c: Clock)
      requires ValidClock(c)
      modifies this
      ensures card == Recorded(old(card), received, c)
      ensures Latched() == old(Latched())
    {
      if received.soil == 0 || received.humidity == 0 || received.temperature == 0 {
        return;
      }
      var fileName := DatePath(DateOf(c));
      var todayFile := Append(card, fileName, SampleText(received, c));
      if todayFile.None? {
        return;
      }
      card := todayFile.value;
    }

    /** The day rollover of `loop()`. */
    method DayRollover(c: Clock)
      requires ValidClock(c)
      modifies this
      ensures (card, dayDone) == DayStep(old(card), old(dayDone), c)
      ensures weekDone == old(weekDone) && monthDone == old(monthDone)
    {
      if c.hour == 23 && c.min >= 55 && !dayDone {
        var fileName := TodayPath(Some(c));
        var avgLine := CalculateDayAverage(fileName);
        var file := Append(card, fileName, avgLine);
        if file.Some? {
          card := file.value;
          dayDone := true;
        }
      }
      if c.hour != 23 {
        dayDone := false;
      }
    }

    /** The week rollover of `loop()`. */
    method WeekRollover(c: Clock)
      requires ValidClock(c)
      modifies this
      ensures (card, weekDone) == WeekStep(old(card), old(weekDone), c)
      ensures dayDone == old(dayDone) && monthDone == old(monthDone)
    {
      if c.wday == 0 && !weekDone {
        var avgStr := CalculateAverage(c, 7);
        var weekAverage := Fit(Fit(WeekLabel(c), 16) + " " + avgStr, 64);
        var file := Append(card, WeeksFile, weekAverage);
        if file.Some? {
          card := file.value;
          weekDone := true;
        }
      }
      if c.wday != 0 {
        weekDone := false;
      }
    }

    /** The month rollover of `loop()`. */
    method MonthRollover(c: Clock)
      requires ValidClock(c)
      modifies this
      ensures (card, monthDone) == MonthStep(old(card), old(monthDone), c)
      ensures dayDone == old(dayDone) && weekDone == old(weekDone)
    {
      if c.mday == 1 && !monthDone {
        var avgStr := CalculateAverage(c, 29);
        var monthAverage := Fit(Fit(MonthLabel(c), 16) + " " + avgStr, 64);
        var file := Append(card, MonthsFile, monthAverage);
        if file.Some? {
          card := file.value;
          monthDone := true;
        }
      }
      if c.mday != 1 {
        monthDone := false;
      }
    }

    /**
      One pass of `loop()`: `now` is what `getLocalTime` returned, `packet`
      what the radio had, `cmd` the line Bluetooth had. Later clock reads in
      the same pass return the same time.
    */
    method Tick(now: Option<Clock>, packet: Option<SensorData>, cmd: Option<string>) returns (out: seq<string>)
      requires now.Some? ==> ValidClock(now.value)
      modifies this
      ensures After(card, Latched(), out) == Next(old(card), old(Latched()), now, packet, cmd)
    {
      out := [];
      if now.None? {
        return;
      }
      var c := now.value;
      if packet.Some? {
        WriteDataToFile(packet.value, c);
      }
      if cmd.Some? {
        out := HandleCommand(cmd.value, now);
      }
      DayRollover(c);
      WeekRollover(c);
      MonthRollover(c);
    }
  }
}
