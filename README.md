# Greenhouse receiver, modelled in Dafny

This project models the ESP32 receiver of a greenhouse sensor logger
(`receiver.c`). The receiver takes sensor packets from a radio, appends them
to day files on an SD card, appends day, week and month averages at fixed
times, and answers a small Bluetooth command language from those files.

What is modelled:

- **The SD card** is a value `Store.Card`: whether `SD.begin` mounted it, and
  a map from path to the lines a `readStringUntil('\n')` loop returns.
  `println` ends each line with `"\r\n"`, and a read keeps the `'\r'`, so a
  stored line is the printed text followed by `'\r'` (`Store.Printed`).
- **The Arduino `String` operations** the receiver relies on are in module
  `Text`: `indexOf`, which returns -1 on an empty receiver, clamped
  `substring`, `trim`, `startsWith`, `toInt` and `toFloat`. Floats are kept
  as integers in hundredths.
- **The record lines** are in module `Codec`. The modelled scans read lines
  back through their marker tests. The day scan requires `H:` at an index
  above 0; the multi-day scan accepts index 0.
- **The averaging arithmetic** is in module `Averaging`: running totals, C's
  truncating `int` division for soil, and `snprintf` truncation.
- **The calendar** is in module `Calendar`:
  - the `struct tm` clock;
  - `/%Y-%m-%d.txt` names;
  - the walk back over the last `n` days;
  - `%Y-W%V` and the previous month's `%Y-%m`.
- **The latches** of the day, week and month rollovers are in module
  `Rollover`. Runs of latch moments show that each latch appends at most once
  per window and re-arms when the clock leaves the window. For the week and
  month latches the same is shown over runs of whole passes of `loop()`,
  counting the lines of `/weeks_average.txt` and `/months_average.txt`.
- **The command router** is in module `Protocol`.
- **The receiver itself** is the class `Receiver.Receiver`. It holds the card
  and the three latches. Each file scan is a method with its loop, proved
  equal to a function of the card. Each state change is proved equal to a
  function of the old state. `Tick` is one pass of `loop()`.
- **The properties** are stated about those functions, in module
  `Properties`.

Behaviour of the code worth noting:

- A packet is discarded when *any* of its three fields is zero.
- An empty command line falls through to `404 Not Found`.
- There is no route for listing the last days.
- For `GET /all/...`, the listed lines go to Bluetooth. The returned status
  string goes to the USB serial port, so only the `.` line and, on failure,
  the not-found message follow the listing on Bluetooth.
- A listing sends every line not starting with `AVG:` exactly as stored. A
  file holding a bare `.` line, written by something other than this
  program, therefore makes `GET /all/...` send two `.` lines, and the
  listing looks finished early. The program's own appends never write such
  a line (`Store.AppendKeepsNoBareDot`), so framing is proved from a card
  with no bare `.` line.
- `%Y-W%V` pairs the calendar year with the ISO week number. Sunday
  1 January 2023 and Sunday 31 December 2023 therefore get the same label
  `2023-W52` (`Calendar.WeekLabelRepeats`).

## Model

| member | source | states |
|---|---|---|
| Text.IndexOf | receiver.c:118-122 | `indexOf`: -1 exactly when the receiver is empty or the pattern occurs nowhere, otherwise the first index where it occurs |
| Text.TrimStart | receiver.c:196 | `trim` drops exactly the leading white space: the result is a suffix whose first character is not white space |
| Text.TrimEnd | receiver.c:196 | `trim` drops exactly the trailing white space: the result is a prefix whose last character is not white space |
| Text.TrimDropsReturn | receiver.c:195-196 | for a non-empty text with no white space at either end, trimming the stored line (the text plus the `'\r'` that `println` left) gives back exactly the text |
| Text.ParseLongOfIntText | receiver.c:127 | `toInt` reads back the `%d` text of any integer, whatever non-digit text follows |
| Text.ParseFixed2OfFixed2Text | receiver.c:125-126 | `toFloat` reads back the `%.2f` text of any value, in hundredths, whatever non-digit text follows |
| Text.DigitsValueOfNatText | receiver.c:143 | the decimal digits printed for a natural number denote that number |
| Calendar.DaysInMonth | receiver.c:149-158 | every month has 28 to 31 days |
| Calendar.PrevDay | receiver.c:158 | stepping `time_t` back by 86400 s gives a valid date |
| Calendar.PrevDayOrdinal | receiver.c:158 | the previous day is exactly one day earlier on the day-number line, across month and year ends and leap years |
| Calendar.PrevDayImmediate | receiver.c:158 | the previous day comes before the date and no valid date lies strictly between them |
| Calendar.YearLength | receiver.c:158 | the Gregorian day count grows by 366 over a leap year and 365 otherwise |
| Calendar.DaysBeforeOrdinal | receiver.c:148-160 | walking back `i` days lands exactly `i` days earlier |
| Calendar.LastNDates | receiver.c:148-160 | `get_last_n_dates` yields `n` names: element 0 is today's partition and element `i` is the partition `i` days earlier |
| Calendar.PreviousMonth | receiver.c:489-491 | on the 1st, the civil month before the clock's month (12 * year + month drops by exactly one), January giving December of the previous year; this is what `tm_mon - 1` normalised by `mktime` gives when daylight saving does not change between the two dates |
| Calendar.IsoWeek | receiver.c:468 | `%V` is a week number from 1 to 53 |
| Calendar.IsoWeekOfThursday | receiver.c:468 | `%V` is the ISO 8601 week of the date: the week, counted from 1, that the Thursday of its Monday-to-Sunday week falls in within that Thursday's year |
| Calendar.WeekLabelRepeats | receiver.c:468 | two Sundays 364 days apart, 1 January and 31 December 2023, get the same weekly label |
| Store.Open | receiver.c:165-170 | opening succeeds exactly when the card is mounted and the file exists, and yields its lines |
| Store.Printed | receiver.c:259 | a printed line is the text followed by `'\r'` |
| Store.Append | receiver.c:242-259 | appending fails exactly when the card is not mounted, creates a missing file, adds one line at the end and leaves every other file as it was |
| Store.AppendKeepsNoBareDot | receiver.c:259 | an appended line is never the bare terminator `.` |
| Store.LastWhereIsLast | receiver.c:173-181 | a last-match lookup returns `""` when no line matches, otherwise a matching line with no match after it |
| Store.LastWhereAppendMatch | receiver.c:176-178 | a matching line appended last becomes the lookup's answer |
| Store.LastWhereAppendOther | receiver.c:176-178 | a non-matching line appended leaves the lookup's answer unchanged |
| Store.UnmarkedConcat | receiver.c:334-339 | the listing keeps file order and splits over concatenation |
| Store.UnmarkedMembers | receiver.c:336-337 | a line is listed exactly when it is in the file and does not start with `AVG:` |
| Store.UnmarkedLength | receiver.c:334-339 | the listing never holds more lines than the file |
| Store.UnmarkedSingle | receiver.c:336-337 | a single line is listed on its own unless it starts with `AVG:` |
| Codec.SampleLineDecodes | receiver.c:195-206 | the day scan reads a stored sample line back as exactly the values written |
| Codec.DailyLineDecodes | receiver.c:118-127 | the multi-day scan reads a stored daily aggregate back as exactly the means written |
| Codec.DailyLineCountsAsSample | receiver.c:199-203 | a daily aggregate left in a day file also passes the day scan's marker test, with the same values |
| Codec.LeadingMarkerRejectedByDayScan | receiver.c:203 | a trimmed line that starts with `H:` never counts in the day scan |
| Codec.LeadingMarkerAcceptedBySummaryScan | receiver.c:118-124 | a tagged line that starts with `H:` counts in the multi-day scan but not in the day scan |
| Codec.FieldsLayout | receiver.c:120-127 | written fields read back as the values written, after any marker-free prefix and before any suffix that does not continue the digits |
| Codec.SampleReading | receiver.c:196-206 | the day scan takes a line exactly when, after trimming, `H:` occurs past index 0, then `T:`, then `S:`; a blank line never qualifies, since `indexOf` on it is -1; the values are the fields between the markers |
| Codec.DailyReading | receiver.c:118-127 | the multi-day scan takes a line exactly when it holds `AVG:` and `H:` occurs at index 0 or later, then `T:`, then `S:`; the values are the fields between the markers |
| Averaging.TruncDiv | receiver.c:140 | `int / int` truncates toward zero: the quotient is bounded by the exact quotient from the side of zero |
| Averaging.RoundedMean | receiver.c:138-143 | the printed mean is within half a hundredth of the exact mean |
| Averaging.Fit | receiver.c:143 | `snprintf` keeps the whole text when it fits the buffer, otherwise its first `size - 1` characters |
| Averaging.TotalledConcat | receiver.c:114-134 | the totals of two runs of lines add up: each line counts on its own |
| Averaging.TotalledCount | receiver.c:114-134 | the count is at most the number of lines, and zero exactly when no line passes the test |
| Averaging.RejectedLineSkipped | receiver.c:197-203 | a line the day scan rejects changes nothing in the totals |
| Averaging.DayTotalsCount | receiver.c:194-216 | the day scan's count is zero exactly when no line passes its test |
| Averaging.SummaryTotalsCount | receiver.c:116-134 | the multi-day scan's count is zero exactly when no day's aggregate passes its test |
| Averaging.SampleAdds | receiver.c:204-211 | every stored sample adds exactly its values and one to the day's totals |
| Averaging.SoilTruncates | receiver.c:220 | soil values 1 and 2 average to 1: the soil mean is truncated |
| Averaging.TruncDivBetween | receiver.c:220 | the soil mean lies between the smallest and largest possible value |
| Averaging.RoundedMeanBetween | receiver.c:218-219 | the humidity and temperature means lie between the smallest and largest possible value |
| Averaging.NoValidDataIgnored | receiver.c:216 | with no sample, the day average is `No valid data`, which neither scan reads back |
| Averaging.NoDataWhenNothingCounts | receiver.c:136 | with no usable aggregate line, the multi-day average is `No data` |
| Averaging.DayAverageReadBack | receiver.c:222-225 | a day average that fits its buffer is read back by the multi-day scan as the day's means |
| Rollover.Latch | receiver.c:445-462 | a latch clears outside its holding window, becomes set only through an append, and stays set inside the window |
| Rollover.SetLatchAppendsNothing | receiver.c:445-462 | a set latch appends nothing and stays set while the clock stays in the window |
| Rollover.AtMostOnce | receiver.c:445-510 | while the clock stays in the holding window, at most one aggregate line is appended |
| Rollover.NoSuccessNoAppend | receiver.c:451-461 | without a firing tick whose file opens, nothing is appended and the latch does not become set |
| Rollover.ExactlyOnce | receiver.c:445-462 | from a clear latch, a stretch in the window with one firing tick whose file opens appends exactly once and leaves the latch set |
| Rollover.AppendedConcat | receiver.c:445-510 | the number of appends over two runs of ticks adds up |
| Rollover.Rearms | receiver.c:462 | a tick outside the window re-arms the latch: the next stretch appends exactly once more |
| Protocol.Route | receiver.c:367-438 | a command is unknown exactly when the trimmed line is not `GET /last` and starts with none of the six prefixes |
| Protocol.BlankIsUnknown | receiver.c:369-437 | an empty or blank command is unknown |
| Protocol.AvgDayArgument | receiver.c:375-377 | `GET /avg/day<d>` looks up the file `<d>.txt` |
| Protocol.AvgWeekArgument | receiver.c:385-387 | `GET /avg/week/<w>` looks up the label `<w>` |
| Protocol.AvgMonthArgument | receiver.c:395-397 | `GET /avg/month/<m>` looks up the label `<m>` |
| Protocol.BareWeekLookup | receiver.c:385-386 | `GET /avg/week` with nothing after it looks up the empty label |
| Receiver.AvgLines | receiver.c:114-116 | there is one aggregate lookup per partition name: line `i` is the last `AVG:` line of partition `i` |
| Receiver.LastMatching | receiver.c:172-181 | the read loop returns the last line that the filter keeps |
| Receiver.SumDay | receiver.c:194-214 | the accumulator loop of `calculate_day_average` holds the day scan's totals |
| Receiver.AddDay | receiver.c:116-133 | one step of `calculate_average`'s loop adds a day's aggregate exactly when it passes the test |
| Receiver.Receiver.GetAvgLineFromFile | receiver.c:164-182 | `get_AVG_line_from_file` returns the last `AVG:` line, or `""` |
| Receiver.Receiver.GetAvg | receiver.c:296-317 | `get_avg` returns `404 not found` for a bad granularity, `""` when the file fails to open, otherwise the last line holding the period |
| Receiver.Receiver.GetLastLineOfTodayFile | receiver.c:276-292 | `getLastLineOfTodayFile` returns the last line longer than two characters, or its two failure messages |
| Receiver.Receiver.GetFileAllLines | receiver.c:319-343 | `get_file_all_lines` sends the unmarked lines in order and returns its status string |
| Receiver.Receiver.CalculateDayAverage | receiver.c:186-226 | `calculate_day_average` returns the day's mean line, or `No valid data` |
| Receiver.Receiver.SumAverages | receiver.c:114-134 | the loop of `calculate_average` holds the totals of the days' aggregate lines |
| Receiver.Receiver.CalculateAverage | receiver.c:106-145 | `calculate_average(n)` averages the aggregates of the `n` partitions ending today, or returns `No data` |
| Receiver.Receiver.HandleCommand | receiver.c:367-438 | the Bluetooth branch sends exactly the reply the router and dispatcher define |
| Receiver.Receiver.Dispatch | receiver.c:371-437 | each dispatcher branch sends its answer line or listing, then the `.` line |
| Receiver.Receiver.WriteDataToFile | receiver.c:233-263 | the card after `write_data_to_file` is the recorded card; the latches are unchanged |
| Receiver.Receiver.DayRollover | receiver.c:445-462 | the day rollover's card and latch are one latch step of the day window |
| Receiver.Receiver.WeekRollover | receiver.c:465-485 | the week rollover's card and latch are one latch step of the week window |
| Receiver.Receiver.MonthRollover | receiver.c:487-510 | the month rollover's card and latch are one latch step of the month window |
| Receiver.Receiver.Tick | receiver.c:345-514 | one pass of `loop()` leaves the card, latches and Bluetooth output that `Next` defines |
| Properties.LastAvgLineIsLast | receiver.c:164-182 | `get_AVG_line_from_file` returns `""` when the file fails to open, otherwise the last `AVG:` line, or `""` when there is none |
| Properties.PeriodLineIsLast | receiver.c:296-317 | `get_avg` returns `404 not found` for a bad granularity, `""` on a failed open, otherwise the last line holding the period, or `""` |
| Properties.TodayLastLineIsLast | receiver.c:276-292 | `getLastLineOfTodayFile` returns `Failed to open file`, `No data found` when no line is longer than two characters, otherwise the last such line |
| Properties.AllLinesSendsUnmarked | receiver.c:319-343 | `get_file_all_lines` returns `404 not found` or `""` and sends nothing, or sends exactly the lines not starting with `AVG:`, in file order and with their repetitions |
| Properties.LastWhereIn | receiver.c:172-181 | a lookup returns `""` or one of the lines it read |
| Properties.ReplyFramed | receiver.c:367-438 | on a card with no bare `.` line, every response ends with one `.` line and holds no other |
| Properties.ListedFramed | receiver.c:405-433 | on a card with no bare `.` line, a listing response ends with one `.` line and holds no other |
| Properties.BlankCommandReply | receiver.c:435-437 | an empty or blank command gets `404 Not Found` then `.` |
| Properties.MissingDayReply | receiver.c:375-384 | a day lookup whose file does not open gets the long not-found message then `.` |
| Properties.RecordedAppendsOneLine | receiver.c:233-263 | a packet with a zero field, or one arriving on an unmounted card, changes nothing; any other appends exactly one line to its day's file and changes no other file |
| Properties.RecordedSampleCounts | receiver.c:233-263 | a packet with no zero field, written to a mounted card as a line shorter than its 128-byte buffer, counts in its day's totals with exactly its values |
| Properties.StepAppendsOnlyWhenLatching | receiver.c:445-462 | a rollover appends its line exactly when the latch is clear, the window fires and the file opens; otherwise the card is unchanged |
| Properties.DayLineReadBack | receiver.c:445-462 | after the day rollover appends, the day's last `AVG:` line is the new average, read back as the day's means |
| Properties.NoValidDataLeavesLookup | receiver.c:445-462 | when the day had no sample, the appended `No valid data` leaves the day's aggregate lookup unchanged |
| Properties.LabelledLineHoldsLabel | receiver.c:472 | a line written with a short label contains that label |
| Properties.WeekLineAnswered | receiver.c:466-485 | right after the week rollover appends, `GET /avg/week/<label>` answers with the line it wrote |
| Properties.MonthLineAnswered | receiver.c:488-510 | right after the month rollover appends, `GET /avg/month/<previous month>` answers with the line it wrote |
| Properties.AverageWindows | receiver.c:470 | the weekly average covers today and the 6 days before, the first 7 partitions of the monthly window; the monthly average covers today and the 28 days before |
| Properties.RolloversKeep | receiver.c:445-510 | the rollovers keep the mount state and the absence of bare `.` lines, and move each latch as its window says |
| Properties.NextKeepsInvariants | receiver.c:345-514 | one pass of `loop()` does nothing without a clock, keeps the mount state, moves each latch as its window says, keeps bare `.` lines off the card and, from a card with none, frames every response |
| Properties.AdvanceIsNext | receiver.c:345-514 | the card and latches a run steps through are exactly those `Next` leaves after one pass of `loop()` |
| Properties.AdvanceWeekLines | receiver.c:345-514 | one pass of `loop()` keeps the mount state, moves the week latch as its window says, and adds a line to `/weeks_average.txt` exactly when the week latch appends |
| Properties.RunWeekLines | receiver.c:465-485 | over a run of passes, `/weeks_average.txt` grows by the week latch's appends, and the latch ends as its moments leave it |
| Properties.SundaysAppendAtMostOnce | receiver.c:465-485 | while every pass falls on a Sunday, `/weeks_average.txt` gains at most one line, and none when the latch is already set |
| Properties.SundaysAppendOnce | receiver.c:465-485 | from a clear latch on a mounted card, a run of Sunday passes adds exactly one weekly line and leaves the latch set |
| Properties.WeekLatchRearms | receiver.c:485 | a pass on another weekday re-arms the week latch: it and the Sunday passes after it add exactly one more weekly line |
| Properties.AdvanceMonthLines | receiver.c:345-514 | one pass of `loop()` keeps the mount state, moves the month latch as its window says, and adds a line to `/months_average.txt` exactly when the month latch appends |
| Properties.RunMonthLines | receiver.c:487-510 | over a run of passes, `/months_average.txt` grows by the month latch's appends, and the latch ends as its moments leave it |
| Properties.FirstsAppendAtMostOnce | receiver.c:487-510 | while every pass falls on the 1st of a month, `/months_average.txt` gains at most one line, and none when the latch is already set |
| Properties.FirstsAppendOnce | receiver.c:487-510 | from a clear latch on a mounted card, a run of passes on the 1st adds exactly one monthly line and leaves the latch set |
| Properties.MonthLatchRearms | receiver.c:510 | a pass on another day of the month re-arms the month latch: it and the passes on the 1st after it add exactly one more monthly line |

## Left out

- Radio, WiFi, NTP, `setup()`, `delay` and the Bluetooth connection callback are left out. The packet and the command line are inputs to `Tick`.
- `transmitter.c` is not part of this model.
- Output to the USB serial port is left out. It is diagnostics only, including the `/all/...` status string.
- Floating point is not modelled. Humidity and temperature are integers in hundredths.
- Averaging.RoundedMean: it stands in for the float mean printed with `%.2f`, which rounds to nearest. Float rounding errors in the running sums are not modelled.
- Receiver.HasZeroField: the float tests `== 0.00` are modelled as the value in hundredths being 0. A float below 0.005 in size is therefore not covered.
- Averaging.Totals: the `int` soil sum is unbounded, so a 32-bit overflow of `totalS` is not modelled.
- Calendar.PreviousMonth: `lastMonth` keeps today's `tm_isdst`, and `configTime(3600, 3600, ...)` turns daylight saving on. In the first hour of a 1st that is in summer time while the 1st of the previous month is not (1 April, say), `mktime` moves the time back one hour, to the last day of the month before that. The label is then `YYYY-02` instead of `YYYY-03`. The model gives the civil previous month and does not capture this shift.
- Calendar.PrevDay: `get_last_n_dates` steps `time_t` back by 86400 seconds. The model steps back one calendar day, so daylight-saving shifts are not modelled.
- Receiver.Receiver.Tick: `getTodayFilename` reads the clock again. The model reuses the clock of the pass. A failed re-read is modelled only for `getLastLineOfTodayFile`, as `/unknown.txt`.
- Store.Append: a failed open for append is modelled as an unmounted card. Write errors after a successful open are not modelled.
- The `404 not found` answer of `get_avg` and `get_file_all_lines` cannot be reached from the dispatcher. It is modelled in the functions only.
- `avg_year_done` is declared but never used, so it is not modelled.
- The monthly window is today plus the 28 previous days, as the code does with `calculate_average(29)`. It is not the previous calendar month that its label names.
