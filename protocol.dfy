/**
  The Bluetooth command language: a trimmed command line is matched against
  one exact command and six prefixes, in a fixed order, and the argument of a
  prefixed command is cut at a fixed offset. Every response ends with a line
  holding a single `.`.
*/
module Protocol {
  import opened Text

  /** The branch of the dispatcher a command takes, with the argument it cuts out. */
  datatype Command =
    | Last
    | AvgDay(path: string)
    | AvgWeek(period: string)
    | AvgMonth(period: string)
    | AllDay(path: string)
    | AllWeek
    | AllMonth
    | Unknown

  const EndOfResponse := "."
  const NotFound := "404 Not Found"
  const DataNotFound := "Data not found please verify the date is correct or that the date is not too early and that data exist for that period of time"

  /** The prefixes the dispatcher tries, in its order. */
  predicate HasKnownPrefix(cmd: string) {
    || StartsWith(cmd, "GET /avg/day")
    || StartsWith(cmd, "GET /avg/week")
    || StartsWith(cmd, "GET /avg/month")
    || StartsWith(cmd, "GET /all/day")
    || StartsWith(cmd, "GET /all/week")
    || StartsWith(cmd, "GET /all/month")
  }

  /**
    The dispatcher's if/else chain on the trimmed command. The day commands
    keep the text from offset 12 (the `/` after `day` included) and add
    `.txt`; the week and month lookups skip the `/` with offsets 14 and 15.
  */
  function Route(raw: string): (c: Command)
    ensures c == Unknown <==> Trim(raw) != "GET /last" && !HasKnownPrefix(Trim(raw))
  {
    var cmd := Trim(raw);
    if cmd == "GET /last" then Last
    else if StartsWith(cmd, "GET /avg/day") then AvgDay(Substring(cmd, 12) + ".txt")
    else if StartsWith(cmd, "GET /avg/week") then AvgWeek(Substring(cmd, 14))
    else if StartsWith(cmd, "GET /avg/month") then AvgMonth(Substring(cmd, 15))
    else if StartsWith(cmd, "GET /all/day") then AllDay(Substring(cmd, 12) + ".txt")
    else if StartsWith(cmd, "GET /all/week") then AllWeek
    else if StartsWith(cmd, "GET /all/month") then AllMonth
    else Unknown
  }

  /** A response: at least one line, the last one `.`, and no `.` line before it. */
  predicate Framed(out: seq<string>) {
    && |out| > 0
    && out[|out| - 1] == EndOfResponse
    && forall i :: 0 <= i < |out| - 1 ==> out[i] != EndOfResponse
  }

  // ---------------------------------------------------------------------------
  // Properties of the routing

  /** An empty or blank line is an unknown command. */
  lemma BlankIsUnknown(raw: string)
    requires forall i :: 0 <= i < |raw| ==> IsSpace(raw[i])
    ensures Route(raw) == Unknown
  {
    assert Trim(raw) == [] by {
      assert |TrimStart(raw)| == 0;
    }
  }

  lemma PrefixArgument(p: string, arg: string, k: nat)
    requires k <= |p| + |arg|
    ensures StartsWith(p + arg, p)
    ensures k >= |p| ==> Substring(p + arg, k) == arg[k - |p|..]
  {
    assert (p + arg)[..|p|] == p;
    if k >= |p| && k < |p + arg| {
      assert (p + arg)[k..] == arg[k - |p|..];
    }
  }

  lemma DiffersAt(s: string, p: string, k: nat)
    requires k < |p| && k < |s| && s[k] != p[k]
    ensures !StartsWith(s, p)
  {
    if |p| <= |s| {
      assert s[..|p|][k] == s[k];
    }
  }

  /** `GET /avg/day<d>` looks up the partition `<d>.txt`: the date is everything after the prefix. */
  lemma AvgDayArgument(d: string)
    requires Trim("GET /avg/day" + d) == "GET /avg/day" + d
    ensures Route("GET /avg/day" + d) == AvgDay(d + ".txt")
  {
    PrefixArgument("GET /avg/day", d, 12);
    assert d[0..] == d;
  }

  /** `GET /avg/week/<w>` looks up the label `<w>`: the character after the prefix is skipped. */
  lemma AvgWeekArgument(w: string)
    requires Trim("GET /avg/week/" + w) == "GET /avg/week/" + w
    ensures Route("GET /avg/week/" + w) == AvgWeek(w)
  {
    var cmd := "GET /avg/week/" + w;
    assert cmd == "GET /avg/week" + ("/" + w);
    PrefixArgument("GET /avg/week", "/" + w, 14);
    assert ("/" + w)[1..] == w;
    DiffersAt(cmd, "GET /avg/day", 9);
  }

  /** `GET /avg/month/<m>` looks up the label `<m>`: the character after the prefix is skipped. */
  lemma AvgMonthArgument(m: string)
    requires Trim("GET /avg/month/" + m) == "GET /avg/month/" + m
    ensures Route("GET /avg/month/" + m) == AvgMonth(m)
  {
    var cmd := "GET /avg/month/" + m;
    assert cmd == "GET /avg/month" + ("/" + m);
    PrefixArgument("GET /avg/month", "/" + m, 15);
    assert ("/" + m)[1..] == m;
    DiffersAt(cmd, "GET /avg/day", 9);
    DiffersAt(cmd, "GET /avg/week", 9);
  }

  /**
    `GET /avg/week` with nothing after it looks up the empty label, which
    every non-empty line of the weekly file contains.
  */
  lemma BareWeekLookup(raw: string)
    requires Trim(raw) == "GET /avg/week"
    ensures Route(raw) == AvgWeek("")
  {
    var cmd := Trim(raw);
    PrefixArgument(cmd, "", 13);
    assert cmd + "" == cmd;
    DiffersAt(cmd, "GET /avg/day", 9);
    assert cmd != "GET /last";
  }
}
