/**
  The SD card as the receiver sees it: a map from path to the lines a
  `readStringUntil('\n')` loop returns, and the last-match lookups over those
  lines. Every line the receiver writes goes through `println`, which ends it
  with `"\r\n"`; reading up to `'\n'` keeps the `'\r'`, so a stored line is
  the printed text followed by `'\r'`.
*/
module Store {
  import opened Common
  import opened Text

  /** The card: whether `SD.begin` mounted it, and the files on it. */
  datatype Card = Card(mounted: bool, files: map<string, seq<string>>)

  /** `SD.open(path)` for reading: the file's lines, or nothing when the card is not mounted or the file is missing. */
  function Open(card: Card, path: string): (r: Option<seq<string>>)
    ensures r.Some? <==> card.mounted && path in card.files
    ensures r.Some? ==> r.value == card.files[path]
  {
    if card.mounted && path in card.files then Some(card.files[path]) else None
  }

  /** The line `println(text)` leaves in a file, as a later read returns it. */
  function Printed(text: string): (line: string)
    ensures |line| == |text| + 1 && line[..|text|] == text && line[|text|] == '\r'
  {
    text + "\r"
  }

  /** `SD.open(path, FILE_APPEND)` then `println(text)`: creates a missing file; fails when the card is not mounted. */
  function Append(card: Card, path: string, text: string): (r: Option<Card>)
    ensures r.Some? <==> card.mounted
    ensures r.Some? ==> r.value.mounted && r.value.files.Keys == card.files.Keys + {path}
    ensures r.Some? ==> r.value.files[path] == (if path in card.files then card.files[path] else []) + [Printed(text)]
    ensures r.Some? ==> forall p :: p in card.files && p != path ==> r.value.files[p] == card.files[p]
  {
    if !card.mounted then None
    else
      var existing := if path in card.files then card.files[path] else [];
      Some(Card(true, card.files[path := existing + [Printed(text)]]))
  }

  /** No stored line is the bare response terminator `.`. */
  predicate NoBareDot(card: Card) {
    forall p :: p in card.files ==> "." !in card.files[p]
  }

  lemma AppendKeepsNoBareDot(card: Card, path: string, text: string)
    requires NoBareDot(card) && card.mounted
    ensures NoBareDot(Append(card, path, text).value)
  {
    var c := Append(card, path, text).value;
    forall p | p in c.files
      ensures "." !in c.files[p]
    {
      if p == path {
        var existing := if path in card.files then card.files[path] else [];
        assert c.files[p] == existing + [Printed(text)];
        assert Printed(text) != "." by {
          assert |Printed(text)| != 1 || Printed(text)[0] == '\r';
        }
      }
    }
  }

  // ---------------------------------------------------------------------------
  // Last-match lookups

  /** What a lookup keeps: lines holding a substring, or lines longer than a length. */
  datatype Filter = Containing(pattern: string) | LongerThan(length: nat)

  predicate Matches(f: Filter, line: string) {
    match f
    case Containing(p) => Contains(line, p)
    case LongerThan(n) => |line| > n
  }

  /** The last line that the filter keeps, or `""` when there is none. */
  function LastWhere(lines: seq<string>, f: Filter): string {
    if |lines| == 0 then ""
    else if Matches(f, lines[|lines| - 1]) then lines[|lines| - 1]
    else LastWhere(lines[..|lines| - 1], f)
  }

  /** The empty line never matches: `indexOf` on an empty string is -1 and its length is 0. */
  lemma EmptyNeverMatches(f: Filter)
    ensures !Matches(f, "")
  {
  }

  /**
    The lookup returns the last kept line: either `""` and no line is kept,
    or a kept line at some index with no kept line after it.
  */
  lemma {:induction false} LastWhereIsLast(lines: seq<string>, f: Filter)
    ensures var r := LastWhere(lines, f);
      || (r == "" && forall i :: 0 <= i < |lines| ==> !Matches(f, lines[i]))
      || (exists i :: 0 <= i < |lines| && lines[i] == r && Matches(f, r)
            && forall j :: i < j < |lines| ==> !Matches(f, lines[j]))
  {
    if |lines| > 0 {
      var init := lines[..|lines| - 1];
      if !Matches(f, lines[|lines| - 1]) {
        LastWhereIsLast(init, f);
        var r := LastWhere(init, f);
        if r == "" && forall i :: 0 <= i < |init| ==> !Matches(f, init[i]) {
          assert forall i :: 0 <= i < |lines| ==> !Matches(f, lines[i]) by {
            forall i | 0 <= i < |lines|
              ensures !Matches(f, lines[i])
            {
              if i < |init| {
                assert lines[i] == init[i];
              }
            }
          }
        } else {
          var i :| 0 <= i < |init| && init[i] == r && Matches(f, r)
            && forall j :: i < j < |init| ==> !Matches(f, init[j]);
          assert lines[i] == r;
          forall j | i < j < |lines|
            ensures !Matches(f, lines[j])
          {
            if j < |init| {
              assert lines[j] == init[j];
            }
          }
        }
      }
    }
  }

  /** A kept line appended later overrides any earlier match. */
  lemma LastWhereAppendMatch(lines: seq<string>, line: string, f: Filter)
    requires Matches(f, line)
    ensures LastWhere(lines + [line], f) == line
  {
  }

  /** A line the filter does not keep leaves the lookup as it was. */
  lemma LastWhereAppendOther(lines: seq<string>, line: string, f: Filter)
    requires !Matches(f, line)
    ensures LastWhere(lines + [line], f) == LastWhere(lines, f)
  {
    assert (lines + [line])[..|lines|] == lines;
  }

  // ---------------------------------------------------------------------------
  // Listing a file

  /** The lines `get_file_all_lines` sends: every line that does not start with `AVG:`. */
  function Unmarked(lines: seq<string>): seq<string> {
    if |lines| == 0 then []
    else if StartsWith(lines[|lines| - 1], "AVG:") then Unmarked(lines[..|lines| - 1])
    else Unmarked(lines[..|lines| - 1]) + [lines[|lines| - 1]]
  }

  /** The listing keeps the file's order and splits over concatenation. */
  lemma {:induction false} UnmarkedConcat(a: seq<string>, b: seq<string>)
    ensures Unmarked(a + b) == Unmarked(a) + Unmarked(b)
    decreases |b|
  {
    if |b| == 0 {
      assert a + b == a;
    } else {
      var b' := b[..|b| - 1];
      assert (a + b)[..|a + b| - 1] == a + b';
      UnmarkedConcat(a, b');
    }
  }

  /** One line is listed on its own unless it starts with `AVG:`. */
  lemma UnmarkedSingle(line: string)
    ensures Unmarked([line]) == if StartsWith(line, "AVG:") then [] else [line]
  {
    assert [line][..0] == [];
  }

  /** A line is listed exactly when it is in the file and does not start with `AVG:`. */
  lemma {:induction false} UnmarkedMembers(lines: seq<string>, line: string)
    ensures line in Unmarked(lines) <==> line in lines && !StartsWith(line, "AVG:")
  {
    if |lines| > 0 {
      var init := lines[..|lines| - 1];
      UnmarkedMembers(init, line);
      assert lines == init + [lines[|lines| - 1]];
    }
  }

  /** The listing never returns more lines than the file holds. */
  lemma {:induction false} UnmarkedLength(lines: seq<string>)
    ensures |Unmarked(lines)| <= |lines|
  {
    if |lines| > 0 {
      UnmarkedLength(lines[..|lines| - 1]);
    }
  }
}
