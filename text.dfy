/**
  The Arduino `String` operations the receiver relies on, on `seq<char>`:
  `indexOf`, `startsWith`, `substring`, `trim`, the `%d`, `%02d` and `%.2f`
  conversions of `snprintf`/`strftime`, and the `toInt` (`atol`) and
  `toFloat` (`atof`) conversions. Air humidity and temperature are carried
  as fixed-point hundredths, which is what `%.2f` keeps of them.
*/
module Text {

  /** `isspace` of the C library: space, tab, newline, vertical tab, form feed, carriage return. */
  predicate IsSpace(c: char) {
    c == ' ' || 9 <= c as int <= 13
  }

  predicate IsDigit(c: char) {
    '0' <= c <= '9'
  }

  predicate AllDigits(s: string) {
    forall i :: 0 <= i < |s| ==> IsDigit(s[i])
  }

  // ---------------------------------------------------------------------------
  // Searching

  /** `p` occurs in `s` starting at index `k`. */
  predicate OccursAt(s: string, p: string, k: nat) {
    k + |p| <= |s| && s[k..k + |p|] == p
  }

  /** The first occurrence of `p` in `s` at or after index `i`, or -1 (the `strstr` scan). */
  function FindFrom(s: string, p: string, i: nat): (r: int)
    requires i <= |s|
    ensures r == -1 ==> forall k: nat :: i <= k ==> !OccursAt(s, p, k)
    ensures r != -1 ==> i <= r && OccursAt(s, p, r)
    ensures r != -1 ==> forall k: nat :: i <= k < r ==> !OccursAt(s, p, k)
    decreases |s| - i
  {
    if i + |p| > |s| then -1
    else if s[i..i + |p|] == p then i
    else FindFrom(s, p, i + 1)
  }

  /**
    `String::indexOf`: the first occurrence of `p` in `s`, or -1. An empty
    receiver gives -1 even for an empty pattern, and a non-empty receiver
    contains the empty pattern at 0.
  */
  function IndexOf(s: string, p: string): (r: int)
    ensures -1 <= r < |s| + 1
    ensures r == -1 <==> |s| == 0 || forall k: nat :: !OccursAt(s, p, k)
    ensures r != -1 ==> OccursAt(s, p, r) && forall k: nat :: k < r ==> !OccursAt(s, p, k)
  {
    if |s| == 0 then -1 else FindFrom(s, p, 0)
  }

  /** `s.indexOf(p) != -1` */
  predicate Contains(s: string, p: string) {
    IndexOf(s, p) != -1
  }

  /** `String::startsWith` */
  predicate StartsWith(s: string, p: string) {
    |p| <= |s| && s[..|p|] == p
  }

  /** `String::substring(from)`: the tail from `from`, empty when `from` is at or past the end. */
  function Substring(s: string, from: nat): string {
    if from < |s| then s[from..] else ""
  }

  /**
    `String::substring(left, right)`: the bounds are swapped when `left > right`,
    the result is empty when `left` is at or past the end and `right` is clamped
    to the length.
  */
  function Slice(s: string, left: nat, right: nat): string {
    var lo := if left <= right then left else right;
    var hi := if left <= right then right else left;
    if lo >= |s| then "" else s[lo..if hi <= |s| then hi else |s|]
  }

  // ---------------------------------------------------------------------------
  // Trimming

  /** Drops the leading white space. */
  function TrimStart(s: string): (r: string)
    ensures |r| <= |s| && r == s[|s| - |r|..]
    ensures r == [] || !IsSpace(r[0])
    ensures forall i :: 0 <= i < |s| - |r| ==> IsSpace(s[i])
  {
    if |s| > 0 && IsSpace(s[0]) then TrimStart(s[1..]) else s
  }

  /** Drops the trailing white space. */
  function TrimEnd(s: string): (r: string)
    ensures |r| <= |s| && r == s[..|r|]
    ensures r == [] || !IsSpace(r[|r| - 1])
    ensures forall i :: |r| <= i < |s| ==> IsSpace(s[i])
  {
    if |s| > 0 && IsSpace(s[|s| - 1]) then TrimEnd(s[..|s| - 1]) else s
  }

  /** `String::trim` */
  function Trim(s: string): string {
    TrimEnd(TrimStart(s))
  }

  lemma TrimOfTrimmed(s: string)
    requires |s| > 0 && !IsSpace(s[0]) && !IsSpace(s[|s| - 1])
    ensures Trim(s) == s
  {
  }

  /** Trimming drops the carriage return a `println` leaves before the newline. */
  lemma TrimDropsReturn(s: string)
    requires |s| > 0 && !IsSpace(s[0]) && !IsSpace(s[|s| - 1])
    ensures Trim(s + "\r") == s
  {
    var t := s + "\r";
    assert TrimStart(t) == t;
    assert t[..|t| - 1] == s;
  }

  // ---------------------------------------------------------------------------
  // Formatting

  function DigitChar(d: nat): (c: char)
    requires d < 10
    ensures IsDigit(c)
  {
    (48 + d) as char
  }

  function DigitValue(c: char): (d: nat)
    requires IsDigit(c)
    ensures d < 10
  {
    c as int - 48
  }

  /** The decimal digits of `n` without leading zeros. */
  function NatText(n: nat): (r: string)
    ensures 0 < |r| && AllDigits(r)
  {
    if n < 10 then [DigitChar(n)] else NatText(n / 10) + [DigitChar(n % 10)]
  }

  /** `%d` */
  function IntText(n: int): string {
    if n < 0 then "-" + NatText(-n) else NatText(n)
  }

  /** `%0<w>d` of a non-negative value. */
  function Pad(n: nat, w: nat): (r: string)
    ensures AllDigits(r) && w <= |r|
  {
    var t := NatText(n);
    if w <= |t| then t else seq(w - |t|, _ => '0') + t
  }

  /** `%.2f` of the value `v / 100`. */
  function Fixed2Text(v: int): string {
    var a := if v < 0 then -v else v;
    (if v < 0 then "-" else "") + NatText(a / 100) + "." + Pad(a % 100, 2)
  }

  lemma PadTwo(x: nat)
    requires x < 100
    ensures Pad(x, 2) == [DigitChar(x / 10), DigitChar(x % 10)]
  {
    if x >= 10 {
      assert NatText(x) == NatText(x / 10) + [DigitChar(x % 10)];
    }
  }

  // ---------------------------------------------------------------------------
  // Parsing

  /** The value of a run of decimal digits. */
  function DigitsValue(ds: string): nat
    requires AllDigits(ds)
  {
    if |ds| == 0 then 0 else DigitsValue(ds[..|ds| - 1]) * 10 + DigitValue(ds[|ds| - 1])
  }

  /** The length of the run of digits that starts `s`. */
  function DigitRun(s: string): (n: nat)
    ensures n <= |s| && AllDigits(s[..n])
    ensures n == |s| || !IsDigit(s[n])
  {
    if |s| > 0 && IsDigit(s[0]) then 1 + DigitRun(s[1..]) else 0
  }

  /** What follows an optional leading sign. */
  function Unsigned(u: string): string {
    if |u| > 0 && (u[0] == '-' || u[0] == '+') then u[1..] else u
  }

  /** `toInt` (`atol`): leading white space, an optional sign, then digits; 0 when there are none. */
  function ParseLong(s: string): int {
    var u := TrimStart(s);
    var body := Unsigned(u);
    var mag: int := DigitsValue(body[..DigitRun(body)]);
    if |u| > 0 && u[0] == '-' then -mag else mag
  }

  /** The first two digits after a decimal point, in hundredths; missing digits count as zero. */
  function Hundredths(f: string): (h: nat)
    ensures h < 100
  {
    var m := DigitRun(f);
    if m == 0 then 0
    else if m == 1 then 10 * DigitValue(f[0])
    else 10 * DigitValue(f[0]) + DigitValue(f[1])
  }

  /**
    `toFloat` (`atof`) in hundredths: leading white space, an optional sign,
    digits, then an optional point and fraction digits; 0 when nothing parses.
  */
  function ParseFixed2(s: string): int {
    var u := TrimStart(s);
    var body := Unsigned(u);
    var n := DigitRun(body);
    var rest := body[n..];
    var mag: int := DigitsValue(body[..n]) * 100 + (if |rest| > 0 && rest[0] == '.' then Hundredths(rest[1..]) else 0);
    if |u| > 0 && u[0] == '-' then -mag else mag
  }

  // ---------------------------------------------------------------------------
  // Round trips of the conversions

  lemma {:induction false} DigitsValueOfNatText(n: nat)
    ensures DigitsValue(NatText(n)) == n
  {
    if n >= 10 {
      var t := NatText(n);
      assert t[..|t| - 1] == NatText(n / 10);
      DigitsValueOfNatText(n / 10);
    }
  }

  lemma {:induction false} DigitRunOfDigits(ds: string, rest: string)
    requires AllDigits(ds)
    requires rest == [] || !IsDigit(rest[0])
    ensures DigitRun(ds + rest) == |ds|
  {
    if |ds| == 0 {
      assert ds + rest == rest;
    } else {
      assert (ds + rest)[1..] == ds[1..] + rest;
      DigitRunOfDigits(ds[1..], rest);
    }
  }

  /** An optional minus sign before a digit: nothing to trim, and the sign is all `Unsigned` drops. */
  lemma SignStripped(sign: string, body: string)
    requires sign == "" || sign == "-"
    requires |body| > 0 && IsDigit(body[0])
    ensures TrimStart(sign + body) == sign + body
    ensures Unsigned(sign + body) == body
    ensures (sign + body)[0] == '-' <==> sign == "-"
  {
    var s := sign + body;
    if sign == "-" {
      assert s[0] == '-';
      assert s[1..] == body;
    } else {
      assert s == body;
    }
  }

  /** A signed run of digits followed by a non-digit: what the parsers see of it. */
  lemma SignedDigits(sign: string, t: string, rest: string)
    requires sign == "" || sign == "-"
    requires |t| > 0 && AllDigits(t)
    requires rest == [] || !IsDigit(rest[0])
    ensures TrimStart(sign + t + rest) == sign + t + rest
    ensures Unsigned(sign + t + rest) == t + rest
    ensures (sign + t + rest)[0] == '-' <==> sign == "-"
    ensures DigitRun(t + rest) == |t|
    ensures (t + rest)[..|t|] == t && (t + rest)[|t|..] == rest
  {
    var body := t + rest;
    assert sign + t + rest == sign + body;
    assert body[0] == t[0];
    SignStripped(sign, body);
    DigitRunOfDigits(t, rest);
    assert body[..|t|] == t;
    assert body[|t|..] == rest;
  }

  /** `toInt` reads back what `%d` wrote, whatever non-digit text follows. */
  lemma ParseLongOfIntText(n: int, rest: string)
    requires rest == [] || !IsDigit(rest[0])
    ensures ParseLong(IntText(n) + rest) == n
  {
    var m := if n < 0 then -n else n;
    var sign := if n < 0 then "-" else "";
    assert IntText(n) == sign + NatText(m);
    SignedDigits(sign, NatText(m), rest);
    DigitsValueOfNatText(m);
  }

  /** How `toFloat` reads a signed run of digits followed by `tail`. */
  lemma ParseFixed2OfDigits(sign: string, w: string, tail: string)
    requires sign == "" || sign == "-"
    requires |w| > 0 && AllDigits(w)
    requires tail == [] || !IsDigit(tail[0])
    ensures var mag := DigitsValue(w) * 100 + (if |tail| > 0 && tail[0] == '.' then Hundredths(tail[1..]) else 0);
            ParseFixed2(sign + w + tail) == if sign == "-" then -mag else mag
  {
    var s := sign + w + tail;
    SignedDigits(sign, w, tail);
    ParseFixed2Parts(s, w + tail, w, tail, sign == "-");
  }

  /** `toFloat` of a string with nothing to trim whose unsigned part has its digit run at `n`. */
  lemma ParseFixed2Parts(s: string, body: string, digits: string, rest: string, negative: bool)
    requires TrimStart(s) == s && Unsigned(s) == body
    requires DigitRun(body) == |digits| && body[..|digits|] == digits && body[|digits|..] == rest
    requires |s| > 0 && (s[0] == '-' <==> negative)
    ensures AllDigits(digits)
    ensures var mag := DigitsValue(digits) * 100 + (if |rest| > 0 && rest[0] == '.' then Hundredths(rest[1..]) else 0);
            ParseFixed2(s) == if negative then -mag else mag
  {
  }

  /** Two digits followed by a non-digit are read as hundredths. */
  lemma HundredthsOfPad(x: nat, rest: string)
    requires x < 100
    requires rest == [] || !IsDigit(rest[0])
    ensures Hundredths(Pad(x, 2) + rest) == x
  {
    PadTwo(x);
    DigitRunOfDigits(Pad(x, 2), rest);
  }

  /** `toFloat` reads back, in hundredths, what `%.2f` wrote, whatever non-digit text follows. */
  lemma ParseFixed2OfFixed2Text(v: int, rest: string)
    requires rest == [] || !IsDigit(rest[0])
    ensures ParseFixed2(Fixed2Text(v) + rest) == v
  {
    var a := if v < 0 then -v else v;
    var sign := if v < 0 then "-" else "";
    var w := NatText(a / 100);
    var f := Pad(a % 100, 2);
    var tail := "." + f + rest;
    assert Fixed2Text(v) + rest == sign + w + tail;
    assert tail[1..] == f + rest;
    ParseFixed2OfDigits(sign, w, tail);
    DigitsValueOfNatText(a / 100);
    HundredthsOfPad(a % 100, rest);
    assert (a / 100) * 100 + a % 100 == a;
  }

  // ---------------------------------------------------------------------------
  // Searching in concatenations

  /**
    When no character of `a` can start `p`, the first occurrence of `p` in
    `a + b` is the first one in `b`, shifted by `|a|`.
  */
  lemma IndexOfShift(a: string, b: string, p: string)
    requires |p| > 0
    requires forall i :: 0 <= i < |a| ==> a[i] != p[0]
    ensures IndexOf(a + b, p) == if IndexOf(b, p) == -1 then -1 else |a| + IndexOf(b, p)
  {
    var s := a + b;
    forall k: nat | k < |a|
      ensures !OccursAt(s, p, k)
    {
      assert k + |p| <= |s| ==> s[k..k + |p|][0] == a[k];
    }
    forall j: nat
      ensures OccursAt(s, p, |a| + j) <==> OccursAt(b, p, j)
    {
      if j + |p| <= |b| {
        assert s[|a| + j..|a| + j + |p|] == b[j..j + |p|];
      }
    }
    var r := IndexOf(b, p);
    if r == -1 {
      forall k: nat
        ensures !OccursAt(s, p, k)
      {
        if k >= |a| {
          assert !OccursAt(b, p, k - |a|);
        }
      }
    } else {
      var q := IndexOf(s, p);
      assert OccursAt(s, p, |a| + r);
      assert q != -1;
      assert q >= |a|;
      assert OccursAt(b, p, q - |a|);
    }
  }

  /** A string that starts with `p` finds it at 0. */
  lemma IndexOfPrefix(p: string, b: string)
    requires |p| > 0
    ensures IndexOf(p + b, p) == 0
  {
    assert OccursAt(p + b, p, 0);
  }

  /** A string that starts with `q`, which starts with `p`, finds `p` at 0. */
  lemma IndexOfLead(p: string, q: string, b: string)
    requires 0 < |p| <= |q| && q[..|p|] == p
    ensures IndexOf(q + b, p) == 0
  {
    assert (q + b)[..|p|] == p;
    assert OccursAt(q + b, p, 0);
  }

  /** A match at 0 stays the first match whatever is appended. */
  lemma IndexOfZeroExtends(s: string, p: string, t: string)
    requires IndexOf(s, p) == 0
    ensures IndexOf(s + t, p) == 0
  {
    assert (s + t)[..|p|] == s[..|p|];
    assert OccursAt(s + t, p, 0);
  }

  /** An occurrence at `k` with no earlier character able to start `p` is the first one. */
  lemma IndexOfAt(s: string, p: string, k: nat)
    requires |p| > 0 && OccursAt(s, p, k)
    requires forall j :: 0 <= j < k ==> s[j] != p[0]
    ensures IndexOf(s, p) == k
  {
    var r := IndexOf(s, p);
    assert |s| > 0 && r != -1;
    assert OccursAt(s, p, r);
    assert s[r] == p[0] by {
      assert s[r..r + |p|][0] == s[r];
    }
    assert k <= r;
  }

  /** No occurrence when no character of `a` can start `p`. */
  lemma NotContains(a: string, p: string)
    requires |p| > 0
    requires forall i :: 0 <= i < |a| ==> a[i] != p[0]
    ensures !Contains(a, p)
  {
    IndexOfShift(a, [], p);
    assert a + [] == a;
  }
}
