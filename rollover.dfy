/**
  The three aggregate latches of `loop()`. Each is a boolean that guards one
  append: the append happens in a tick when the clock is in the latch's firing
  window and the latch is clear, and only a successful append sets the latch;
  the latch is cleared in every tick whose clock is outside its holding window.

  | latch | fires when              | held while   |
  |-------|-------------------------|--------------|
  | day   | `hour == 23 && min >= 55` | `hour == 23` |
  | week  | `wday == 0`             | `wday == 0`  |
  | month | `mday == 1`             | `mday == 1`  |
*/
module Rollover {
  import opened Calendar

  /** What one tick tells a latch: in the firing window, in the holding window, and whether the append file opened. */
  datatype Moment = Moment(fire: bool, hold: bool, ok: bool)

  /** The firing window lies inside the holding window. */
  predicate Nested(m: Moment) {
    m.fire ==> m.hold
  }

  /** The tick appends an aggregate line. */
  predicate Appends(done: bool, m: Moment) {
    m.fire && !done && m.ok
  }

  /** The latch after the tick. */
  function Latch(done: bool, m: Moment): (d: bool)
    ensures !m.hold ==> !d
    ensures d && !done ==> Appends(done, m)
    ensures m.hold && Appends(done, m) ==> d
    ensures m.hold && done ==> d
  {
    if !m.hold then false else done || Appends(done, m)
  }

  function DayMoment(c: Clock, ok: bool): Moment {
    Moment(c.hour == 23 && c.min >= 55, c.hour == 23, ok)
  }

  function WeekMoment(c: Clock, ok: bool): Moment {
    Moment(c.wday == 0, c.wday == 0, ok)
  }

  function MonthMoment(c: Clock, ok: bool): Moment {
    Moment(c.mday == 1, c.mday == 1, ok)
  }

  lemma WindowsNested(c: Clock, ok: bool)
    ensures Nested(DayMoment(c, ok)) && Nested(WeekMoment(c, ok)) && Nested(MonthMoment(c, ok))
  {
  }

  // ---------------------------------------------------------------------------
  // Runs of ticks

  /** The number of appends over a run of ticks that starts with the latch at `done`. */
  function Appended(done: bool, ms: seq<Moment>): nat
    decreases |ms|
  {
    if |ms| == 0 then 0
    else (if Appends(done, ms[0]) then 1 else 0) + Appended(Latch(done, ms[0]), ms[1..])
  }

  /** The latch at the end of a run. */
  function LatchAfter(done: bool, ms: seq<Moment>): bool
    decreases |ms|
  {
    if |ms| == 0 then done else LatchAfter(Latch(done, ms[0]), ms[1..])
  }

  predicate AllHeld(ms: seq<Moment>) {
    forall i :: 0 <= i < |ms| ==> ms[i].hold
  }

  /** A set latch stays set and appends nothing while the clock stays in the holding window. */
  lemma {:induction false} SetLatchAppendsNothing(ms: seq<Moment>)
    requires AllHeld(ms)
    ensures Appended(true, ms) == 0 && LatchAfter(true, ms)
  {
    if |ms| > 0 {
      SetLatchAppendsNothing(ms[1..]);
    }
  }

  /** While the clock stays in the holding window, at most one aggregate line is appended. */
  lemma {:induction false} AtMostOnce(done: bool, ms: seq<Moment>)
    requires AllHeld(ms)
    ensures Appended(done, ms) <= 1
    ensures done ==> Appended(done, ms) == 0
    decreases |ms|
  {
    if done {
      SetLatchAppendsNothing(ms);
    } else if |ms| > 0 {
      AtMostOnce(Latch(done, ms[0]), ms[1..]);
    }
  }

  /** Without a tick that fires with the file opening, nothing is appended and the latch stays as it was or clears. */
  lemma {:induction false} NoSuccessNoAppend(done: bool, ms: seq<Moment>)
    requires forall i :: 0 <= i < |ms| ==> !(ms[i].fire && ms[i].ok)
    ensures Appended(done, ms) == 0
    ensures LatchAfter(done, ms) ==> done
    decreases |ms|
  {
    if |ms| > 0 {
      NoSuccessNoAppend(Latch(done, ms[0]), ms[1..]);
    }
  }

  /**
    From a clear latch, a stretch inside the holding window with at least one
    firing tick whose append succeeds appends exactly once, and leaves the latch set.
  */
  lemma {:induction false} ExactlyOnce(ms: seq<Moment>, k: nat)
    requires AllHeld(ms)
    requires k < |ms| && ms[k].fire && ms[k].ok
    ensures Appended(false, ms) == 1
    ensures LatchAfter(false, ms)
  {
    if ms[0].fire && ms[0].ok {
      SetLatchAppendsNothing(ms[1..]);
    } else {
      ExactlyOnce(ms[1..], k - 1);
    }
  }

  lemma {:induction false} AppendedConcat(done: bool, xs: seq<Moment>, ys: seq<Moment>)
    ensures Appended(done, xs + ys) == Appended(done, xs) + Appended(LatchAfter(done, xs), ys)
    ensures LatchAfter(done, xs + ys) == LatchAfter(LatchAfter(done, xs), ys)
    decreases |xs|
  {
    if |xs| > 0 {
      assert (xs + ys)[1..] == xs[1..] + ys;
      AppendedConcat(Latch(done, xs[0]), xs[1..], ys);
    } else {
      assert xs + ys == ys;
    }
  }

  /**
    Leaving the holding window re-arms the latch: after a tick outside it, the
    next stretch inside it appends again exactly once when one of its firing
    ticks opens the file, whatever happened before.
  */
  lemma Rearms(done: bool, xs: seq<Moment>, leave: Moment, ys: seq<Moment>, k: nat)
    requires Nested(leave) && !leave.hold
    requires AllHeld(ys) && k < |ys| && ys[k].fire && ys[k].ok
    ensures Appended(done, xs + [leave] + ys) == Appended(done, xs) + 1
  {
    AppendedConcat(done, xs + [leave], ys);
    AppendedConcat(done, xs, [leave]);
    assert [leave][1..] == [];
    ExactlyOnce(ys, k);
  }
}
