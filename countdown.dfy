/**
 * The countdown arithmetic shared by the banner and the event cards: a positive number of
 * milliseconds split into whole days, hours, minutes and seconds by integer division, and
 * each part shown as `String(n).padStart(2, '0')`.
 */
module Countdown {
  import JsString

  const MsPerSecond: nat := 1000
  const MsPerMinute: nat := 1000 * 60
  const MsPerHour: nat := 1000 * 60 * 60
  const MsPerDay: nat := 1000 * 60 * 60 * 24

  /** The `timeLeft` state object of both timers. */
  datatype TimeLeft = TimeLeft(days: nat, hours: nat, minutes: nat, seconds: nat)

  /** Both timers start at all zeros. */
  const Zero := TimeLeft(0, 0, 0, 0)

  /** The milliseconds the four parts stand for. */
  function Milliseconds(t: TimeLeft): nat {
    t.days * MsPerDay + t.hours * MsPerHour + t.minutes * MsPerMinute + t.seconds * MsPerSecond
  }

  /** Hours, minutes and seconds are within a day, an hour and a minute. */
  predicate InRange(t: TimeLeft) {
    t.hours < 24 && t.minutes < 60 && t.seconds < 60
  }

  /**
   * The tick's decomposition of a positive difference. For a positive dividend `Math.floor`
   * of the quotient and `%` agree with Dafny's `/` and `%`.
   */
  function Decompose(difference: int): (t: TimeLeft)
    requires difference > 0
    ensures InRange(t)
    ensures Milliseconds(t) <= difference < Milliseconds(t) + MsPerSecond
  {
    NestedRemainders(difference);
    TimeLeft(
      difference / MsPerDay,
      (difference % MsPerDay) / MsPerHour,
      (difference % MsPerHour) / MsPerMinute,
      (difference % MsPerMinute) / MsPerSecond)
  }

  /** Taking the remainder by a day first does not change the remainder by an hour, a minute or a second. */
  lemma NestedRemainders(d: nat)
    ensures d % MsPerHour == (d % MsPerDay) % MsPerHour
    ensures d % MsPerMinute == (d % MsPerHour) % MsPerMinute
    ensures d % MsPerSecond == (d % MsPerMinute) % MsPerSecond
  {
    RemainderOfMultiple(d, MsPerHour, 24);
    RemainderOfMultiple(d, MsPerMinute, 60);
    RemainderOfMultiple(d, MsPerSecond, 60);
  }

  lemma RemainderOfMultiple(d: nat, m: nat, k: nat)
    requires m > 0 && k > 0
    ensures d % m == (d % (k * m)) % m
  {
    var q := d / (k * m);
    var r := d % (k * m);
    assert d == (q * k) * m + r by {
      assert q * (k * m) == (q * k) * m;
    }
    var s := r % m;
    assert r == (r / m) * m + s;
    assert d == (q * k + r / m) * m + s;
    DivModUnique(d, m, q * k + r / m, s);
  }

  lemma DivModUnique(d: nat, m: nat, q: int, s: int)
    requires m > 0 && 0 <= s < m && d == q * m + s
    ensures d / m == q && d % m == s
  {
    var q' := d / m;
    var s' := d % m;
    var diff := q - q';
    assert diff * m == s' - s by {
      assert q * m - q' * m == diff * m;
    }
    if diff >= 1 {
      AtLeastOneMultiple(diff, m);
    } else if diff <= -1 {
      AtLeastOneMultiple(-diff, m);
    }
  }

  lemma AtLeastOneMultiple(a: int, m: nat)
    requires a >= 1
    ensures a * m >= m
  {
    assert a * m == (a - 1) * m + m;
  }

  /** The bounds and the reconstruction pin the decomposition down: no other parts satisfy both. */
  lemma DecomposeUnique(difference: int, t: TimeLeft)
    requires difference > 0
    requires InRange(t)
    requires Milliseconds(t) <= difference < Milliseconds(t) + MsPerSecond
    ensures t == Decompose(difference)
  {
    assert MsPerSecond == 1000 && MsPerMinute == 60000 && MsPerHour == 3600000 && MsPerDay == 86400000;
    var e := difference - Milliseconds(t);
    var secs := t.seconds * 1000 + e;
    var mins := t.minutes * 60000 + secs;
    var hours := t.hours * 3600000 + mins;
    assert 0 <= secs < 60000 && 0 <= mins < 3600000 && 0 <= hours < 86400000;
    DivModUnique(difference, MsPerDay, t.days, hours);
    DivModUnique(hours, MsPerHour, t.hours, mins);
    DivModUnique(difference, MsPerHour, t.days * 24 + t.hours, mins);
    DivModUnique(mins, MsPerMinute, t.minutes, secs);
    DivModUnique(difference, MsPerMinute, (t.days * 24 + t.hours) * 60 + t.minutes, secs);
    DivModUnique(secs, MsPerSecond, t.seconds, e);
  }

  /** `s` is at least two decimal digits spelling `n`. */
  predicate Shows(s: string, n: nat) {
    |s| >= 2 && JsString.AllDigits(s) && JsString.DigitsValue(s) == n
  }

  /** `String(n).padStart(2, '0')`. */
  function Pad2(n: nat): (r: string)
    ensures Shows(r, n)
    ensures n >= 10 ==> r == JsString.NatToString(n)
    ensures n < 10 ==> r == ['0', JsString.DigitChar(n)]
  {
    JsString.NumeralLength(n);
    JsString.PadZeros(JsString.NatToString(n), 2);
    JsString.PadStart(JsString.NatToString(n), 2, '0')
  }

  /** A value of 100 or more is printed in full, with three or more digits and no leading zero. */
  lemma Pad2Wide(n: nat)
    requires n >= 100
    ensures |Pad2(n)| >= 3 && Pad2(n)[0] != '0'
  {
    JsString.NumeralLength(n);
  }

  /** The four numbers a timer shows: days, hours, minutes, seconds. */
  function Display(t: TimeLeft): (r: seq<string>)
    ensures |r| == 4
    ensures Shows(r[0], t.days) && Shows(r[1], t.hours) && Shows(r[2], t.minutes) && Shows(r[3], t.seconds)
  {
    [Pad2(t.days), Pad2(t.hours), Pad2(t.minutes), Pad2(t.seconds)]
  }

  /** Within range, hours, minutes and seconds are shown as exactly two digits. */
  lemma DisplayInRange(t: TimeLeft)
    requires InRange(t)
    ensures |Display(t)[1]| == 2 && |Display(t)[2]| == 2 && |Display(t)[3]| == 2
  {
    JsString.NumeralLength(t.hours);
    JsString.NumeralLength(t.minutes);
    JsString.NumeralLength(t.seconds);
  }
}
