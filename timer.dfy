/** The game clock: a counter advanced by one per interval tick while the game
    runs, and the `mm:ss` rendering of a number of seconds. */
module Timer {
  import opened Wrappers

  predicate IsDigit(c: char) { '0' <= c <= '9' }

  predicate AllDigits(s: string) { forall i :: 0 <= i < |s| ==> IsDigit(s[i]) }

  function DigitChar(d: nat): (c: char)
    requires d < 10
    ensures IsDigit(c)
  {
    ('0' as int + d) as char
  }

  function DigitValue(c: char): (d: nat)
    requires IsDigit(c)
    ensures d < 10
  {
    c as int - '0' as int
  }

  /** The decimal value of a string of digits (the inverse of `Decimal`). */
  function Value(s: string): nat
    requires AllDigits(s)
  {
    if s == [] then 0 else Value(s[..|s| - 1]) * 10 + DigitValue(s[|s| - 1])
  }

  /** `n.toString()` for a non-negative integer: its decimal digits, no leading zero. */
  function Decimal(n: nat): (s: string)
    ensures AllDigits(s) && |s| >= 1
    ensures n < 10 <==> |s| == 1
    ensures n < 100 <==> |s| <= 2
  {
    if n < 10 then [DigitChar(n)] else Decimal(n / 10) + [DigitChar(n % 10)]
  }

  /** `s.padStart(width, c)`: `s` preceded by enough copies of `c` to reach `width`. */
  function PadStart(s: string, width: nat, c: char): (r: string)
    ensures |r| == if |s| >= width then |s| else width
    decreases width - |s|
  {
    if |s| >= width then s else PadStart([c] + s, width, c)
  }

  /** `PadStart(s, width, c)` is a run of `c` followed by `s`. */
  lemma {:induction false} PadStartParts(s: string, width: nat, c: char)
    ensures var r := PadStart(s, width, c);
      && r == r[..|r| - |s|] + s
      && forall i :: 0 <= i < |r| - |s| ==> r[i] == c
    decreases width - |s|
  {
    if |s| < width {
      PadStartParts([c] + s, width, c);
    }
  }

  /** `formatTime`: minutes and seconds, each at least two digits, joined by ':'. */
  function FormatTime(totalSeconds: nat): string
  {
    var minutes := totalSeconds / 60;
    var seconds := totalSeconds % 60;
    PadStart(Decimal(minutes), 2, '0') + ":" + PadStart(Decimal(seconds), 2, '0')
  }

  /** Reads back a `mm:ss` string: digits, ':', exactly two digits. */
  function ParseTime(s: string): Option<nat>
  {
    if |s| >= 3 && s[|s| - 3] == ':' && AllDigits(s[..|s| - 3]) && AllDigits(s[|s| - 2..])
    then Some(Value(s[..|s| - 3]) * 60 + Value(s[|s| - 2..]))
    else None
  }

  lemma {:induction false} DecimalRoundTrip(n: nat)
    ensures Value(Decimal(n)) == n
  {
    if n >= 10 {
      var s := Decimal(n);
      DecimalRoundTrip(n / 10);
      assert s[..|s| - 1] == Decimal(n / 10);
    }
  }

  /** Leading zeros do not change the value of a digit string. */
  lemma {:induction false} LeadingZeros(z: string, s: string)
    requires AllDigits(s) && forall i :: 0 <= i < |z| ==> z[i] == '0'
    ensures AllDigits(z + s) && Value(z + s) == Value(s)
    decreases |s|
  {
    if s == [] {
      assert z + s == z;
      AllZeros(z);
    } else {
      LeadingZeros(z, s[..|s| - 1]);
      assert (z + s)[..|z + s| - 1] == z + s[..|s| - 1];
    }
  }

  lemma {:induction false} AllZeros(z: string)
    requires forall i :: 0 <= i < |z| ==> z[i] == '0'
    ensures AllDigits(z) && Value(z) == 0
  {
    if z != [] { AllZeros(z[..|z| - 1]); }
  }

  /** Padding a number's decimal form with '0' keeps its value. */
  lemma PaddedValue(n: nat, width: nat)
    ensures AllDigits(PadStart(Decimal(n), width, '0'))
    ensures Value(PadStart(Decimal(n), width, '0')) == n
  {
    var s := Decimal(n);
    var r := PadStart(s, width, '0');
    PadStartParts(s, width, '0');
    LeadingZeros(r[..|r| - |s|], s);
    DecimalRoundTrip(n);
  }

  /** One padded field of a `mm:ss` string: digits only, at least two of them
      (exactly two below 100), holding the number's value. */
  lemma PaddedField(n: nat)
    ensures var f := PadStart(Decimal(n), 2, '0');
      && AllDigits(f) && Value(f) == n && |f| >= 2 && (n < 100 ==> |f| == 2)
  {
    PaddedValue(n, 2);
  }

  /** Where the fields sit in `m + ":" + sec` when the seconds field has two characters. */
  lemma JoinFields(m: string, sec: string)
    requires |sec| == 2
    ensures var s := m + ":" + sec;
      && |s| == |m| + 3 && s[|s| - 3] == ':' && s[..|s| - 3] == m && s[|s| - 2..] == sec
  {
    var s := m + ":" + sec;
    assert s[..|s| - 3] == m;
    assert s[|s| - 2..] == sec;
  }

  /** Round trip: the minutes and seconds fields of `FormatTime(t)` read back as
      t div 60 and t mod 60, so parsing the output gives `t` again. */
  lemma FormatTimeRoundTrip(t: nat)
    ensures ParseTime(FormatTime(t)) == Some(t)
  {
    var minutes, seconds := t / 60, t % 60;
    var m := PadStart(Decimal(minutes), 2, '0');
    var sec := PadStart(Decimal(seconds), 2, '0');
    PaddedField(minutes);
    PaddedField(seconds);
    JoinFields(m, sec);
    assert FormatTime(t) == m + ":" + sec;
    assert minutes * 60 + seconds == t;
  }

  /** The shape of `FormatTime(t)`: a two-digit seconds field holding t mod 60
      (so in 00..59) after the last ':', a minutes field of at least two digits
      holding t div 60, and exactly five characters `mm:ss` when t < 6000. */
  lemma FormatTimeShape(t: nat)
    ensures var s := FormatTime(t);
      && |s| >= 5 && s[|s| - 3] == ':'
      && AllDigits(s[..|s| - 3]) && |s[..|s| - 3]| >= 2 && Value(s[..|s| - 3]) == t / 60
      && AllDigits(s[|s| - 2..]) && Value(s[|s| - 2..]) == t % 60 < 60
      && (t < 6000 ==> |s| == 5 && s[2] == ':')
  {
    var minutes, seconds := t / 60, t % 60;
    var m := PadStart(Decimal(minutes), 2, '0');
    var sec := PadStart(Decimal(seconds), 2, '0');
    PaddedField(minutes);
    PaddedField(seconds);
    JoinFields(m, sec);
    assert FormatTime(t) == m + ":" + sec;
    assert t < 6000 ==> minutes < 100;
  }

  /** The `Timer` component's state: the seconds counted so far, and whether an
      interval is currently scheduled (it is while `isRunning` holds). */
  class Ticker {
    var seconds: nat
    var running: bool

    /** Mounting: the counter starts at 0 and an interval exists iff `isRunning`. */
    constructor (isRunning: bool)
      ensures seconds == 0 && running == isRunning
    {
      seconds := 0;
      running := isRunning;
    }

    /** The effect re-run on an `isRunning` change: the old interval is cleared and
        a new one is scheduled only when running; the count is kept. */
    method SetRunning(isRunning: bool)
      modifies this
      ensures running == isRunning && seconds == old(seconds)
    {
      running := isRunning;
    }

    /** One interval callback. With no interval scheduled nothing fires; otherwise
        the count rises by exactly one and the new value is reported to
        `onTimeUpdate`. */
    method Tick() returns (reported: Option<nat>)
      modifies this
      ensures running == old(running)
      ensures old(running) ==> seconds == old(seconds) + 1 && reported == Some(seconds)
      ensures !old(running) ==> seconds == old(seconds) && reported == None
    {
      if running {
        var newTime := seconds + 1;
        seconds := newTime;
        reported := Some(newTime);
      } else {
        reported := None;
      }
    }
  }
}
