/**
 * The stopwatch the student times the leakage with: a 100 ms tick while
 * running, start/pause and reset buttons, the time in seconds passed up to
 * the page, and the `MM:SS.d` display.
 *
 * The interval timer itself is not modelled: `Tick` is what each of its
 * firings does, and it has an effect only while the watch is running.
 */
module Stopwatch {
  import opened Types

  /** The interval between ticks, and the amount each tick adds, in milliseconds. */
  const TICK_MS: nat := 100

  class Watch {
    var time: nat        // milliseconds
    var isRunning: bool

    /** The time only ever moves in whole ticks. */
    ghost predicate Valid()
      reads this
    {
      time % TICK_MS == 0
    }

    constructor ()
      ensures Valid() && time == 0 && !isRunning
    {
      time, isRunning := 0, false;
    }

    /** One firing of the interval: 100 ms more while running, nothing while paused. */
    method Tick()
      requires Valid()
      modifies this`time
      ensures Valid()
      ensures time == old(time) + if isRunning then TICK_MS else 0
    {
      if isRunning {
        time := time + TICK_MS;
      }
    }

    /** Start or pause; the time stays as it is. */
    method Toggle()
      requires Valid()
      modifies this`isRunning
      ensures Valid()
      ensures isRunning == !old(isRunning)
    {
      isRunning := !isRunning;
    }

    /** Back to a stopped 0 from any state. */
    method Reset()
      modifies this
      ensures Valid() && time == 0 && !isRunning
    {
      isRunning := false;
      time := 0;
    }

    /** The value passed to the page, `time / 1000`: the time in seconds. */
    function Seconds(): (s: real)
      reads this
      ensures s >= 0.0
      ensures s * 1000.0 == time as real
    {
      time as real / 1000.0
    }

    /** The reported seconds are always a whole number of tenths. */
    lemma SecondsInTenths()
      requires Valid()
      ensures Seconds() == (time / TICK_MS) as real / 10.0
    {
      assert time == (time / TICK_MS) * 100;
    }

    /** What the display shows. */
    function Display(): (text: string)
      reads this
      ensures ParseTime(text) == Some(time - time % TICK_MS)
    {
      FormatTimeRoundTrip(time);
      FormatTime(time)
    }
  }

  // Decimal text

  predicate IsDigit(c: char) {
    '0' <= c <= '9'
  }

  predicate AllDigits(s: string) {
    forall i :: 0 <= i < |s| ==> IsDigit(s[i])
  }

  function DigitChar(d: nat): (c: char)
    requires d < 10
    ensures IsDigit(c)
  {
    ('0' as int + d) as char
  }

  function DigitValue(c: char): (d: nat)
    requires IsDigit(c)
    ensures d < 10 && DigitChar(d) == c
  {
    c as int - '0' as int
  }

  /** `n.toString()` for a whole, non-negative number. */
  function NatToString(n: nat): (s: string)
    ensures |s| >= 1 && AllDigits(s)
    ensures n < 10 ==> |s| == 1
    ensures n < 100 ==> |s| <= 2
    ensures (s[0] == '0') == (n == 0)
  {
    if n < 10 then [DigitChar(n)] else NatToString(n / 10) + [DigitChar(n % 10)]
  }

  /** The number a string of decimal digits denotes; the inverse of `NatToString`. */
  function ParseNat(s: string): nat
    requires AllDigits(s)
  {
    if s == [] then 0 else ParseNat(s[..|s| - 1]) * 10 + DigitValue(s[|s| - 1])
  }

  lemma {:induction false} ParseNatToString(n: nat)
    ensures ParseNat(NatToString(n)) == n
  {
    var s := NatToString(n);
    if n < 10 {
      assert s[..0] == [];
    } else {
      assert s[..|s| - 1] == NatToString(n / 10);
      ParseNatToString(n / 10);
    }
  }

  function Repeat(c: char, k: nat): (s: string)
    ensures |s| == k
  {
    if k == 0 then [] else Repeat(c, k - 1) + [c]
  }

  lemma {:induction false} RepeatChars(c: char, k: nat)
    ensures forall i :: 0 <= i < k ==> Repeat(c, k)[i] == c
  {
    if k > 0 {
      RepeatChars(c, k - 1);
    }
  }

  /** `s.padStart(width, fill)`: fill in front up to the width; a longer string is left alone. */
  function PadStart(s: string, width: nat, fill: char): (r: string)
    ensures |r| == if |s| >= width then |s| else width
  {
    if |s| >= width then s else Repeat(fill, width - |s|) + s
  }

  /** The padded string ends with the original and is filled in front of it. */
  lemma PadStartShape(s: string, width: nat, fill: char)
    ensures var r := PadStart(s, width, fill);
      r[|r| - |s|..] == s && forall i :: 0 <= i < |r| - |s| ==> r[i] == fill
  {
    var r := PadStart(s, width, fill);
    if |s| < width {
      RepeatChars(fill, width - |s|);
      assert r[|r| - |s|..] == s;
    }
  }

  /** A run of zeros is a number, and it is 0. */
  lemma {:induction false} ParseZeros(k: nat)
    ensures AllDigits(Repeat('0', k)) && ParseNat(Repeat('0', k)) == 0
  {
    if k > 0 {
      ParseZeros(k - 1);
      var z := Repeat('0', k);
      assert z[..k - 1] == Repeat('0', k - 1);
    }
  }

  /** Leading zeros do not change the number. */
  lemma {:induction false} ParseNatLeadingZeros(k: nat, s: string)
    requires AllDigits(s)
    ensures AllDigits(Repeat('0', k) + s)
    ensures ParseNat(Repeat('0', k) + s) == ParseNat(s)
    decreases |s|
  {
    var z := Repeat('0', k);
    ParseZeros(k);
    if s == [] {
      assert z + s == z;
    } else {
      var t := z + s;
      assert t[..|t| - 1] == z + s[..|s| - 1];
      ParseNatLeadingZeros(k, s[..|s| - 1]);
    }
  }

  /** A number printed and zero-padded reads back as itself. */
  lemma ParsePadded(n: nat, width: nat)
    ensures AllDigits(PadStart(NatToString(n), width, '0'))
    ensures ParseNat(PadStart(NatToString(n), width, '0')) == n
  {
    var s := NatToString(n);
    ParseNatToString(n);
    if |s| < width {
      ParseNatLeadingZeros(width - |s|, s);
    }
  }

  // The display

  /** Whole minutes: the number of full 60000 ms periods. */
  function Minutes(ms: nat): (m: nat)
    ensures m * 60000 <= ms < m * 60000 + 60000
  {
    var s := ms / 1000;
    assert 1000 * s <= ms < 1000 * s + 1000;
    assert 60 * (s / 60) <= s < 60 * (s / 60) + 60;
    s / 60
  }

  /** Whole seconds past the minute. */
  function RemainingSeconds(ms: nat): (r: nat)
    ensures r < 60 && Minutes(ms) * 60 + r == ms / 1000
  {
    ms / 1000 % 60
  }

  /** Whole tenths past the second. */
  function Tenths(ms: nat): (t: nat)
    ensures t < 10 && t * 100 <= ms % 1000 < t * 100 + 100
  {
    ms % 1000 / 100
  }

  /**
   * The three fields of the display put back together give the time
   * truncated to whole tenths; the seconds field is below 60 and the tenths
   * a single digit.
   */
  lemma FormatFields(ms: nat)
    ensures Minutes(ms) * 60000 + RemainingSeconds(ms) * 1000 + Tenths(ms) * 100 == ms - ms % 100
    ensures RemainingSeconds(ms) <= 59 && Tenths(ms) <= 9
  {
    var s, a := ms / 1000, ms % 1000;
    var m, r := s / 60, s % 60;
    var t, u := a / 100, a % 100;
    assert ms == 1000 * s + a && a < 1000;
    assert s == 60 * m + r && r < 60;
    assert a == 100 * t + u && u < 100;
    assert t < 10;
    ModHundred(ms, 10 * s + t, u);
    assert ms - ms % 100 == 60000 * m + 1000 * r + 100 * t;
  }

  /** The remainder by 100 is the `u` of any `100 * q + u` with `u < 100`. */
  lemma ModHundred(x: nat, q: nat, u: nat)
    requires x == 100 * q + u && u < 100
    ensures x % 100 == u
  {
  }

  /**
   * `formatTime`: zero-padded minutes, ':', zero-padded seconds, '.', tenths.
   * Whatever the time, the last five characters are `:SS.d` after at least
   * two minute digits, and the minutes are padded only below 10.
   */
  function FormatTime(ms: nat): (text: string)
    ensures |text| >= 7 && text[|text| - 5] == ':' && text[|text| - 2] == '.'
    ensures (text[0] == '0') == (Minutes(ms) < 10)
  {
    PadStart(NatToString(Minutes(ms)), 2, '0') + ":"
      + PadStart(NatToString(RemainingSeconds(ms)), 2, '0') + "."
      + NatToString(Tenths(ms))
  }

  /** Reads back the last five characters of a display, `:SS.d`, as milliseconds. */
  function ParseTail(tail: string): Option<nat>
    requires |tail| == 5
  {
    if tail[0] == ':' && IsDigit(tail[1]) && IsDigit(tail[2]) && tail[3] == '.' && IsDigit(tail[4])
    then Some((DigitValue(tail[1]) * 10 + DigitValue(tail[2])) * 1000 + DigitValue(tail[4]) * 100)
    else None
  }

  /** Reads a display back: at least one minute digit, then `:SS.d`. */
  function ParseTime(text: string): Option<nat> {
    if |text| < 6 then None
    else
      var mm := text[..|text| - 5];
      var tail := ParseTail(text[|text| - 5..]);
      if AllDigits(mm) && tail.Some? then Some(ParseNat(mm) * 60000 + tail.value) else None
  }

  /** The tail `:SS.d` of a display, spelled out character by character. */
  function TailOf(seconds: nat, tenths: nat): (tail: string)
    requires seconds < 100 && tenths < 10
    ensures |tail| == 5
  {
    [':', DigitChar(seconds / 10), DigitChar(seconds % 10), '.', DigitChar(tenths)]
  }

  lemma DigitRoundTrip(d: nat)
    requires d < 10
    ensures DigitValue(DigitChar(d)) == d
  {
  }

  /** The spelled-out tail reads back as its seconds and tenths. */
  lemma ParseTailOf(seconds: nat, tenths: nat)
    requires seconds < 100 && tenths < 10
    ensures ParseTail(TailOf(seconds, tenths)) == Some(seconds * 1000 + tenths * 100)
  {
    DigitRoundTrip(seconds / 10);
    DigitRoundTrip(seconds % 10);
    DigitRoundTrip(tenths);
  }

  /** A number below 100, printed and padded to two places, is its two digits. */
  lemma PadTwoDigits(n: nat)
    requires n < 100
    ensures PadStart(NatToString(n), 2, '0') == [DigitChar(n / 10), DigitChar(n % 10)]
  {
    if n >= 10 {
      assert NatToString(n) == [DigitChar(n / 10)] + [DigitChar(n % 10)];
    }
  }

  /** The display is the padded minutes followed by the spelled-out tail. */
  lemma FormatTimeLayout(ms: nat)
    ensures RemainingSeconds(ms) < 100 && Tenths(ms) < 10
    ensures FormatTime(ms)
         == PadStart(NatToString(Minutes(ms)), 2, '0') + TailOf(RemainingSeconds(ms), Tenths(ms))
  {
    FormatFields(ms);
    var r, t := RemainingSeconds(ms), Tenths(ms);
    PadTwoDigits(r);
    assert NatToString(t) == [DigitChar(t)];
  }

  /** Where the two parts of `mm + tail` sit. */
  lemma AppendSlices(text: string, mm: string, tail: string)
    requires |tail| == 5 && text == mm + tail
    ensures |text| == |mm| + 5 && text[..|text| - 5] == mm && text[|text| - 5..] == tail
  {
    assert text[..|text| - 5] == mm;
    assert text[|text| - 5..] == tail;
  }

  lemma ParseTimeAt(text: string, mm: string, tail: string, v: nat)
    requires |mm| >= 1 && |tail| == 5 && |text| == |mm| + 5
    requires text[..|text| - 5] == mm && text[|text| - 5..] == tail
    requires AllDigits(mm) && ParseTail(tail) == Some(v)
    ensures ParseTime(text) == Some(ParseNat(mm) * 60000 + v)
  {
  }

  /** Minute digits in front of a tail that reads back count 60000 ms each. */
  lemma ParseTimeSplit(text: string, mm: string, tail: string, v: nat)
    requires |mm| >= 1 && |tail| == 5 && text == mm + tail
    requires AllDigits(mm) && ParseTail(tail) == Some(v)
    ensures ParseTime(text) == Some(ParseNat(mm) * 60000 + v)
  {
    AppendSlices(text, mm, tail);
    ParseTimeAt(text, mm, tail, v);
  }

  /** Minutes that read back, then a tail, read back as minutes, seconds and tenths together. */
  lemma ParseFields(text: string, mm: string, m: nat, seconds: nat, tenths: nat)
    requires seconds < 100 && tenths < 10
    requires text == mm + TailOf(seconds, tenths)
    requires |mm| >= 1 && AllDigits(mm) && ParseNat(mm) == m
    ensures ParseTime(text) == Some(m * 60000 + seconds * 1000 + tenths * 100)
  {
    ParseTailOf(seconds, tenths);
    ParseTimeSplit(text, mm, TailOf(seconds, tenths), seconds * 1000 + tenths * 100);
  }

  /** Minutes that read back as those of `ms`, then the tail of `ms`: the time of `ms` to the tenth. */
  lemma ParseTimeOf(text: string, mm: string, ms: nat)
    requires RemainingSeconds(ms) < 100 && Tenths(ms) < 10
    requires text == mm + TailOf(RemainingSeconds(ms), Tenths(ms))
    requires |mm| >= 1 && AllDigits(mm) && ParseNat(mm) == Minutes(ms)
    ensures ParseTime(text) == Some(ms - ms % 100)
  {
    FormatFields(ms);
    ParseFields(text, mm, Minutes(ms), RemainingSeconds(ms), Tenths(ms));
  }

  /** The display names the time exactly, down to the tenth. */
  lemma FormatTimeRoundTrip(ms: nat)
    ensures ParseTime(FormatTime(ms)) == Some(ms - ms % 100)
  {
    FormatTimeLayout(ms);
    ParsePadded(Minutes(ms), 2);
    ParseTimeOf(FormatTime(ms), PadStart(NatToString(Minutes(ms)), 2, '0'), ms);
  }

  /** Under 100 minutes the display is exactly seven characters, `MM:SS.d`. */
  lemma FormatTimeShape(ms: nat)
    requires ms < 6000000
    ensures |FormatTime(ms)| == 7
    ensures FormatTime(ms)[2] == ':' && FormatTime(ms)[5] == '.'
  {
    assert Minutes(ms) < 100;
    FormatFields(ms);
  }

  /** A minute and a second and a half. */
  lemma FormatTimeExample()
    ensures FormatTime(61500) == "01:01.5"
  {
    assert Minutes(61500) == 1 && RemainingSeconds(61500) == 1 && Tenths(61500) == 5;
  }
}
