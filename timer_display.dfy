/**
 * updateDisplay of app.js (lines 235-246): the countdown as `MM:SS` text and the mode
 * label. The progress ring (a floating-point fraction) is not modelled.
 */
module TimerDisplay {
  import opened TimerModel

  predicate IsDigit(c: char)
  {
    '0' <= c <= '9'
  }

  predicate AllDigits(s: string)
  {
    forall i :: 0 <= i < |s| ==> IsDigit(s[i])
  }

  function DigitChar(d: int): (c: char)
    requires 0 <= d < 10
    ensures IsDigit(c) && c as int - '0' as int == d
  {
    ('0' as int + d) as char
  }

  /** The number a string of decimal digits denotes, most significant digit first. */
  function DecimalValue(s: string): nat
    requires AllDigits(s)
  {
    if s == [] then 0
    else DecimalValue(s[..|s| - 1]) * 10 + (s[|s| - 1] as int - '0' as int)
  }

  /**
   * Number.prototype.toString for a natural number: digits without leading zeros. This
   * agrees with JavaScript for integers below 2^53, which doubles hold exactly; the
   * exponential notation JavaScript uses from 10^21 up is not modelled.
   */
  function NatToDecimal(n: nat): (s: string)
    ensures 1 <= |s| && AllDigits(s)
    ensures s[0] == '0' ==> n == 0 && s == "0"
    ensures n < 10 ==> |s| == 1
    decreases n
  {
    if n < 10 then [DigitChar(n)] else NatToDecimal(n / 10) + [DigitChar(n % 10)]
  }

  /** Number.prototype.toString for an integer, within the range `NatToDecimal` states. */
  function IntToString(n: int): string
  {
    if n < 0 then "-" + NatToDecimal(-n) else NatToDecimal(n)
  }

  /**
   * String.prototype.padStart with a one-character filler: fill on the left up to
   * `width` characters; a string already that long is returned as it is.
   */
  function PadStart(s: string, width: nat, fill: char): (r: string)
    ensures |r| == if |s| < width then width else |s|
    ensures r[|r| - |s|..] == s
    ensures forall i :: 0 <= i < |r| - |s| ==> r[i] == fill
  {
    if |s| < width then seq(width - |s|, _ => fill) + s else s
  }

  /** JavaScript's `%` for a positive divisor: the remainder takes the sign of `a`. */
  function JsRemainder(a: int, b: int): int
    requires b > 0
  {
    if a >= 0 then a % b else -((-a) % b)
  }

  /** The timer text (app.js:236-238): minutes and seconds, each padded to two places. */
  function ClockText(currentTime: int): (text: string)
    ensures |text| >= 5
  {
    var minutes := currentTime / 60;  // Math.floor: Dafny's `/` by 60 rounds down
    var seconds := JsRemainder(currentTime, 60);
    PadStart(IntToString(minutes), 2, '0') + ":" + PadStart(IntToString(seconds), 2, '0')
  }

  /**
   * `text` has the shape minutes, colon, two digits of seconds below 60, and reads back
   * as `t` seconds; below 100 minutes it is exactly `MM:SS`.
   */
  predicate ReadsBackAs(text: string, t: int)
  {
    && |text| >= 5 && text[|text| - 3] == ':'
    && AllDigits(text[..|text| - 3]) && AllDigits(text[|text| - 2..])
    && DecimalValue(text[|text| - 2..]) < 60
    && DecimalValue(text[..|text| - 3]) * 60 + DecimalValue(text[|text| - 2..]) == t
    && (t < 6000 ==> |text| == 5)
  }

  /** Break label (app.js:244-245): long exactly when the session count is a multiple of 4. */
  function BreakLabel(completedSessions: int): (shown: string)
    ensures shown == "Long Break (10min)" <==> IsLongBreak(completedSessions)
    ensures shown == "Short Break (5min)" <==> !IsLongBreak(completedSessions)
  {
    if IsLongBreak(completedSessions) then "Long Break (10min)" else "Short Break (5min)"
  }

  /**
   * The work label exactly as app.js:242 builds it: the count shown is the number of the
   * current work period, never wrapped at 4.
   */
  function WorkLabelAsWritten(completedSessions: int): (shown: string)
    ensures |shown| >= 15 && shown[..11] == "Work Time (" && shown[|shown| - 3..] == "/4)"
    ensures completedSessions >= 0 ==>
      AllDigits(shown[11..|shown| - 3]) && DecimalValue(shown[11..|shown| - 3]) == completedSessions + 1
  {
    var count := IntToString(completedSessions + 1);
    var text := "Work Time (" + count + "/4)";
    assert text[..11] == "Work Time (" && text[11..|text| - 3] == count;
    DecimalRoundTrip(if completedSessions >= 0 then completedSessions + 1 else 0);
    text
  }

  /** Which of the four work periods of a cycle the timer is in, from 1 to 4. */
  function SessionInCycle(completedSessions: int): (k: int)
    ensures 1 <= k <= SessionsBeforeLongBreak
    ensures (completedSessions + 1 - k) % SessionsBeforeLongBreak == 0
  {
    completedSessions % SessionsBeforeLongBreak + 1
  }

  /** The work label with the count taken within the current cycle of four. */
  function WorkLabel(completedSessions: int): string
  {
    "Work Time (" + IntToString(SessionInCycle(completedSessions)) + "/4)"
  }

  /** The mode indicator text (app.js:241-246). */
  function ModeLabel(s: TimerState): (shown: string)
    ensures s.isWorkMode ==> shown == WorkLabelAsWritten(s.completedSessions)
    ensures !s.isWorkMode ==>
      && (shown == "Long Break (10min)" <==> PeriodLength(false, s.completedSessions) == LongBreakTime)
      && (shown == "Short Break (5min)" <==> PeriodLength(false, s.completedSessions) == ShortBreakTime)
  {
    if s.isWorkMode then WorkLabelAsWritten(s.completedSessions) else BreakLabel(s.completedSessions)
  }

  // ---------------------------------------------------------------------------
  // Properties.
  // ---------------------------------------------------------------------------

  /** Leading zeros do not change the value of a digit string. */
  lemma {:induction false} LeadingZerosValue(z: string, s: string)
    requires forall i :: 0 <= i < |z| ==> z[i] == '0'
    requires AllDigits(s)
    ensures AllDigits(z + s) && DecimalValue(z + s) == DecimalValue(s)
    decreases |s|
  {
    if s == [] {
      assert z + s == z;
      ZerosValue(z);
    } else {
      var zs := z + s;
      assert zs[..|zs| - 1] == z + s[..|s| - 1];
      LeadingZerosValue(z, s[..|s| - 1]);
    }
  }

  lemma {:induction false} ZerosValue(z: string)
    requires forall i :: 0 <= i < |z| ==> z[i] == '0'
    ensures AllDigits(z) && DecimalValue(z) == 0
    decreases |z|
  {
    if z != [] {
      ZerosValue(z[..|z| - 1]);
    }
  }

  /** Reading back the decimal text of a natural number gives the number. */
  lemma {:induction false} DecimalRoundTrip(n: nat)
    ensures DecimalValue(NatToDecimal(n)) == n
    decreases n
  {
    if n >= 10 {
      var s := NatToDecimal(n);
      assert s[..|s| - 1] == NatToDecimal(n / 10);
      DecimalRoundTrip(n / 10);
    }
  }

  /** Numbers below 100 take at most two digits. */
  lemma TwoDigits(n: nat)
    requires n < 100
    ensures |NatToDecimal(n)| <= 2
  {
  }

  /** A number below 100 padded to two places reads back as the number. */
  lemma {:induction false} PaddedRoundTrip(n: nat)
    requires n < 100
    ensures var p := PadStart(NatToDecimal(n), 2, '0');
      |p| == 2 && AllDigits(p) && DecimalValue(p) == n
  {
    var s := NatToDecimal(n);
    var p := PadStart(s, 2, '0');
    TwoDigits(n);
    var z := p[..|p| - |s|];
    assert p == z + s;
    LeadingZerosValue(z, s);
    DecimalRoundTrip(n);
  }

  /** Any natural number padded to at least two places reads back as the number. */
  lemma {:induction false} PaddedReadsBack(n: nat)
    ensures var p := PadStart(NatToDecimal(n), 2, '0');
      |p| >= 2 && AllDigits(p) && DecimalValue(p) == n
  {
    var s := NatToDecimal(n);
    var p := PadStart(s, 2, '0');
    var z := p[..|p| - |s|];
    assert p == z + s;
    LeadingZerosValue(z, s);
    DecimalRoundTrip(n);
  }

  /** For a non-negative countdown both fields are the plain decimal texts, padded. */
  lemma ClockTextParts(t: int)
    requires t >= 0
    ensures ClockText(t)
      == PadStart(NatToDecimal(t / 60), 2, '0') + ":" + PadStart(NatToDecimal(t % 60), 2, '0')
  {
  }

  /** Digit fields for minutes and seconds, joined by a colon, read back as the total. */
  lemma ClockPartsReadBack(mm: string, ss: string, m: nat, sec: nat)
    requires |mm| >= 2 && AllDigits(mm) && DecimalValue(mm) == m
    requires |ss| == 2 && AllDigits(ss) && DecimalValue(ss) == sec && sec < 60
    requires m < 100 ==> |mm| == 2
    ensures ReadsBackAs(mm + ":" + ss, m * 60 + sec)
  {
    SplitAtColon(mm, ss);
  }

  /** Padded minutes and seconds joined by a colon read back as the countdown. */
  lemma PaddedClockReadsBack(t: int)
    requires t >= 0
    ensures ReadsBackAs(
      PadStart(NatToDecimal(t / 60), 2, '0') + ":" + PadStart(NatToDecimal(t % 60), 2, '0'), t)
  {
    var m, sec := t / 60, t % 60;
    PaddedReadsBack(m);
    PaddedRoundTrip(sec);
    if m < 100 {
      PaddedRoundTrip(m);
    }
    ClockPartsReadBack(PadStart(NatToDecimal(m), 2, '0'), PadStart(NatToDecimal(sec), 2, '0'), m, sec);
  }

  /**
   * For a non-negative countdown the text is minutes, a colon and exactly two digits of
   * seconds below 60, and reading it back gives the countdown; below 100 minutes it is
   * exactly `MM:SS`.
   */
  lemma ClockTextReadsBack(t: int)
    requires t >= 0
    ensures ReadsBackAs(ClockText(t), t)
  {
    ClockTextParts(t);
    PaddedClockReadsBack(t);
  }

  lemma SplitAtColon(mm: string, ss: string)
    requires |ss| == 2
    ensures (mm + ":" + ss)[|mm + ":" + ss| - 3] == ':'
    ensures (mm + ":" + ss)[..|mm + ":" + ss| - 3] == mm
    ensures (mm + ":" + ss)[|mm + ":" + ss| - 2..] == ss
  {
  }

  /**
   * The work label of app.js:242 reads "5/4" in the first work period after a long
   * break, a state a fresh timer left running reaches after four full cycles.
   */
  lemma WorkLabelPassesFour()
    ensures WorkLabelAsWritten(4) == "Work Time (5/4)"
    ensures ModeLabel(TimerState(WorkTime, true, true, 4)) == "Work Time (5/4)"
    ensures Ticks(Started(Initial()), CyclesDuration(0, 4)) == TimerState(WorkTime, true, true, 4)
  {
    LongBreakEveryFourth(4);
  }

  /**
   * The corrected work label shows one of the four sessions of a cycle, and shows the
   * fourth exactly when the break after it is long.
   */
  lemma WorkLabelWithinCycle(completedSessions: int)
    ensures WorkLabel(completedSessions) in
      {"Work Time (1/4)", "Work Time (2/4)", "Work Time (3/4)", "Work Time (4/4)"}
    ensures WorkLabel(completedSessions) == "Work Time (4/4)" <==> IsLongBreak(completedSessions + 1)
  {
    var k := SessionInCycle(completedSessions);
    assert IntToString(k) == [DigitChar(k)];
    assert k == 4 <==> IsLongBreak(completedSessions + 1);
    if k == 1 {
      assert WorkLabel(completedSessions) == "Work Time (1/4)";
    } else if k == 2 {
      assert WorkLabel(completedSessions) == "Work Time (2/4)";
    } else if k == 3 {
      assert WorkLabel(completedSessions) == "Work Time (3/4)";
    } else {
      assert WorkLabel(completedSessions) == "Work Time (4/4)";
    }
  }

}
