/**
 * The timer display: a second count written as minutes and seconds, each
 * part zero-padded to two characters and joined by a colon.
 */
module TimeFormat {
  import opened Wrappers
  import opened JsText

  /** formatTime: mins is floor(seconds / 60), secs is seconds % 60. */
  function FormatTime(seconds: nat): string
  {
    Display(seconds / 60, seconds % 60)
  }

  /** The template: both parts zero-padded to two characters, joined by ':'. */
  function Display(mins: nat, secs: nat): string
  {
    PadStart(DecimalString(mins), 2, '0') + ":" + PadStart(DecimalString(secs), 2, '0')
  }

  /** The minutes part of a display: everything before the last three characters. */
  function MinutesPart(r: string): string
    requires |r| >= 3
  {
    r[..|r| - 3]
  }

  /** The seconds part of a display: its last two characters. */
  function SecondsPart(r: string): string
    requires |r| >= 3
  {
    r[|r| - 2..]
  }

  /**
   * Reads a display back: at least two minute digits, a colon, and two
   * second digits of which the first is below 6.
   */
  function ParseTime(r: string): Option<nat>
  {
    if |r| >= 5 && r[|r| - 3] == ':' && AllDigits(MinutesPart(r)) && AllDigits(SecondsPart(r))
       && DigitValue(SecondsPart(r)[0]) < 6
    then Some(DigitsValue(MinutesPart(r)) * 60 + DigitsValue(SecondsPart(r)))
    else None
  }

  /**
   * The seconds part is exactly two digits encoding seconds % 60 (so 00..59);
   * the minutes part is the decimal of seconds / 60 padded on the left with
   * zeros to at least two characters and never truncated.
   */
  lemma FormatTimeParts(seconds: nat)
    ensures |FormatTime(seconds)| >= 5 && FormatTime(seconds)[|FormatTime(seconds)| - 3] == ':'
    ensures AllDigits(SecondsPart(FormatTime(seconds))) && |SecondsPart(FormatTime(seconds))| == 2
    ensures DigitsValue(SecondsPart(FormatTime(seconds))) == seconds % 60
    ensures DigitValue(SecondsPart(FormatTime(seconds))[0]) < 6
    ensures AllDigits(MinutesPart(FormatTime(seconds)))
    ensures DigitsValue(MinutesPart(FormatTime(seconds))) == seconds / 60
    ensures MinutesPart(FormatTime(seconds)) == PadStart(DecimalString(seconds / 60), 2, '0')
  {
    DisplayShape(seconds / 60, seconds % 60);
    SecondsDigits(seconds % 60);
    PaddedDecimalValue(seconds / 60, 2);
  }

  /** Where the two padded parts sit in the display. */
  lemma DisplayShape(m: nat, sec: nat)
    requires sec < 60
    ensures |Display(m, sec)| >= 5 && Display(m, sec)[|Display(m, sec)| - 3] == ':'
    ensures MinutesPart(Display(m, sec)) == PadStart(DecimalString(m), 2, '0')
    ensures SecondsPart(Display(m, sec)) == PadStart(DecimalString(sec), 2, '0')
  {
    SecondsDigits(sec);
    Layout(PadStart(DecimalString(m), 2, '0'), PadStart(DecimalString(sec), 2, '0'));
  }

  /** Where the parts of mm + ":" + ss sit, for a two-character ss. */
  lemma Layout(mm: string, ss: string)
    requires |ss| == 2
    ensures var r := mm + ":" + ss;
            |r| == |mm| + 3 && r[|r| - 3] == ':' && r[|r| - 2] == ss[0] &&
            MinutesPart(r) == mm && SecondsPart(r) == ss
  {
    var r := mm + ":" + ss;
    assert r[..|r| - 3] == mm;
    assert r[|r| - 2..] == ss;
  }

  /** Below 60, the zero-padded decimal is two digits with a tens digit below 6. */
  lemma SecondsDigits(n: nat)
    requires n < 60
    ensures var ss := PadStart(DecimalString(n), 2, '0');
            |ss| == 2 && AllDigits(ss) && DigitsValue(ss) == n && DigitValue(ss[0]) < 6
  {
    var ss := PadStart(DecimalString(n), 2, '0');
    PaddedDecimalValue(n, 2);
    assert ss[..1][..0] == [];
    assert DigitsValue(ss) == DigitValue(ss[0]) * 10 + DigitValue(ss[1]);
  }

  /** Minutes above 99 keep all their digits: the padding only ever adds zeros in front. */
  lemma FormatTimeNeverTruncates(seconds: nat)
    ensures var mm := MinutesPart(FormatTime(seconds));
            var d := DecimalString(seconds / 60);
            |mm| == (if |d| < 2 then 2 else |d|) && mm[|mm| - |d|..] == d &&
            (forall k :: 0 <= k < |mm| - |d| ==> mm[k] == '0')
  {
    FormatTimeParts(seconds);
  }

  /** Below 100 minutes the display is exactly "MM:SS". */
  lemma FormatTimeFixedWidth(seconds: nat)
    requires seconds < 6000
    ensures |FormatTime(seconds)| == 5 && FormatTime(seconds)[2] == ':'
  {
    DecimalStringLength(seconds / 60);
    FormatTimeParts(seconds);
  }

  /** Reading the display back gives minutes * 60 + seconds == the input, for every input. */
  lemma FormatTimeRoundTrip(seconds: nat)
    ensures ParseTime(FormatTime(seconds)) == Some(seconds)
  {
    FormatTimeParts(seconds);
  }

  /** Different second counts are shown differently. */
  lemma FormatTimeInjective(a: nat, b: nat)
    requires FormatTime(a) == FormatTime(b)
    ensures a == b
  {
    FormatTimeRoundTrip(a);
    FormatTimeRoundTrip(b);
  }

  /** The initial 25 minutes read "25:00". */
  lemma FormatTimeInitial()
    ensures FormatTime(1500) == "25:00"
  {
    assert 1500 / 60 == 25 && 1500 % 60 == 0;
    assert DigitChar(2) == '2' && DigitChar(5) == '5' && DigitChar(0) == '0';
    assert DecimalString(25) == DecimalString(2) + [DigitChar(5)] == "25";
    assert PadStart("25", 2, '0') == "25";
    assert DecimalString(0) == "0";
    assert PadStart("0", 2, '0') == Repeat('0', 1) + "0" == "00";
  }

  /** One hundred minutes keep all three minute digits. */
  lemma FormatTimeHundredMinutes()
    ensures FormatTime(6000) == "100:00"
  {
    assert 6000 / 60 == 100 && 6000 % 60 == 0;
    assert DigitChar(1) == '1' && DigitChar(0) == '0';
    assert DecimalString(10) == DecimalString(1) + [DigitChar(0)] == "10";
    assert DecimalString(100) == DecimalString(10) + [DigitChar(0)] == "100";
    assert PadStart("100", 2, '0') == "100";
    assert DecimalString(0) == "0";
    assert PadStart("0", 2, '0') == Repeat('0', 1) + "0" == "00";
  }
}
