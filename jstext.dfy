/**
 * The JavaScript string built-ins that the page relies on, restricted to the
 * inputs it gives them: Number.prototype.toString on a non-negative integer,
 * String.prototype.padStart with a one-character filler, and
 * String.prototype.trim.
 */
module JsText {

  predicate IsDigit(c: char) { '0' <= c <= '9' }

  predicate AllDigits(s: string) { forall i :: 0 <= i < |s| ==> IsDigit(s[i]) }

  function DigitValue(c: char): (d: nat)
    requires IsDigit(c)
    ensures d < 10
  {
    c as int - '0' as int
  }

  function DigitChar(d: nat): (c: char)
    requires d < 10
    ensures IsDigit(c) && DigitValue(c) == d
  {
    ('0' as int + d) as char
  }

  /** Value of a string of decimal digits, most significant first. */
  function DigitsValue(s: string): nat
    requires AllDigits(s)
  {
    if s == [] then 0 else DigitsValue(s[..|s| - 1]) * 10 + DigitValue(s[|s| - 1])
  }

  /**
   * Number.prototype.toString for a non-negative integer: its decimal digits
   * without leading zeros ("0" for zero).
   */
  function DecimalString(n: nat): (s: string)
    ensures |s| >= 1 && AllDigits(s)
  {
    if n < 10 then [DigitChar(n)] else DecimalString(n / 10) + [DigitChar(n % 10)]
  }

  /** No leading zero, except for zero itself. */
  lemma {:induction false} DecimalStringCanonical(n: nat)
    ensures DecimalString(n)[0] == '0' ==> n == 0 && DecimalString(n) == "0"
  {
    if n >= 10 {
      DecimalStringCanonical(n / 10);
      assert DecimalString(n)[0] == DecimalString(n / 10)[0];
    }
  }

  /** One digit exactly below 10, two exactly from 10 to 99, more from 100 on. */
  lemma {:induction false} DecimalStringLength(n: nat)
    ensures |DecimalString(n)| == 1 <==> n < 10
    ensures |DecimalString(n)| == 2 <==> 10 <= n < 100
  {
    if n >= 10 {
      DecimalStringLength(n / 10);
    }
  }

  /** Reading back the digits that DecimalString writes gives the number. */
  lemma {:induction false} DecimalStringValue(n: nat)
    ensures DigitsValue(DecimalString(n)) == n
  {
    if n >= 10 {
      var s := DecimalString(n);
      assert s[..|s| - 1] == DecimalString(n / 10);
      DecimalStringValue(n / 10);
    }
  }

  function Repeat(c: char, n: nat): (r: string)
    ensures |r| == n
    ensures forall i :: 0 <= i < n ==> r[i] == c
  {
    seq(n, _ => c)
  }

  /**
   * String.prototype.padStart(width, fill) with a one-character fill: the
   * string is extended on the left up to width characters and never cut.
   */
  function PadStart(s: string, width: nat, fill: char): (r: string)
    ensures |r| == if |s| < width then width else |s|
    ensures r[|r| - |s|..] == s
    ensures forall i :: 0 <= i < |r| - |s| ==> r[i] == fill
  {
    if |s| < width then Repeat(fill, width - |s|) + s else s
  }

  /** Leading zeros do not change the value of a digit string. */
  lemma {:induction false} LeadingZerosValue(z: string, s: string)
    requires forall i :: 0 <= i < |z| ==> z[i] == '0'
    requires AllDigits(s)
    ensures AllDigits(z + s)
    ensures DigitsValue(z + s) == DigitsValue(s)
    decreases |s|
  {
    assert forall i :: 0 <= i < |z + s| ==> (z + s)[i] == if i < |z| then z[i] else s[i - |z|];
    if s == [] {
      assert z + s == z;
      ZerosValue(z);
    } else {
      assert (z + s)[..|z + s| - 1] == z + s[..|s| - 1];
      LeadingZerosValue(z, s[..|s| - 1]);
    }
  }

  lemma {:induction false} ZerosValue(z: string)
    requires forall i :: 0 <= i < |z| ==> z[i] == '0'
    ensures AllDigits(z) && DigitsValue(z) == 0
  {
    if z != [] {
      ZerosValue(z[..|z| - 1]);
    }
  }

  /** Zero-padding a number's decimal string keeps its value. */
  lemma PaddedDecimalValue(n: nat, width: nat)
    ensures AllDigits(PadStart(DecimalString(n), width, '0'))
    ensures DigitsValue(PadStart(DecimalString(n), width, '0')) == n
  {
    var s := DecimalString(n);
    var r := PadStart(s, width, '0');
    DecimalStringValue(n);
    LeadingZerosValue(r[..|r| - |s|], s);
    assert r == r[..|r| - |s|] + s;
  }

  /**
   * The characters String.prototype.trim strips: ECMAScript WhiteSpace
   * (tab, vertical tab, form feed, space, no-break space, byte order mark and
   * the other Unicode space separators) and LineTerminator (line feed,
   * carriage return, line and paragraph separators). Tab through carriage
   * return are the code points 9 to 13.
   */
  predicate IsWhitespace(c: char)
  {
    if c <= ' ' then c == ' ' || '\t' <= c <= '\r'
    else '\U{00A0}' <= c && IsWideWhitespace(c)
  }

  /** The whitespace characters above the ASCII range. */
  predicate IsWideWhitespace(c: char)
  {
    c == '\U{00A0}' || c == '\U{1680}' || ('\U{2000}' <= c <= '\U{200A}') ||
    c == '\U{2028}' || c == '\U{2029}' || c == '\U{202F}' || c == '\U{205F}' ||
    c == '\U{3000}' || c == '\U{FEFF}'
  }

  /** True when some character of s is not whitespace. */
  predicate HasVisibleText(s: string)
  {
    exists i :: 0 <= i < |s| && !IsWhitespace(s[i])
  }

  /** The index of the first non-whitespace character at or after from (|s| if none). */
  function TrimStartIndex(s: string, from: nat): (i: nat)
    requires from <= |s|
    ensures from <= i <= |s|
    ensures forall k :: from <= k < i ==> IsWhitespace(s[k])
    ensures i < |s| ==> !IsWhitespace(s[i])
    decreases |s| - from
  {
    if from < |s| && IsWhitespace(s[from]) then TrimStartIndex(s, from + 1) else from
  }

  /**
   * The end (exclusive) of s[lo..hi] without its trailing whitespace: the
   * largest j in lo..hi with only whitespace in s[j..hi].
   */
  function TrimEndIndex(s: string, lo: nat, hi: nat): (j: nat)
    requires lo <= hi <= |s|
    ensures lo <= j <= hi
    ensures forall k :: j <= k < hi ==> IsWhitespace(s[k])
    ensures lo < j ==> !IsWhitespace(s[j - 1])
    decreases hi
  {
    if lo < hi && IsWhitespace(s[hi - 1]) then TrimEndIndex(s, lo, hi - 1) else hi
  }

  /**
   * String.prototype.trim: the slice between the first non-whitespace
   * character and the end of the last one.
   */
  function Trim(s: string): string
  {
    var i := TrimStartIndex(s, 0);
    s[i..TrimEndIndex(s, i, |s|)]
  }

  /**
   * trim() strips exactly the leading and trailing whitespace: the result is
   * a slice s[i..j], everything outside it is whitespace, and it neither
   * starts nor ends with whitespace.
   */
  lemma TrimIsSlice(s: string)
    ensures var i := TrimStartIndex(s, 0);
            var j := TrimEndIndex(s, i, |s|);
            Trim(s) == s[i..j] &&
            (forall k :: 0 <= k < i ==> IsWhitespace(s[k])) &&
            (forall k :: j <= k < |s| ==> IsWhitespace(s[k])) &&
            (i < j ==> !IsWhitespace(s[i]) && !IsWhitespace(s[j - 1]))
  {
  }

  /** The trimmed string is empty exactly when s is all whitespace. */
  lemma TrimEmptyIff(s: string)
    ensures Trim(s) == [] <==> !HasVisibleText(s)
  {
    var i := TrimStartIndex(s, 0);
    var j := TrimEndIndex(s, i, |s|);
    if i < j {
      assert !IsWhitespace(s[i]);
    } else {
      assert forall k :: 0 <= k < |s| ==> IsWhitespace(s[k]);
    }
  }
}
