/** `formatDuration` from the player page: a whole number of seconds shown as
    minutes, a colon, and the seconds padded to two digits ("m:ss"). */
module Clock {
  import opened Basics

  function DigitChar(d: nat): (c: char)
    requires d < 10
    ensures IsDigit(c)
  {
    ('0' as int + d) as char
  }

  function DigitValue(c: char): (d: nat)
    requires IsDigit(c)
    ensures d < 10
  {
    c as int - '0' as int
  }

  predicate AllDigits(s: string) {
    forall i :: 0 <= i < |s| ==> IsDigit(s[i])
  }

  /** `n.toString()` for a natural number: decimal digits, no leading zero. */
  function Decimal(n: nat): (s: string)
    ensures 1 <= |s|
    ensures AllDigits(s)
    ensures |s| > 1 ==> s[0] != '0'
    ensures n < 10 <==> |s| == 1
    decreases n
  {
    if n < 10 then [DigitChar(n)] else Decimal(n / 10) + [DigitChar(n % 10)]
  }

  /** The number a string of decimal digits denotes. */
  function ValueOf(s: string): nat
    requires AllDigits(s)
    decreases |s|
  {
    if |s| == 0 then 0 else ValueOf(s[..|s| - 1]) * 10 + DigitValue(s[|s| - 1])
  }

  /** Reading back the digits `Decimal` writes gives the number. */
  lemma {:induction false} DecimalRoundTrip(n: nat)
    ensures ValueOf(Decimal(n)) == n
    decreases n
  {
    var s := Decimal(n);
    if n >= 10 {
      DecimalRoundTrip(n / 10);
      assert s[..|s| - 1] == Decimal(n / 10);
    }
  }

  /** `secs.toString().padStart(2, "0")`. */
  function Pad2(secs: nat): string {
    if secs < 10 then "0" + Decimal(secs) else Decimal(secs)
  }

  /** `formatDuration(seconds)` for a whole, non-negative number of seconds. */
  function FormatDuration(seconds: nat): (r: string)
    ensures |r| >= 4 && r[|r| - 3] == ':'
    ensures AllDigits(r[..|r| - 3]) && AllDigits(r[|r| - 2..])
    ensures ValueOf(r[|r| - 2..]) < 60
  {
    var mins := seconds / 60;
    var secs := seconds % 60;
    var r := Decimal(mins) + ":" + Pad2(secs);
    assert r[..|r| - 3] == Decimal(mins);
    assert r[|r| - 2..] == Pad2(secs);
    PadRoundTrip(secs);
    r
  }

  /** The padded seconds are exactly two digits with the right value. */
  lemma PadRoundTrip(secs: nat)
    requires secs < 60
    ensures |Pad2(secs)| == 2 && AllDigits(Pad2(secs)) && ValueOf(Pad2(secs)) == secs
  {
    DecimalRoundTrip(secs);
    if secs < 10 {
      var p := Pad2(secs);
      assert p[..1] == "0";
    }
  }

  /** Reads an "m:ss" text back into seconds; `None` when the text is not of
      that shape. */
  function ParseDuration(t: string): (r: Option<nat>)
    ensures r.Some? ==> |t| >= 4 && t[|t| - 3] == ':'
  {
    if |t| >= 4 && t[|t| - 3] == ':' && AllDigits(t[..|t| - 3]) && AllDigits(t[|t| - 2..])
       && ValueOf(t[|t| - 2..]) < 60
    then Some(ValueOf(t[..|t| - 3]) * 60 + ValueOf(t[|t| - 2..]))
    else None
  }

  /** The minutes and the two-digit seconds recombine to the input: m*60 + ss == s. */
  lemma FormatParseRoundTrip(seconds: nat)
    ensures ParseDuration(FormatDuration(seconds)) == Some(seconds)
  {
    var mins := seconds / 60;
    var secs := seconds % 60;
    FormatParts(seconds);
    DecimalRoundTrip(mins);
    PadRoundTrip(secs);
    assert ParseDuration(FormatDuration(seconds)) == Some(mins * 60 + secs);
  }

  /** The formatted duration is the minutes, a colon and the padded seconds. */
  lemma FormatParts(seconds: nat)
    ensures var r := FormatDuration(seconds);
      && r[..|r| - 3] == Decimal(seconds / 60)
      && r[|r| - 2..] == Pad2(seconds % 60)
  {
    var r := FormatDuration(seconds);
    PadRoundTrip(seconds % 60);
    assert r == Decimal(seconds / 60) + ":" + Pad2(seconds % 60);
  }

  /** Distinct durations are shown as distinct texts. */
  lemma FormatInjective(a: nat, b: nat)
    requires FormatDuration(a) == FormatDuration(b)
    ensures a == b
  {
    FormatParseRoundTrip(a);
    FormatParseRoundTrip(b);
  }
}
