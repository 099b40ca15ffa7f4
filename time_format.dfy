/**
 * The "HH:MM" time strings of the booking calendar: how a slot's hour and
 * minute are printed (`toString()` followed by `padStart(2, '0')`) and how
 * the calendar reads them back (`split(':')` followed by `Number`).
 */
module TimeFormat {
  import opened Wrappers

  predicate IsDigit(c: char) {
    '0' <= c <= '9'
  }

  predicate AllDigits(s: string) {
    forall i :: 0 <= i < |s| ==> IsDigit(s[i])
  }

  function DigitValue(c: char): (d: nat)
    requires IsDigit(c)
    ensures d < 10
  {
    c as int - '0' as int
  }

  function DigitChar(d: nat): (c: char)
    requires d < 10
    ensures IsDigit(c) && DigitValue(c) == d
  {
    ('0' as int + d) as char
  }

  /** `n.toString()` for a non-negative integer: its shortest decimal numeral. */
  function DecimalString(n: nat): (s: string)
    ensures |s| >= 1 && AllDigits(s)
    ensures n >= 10 ==> s[0] != '0'
  {
    if n < 10 then [DigitChar(n)] else DecimalString(n / 10) + [DigitChar(n % 10)]
  }

  /** The value of a decimal numeral (leading zeros allowed; the empty numeral is 0). */
  function DigitsValue(s: string): nat
    requires AllDigits(s)
  {
    if s == [] then 0 else DigitsValue(s[..|s| - 1]) * 10 + DigitValue(s[|s| - 1])
  }

  /** `s.padStart(2, '0')`: zeros are prepended until the string has two characters. */
  function PadStart2(s: string): (r: string)
    ensures |r| == if |s| >= 2 then |s| else 2
  {
    if |s| >= 2 then s else Zeros(2 - |s|) + s
  }

  function Zeros(k: nat): (z: string)
    ensures |z| == k && AllDigits(z)
  {
    seq(k, _ => '0')
  }

  /** The text of a time slot: hour and minute, each padded to two digits, joined by a colon. */
  function TimeString(hour: nat, minute: nat): string {
    PadStart2(DecimalString(hour)) + ":" + PadStart2(DecimalString(minute))
  }

  /** `s.split(sep)`: the maximal pieces between separators, in order; never empty. */
  function Split(s: string, sep: char): (parts: seq<string>)
    ensures |parts| >= 1
  {
    if s == [] then [[]]
    else
      var rest := Split(s[1..], sep);
      if s[0] == sep then [[]] + rest else [[s[0]] + rest[0]] + rest[1..]
  }

  /**
   * `Number(s)` on the strings the calendar produces: a run of decimal digits
   * (the empty string reads as 0); anything else is `NaN`, here `None`.
   */
  function ParseNumber(s: string): (r: Option<nat>)
    ensures r.Some? <==> AllDigits(s)
  {
    if AllDigits(s) then Some(DigitsValue(s)) else None
  }

  /**
   * `const [hours, minutes] = time.split(':').map(Number)`: `None` when there is
   * no minute part or either part is not a number.
   */
  function ParseTime(time: string): Option<(nat, nat)> {
    var parts := Split(time, ':');
    if |parts| < 2 then None
    else
      match (ParseNumber(parts[0]), ParseNumber(parts[1]))
      case (Some(h), Some(m)) => Some((h, m))
      case _ => None
  }

  // ---------------------------------------------------------------------------
  // Lemmas

  /** Reading a printed number gives the number back. */
  lemma {:induction false} DecimalRoundTrip(n: nat)
    ensures DigitsValue(DecimalString(n)) == n
  {
    if n >= 10 {
      var s := DecimalString(n);
      assert s[..|s| - 1] == DecimalString(n / 10);
      DecimalRoundTrip(n / 10);
    }
  }

  /** Two different numbers never print alike. */
  lemma DecimalStringInjective(m: nat, n: nat)
    requires DecimalString(m) == DecimalString(n)
    ensures m == n
  {
    DecimalRoundTrip(m);
    DecimalRoundTrip(n);
  }

  /** Leading zeros do not change the value of a numeral. */
  lemma {:induction false} LeadingZerosValue(k: nat, s: string)
    requires AllDigits(s)
    ensures AllDigits(Zeros(k) + s)
    ensures DigitsValue(Zeros(k) + s) == DigitsValue(s)
    decreases |s| + k
  {
    var t := Zeros(k) + s;
    assert AllDigits(t) by {
      forall i | 0 <= i < |t| ensures IsDigit(t[i]) {
        if i >= k { assert t[i] == s[i - k]; }
      }
    }
    if s == [] {
      if k > 0 {
        assert t[..|t| - 1] == Zeros(k - 1) + [];
        LeadingZerosValue(k - 1, []);
      }
    } else {
      assert t[..|t| - 1] == Zeros(k) + s[..|s| - 1];
      assert s[..|s| - 1] + [s[|s| - 1]] == s;
      LeadingZerosValue(k, s[..|s| - 1]);
    }
  }

  /** Padding a printed number keeps it a numeral of the same value. */
  lemma PaddedRoundTrip(n: nat)
    ensures AllDigits(PadStart2(DecimalString(n)))
    ensures DigitsValue(PadStart2(DecimalString(n))) == n
  {
    var s := DecimalString(n);
    DecimalRoundTrip(n);
    if |s| < 2 {
      LeadingZerosValue(2 - |s|, s);
    }
  }

  /** Padding only prepends zeros: the original text is the suffix, everything before it is '0'. */
  lemma PadStart2Content(s: string)
    ensures PadStart2(s)[|PadStart2(s)| - |s|..] == s
    ensures forall i :: 0 <= i < |PadStart2(s)| - |s| ==> PadStart2(s)[i] == '0'
  {
  }

  /** A string without the separator is one piece. */
  lemma {:induction false} SplitNoSeparator(s: string, sep: char)
    requires sep !in s
    ensures Split(s, sep) == [s]
  {
    if s != [] {
      SplitNoSeparator(s[1..], sep);
      assert [s[0]] + s[1..] == s;
    }
  }

  /** A separator after a separator-free prefix cuts exactly that prefix off. */
  lemma {:induction false} SplitAtFirstSeparator(a: string, sep: char, b: string)
    requires sep !in a
    ensures Split(a + [sep] + b, sep) == [a] + Split(b, sep)
  {
    var s := a + [sep] + b;
    if a == [] {
      assert s[1..] == b;
    } else {
      assert s[1..] == a[1..] + [sep] + b;
      SplitAtFirstSeparator(a[1..], sep, b);
      assert [a[0]] + a[1..] == a;
    }
  }

  /** Every time string the slots print is read back by the calendar as the same hour and minute. */
  lemma TimeStringRoundTrip(hour: nat, minute: nat)
    ensures ParseTime(TimeString(hour, minute)) == Some((hour, minute))
  {
    var hh := PadStart2(DecimalString(hour));
    var mm := PadStart2(DecimalString(minute));
    PaddedRoundTrip(hour);
    PaddedRoundTrip(minute);
    assert ':' !in hh && ':' !in mm by {
      assert !IsDigit(':');
    }
    assert TimeString(hour, minute) == hh + [':'] + mm;
    SplitAtFirstSeparator(hh, ':', mm);
    SplitNoSeparator(mm, ':');
  }

  /** A number below 100 prints, once padded, as exactly two digits. */
  lemma PaddedWidth(n: nat)
    requires n < 100
    ensures |PadStart2(DecimalString(n))| == 2
    ensures AllDigits(PadStart2(DecimalString(n)))
  {
    if n >= 10 {
      assert DecimalString(n) == DecimalString(n / 10) + [DigitChar(n % 10)];
      assert n / 10 < 10;
    }
    PaddedRoundTrip(n);
  }

  /** The padded text of a number below 100 is its tens digit followed by its units digit. */
  lemma PaddedDigits(n: nat)
    requires n < 100
    ensures PadStart2(DecimalString(n)) == [DigitChar(n / 10), DigitChar(n % 10)]
  {
    if n >= 10 {
      assert DecimalString(n) == DecimalString(n / 10) + [DigitChar(n % 10)];
      assert n / 10 < 10;
    }
  }

  /** Hours and minutes below 100 print as exactly two digits each around a colon. */
  lemma TimeStringShape(hour: nat, minute: nat)
    requires hour < 100 && minute < 100
    ensures |TimeString(hour, minute)| == 5
    ensures TimeString(hour, minute)[2] == ':'
    ensures IsDigit(TimeString(hour, minute)[0]) && IsDigit(TimeString(hour, minute)[1])
    ensures IsDigit(TimeString(hour, minute)[3]) && IsDigit(TimeString(hour, minute)[4])
  {
    var hh := PadStart2(DecimalString(hour));
    var mm := PadStart2(DecimalString(minute));
    PaddedWidth(hour);
    PaddedWidth(minute);
    var t := TimeString(hour, minute);
    assert t == hh + [':'] + mm;
    assert t[0] == hh[0] && t[1] == hh[1] && t[3] == mm[0] && t[4] == mm[1];
  }
}
