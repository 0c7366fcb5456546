/** Decimal numerals: Python's `str(n)`, `int(s)` and `s.zfill(w)` on the
    strings of digits the program builds and reads. */
module Numerals {
  import opened Outcomes
  import opened Strings

  predicate IsDigit(c: char) {
    '0' <= c <= '9'
  }

  predicate AllDigits(s: string) {
    forall i :: 0 <= i < |s| ==> IsDigit(s[i])
  }

  function DigitValue(c: char): nat
    requires IsDigit(c)
  {
    c as int - '0' as int
  }

  function DigitChar(d: nat): (c: char)
    requires d < 10
    ensures IsDigit(c) && DigitValue(c) == d
  {
    ('0' as int + d) as char
  }

  /** The number a string of decimal digits denotes (leading zeros allowed,
      the empty string denotes 0). */
  function DigitsValue(s: string): nat
    requires AllDigits(s)
    decreases |s|
  {
    if s == [] then 0 else DigitsValue(s[..|s| - 1]) * 10 + DigitValue(s[|s| - 1])
  }

  /** `str(n)` for a natural number; reading the digits back gives `n`. */
  function Decimal(n: nat): (s: string)
    ensures |s| >= 1 && AllDigits(s)
    ensures DigitsValue(s) == n
    decreases n
  {
    if n < 10 then [DigitChar(n)]
    else
      var s := Decimal(n / 10) + [DigitChar(n % 10)];
      assert s[..|s| - 1] == Decimal(n / 10);
      s
  }

  function Zeros(k: nat): (z: string)
    ensures |z| == k && forall i :: 0 <= i < k ==> z[i] == '0'
  {
    seq(k, _ => '0')
  }

  /** `s.zfill(width)` for a string without a sign: `s` left-padded with '0'
      up to `width` characters, and never shortened. */
  function ZFill(s: string, width: nat): (r: string)
    ensures |r| == if |s| < width then width else |s|
    ensures r[|r| - |s|..] == s
    ensures forall i :: 0 <= i < |r| - |s| ==> r[i] == '0'
  {
    if |s| < width then Zeros(width - |s|) + s else s
  }

  /** Leading zeros do not change the value of a numeral. */
  lemma {:induction false} LeadingZeros(z: string, s: string)
    requires forall i :: 0 <= i < |z| ==> z[i] == '0'
    requires AllDigits(s)
    ensures AllDigits(z + s) && DigitsValue(z + s) == DigitsValue(s)
    decreases |s|
  {
    if s == [] {
      assert z + s == z;
      ZerosValue(z);
    } else {
      var t := s[..|s| - 1];
      assert (z + s)[..|z + s| - 1] == z + t;
      LeadingZeros(z, t);
    }
  }

  lemma {:induction false} ZerosValue(z: string)
    requires forall i :: 0 <= i < |z| ==> z[i] == '0'
    ensures AllDigits(z) && DigitsValue(z) == 0
    decreases |z|
  {
    if z != [] {
      ZerosValue(z[..|z| - 1]);
    }
  }

  /** A zero-padded `str(n)` still reads back as `n`. */
  lemma ZFillDecimal(n: nat, width: nat)
    ensures AllDigits(ZFill(Decimal(n), width))
    ensures DigitsValue(ZFill(Decimal(n), width)) == n
  {
    var d := Decimal(n);
    if |d| < width {
      LeadingZeros(Zeros(width - |d|), d);
    }
  }

  /** Distinct numbers have distinct zero-padded numerals. */
  lemma ZFillDecimalInjective(a: nat, b: nat, width: nat)
    requires ZFill(Decimal(a), width) == ZFill(Decimal(b), width)
    ensures a == b
  {
    ZFillDecimal(a, width);
    ZFillDecimal(b, width);
  }

  /** `int(s)`: optional surrounding whitespace, an optional sign, and at
      least one ASCII digit. */
  function ParseInt(s: string): (r: Option<int>)
  {
    var t := Strip(s);
    if t == [] then None
    else if t[0] == '-' || t[0] == '+' then
      if |t| > 1 && AllDigits(t[1..]) then
        var v: int := DigitsValue(t[1..]);
        Some(if t[0] == '-' then -v else v)
      else None
    else if AllDigits(t) then Some(DigitsValue(t))
    else None
  }

  /** `int()` reads back every whitespace-padded numeral. */
  lemma ParseIntDigits(w1: string, d: string, w2: string)
    requires AllSpace(w1) && AllSpace(w2)
    requires d != [] && AllDigits(d)
    ensures ParseInt(w1 + d + w2) == Some(DigitsValue(d))
  {
    StripPadded(w1, d, w2);
  }

  lemma ParseNumeral(d: string)
    requires d != [] && AllDigits(d)
    ensures ParseInt(d) == Some(DigitsValue(d))
  {
    ParseIntDigits("", d, "");
    assert "" + d + "" == d;
  }

  /** A string `int()` accepts holds only whitespace, digits and signs. */
  lemma ParseIntChars(s: string)
    requires ParseInt(s).Some?
    ensures forall i :: 0 <= i < |s| ==> IsSpace(s[i]) || IsDigit(s[i]) || s[i] == '-' || s[i] == '+'
  {
    var l := LStrip(s);
    var t := RStrip(l);
    var k := |s| - |l|;
    LStripRemovesSpace(s);
    RStripRemovesSpace(l);
    forall i | 0 <= i < |s|
      ensures IsSpace(s[i]) || IsDigit(s[i]) || s[i] == '-' || s[i] == '+'
    {
      if i < k {
        assert s[..k][i] == s[i];
      } else if i - k < |t| {
        assert s[i] == l[i - k] == t[i - k];
        if i - k > 0 {
          assert t[1..][i - k - 1] == t[i - k];
        }
      } else {
        assert s[i] == l[i - k] == l[|t|..][i - k - |t|];
      }
    }
  }
}
