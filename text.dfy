/**
 * The few string facilities the scraper relies on: `str.isnumeric` (restricted to the
 * ASCII digits), `str()` of a natural number, and the zero-padded decimal fields that
 * `strftime("%d")`, `strftime("%m")` and `strftime("%Y")` produce.
 */
module Text {

  predicate IsDigit(c: char) {
    '0' <= c <= '9'
  }

  predicate AllDigits(s: string) {
    forall i :: 0 <= i < |s| ==> IsDigit(s[i])
  }

  /** `s.isnumeric()`: non-empty and made of digits only. */
  predicate IsNumeric(s: string) {
    |s| > 0 && AllDigits(s)
  }

  function DigitChar(d: nat): (c: char)
    requires d < 10
    ensures IsDigit(c) && DigitValue(c) == d
  {
    (('0' as int) + d) as char
  }

  function DigitValue(c: char): nat
    requires IsDigit(c)
  {
    (c as int) - ('0' as int)
  }

  /** The number a string of digits denotes, most significant digit first. */
  function DigitsValue(s: string): nat
    requires AllDigits(s)
  {
    if s == [] then 0 else DigitsValue(s[..|s| - 1]) * 10 + DigitValue(s[|s| - 1])
  }

  function Pow10(k: nat): (r: nat)
    ensures r >= 1
  {
    if k == 0 then 1 else 10 * Pow10(k - 1)
  }

  /** `str(n)`: the shortest decimal spelling of `n`. */
  function Decimal(n: nat): (s: string)
    ensures IsNumeric(s)
    ensures s[0] == '0' ==> n == 0
    ensures n < 10 <==> |s| == 1
  {
    if n < 10 then [DigitChar(n)] else Decimal(n / 10) + [DigitChar(n % 10)]
  }

  function Zeros(k: nat): (s: string)
    ensures |s| == k && AllDigits(s)
    ensures forall i :: 0 <= i < k ==> s[i] == '0'
  {
    if k == 0 then [] else Zeros(k - 1) + ['0']
  }

  /** `n` in decimal, left-padded with zeros to at least `width` characters. */
  function Pad(n: nat, width: nat): (s: string)
    ensures IsNumeric(s)
    ensures |s| == if |Decimal(n)| < width then width else |Decimal(n)|
  {
    var d := Decimal(n);
    if |d| < width then Zeros(width - |d|) + d else d
  }

  lemma {:induction false} DecimalRoundTrip(n: nat)
    ensures DigitsValue(Decimal(n)) == n
  {
    if n >= 10 {
      var d := Decimal(n);
      var init := Decimal(n / 10);
      assert d == init + [DigitChar(n % 10)];
      assert d[..|d| - 1] == init;
      DecimalRoundTrip(n / 10);
    }
  }

  /** Leading zeros do not change the value of a digit string. */
  lemma {:induction false} LeadingZeros(k: nat, s: string)
    requires AllDigits(s)
    ensures AllDigits(Zeros(k) + s)
    ensures DigitsValue(Zeros(k) + s) == DigitsValue(s)
  {
    var z := Zeros(k) + s;
    if s == [] {
      assert z == Zeros(k);
      ZerosValue(k);
    } else {
      var init := s[..|s| - 1];
      assert z[..|z| - 1] == Zeros(k) + init;
      LeadingZeros(k, init);
    }
  }

  lemma {:induction false} ZerosValue(k: nat)
    ensures DigitsValue(Zeros(k)) == 0
  {
    if k > 0 {
      assert Zeros(k)[..k - 1] == Zeros(k - 1);
      ZerosValue(k - 1);
    }
  }

  /** Zero padding is undone by reading the digits back. */
  lemma PadRoundTrip(n: nat, width: nat)
    ensures DigitsValue(Pad(n, width)) == n
  {
    DecimalRoundTrip(n);
    var d := Decimal(n);
    if |d| < width {
      LeadingZeros(width - |d|, d);
    }
  }

  /** A number below 10^w has at most w decimal digits. */
  lemma {:induction false} DecimalLength(n: nat, w: nat)
    requires 1 <= w && n < Pow10(w)
    ensures |Decimal(n)| <= w
  {
    if n >= 10 {
      assert Pow10(1) == 10;
      assert n / 10 < Pow10(w - 1);
      DecimalLength(n / 10, w - 1);
    }
  }

  /** A number below 10^w padded to width w has exactly w characters. */
  lemma PadLength(n: nat, w: nat)
    requires 1 <= w && n < Pow10(w)
    ensures |Pad(n, w)| == w
  {
    DecimalLength(n, w);
  }
}
