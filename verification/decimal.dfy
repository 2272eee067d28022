/**
 * Decimal text of integers, as JavaScript's `String(n)` / `toString()` writes it,
 * zero padding as used by ISO dates and SQL placeholders, and the value of a digit string.
 */
module Decimal {

  predicate IsDigit(c: char) { '0' <= c <= '9' }

  predicate AllDigits(s: string) { forall i :: 0 <= i < |s| ==> IsDigit(s[i]) }

  function DigitChar(n: nat): (c: char)
    requires n < 10
    ensures IsDigit(c) && c as int - '0' as int == n
  {
    ('0' as int + n) as char
  }

  function Pow10(k: nat): (p: nat)
    ensures p >= 1
  {
    if k == 0 then 1 else 10 * Pow10(k - 1)
  }

  /** Powers of ten grow with the exponent. */
  lemma {:induction false} Pow10Monotone(a: nat, b: nat)
    requires a <= b
    ensures Pow10(a) <= Pow10(b)
    decreases b
  {
    if a < b {
      Pow10Monotone(a, b - 1);
    }
  }

  /** The shortest decimal text of `n`: no sign and no leading zeros. */
  function NatToDecimal(n: nat): (s: string)
    ensures 1 <= |s| && AllDigits(s)
    ensures |s| > 1 ==> s[0] != '0'
    decreases n
  {
    if n < 10 then [DigitChar(n)] else NatToDecimal(n / 10) + [DigitChar(n % 10)]
  }

  /** `String(i)` for an integer: a leading '-' for negative values. */
  function IntToDecimal(i: int): (s: string)
    ensures 1 <= |s|
    ensures i >= 0 ==> s == NatToDecimal(i)
    ensures i < 0 ==> s[0] == '-' && s[1..] == NatToDecimal(-i)
  {
    if i < 0 then "-" + NatToDecimal(-i) else NatToDecimal(i)
  }

  function Zeros(k: nat): (s: string)
    ensures |s| == k && forall i :: 0 <= i < k ==> s[i] == '0'
  {
    if k == 0 then [] else Zeros(k - 1) + "0"
  }

  /** The decimal text of `n` left-padded with zeros to at least `width` characters. */
  function PadLeft(n: nat, width: nat): (s: string)
    ensures AllDigits(s) && |s| >= width && |s| >= 1
  {
    var t := NatToDecimal(n);
    if |t| < width then Zeros(width - |t|) + t else t
  }

  /** The number a digit string denotes (leading zeros allowed). */
  function DecimalValue(s: string): nat
    requires AllDigits(s)
  {
    if s == [] then 0
    else DecimalValue(s[..|s| - 1]) * 10 + (s[|s| - 1] as int - '0' as int)
  }

  lemma {:induction false} DecimalValueBound(s: string)
    requires AllDigits(s)
    ensures DecimalValue(s) < Pow10(|s|)
  {
    if s != [] {
      DecimalValueBound(s[..|s| - 1]);
    }
  }

  /** Reading back the decimal text of a number gives the number. */
  lemma {:induction false} NatToDecimalRoundTrip(n: nat)
    ensures DecimalValue(NatToDecimal(n)) == n
    decreases n
  {
    if n >= 10 {
      var t := NatToDecimal(n / 10);
      NatToDecimalRoundTrip(n / 10);
      assert (t + [DigitChar(n % 10)])[..|t|] == t;
    }
  }

  /** The decimal text of a number below 10^w has at most w digits. */
  lemma {:induction false} NatToDecimalLength(n: nat, w: nat)
    requires 1 <= w && n < Pow10(w)
    ensures |NatToDecimal(n)| <= w
    decreases n
  {
    if n >= 10 {
      NatToDecimalLength(n / 10, w - 1);
    }
  }

  lemma {:induction false} ZerosValue(k: nat)
    ensures DecimalValue(Zeros(k)) == 0
  {
    if k > 0 {
      ZerosValue(k - 1);
      assert Zeros(k)[..k - 1] == Zeros(k - 1);
    }
  }

  /** Leading zeros do not change the value of a digit string. */
  lemma {:induction false} LeadingZerosValue(k: nat, s: string)
    requires AllDigits(s)
    ensures AllDigits(Zeros(k) + s) && DecimalValue(Zeros(k) + s) == DecimalValue(s)
    decreases |s|
  {
    if s == [] {
      assert Zeros(k) + s == Zeros(k);
      ZerosValue(k);
    } else {
      var z := Zeros(k) + s;
      assert z[..|z| - 1] == Zeros(k) + s[..|s| - 1];
      LeadingZerosValue(k, s[..|s| - 1]);
    }
  }

  /** Padding keeps the value, and a number below 10^w pads to exactly w digits. */
  lemma PadLeftRoundTrip(n: nat, width: nat)
    ensures DecimalValue(PadLeft(n, width)) == n
    ensures 1 <= width && n < Pow10(width) ==> |PadLeft(n, width)| == width
  {
    PadLeftValue(n, width);
    if 1 <= width && n < Pow10(width) {
      NatToDecimalLength(n, width);
    }
  }

  lemma PadLeftValue(n: nat, width: nat)
    ensures DecimalValue(PadLeft(n, width)) == n
  {
    var t := NatToDecimal(n);
    NatToDecimalRoundTrip(n);
    if |t| < width {
      assert PadLeft(n, width) == Zeros(width - |t|) + t;
      LeadingZerosValue(width - |t|, t);
    } else {
      assert PadLeft(n, width) == t;
    }
  }

  lemma {:induction false} ZeroValueMeansZeros(s: string)
    requires AllDigits(s) && DecimalValue(s) == 0
    ensures s == Zeros(|s|)
  {
    if s != [] {
      ZeroValueMeansZeros(s[..|s| - 1]);
      assert s == s[..|s| - 1] + [s[|s| - 1]];
    }
  }

  /** A digit string is the zero-padding of its own value to its own length (the other round trip). */
  lemma {:induction false} DecimalValueCanonical(s: string)
    requires 1 <= |s| && AllDigits(s)
    ensures PadLeft(DecimalValue(s), |s|) == s
    decreases |s|
  {
    var init, c := s[..|s| - 1], s[|s| - 1];
    var v, v' := DecimalValue(s), DecimalValue(init);
    var d := c as int - '0' as int;
    assert s == init + [c];
    assert v == v' * 10 + d;
    assert v / 10 == v' && v % 10 == d;
    assert DigitChar(d) == c;
    if v' == 0 {
      ZeroValueMeansZeros(init);
      assert v == d && NatToDecimal(v) == [c];
      assert Zeros(|s| - 1) == init;
    } else {
      DecimalValueCanonical(init);
      assert NatToDecimal(v) == NatToDecimal(v') + [c];
      var t' := NatToDecimal(v');
      if |t'| < |init| {
        assert PadLeft(v', |init|) == Zeros(|init| - |t'|) + t';
        assert PadLeft(v, |s|) == Zeros(|s| - |t'| - 1) + (t' + [c]);
      } else {
        assert PadLeft(v', |init|) == t';
      }
    }
  }

  /** The digit a character stands for in bases up to 36, or 36 for a non-digit. */
  function DigitOf(c: char): nat {
    if '0' <= c <= '9' then c as nat - '0' as nat
    else if 'a' <= c <= 'z' then c as nat - 'a' as nat + 10
    else if 'A' <= c <= 'Z' then c as nat - 'A' as nat + 10
    else 36
  }

  /** The length of the longest prefix of base-`radix` digits. */
  function DigitRun(s: string, radix: nat): (n: nat)
    ensures n <= |s| && forall i :: 0 <= i < n ==> DigitOf(s[i]) < radix
    ensures n < |s| ==> DigitOf(s[n]) >= radix
    ensures radix <= 10 ==> AllDigits(s[..n])
  {
    if s != [] && DigitOf(s[0]) < radix then 1 + DigitRun(s[1..], radix) else 0
  }

  function RadixValue(s: string, radix: nat): nat {
    if s == [] then 0 else RadixValue(s[..|s| - 1], radix) * radix + DigitOf(s[|s| - 1])
  }

  lemma {:induction false} RadixValueIsDecimal(s: string)
    requires AllDigits(s)
    ensures RadixValue(s, 10) == DecimalValue(s)
  {
    if s != [] {
      RadixValueIsDecimal(s[..|s| - 1]);
    }
  }

  lemma {:induction false} DigitRunOfDigits(s: string)
    requires AllDigits(s)
    ensures DigitRun(s, 10) == |s|
  {
    if s != [] {
      DigitRunOfDigits(s[1..]);
    }
  }
}
