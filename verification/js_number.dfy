/**
 * JavaScript's conversion of a value to a number, as the relational operators `<` and `>`
 * apply it to an operand that is not already a number (ToNumber and StringToNumber, sections
 * 7.1.4 and 7.1.4.1.1 of ECMA-262). Numbers are exact reals here: no rounding and no overflow.
 */
module JsNumber {
  import opened Wrappers
  import opened JsValue
  import opened Decimal

  /** A number as a comparison sees it: NaN, a finite value, or an infinity with its sign. */
  datatype Number = NaN | Finite(x: real) | Infinity(negative: bool)

  /** `m × 10^e` for an integer exponent of either sign. */
  function Scale(m: nat, e: int): real {
    if e >= 0 then (m * Pow10(e)) as real else m as real / Pow10(-e) as real
  }

  /**
   * `Number(v)`: `undefined` is NaN, null is 0, booleans are 0 and 1, and strings, arrays and
   * objects are read from their text.
   */
  function ToNumber(v: Value): Number {
    match v
    case Undefined => NaN
    case Null => Finite(0.0)
    case Bool(b) => Finite(if b then 1.0 else 0.0)
    case Num(n) => Finite(n)
    case Str(s) => StringToNumber(s)
    case Other(text) => StringToNumber(text)
  }

  /**
   * `Number(s)` for a string: surrounding white space is ignored and a blank text reads 0; a
   * `0x`, `0o` or `0b` prefix reads an unsigned integer in base 16, 8 or 2; otherwise an
   * optional sign precedes `Infinity` or a decimal literal; anything else is NaN.
   */
  function StringToNumber(s: string): Number {
    var t := Trim(s);
    if t == "" then Finite(0.0)
    else if RadixPrefix(t) != 0 then NonDecimal(t[2..], RadixPrefix(t))
    else SignedDecimal(t)
  }

  /** The base a `0x` / `0o` / `0b` prefix (either case) selects, or 0 without one. */
  function RadixPrefix(t: string): nat {
    if |t| >= 2 && t[0] == '0' then
      if t[1] == 'x' || t[1] == 'X' then 16
      else if t[1] == 'o' || t[1] == 'O' then 8
      else if t[1] == 'b' || t[1] == 'B' then 2
      else 0
    else 0
  }

  /** The digits after the prefix: at least one, every one a digit of the base. */
  function NonDecimal(digits: string, radix: nat): Number {
    if digits != [] && DigitRun(digits, radix) == |digits| then Finite(RadixValue(digits, radix) as real) else NaN
  }

  /** `StrDecimalLiteral`: an optional sign, then an unsigned literal. */
  function SignedDecimal(t: string): Number
    requires t != ""
  {
    if t[0] == '-' then Negate(UnsignedLiteral(t[1..]))
    else if t[0] == '+' then UnsignedLiteral(t[1..])
    else UnsignedLiteral(t)
  }

  function Negate(n: Number): Number {
    match n
    case NaN => NaN
    case Finite(x) => Finite(-x)
    case Infinity(negative) => Infinity(!negative)
  }

  /** `StrUnsignedDecimalLiteral`: `Infinity` or a decimal literal. */
  function UnsignedLiteral(u: string): Number {
    if u == "Infinity" then Infinity(false)
    else
      match UnsignedDecimal(u)
      case None => NaN
      case Some(x) => Finite(x)
  }

  /**
   * `StrUnsignedDecimalLiteral` without `Infinity`: whole digits, an optional `.` with fraction
   * digits, at least one digit in all, and an optional exponent; the value is exact.
   */
  function UnsignedDecimal(u: string): Option<real> {
    var n := DigitRun(u, 10);
    AfterWhole(u[..n], u[n..])
  }

  /** What may follow the whole digits: a `.` and fraction digits, or directly the exponent. */
  function AfterWhole(whole: string, rest: string): Option<real>
    requires AllDigits(whole)
  {
    if rest != [] && rest[0] == '.' then
      var m := DigitRun(rest[1..], 10);
      Finish(whole, rest[1..][..m], rest[1..][m..])
    else Finish(whole, "", rest)
  }

  /** The digits read so far, and what must be an exponent part or nothing. */
  function Finish(whole: string, fraction: string, tail: string): Option<real>
    requires AllDigits(whole) && AllDigits(fraction)
  {
    if |whole| + |fraction| == 0 then None
    else
      match Exponent(tail)
      case None => None
      case Some(e) => Some(Scale(DecimalValue(whole + fraction), e - |fraction|))
  }

  /** `ExponentPart`, or nothing: `e` or `E`, an optional sign and at least one digit. */
  function Exponent(tail: string): Option<int> {
    if tail == "" then Some(0)
    else if tail[0] == 'e' || tail[0] == 'E' then SignedInteger(tail[1..])
    else None
  }

  function SignedInteger(w: string): Option<int> {
    var digits := if w != [] && (w[0] == '+' || w[0] == '-') then w[1..] else w;
    if digits != [] && AllDigits(digits) then
      var v: int := DecimalValue(digits);
      Some(if w[0] == '-' then -v else v)
    else None
  }

  // ---------------------------------------------------------------------------------------
  // What the reader accepts
  // ---------------------------------------------------------------------------------------

  lemma {:induction false} DigitRunStops(w: string, rest: string, radix: nat)
    requires DigitRun(w, radix) == |w|
    requires rest == [] || DigitOf(rest[0]) >= radix
    ensures DigitRun(w + rest, radix) == |w|
  {
    if w != [] {
      assert (w + rest)[1..] == w[1..] + rest;
      DigitRunStops(w[1..], rest, radix);
    } else {
      assert w + rest == rest;
    }
  }

  lemma TrimOfUnspaced(t: string)
    requires t != [] && !IsSpace(t[0]) && !IsSpace(t[|t| - 1])
    ensures Trim(t) == t
  {
  }

  /** Trimming removes only white space: a character that is not white space survives it. */
  lemma TrimKeeps(s: string, k: nat)
    requires k < |s| && !IsSpace(s[k])
    ensures s[k] in Trim(s)
  {
    var ts := TrimStart(s);
    var j := k - (|s| - |ts|);
    TrimStartKeeps(s, k);
    TrimEndKeeps(ts, j);
    assert Trim(s)[j] == s[k];
  }

  lemma {:induction false} TrimStartKeeps(s: string, k: nat)
    requires k < |s| && !IsSpace(s[k])
    ensures |s| - |TrimStart(s)| <= k && TrimStart(s)[k - (|s| - |TrimStart(s)|)] == s[k]
  {
    if IsSpace(s[0]) {
      TrimStartKeeps(s[1..], k - 1);
    }
  }

  lemma {:induction false} TrimEndKeeps(s: string, k: nat)
    requires k < |s| && !IsSpace(s[k])
    ensures k < |TrimEnd(s)| && TrimEnd(s)[k] == s[k]
  {
    if IsSpace(s[|s| - 1]) {
      TrimEndKeeps(s[..|s| - 1], k);
    }
  }

  /** Whole digits followed by something that is not a digit. */
  lemma WholeSplit(w: string, rest: string)
    requires AllDigits(w) && (rest == [] || !IsDigit(rest[0]))
    ensures UnsignedDecimal(w + rest) == AfterWhole(w, rest)
  {
    DigitRunOfDigits(w);
    DigitRunStops(w, rest, 10);
    assert (w + rest)[..|w|] == w && (w + rest)[|w|..] == rest;
  }

  /** A text with no surrounding white space and no prefix is read as a signed decimal. */
  lemma DecimalText(t: string)
    requires t != [] && !IsSpace(t[0]) && !IsSpace(t[|t| - 1]) && RadixPrefix(t) == 0
    ensures StringToNumber(t) == SignedDecimal(t)
  {
    TrimOfUnspaced(t);
  }

  /** An unsigned literal denoting `x` is a signed literal denoting `x`. */
  lemma UnsignedSigned(u: string, x: real)
    requires u != [] && (IsDigit(u[0]) || u[0] == '.') && UnsignedDecimal(u) == Some(x)
    ensures SignedDecimal(u) == Finite(x)
  {
    DecimalLiteral(u, x);
  }

  /** A text that starts with a digit or `.` is not `Infinity`. */
  lemma DecimalLiteral(u: string, x: real)
    requires u != [] && (IsDigit(u[0]) || u[0] == '.') && UnsignedDecimal(u) == Some(x)
    ensures UnsignedLiteral(u) == Finite(x)
  {
    assert u != "Infinity" by {
      assert "Infinity"[0] == 'I';
    }
  }

  /** A text that starts with a digit or `.`, with no prefix and no surrounding white space. */
  predicate Plain(u: string) {
    u != [] && (IsDigit(u[0]) || u[0] == '.') && !IsSpace(u[|u| - 1]) && RadixPrefix(u) == 0
  }

  /** A plain text reads as the unsigned decimal literal it is. */
  lemma UnsignedText(u: string, x: real)
    requires Plain(u) && UnsignedDecimal(u) == Some(x)
    ensures StringToNumber(u) == Finite(x)
  {
    UnsignedSigned(u, x);
    DecimalText(u);
  }

  lemma DigitNotSpace(c: char)
    requires IsDigit(c)
    ensures !IsSpace(c)
  {
  }

  /** A digit string is an unsigned literal denoting its decimal value. */
  lemma DigitsLiteral(d: string)
    requires |d| >= 1 && AllDigits(d)
    ensures UnsignedDecimal(d) == Some(DecimalValue(d) as real)
  {
    WholeSplit(d, "");
    assert d + "" == d;
  }

  lemma DigitsShape(d: string)
    requires |d| >= 1 && AllDigits(d)
    ensures Plain(d)
  {
    assert RadixPrefix(d) == 0 by {
      assert |d| >= 2 ==> IsDigit(d[1]);
    }
    DigitNotSpace(d[|d| - 1]);
  }

  /** A digit string reads as its decimal value. */
  lemma DigitsRead(d: string)
    requires |d| >= 1 && AllDigits(d)
    ensures StringToNumber(d) == Finite(DecimalValue(d) as real)
  {
    DigitsShape(d);
    DigitsLiteral(d);
    UnsignedText(d, DecimalValue(d) as real);
  }

  /** A digit string after a `-` reads as its decimal value negated. */
  lemma NegativeDigitsRead(d: string)
    requires |d| >= 1 && AllDigits(d)
    ensures StringToNumber("-" + d) == Finite(-(DecimalValue(d) as real))
  {
    NegativeDigitsShape(d);
    DecimalText("-" + d);
    NegativeDigitsSigned(d);
  }

  lemma NegativeDigitsShape(d: string)
    requires |d| >= 1 && AllDigits(d)
    ensures var t := "-" + d; t != [] && !IsSpace(t[0]) && !IsSpace(t[|t| - 1]) && RadixPrefix(t) == 0
  {
    var t := "-" + d;
    assert t[|t| - 1] == d[|d| - 1];
    DigitNotSpace(d[|d| - 1]);
  }

  lemma NegativeDigitsSigned(d: string)
    requires |d| >= 1 && AllDigits(d)
    ensures SignedDecimal("-" + d) == Finite(-(DecimalValue(d) as real))
  {
    DigitsUnsignedLiteral(d);
    MinusLiteral(d);
  }

  lemma DigitsUnsignedLiteral(d: string)
    requires |d| >= 1 && AllDigits(d)
    ensures UnsignedLiteral(d) == Finite(DecimalValue(d) as real)
  {
    DigitsLiteral(d);
    DecimalLiteral(d, DecimalValue(d) as real);
  }

  /** A `-` negates whatever the rest of the text denotes. */
  lemma MinusLiteral(u: string)
    ensures SignedDecimal("-" + u) == Negate(UnsignedLiteral(u))
  {
    assert ("-" + u)[1..] == u;
  }

  /** `Number(String(i))` is `i` for every integer. */
  lemma IntegerTextRead(i: int)
    ensures StringToNumber(IntToDecimal(i)) == Finite(i as real)
  {
    if i < 0 {
      NegativeIntegerTextRead(i);
    } else {
      NatToDecimalRoundTrip(i);
      DigitsRead(NatToDecimal(i));
    }
  }

  lemma NegativeIntegerTextRead(i: int)
    requires i < 0
    ensures StringToNumber(IntToDecimal(i)) == Finite(i as real)
  {
    var d := NatToDecimal(-i);
    assert IntToDecimal(i) == "-" + d;
    NatToDecimalRoundTrip(-i);
    var v := DecimalValue(d);
    assert v == -i;
    assert -(v as real) == i as real;
    NegativeDigitsRead(d);
  }

  /** `w.f` is an unsigned literal denoting the digits `wf` scaled down by 10^|f|. */
  lemma FractionLiteral(w: string, f: string)
    requires AllDigits(w) && AllDigits(f) && |w| + |f| >= 1
    ensures UnsignedDecimal(w + ("." + f)) == Some(DecimalValue(w + f) as real / Pow10(|f|) as real)
  {
    WholeSplit(w, "." + f);
    FractionAfterDot(w, f);
    FractionValue(w, f);
  }

  lemma FractionAfterDot(w: string, f: string)
    requires AllDigits(w) && AllDigits(f)
    ensures AfterWhole(w, "." + f) == Finish(w, f, "")
  {
    var rest := "." + f;
    DigitRunOfDigits(f);
    assert rest[1..] == f && f[..|f|] == f && f[|f|..] == "";
  }

  lemma FractionValue(w: string, f: string)
    requires AllDigits(w) && AllDigits(f) && |w| + |f| >= 1
    ensures Finish(w, f, "") == Some(DecimalValue(w + f) as real / Pow10(|f|) as real)
  {
    var m, k := DecimalValue(w + f), |f|;
    assert Exponent("") == Some(0);
    assert Finish(w, f, "") == Some(Scale(m, 0 - k));
    ScaleDown(m, k);
  }

  /** `w.f` reads as the digits `wf` scaled down by one power of ten per fraction digit. */
  lemma FractionRead(w: string, f: string)
    requires AllDigits(w) && AllDigits(f) && |w| + |f| >= 1
    ensures StringToNumber(w + "." + f) == Finite(DecimalValue(w + f) as real / Pow10(|f|) as real)
  {
    var u := w + ("." + f);
    assert u == w + "." + f;
    var v := DecimalValue(w + f) as real / Pow10(|f|) as real;
    FractionShape(w, f);
    FractionLiteral(w, f);
    UnsignedText(u, v);
  }

  lemma FractionShape(w: string, f: string)
    requires AllDigits(w) && AllDigits(f)
    ensures Plain(w + ("." + f))
  {
    var u := w + ("." + f);
    assert u[|w|] == '.';
    assert RadixPrefix(u) == 0 by {
      if |w| >= 2 {
        assert IsDigit(u[1]);
      }
    }
    assert IsDigit(u[0]) || u[0] == '.';
    assert !IsSpace(u[|u| - 1]) by {
      if f != [] {
        assert u[|u| - 1] == f[|f| - 1];
        DigitNotSpace(f[|f| - 1]);
      }
    }
  }

  /** A decimal text, with or without a `-`, is a signed integer. */
  lemma SignedIntegerOf(k: nat)
    ensures SignedInteger(NatToDecimal(k)) == Some(k)
    ensures SignedInteger("-" + NatToDecimal(k)) == Some(-(k as int))
  {
    var kd := NatToDecimal(k);
    NatToDecimalRoundTrip(k);
    assert ("-" + kd)[1..] == kd;
  }

  lemma ExponentE(w: string)
    ensures Exponent("e" + w) == SignedInteger(w)
  {
    assert ("e" + w)[1..] == w;
  }

  /** `e` or `e-` before a decimal text reads as that power of ten, up or down. */
  lemma ExponentOf(k: nat)
    ensures Exponent("e" + NatToDecimal(k)) == Some(k)
    ensures Exponent("e-" + NatToDecimal(k)) == Some(-(k as int))
  {
    var kd := NatToDecimal(k);
    SignedIntegerOf(k);
    ExponentE(kd);
    ExponentE("-" + kd);
    assert "e-" + kd == "e" + ("-" + kd);
  }

  lemma NoFraction(w: string, rest: string)
    requires AllDigits(w) && (rest == [] || rest[0] != '.')
    ensures AfterWhole(w, rest) == Finish(w, "", rest)
  {
  }

  /** Digits followed by an exponent part: the literal denotes the digits scaled by 10^e. */
  lemma ExponentLiteral(d: string, x: string, e: int)
    requires |d| >= 1 && AllDigits(d) && |x| >= 1 && x[0] == 'e' && Exponent(x) == Some(e)
    ensures UnsignedDecimal(d + x) == Some(Scale(DecimalValue(d), e))
  {
    WholeSplit(d, x);
    NoFraction(d, x);
    ExponentFinish(d, x, e);
  }

  lemma ExponentFinish(d: string, x: string, e: int)
    requires |d| >= 1 && AllDigits(d) && Exponent(x) == Some(e)
    ensures Finish(d, "", x) == Some(Scale(DecimalValue(d), e))
  {
    assert d + "" == d;
    var m := DecimalValue(d);
    assert Finish(d, "", x) == Some(Scale(m, e - 0));
  }

  /** Digits followed by an exponent part that ends in a digit read as that literal. */
  lemma ExponentText(d: string, x: string, e: int)
    requires |d| >= 1 && AllDigits(d) && |x| >= 2 && x[0] == 'e' && IsDigit(x[|x| - 1])
    requires Exponent(x) == Some(e)
    ensures StringToNumber(d + x) == Finite(Scale(DecimalValue(d), e))
  {
    ExponentShape(d, x);
    ExponentLiteral(d, x, e);
    UnsignedText(d + x, Scale(DecimalValue(d), e));
  }

  lemma ExponentShape(d: string, x: string)
    requires |d| >= 1 && AllDigits(d) && |x| >= 2 && x[0] == 'e' && IsDigit(x[|x| - 1])
    ensures Plain(d + x)
  {
    var u := d + x;
    assert RadixPrefix(u) == 0 by {
      if |d| >= 2 {
        assert IsDigit(u[1]);
      } else {
        assert u[1] == 'e';
      }
    }
    assert IsDigit(u[|u| - 1]) by {
      assert u[|u| - 1] == x[|x| - 1];
    }
    DigitNotSpace(u[|u| - 1]);
  }

  /** `dek` reads as the digits `d` scaled up by 10^k. */
  lemma ExponentRead(d: string, k: nat)
    requires |d| >= 1 && AllDigits(d)
    ensures StringToNumber(d + "e" + NatToDecimal(k)) == Finite((DecimalValue(d) * Pow10(k)) as real)
  {
    var kd := NatToDecimal(k);
    var x := "e" + kd;
    assert x[|x| - 1] == kd[|kd| - 1];
    ExponentOf(k);
    ExponentText(d, x, k);
    assert d + "e" + kd == d + x;
  }

  /** `de-k` reads as the digits `d` scaled down by 10^k. */
  lemma NegativeExponentRead(d: string, k: nat)
    requires |d| >= 1 && AllDigits(d)
    ensures StringToNumber(d + "e-" + NatToDecimal(k)) == Finite(DecimalValue(d) as real / Pow10(k) as real)
  {
    var x := "e-" + NatToDecimal(k);
    assert d + "e-" + NatToDecimal(k) == d + x;
    NegativeExponentPart(k);
    ExponentShape(d, x);
    NegativeExponentLiteral(d, k);
    UnsignedText(d + x, DecimalValue(d) as real / Pow10(k) as real);
  }

  /** As a literal, `de-k` denotes the digits divided by 10^k. */
  lemma NegativeExponentLiteral(d: string, k: nat)
    requires |d| >= 1 && AllDigits(d)
    ensures UnsignedDecimal(d + ("e-" + NatToDecimal(k))) == Some(DecimalValue(d) as real / Pow10(k) as real)
  {
    NegativeExponentPart(k);
    ExponentLiteral(d, "e-" + NatToDecimal(k), -(k as int));
    ScaleDown(DecimalValue(d), k);
  }

  /** The text `e-k` is an exponent part of value -k that ends in a digit. */
  lemma NegativeExponentPart(k: nat)
    ensures var x := "e-" + NatToDecimal(k);
      |x| >= 2 && x[0] == 'e' && IsDigit(x[|x| - 1]) && Exponent(x) == Some(-(k as int))
  {
    var kd := NatToDecimal(k);
    var x := "e-" + kd;
    assert x[|x| - 1] == kd[|kd| - 1];
    ExponentOf(k);
  }

  /** A negative exponent divides by the power of ten. */
  lemma ScaleDown(m: nat, k: nat)
    ensures Scale(m, -(k as int)) == m as real / Pow10(k) as real
  {
    var p := Pow10(k);
    if k == 0 {
      assert p as real == 1.0;
      assert Scale(m, 0) == m as real;
    } else {
      assert Scale(m, -(k as int)) == m as real / p as real;
    }
  }

  /**
   * A character that no numeric text may hold anywhere: not white space, not a letter or digit
   * of any base, not `.` and not a sign.
   */
  predicate Stray(c: char) {
    !IsSpace(c) && DigitOf(c) == 36 && c != '.' && c != '+' && c != '-'
  }

  /** A text holding a stray character never reads as a number. */
  lemma StrayIsNaN(s: string, k: nat)
    requires k < |s| && Stray(s[k])
    ensures StringToNumber(s) == NaN
  {
    var t := Trim(s);
    TrimKeeps(s, k);
    var j :| 0 <= j < |t| && t[j] == s[k];
    StrayRejects(t, j);
  }

  /** Whichever way a text holding a stray character is read, it is NaN. */
  lemma StrayRejects(t: string, j: nat)
    requires j < |t| && Stray(t[j])
    ensures RadixPrefix(t) != 0 ==> NonDecimal(t[2..], RadixPrefix(t)) == NaN
    ensures RadixPrefix(t) == 0 ==> SignedDecimal(t) == NaN
  {
    if RadixPrefix(t) != 0 {
      NonDecimalRejects(t[2..], RadixPrefix(t), j - 2);
    } else {
      SignedRejects(t, j);
    }
  }

  /**
   * A text holding a comma never reads as a number; this is the text of every array of two or
   * more elements.
   */
  lemma CommaIsNaN(s: string)
    requires ',' in s
    ensures StringToNumber(s) == NaN
  {
    var k :| 0 <= k < |s| && s[k] == ',';
    assert DigitOf(',') == 36;
    StrayIsNaN(s, k);
  }

  lemma NonDecimalRejects(digits: string, radix: nat, k: int)
    requires radix <= 16 && 0 <= k < |digits| && Stray(digits[k])
    ensures NonDecimal(digits, radix) == NaN
  {
  }

  lemma SignedRejects(t: string, k: nat)
    requires k < |t| && Stray(t[k])
    ensures SignedDecimal(t) == NaN
  {
    if t[0] == '+' || t[0] == '-' {
      UnsignedLiteralRejects(t[1..], k - 1);
    } else {
      UnsignedLiteralRejects(t, k);
    }
  }

  lemma UnsignedLiteralRejects(u: string, k: nat)
    requires k < |u| && Stray(u[k])
    ensures UnsignedLiteral(u) == NaN
  {
    assert u != "Infinity" by {
      if |u| == 8 {
        assert DigitOf("Infinity"[k]) < 36;
      }
    }
    UnsignedRejects(u, k);
  }

  lemma UnsignedRejects(u: string, k: nat)
    requires k < |u| && Stray(u[k])
    ensures UnsignedDecimal(u) == None
  {
    var n := DigitRun(u, 10);
    var rest := u[n..];
    assert n <= k && rest[k - n] == u[k];
    if rest != [] && rest[0] == '.' {
      var a := rest[1..];
      var m := DigitRun(a, 10);
      assert m <= k - n - 1 && a[m..][k - n - 1 - m] == u[k];
      ExponentRejects(a[m..], k - n - 1 - m);
    } else {
      ExponentRejects(rest, k - n);
    }
  }

  lemma ExponentRejects(tail: string, k: nat)
    requires k < |tail| && Stray(tail[k])
    ensures Exponent(tail) == None
  {
    if tail[0] == 'e' || tail[0] == 'E' {
      var w := tail[1..];
      assert w[k - 1] == tail[k];
      var digits := if w != [] && (w[0] == '+' || w[0] == '-') then w[1..] else w;
      var i := if w != [] && (w[0] == '+' || w[0] == '-') then k - 2 else k - 1;
      assert digits[i] == tail[k] && !IsDigit(digits[i]);
    }
  }

  /** A blank text, and so an empty array, reads 0. */
  lemma BlankIsZero(s: string)
    requires forall i :: 0 <= i < |s| ==> IsSpace(s[i])
    ensures StringToNumber(s) == Finite(0.0)
  {
  }

  /** A plain object reads NaN. */
  lemma ObjectIsNaN()
    ensures ToNumber(Other("[object Object]")) == NaN
  {
    var t := "[object Object]";
    assert t[0] == '[' && DigitOf('[') == 36;
    StrayIsNaN(t, 0);
  }
}
