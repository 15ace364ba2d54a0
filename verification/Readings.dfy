/**
  The six-character loadcell readings: parsing, the sanitizer's integer format and the
  filters' one-decimal format, over exact reals.
*/
module Readings {
  import opened Basics

  const ERROR_VALUES := {"EEEEEE", "VVVVVV"}

  // ---------------------------------------------------------------- parsing

  predicate IsDigit(c: char) {
    '0' <= c <= '9'
  }

  predicate AllDigits(s: string) {
    forall i | 0 <= i < |s| :: IsDigit(s[i])
  }

  function Digit(c: char): nat
    requires IsDigit(c)
  {
    c as int - '0' as int
  }

  function Natural(digits: string): nat
    requires AllDigits(digits)
  {
    if |digits| == 0 then 0
    else 10 * Natural(digits[..|digits| - 1]) + Digit(digits[|digits| - 1])
  }

  function PointAt(s: string): (at: nat)
    ensures at <= |s|
    ensures '.' !in s[..at] && (at < |s| ==> s[at] == '.')
  {
    if |s| == 0 || s[0] == '.' then 0
    else
      var at := 1 + PointAt(s[1..]);
      assert s[..at] == [s[0]] + s[1..][..at - 1];
      at
  }

  /** Digits with at most one decimal point and at least one digit. */
  function Unsigned(s: string): Option<real> {
    var at := PointAt(s);
    var whole, fraction := s[..at], if at < |s| then s[at + 1..] else "";
    if AllDigits(whole) && AllDigits(fraction) && |whole| + |fraction| > 0 then
      Some(Natural(whole) as real + Natural(fraction) as real / TenTo(|fraction|))
    else None
  }

  function TenTo(n: nat): (p: real)
    ensures p > 0.0
  {
    if n == 0 then 1.0 else 10.0 * TenTo(n - 1)
  }

  /** Numeric value of a reading; error markers and anything unreadable have none. */
  function Parse(raw: string): Option<real> {
    if raw in ERROR_VALUES || |raw| == 0 then None
    else if raw[0] == '+' then Unsigned(raw[1..])
    else if raw[0] == '-' then
      match Unsigned(raw[1..])
      case None => None
      case Some(v) => Some(-v)
    else Unsigned(raw)
  }

  /** The markers are no readings. */
  lemma MarkersUnreadable()
    ensures Parse("EEEEEE") == None && Parse("VVVVVV") == None
  {
    hide Unsigned;
  }

  lemma NaturalStep(digits: string, c: char)
    requires AllDigits(digits) && IsDigit(c)
    ensures AllDigits(digits + [c]) && Natural(digits + [c]) == 10 * Natural(digits) + Digit(c)
  {
    assert (digits + [c])[..|digits|] == digits;
  }

  /** The decimal value of two, of three and of five digits. */
  lemma NaturalOfThree(a: char, b: char, c: char)
    requires IsDigit(a) && IsDigit(b) && IsDigit(c)
    ensures AllDigits([a, b, c]) && Natural([a, b, c]) == 100 * Digit(a) + 10 * Digit(b) + Digit(c)
  {
    hide Natural, Digit;
    NaturalStep("", a);
    NaturalStep([a], b);
    NaturalStep([a, b], c);
    assert "" + [a] == [a] && [a] + [b] == [a, b] && [a, b] + [c] == [a, b, c];
    EmptyIsZero();
  }

  lemma EmptyIsZero()
    ensures Natural("") == 0
  {
  }

  lemma NaturalOfFive(a: char, b: char, c: char, d: char, e: char)
    requires IsDigit(a) && IsDigit(b) && IsDigit(c) && IsDigit(d) && IsDigit(e)
    ensures AllDigits([a, b, c, d, e])
    ensures Natural([a, b, c, d, e]) == 10000 * Digit(a) + 1000 * Digit(b) + 100 * Digit(c) + 10 * Digit(d) + Digit(e)
  {
    hide Natural, Digit;
    NaturalOfThree(a, b, c);
    NaturalStep([a, b, c], d);
    NaturalStep([a, b, c, d], e);
    assert [a, b, c] + [d] == [a, b, c, d] && [a, b, c, d] + [e] == [a, b, c, d, e];
  }

  /** What the integer firmware's texts stand for: a sign and five decimal digits. */
  lemma IntegerTextValue(positive: bool, a: char, b: char, c: char, d: char, e: char)
    requires IsDigit(a) && IsDigit(b) && IsDigit(c) && IsDigit(d) && IsDigit(e)
    ensures var n := 10000 * (a as int - '0' as int) + 1000 * (b as int - '0' as int)
                     + 100 * (c as int - '0' as int) + 10 * (d as int - '0' as int) + (e as int - '0' as int);
            Parse([if positive then '+' else '-', a, b, c, d, e]) == Some(if positive then n as real else -(n as real))
  {
    hide Natural, Parse;
    var body := [a, b, c, d, e];
    NaturalOfFive(a, b, c, d, e);
    NoPointMeansEnd(body);
    assert body[..|body|] == body;
    EmptyIsZero();
    var sign := if positive then '+' else '-';
    ParseSigned(sign, body, Natural(body) as real);
    assert [sign] + body == [sign, a, b, c, d, e];
  }

  /** And the fractional firmware's: a sign, three digits, the point, one digit. */
  lemma TenthsTextValue(positive: bool, a: char, b: char, c: char, d: char)
    requires IsDigit(a) && IsDigit(b) && IsDigit(c) && IsDigit(d)
    ensures var n := 1000 * (a as int - '0' as int) + 100 * (b as int - '0' as int)
                     + 10 * (c as int - '0' as int) + (d as int - '0' as int);
            Parse([if positive then '+' else '-', a, b, c, '.', d])
              == Some(if positive then n as real / 10.0 else -(n as real / 10.0))
  {
    hide Natural, Parse;
    var body := [a, b, c, '.', d];
    assert body[..3] == [a, b, c] && body[4..] == [d] && body[3] == '.';
    PointUnique(body, 3);
    NaturalOfThree(a, b, c);
    NaturalStep("", d);
    assert "" + [d] == [d];
    EmptyIsZero();
    assert TenTo(1) == 10.0;
    var sign := if positive then '+' else '-';
    ParseSigned(sign, body, Natural([a, b, c]) as real + Digit(d) as real / 10.0);
    assert [sign] + body == [sign, a, b, c, '.', d];
  }

  lemma TenfoldQuotient(a: real, b: real)
    requires b > 0.0
    ensures (10.0 * a) / (10.0 * b) == a / b
  {
    var q := a / b;
    assert q * b == a;
    assert q * (10.0 * b) == 10.0 * (q * b);
  }

  /** Fractions count by decimal places: a further zero at the end changes nothing. */
  lemma TrailingZeroIsFree(whole: string, fraction: string)
    requires AllDigits(whole) && AllDigits(fraction) && |whole| + |fraction| > 0
    ensures Unsigned(whole + "." + fraction).Some?
    ensures Unsigned(whole + "." + fraction + "0") == Unsigned(whole + "." + fraction)
  {
    hide Natural;
    var short, long := whole + "." + fraction, whole + "." + fraction + "0";
    var n := |whole|;
    assert short[n] == '.' && short[..n] == whole && short[n + 1..] == fraction;
    assert long[n] == '.' && long[..n] == whole && long[n + 1..] == fraction + ['0'];
    PointUnique(short, n);
    PointUnique(long, n);
    NaturalStep(fraction, '0');
    TenfoldQuotient(Natural(fraction) as real, TenTo(|fraction|));
  }

  predicate Signed(raw: string) {
    |raw| > 0 && (raw[0] == '+' || raw[0] == '-')
  }

  /** The same digits under the other sign. */
  function FlipSign(raw: string): string
    requires Signed(raw)
  {
    [if raw[0] == '+' then '-' else '+'] + raw[1..]
  }

  lemma FlipSignNegates(raw: string)
    requires Signed(raw)
    ensures Parse(FlipSign(raw)) == match Parse(raw) case None => None case Some(v) => Some(-v)
  {
    assert FlipSign(raw)[1..] == raw[1..];
    assert raw[0] != 'E' && raw[0] != 'V' && FlipSign(raw)[0] != 'E' && FlipSign(raw)[0] != 'V';
    assert "EEEEEE"[0] == 'E' && "VVVVVV"[0] == 'V';
  }

  // ---------------------------------------------------------------- printing

  function DigitChar(d: nat): (c: char)
    requires d < 10
    ensures IsDigit(c) && Digit(c) == d
  {
    ('0' as int + d) as char
  }

  /** Decimal digits of n, zero padded to the given width. */
  function Padded(n: nat, width: nat): (s: string)
    ensures |s| == width && AllDigits(s)
    ensures '.' !in s
  {
    if width == 0 then "" else Padded(n / 10, width - 1) + [DigitChar(n % 10)]
  }

  function IntTenTo(n: nat): nat {
    if n == 0 then 1 else 10 * IntTenTo(n - 1)
  }

  lemma {:induction false} PaddedReadsBack(n: nat, width: nat)
    requires n < IntTenTo(width)
    ensures Natural(Padded(n, width)) == n
  {
    if width > 0 {
      PaddedReadsBack(n / 10, width - 1);
      var s := Padded(n, width);
      assert s[..|s| - 1] == Padded(n / 10, width - 1);
    }
  }

  lemma {:induction false} NoPointMeansEnd(s: string)
    requires '.' !in s
    ensures PointAt(s) == |s|
  {
  }

  lemma {:induction false} PointUnique(s: string, k: nat)
    requires k < |s| && s[k] == '.' && '.' !in s[..k]
    ensures PointAt(s) == k
  {
  }

  lemma UnsignedInteger(n: nat)
    requires n < 100000
    ensures Unsigned(Padded(n, 5)) == Some(n as real)
  {
    var s := Padded(n, 5);
    assert IntTenTo(5) == 100000 by {
      assert IntTenTo(1) == 10 && IntTenTo(2) == 100 && IntTenTo(3) == 1000 && IntTenTo(4) == 10000;
    }
    PaddedReadsBack(n, 5);
    NoPointMeansEnd(s);
    assert s[..|s|] == s;
    assert Natural("") == 0;
  }

  function SignChar(value: real): char {
    if value >= 0.0 then '+' else '-'
  }

  /** Python's int(): truncation toward zero, as a magnitude. */
  function Truncated(value: real): nat {
    Abs(value).Floor
  }

  /** Sign and five digits, truncated toward zero and clamped to 99999. */
  function FormatInteger(value: real): string {
    [SignChar(value)] + Padded(if Truncated(value) < 99999 then Truncated(value) else 99999, 5)
  }

  predicate IsInteger(value: real) {
    value == value.Floor as real
  }

  lemma ParseSigned(sign: char, body: string, v: real)
    requires sign == '+' || sign == '-'
    requires Unsigned(body) == Some(v)
    ensures Parse([sign] + body) == Some(if sign == '+' then v else -v)
  {
    var raw := [sign] + body;
    assert raw[1..] == body;
    assert "EEEEEE"[0] == 'E' && "VVVVVV"[0] == 'V';
  }

  /** The emitted text reads back as the emitted value exactly on integers up to 99999. */
  lemma FormatIntegerReadsBackIff(value: real)
    ensures Parse(FormatInteger(value)).Some?
    ensures Parse(FormatInteger(value)) == Some(value) <==> IsInteger(value) && Abs(value) <= 99999.0
  {
    var n := if Truncated(value) < 99999 then Truncated(value) else 99999;
    UnsignedInteger(n);
    ParseSigned(SignChar(value), Padded(n, 5), n as real);
    if value < 0.0 && IsInteger(value) {
      assert (-value).Floor == -(value.Floor) by {
        assert -value == (-(value.Floor)) as real;
      }
    }
  }

  /** What the emitted text always reads as: the value cut off toward zero, at most 99999. */
  lemma FormatIntegerReads(value: real) returns (n: nat)
    ensures |FormatInteger(value)| == 6 && FormatInteger(value)[0] == (if value >= 0.0 then '+' else '-')
    ensures Parse(FormatInteger(value)) == Some(if value >= 0.0 then n as real else -(n as real))
    ensures n <= 99999 && n as real <= Abs(value)
    ensures Abs(value) < 99999.0 ==> Abs(value) < n as real + 1.0
    ensures Abs(value) >= 99999.0 ==> n == 99999
  {
    n := if Truncated(value) < 99999 then Truncated(value) else 99999;
    UnsignedInteger(n);
    ParseSigned(SignChar(value), Padded(n, 5), n as real);
  }

  // ---------------------------------------------------------------- one-decimal format

  /** round(x, 1) in tenths: nearest, ties to the even tenth. */
  function RoundTenths(magnitude: real): nat
    requires magnitude >= 0.0
  {
    var below := (magnitude * 10.0).Floor;
    var excess := magnitude * 10.0 - below as real;
    if excess < 0.5 || (excess == 0.5 && below % 2 == 0) then below else below + 1
  }

  /** One decimal below 1000, five integer digits (clamped) from there on. */
  function FormatTenths(value: real): string {
    var tenths := RoundTenths(Abs(value));
    if tenths < 10000 then
      [SignChar(value)] + Padded(tenths / 10, 3) + "." + Padded(tenths % 10, 1)
    else
      [SignChar(value)] + Padded(if tenths / 10 < 99999 then tenths / 10 else 99999, 5)
  }

  /** What the printed text stands for, as a signed value. */
  function PrintedValue(value: real): real {
    var tenths := RoundTenths(Abs(value));
    var magnitude :=
      if tenths < 10000 then tenths as real / 10.0
      else if tenths / 10 < 99999 then (tenths / 10) as real
      else 99999.0;
    if value >= 0.0 then magnitude else -magnitude
  }

  lemma TenthsUnsigned(tenths: nat)
    requires tenths < 10000
    ensures Unsigned(Padded(tenths / 10, 3) + "." + Padded(tenths % 10, 1)) == Some(tenths as real / 10.0)
  {
    var whole, fraction := Padded(tenths / 10, 3), Padded(tenths % 10, 1);
    var s := whole + "." + fraction;
    assert IntTenTo(1) == 10 && IntTenTo(2) == 100 && IntTenTo(3) == 1000;
    PaddedReadsBack(tenths / 10, 3);
    PaddedReadsBack(tenths % 10, 1);
    var at := PointAt(s);
    assert at == 3 by {
      assert s[3] == '.' && s[..3] == whole;
      PointUnique(s, 3);
    }
    assert s[..3] == whole && s[4..] == fraction;
    assert TenTo(1) == 10.0;
    assert tenths == 10 * (tenths / 10) + tenths % 10;
  }

  lemma PrintedValueClose(value: real)
    ensures Abs(value) < 999.95 ==> Abs(PrintedValue(value) - value) <= 0.05
    ensures 999.95 <= Abs(value) < 99999.0 ==> Abs(PrintedValue(value) - value) < 1.0
    ensures Abs(value) >= 99999.0 ==> Abs(PrintedValue(value)) == 99999.0
    ensures PrintedValue(value) * value >= 0.0
  {
  }

  /**
    A filtered value is always printed in six characters that parse; below the switch to the
    integer form the reading is within half a tenth, from there to the clamp within one gram.
  */
  lemma FormatTenthsReadsBack(value: real)
    ensures |FormatTenths(value)| == 6 && FormatTenths(value)[0] == (if value >= 0.0 then '+' else '-')
    ensures Parse(FormatTenths(value)) == Some(PrintedValue(value))
    ensures Abs(value) < 999.95 ==> Abs(PrintedValue(value) - value) <= 0.05
    ensures 999.95 <= Abs(value) < 99999.0 ==> Abs(PrintedValue(value) - value) < 1.0
    ensures Abs(value) >= 99999.0 ==> Abs(PrintedValue(value)) == 99999.0
    ensures PrintedValue(value) * value >= 0.0
  {
    hide Parse, FormatTenths, PrintedValue, RoundTenths;
    PrintedValueClose(value);
    if RoundTenths(Abs(value)) < 10000 {
      SmallReadsBack(value);
    } else {
      LargeReadsBack(value);
    }
  }

  lemma SmallReadsBack(value: real)
    requires RoundTenths(Abs(value)) < 10000
    ensures |FormatTenths(value)| == 6 && FormatTenths(value)[0] == (if value >= 0.0 then '+' else '-')
    ensures Parse(FormatTenths(value)) == Some(PrintedValue(value))
  {
    hide Parse, Unsigned, RoundTenths, Abs;
    var tenths := RoundTenths(Abs(value));
    var whole, fraction := Padded(tenths / 10, 3), Padded(tenths % 10, 1);
    var body := whole + "." + fraction;
    TenthsUnsigned(tenths);
    ParseSigned(SignChar(value), body, tenths as real / 10.0);
    var text := [SignChar(value)] + whole + "." + fraction;
    assert text == [SignChar(value)] + body;
    assert FormatTenths(value) == text;
  }

  lemma LargeReadsBack(value: real)
    requires RoundTenths(Abs(value)) >= 10000
    ensures |FormatTenths(value)| == 6 && FormatTenths(value)[0] == (if value >= 0.0 then '+' else '-')
    ensures Parse(FormatTenths(value)) == Some(PrintedValue(value))
  {
    hide Parse, Unsigned, RoundTenths, Abs;
    var tenths := RoundTenths(Abs(value));
    var n := if tenths / 10 < 99999 then tenths / 10 else 99999;
    UnsignedInteger(n);
    ParseSigned(SignChar(value), Padded(n, 5), n as real);
    assert FormatTenths(value) == [SignChar(value)] + Padded(n, 5);
  }
}
