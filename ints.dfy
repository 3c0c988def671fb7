/**
 * The primitive integer behaviour the interpreter relies on: the 32-bit signed
 * integer type, Rust's truncating `/` and `%`, and the conversions between an
 * integer and its decimal text (`str::parse` on a digit run, `to_string`).
 */
module Ints {

  const MIN: int := -0x8000_0000
  const MAX: int := 0x7fff_ffff

  /** Rust's `i32`. */
  newtype Int32 = x: int | MIN <= x <= MAX

  predicate InRange(x: int) {
    MIN <= x <= MAX
  }

  function Abs(x: int): nat {
    if x < 0 then -x else x
  }

  /** Rust's `/` on integers: the quotient rounded toward zero. */
  function TruncDiv(a: int, b: int): int
    requires b != 0
  {
    var q := Abs(a) / Abs(b);
    if (a < 0) == (b < 0) then q else -q
  }

  /** Rust's `%` on integers: the remainder takes the sign of the dividend. */
  function TruncRem(a: int, b: int): int
    requires b != 0
  {
    var m := Abs(a) % Abs(b);
    if a < 0 then -m else m
  }

  /**
   * Truncating division and remainder satisfy Rust's defining equations:
   * `a == b * (a / b) + a % b`, the remainder is smaller than the divisor in
   * magnitude and is zero or has the sign of the dividend, and the quotient is
   * never further from zero than the exact one.
   */
  lemma TruncDivRem(a: int, b: int)
    requires b != 0
    ensures a == b * TruncDiv(a, b) + TruncRem(a, b)
    ensures Abs(TruncRem(a, b)) < Abs(b)
    ensures TruncRem(a, b) == 0 || (TruncRem(a, b) < 0 <==> a < 0)
    ensures Abs(TruncDiv(a, b)) * Abs(b) <= Abs(a)
  {
    var x, y := Abs(a), Abs(b);
    UnsignedDivision(x, y);
    SignedDivision(a, b, x, y, x / y, x % y);
  }

  /** Euclidean division of naturals, with the quotient bounded by the dividend. */
  lemma UnsignedDivision(x: nat, y: nat)
    requires y > 0
    ensures x == y * (x / y) + x % y && 0 <= x % y < y && x / y >= 0
  {
  }

  /** `(-y) * q` and `y * (-q)` are both `-(y * q)`. */
  lemma NegatedProduct(y: int, q: int)
    ensures (-y) * q == -(y * q) && y * (-q) == -(y * q)
  {
  }

  /** The unsigned division identity of the magnitudes, carried over to the signed operands. */
  lemma SignedDivision(a: int, b: int, x: int, y: int, q: int, m: int)
    requires b != 0 && x == Abs(a) && y == Abs(b)
    requires x == y * q + m && 0 <= m < y && q >= 0
    ensures a == b * (if (a < 0) == (b < 0) then q else -q) + (if a < 0 then -m else m)
    ensures q * y <= x
  {
    assert q * y == y * q;
    NegatedProduct(y, q);
    if a < 0 && b < 0 {
      assert b * q == -(y * q);
    } else if a < 0 {
      assert b * (-q) == -(y * q);
    } else if b < 0 {
      assert b * (-q) == y * q;
    } else {
      assert b * q == y * q;
    }
  }

  /** Rust's `/` and `%` of a multiple of `b` by `b`: the other factor, with nothing left over. */
  lemma TruncDivProduct(a: int, b: int)
    requires b != 0
    ensures TruncDiv(a * b, b) == a && TruncRem(a * b, b) == 0
  {
    AbsProduct(a, b);
    ExactDivision(Abs(a), Abs(b));
  }

  lemma AbsProduct(a: int, b: int)
    ensures Abs(a * b) == Abs(a) * Abs(b)
    ensures a * b < 0 <==> (a < 0 && b > 0) || (a > 0 && b < 0)
  {
  }

  /** Dividing a multiple of `y` by `y` is exact. */
  lemma ExactDivision(x: nat, y: nat)
    requires y > 0
    ensures (x * y) / y == x && (x * y) % y == 0
  {
    UnsignedDivision(x * y, y);
    QuotientUnique(x, y, (x * y) / y, (x * y) % y);
  }

  /** `x * y == y * q + m` with `0 <= m < y` forces `q == x` and `m == 0`. */
  lemma QuotientUnique(x: int, y: int, q: int, m: int)
    requires y > 0 && 0 <= m < y && x * y == y * q + m
    ensures q == x && m == 0
  {
    var d := x - q;
    assert y * d == m by { Distribute(y, x, q); }
    if d >= 1 {
      MulMonotone(y, d);
    }
    if d <= -1 {
      MulMonotone(y, -d);
      NegatedProduct(y, d);
    }
  }

  lemma Distribute(y: int, x: int, q: int)
    ensures y * (x - q) == x * y - y * q
  {
  }

  lemma MulMonotone(y: int, d: int)
    requires y > 0 && d >= 1
    ensures y * d >= y
  {
  }

  // Decimal text

  predicate IsDigit(c: char) {
    '0' <= c <= '9'
  }

  predicate AllDigits(s: string) {
    forall i | 0 <= i < |s| :: IsDigit(s[i])
  }

  function DigitValue(c: char): (d: nat)
    requires IsDigit(c)
    ensures d < 10
  {
    (c as int) - ('0' as int)
  }

  function DigitChar(d: nat): (c: char)
    requires d < 10
    ensures IsDigit(c) && DigitValue(c) == d
  {
    ('0' as int + d) as char
  }

  /** The value of a run of decimal digits, read most significant digit first. */
  function DecimalValue(ds: string): nat
    requires AllDigits(ds)
  {
    if ds == [] then 0 else DecimalValue(ds[..|ds| - 1]) * 10 + DigitValue(ds[|ds| - 1])
  }

  /** `to_string` of a non-negative integer: its digits, most significant first. */
  function NatToDecimal(n: nat): (s: string)
    ensures |s| > 0 && AllDigits(s)
    ensures s[0] == '0' <==> n == 0
  {
    if n < 10 then [DigitChar(n)] else NatToDecimal(n / 10) + [DigitChar(n % 10)]
  }

  /** `to_string` of an integer: a minus sign before the digits of a negative one. */
  function IntToDecimal(n: int): (s: string)
    ensures |s| > 0
    ensures n < 0 <==> s[0] == '-'
    ensures n >= 0 ==> AllDigits(s)
  {
    if n < 0 then "-" + NatToDecimal(-n) else NatToDecimal(n)
  }

  /** Reading back the decimal rendering of a number gives the number. */
  lemma {:induction false} DecimalRoundTrip(n: nat)
    ensures DecimalValue(NatToDecimal(n)) == n
  {
    var s := NatToDecimal(n);
    if n >= 10 {
      DecimalRoundTrip(n / 10);
      assert s[..|s| - 1] == NatToDecimal(n / 10);
    }
  }

  /**
   * Rendering the value of a digit run without leading zeros gives back the
   * digit run: together with DecimalRoundTrip, decimal text without leading
   * zeros and non-negative integers are in one-to-one correspondence.
   */
  lemma {:induction false} DecimalCanonical(ds: string)
    requires |ds| > 0 && AllDigits(ds)
    requires ds[0] == '0' ==> |ds| == 1
    ensures NatToDecimal(DecimalValue(ds)) == ds
  {
    var init, last := ds[..|ds| - 1], ds[|ds| - 1];
    if |ds| == 1 {
      assert DecimalValue(ds) == DigitValue(last);
    } else {
      DecimalCanonical(init);
      assert init[0] != '0';
      var v := DecimalValue(ds);
      assert v / 10 == DecimalValue(init) && v % 10 == DigitValue(last);
    }
  }
}
