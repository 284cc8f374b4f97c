/**
 * Java's 32-bit `int` as the server handler uses it: arithmetic that wraps
 * around modulo 2^32, `Integer.parseInt` on decimal text, and `%d`
 * formatting (EcoVoyage/src/Ecovoyage.java:49-80).
 */
module JavaInt {

  const Modulus: int := 0x1_0000_0000
  const MinInt: int := -0x8000_0000
  const MaxInt: int := 0x7FFF_FFFF

  predicate InRange(x: int)
  {
    MinInt <= x <= MaxInt
  }

  /** The two's-complement value an `int` keeps of an exact result. */
  function Wrap(x: int): (r: int)
    ensures InRange(r)
    ensures InRange(x) ==> r == x
  {
    (x - MinInt) % Modulus + MinInt
  }

  /** The wrapped value differs from the exact one by a multiple of 2^32. */
  lemma WrapDifference(x: int)
    ensures (x - Wrap(x)) % Modulus == 0
  {
  }

  /** Results that differ by a multiple of 2^32 wrap to the same `int`. */
  lemma WrapCongruent(x: int, y: int, k: int)
    requires x == y + k * Modulus
    ensures Wrap(x) == Wrap(y)
  {
    var a, b := x - MinInt, y - MinInt;
    assert a == b + k * Modulus;
    var qa, qb := a / Modulus, b / Modulus;
    assert a == qa * Modulus + a % Modulus;
    assert b == qb * Modulus + b % Modulus;
    assert (qa - qb - k) * Modulus == b % Modulus - a % Modulus;
  }

  /** Wrapping an intermediate sum changes nothing about the wrapped total. */
  lemma WrapAdd(a: int, b: int)
    ensures Wrap(Wrap(a) + b) == Wrap(a + b)
  {
    WrapDifference(a);
    var k := (a - Wrap(a)) / Modulus;
    assert a - Wrap(a) == k * Modulus;
    WrapCongruent(a + b, Wrap(a) + b, k);
  }

  /** Wrapping an intermediate product changes nothing about the wrapped product. */
  lemma WrapMul(a: int, b: int)
    ensures Wrap(Wrap(a) * b) == Wrap(a * b)
  {
    WrapDifference(a);
    var k := (a - Wrap(a)) / Modulus;
    assert a == Wrap(a) + k * Modulus;
    assert a * b == Wrap(a) * b + (k * b) * Modulus;
    WrapCongruent(a * b, Wrap(a) * b, k * b);
  }

  // ----- `Integer.parseInt` and `%d` -----

  predicate IsDigit(c: char)
  {
    '0' <= c <= '9'
  }

  predicate AllDigits(s: string)
  {
    forall k :: 0 <= k < |s| ==> IsDigit(s[k])
  }

  /** The value of a run of decimal digits, most significant first. */
  function DigitsValue(s: string): nat
    requires AllDigits(s)
  {
    if s == [] then 0 else 10 * DigitsValue(s[..|s| - 1]) + (s[|s| - 1] as int - '0' as int)
  }

  /** The text `Integer.parseInt` reads without throwing: an optional sign, then at least one digit, within `int` range. */
  predicate IsJavaInt(s: string)
  {
    && |s| >= 1
    && (if s[0] == '-' || s[0] == '+' then |s| >= 2 && AllDigits(s[1..]) else AllDigits(s))
    && InRange(SignedValue(s))
  }

  /** The exact value of an optionally signed run of digits. */
  function SignedValue(s: string): int
    requires |s| >= 1
    requires if s[0] == '-' || s[0] == '+' then AllDigits(s[1..]) else AllDigits(s)
  {
    if s[0] == '-' then -(DigitsValue(s[1..]) as int)
    else if s[0] == '+' then DigitsValue(s[1..])
    else DigitsValue(s)
  }

  /** `Integer.parseInt(s)` for text it accepts. */
  function ParseInt(s: string): (n: int)
    requires IsJavaInt(s)
    ensures InRange(n)
  {
    SignedValue(s)
  }

  /** The digits of a non-negative number, most significant first, without leading zeros. */
  function Digits(n: nat): (s: string)
    ensures |s| >= 1 && AllDigits(s)
    ensures DigitsValue(s) == n
    ensures |s| > 1 ==> s[0] != '0'
  {
    if n < 10 then [('0' as int + n) as char]
    else
      var init := Digits(n / 10);
      var s := init + [('0' as int + n % 10) as char];
      assert s[..|s| - 1] == init;
      s
  }

  /** `%d`: an optional minus sign and the digits of the magnitude. */
  function Decimal(n: int): string
  {
    if n < 0 then "-" + Digits(-n) else Digits(n)
  }

  /** `Integer.parseInt` reads back every `int` that `%d` writes. */
  lemma ParseDecimal(n: int)
    requires InRange(n)
    ensures IsJavaInt(Decimal(n)) && ParseInt(Decimal(n)) == n
  {
    if n < 0 {
      var s := Decimal(n);
      assert s[1..] == Digits(-n);
    }
  }
}
