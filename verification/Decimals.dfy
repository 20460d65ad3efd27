/** Decimal digit strings, powers of ten and the rationals they denote. */
module Decimals {
  import opened Sequences
  import opened Common

  predicate IsDigit(c: char) {
    '0' <= c <= '9'
  }

  predicate Digits(s: string) {
    forall i :: 0 <= i < |s| ==> IsDigit(s[i])
  }

  function DigitValue(c: char): nat
    requires IsDigit(c)
  {
    c as int - '0' as int
  }

  function Pow10(n: nat): (r: nat)
    ensures r >= 1
  {
    if n == 0 then 1 else 10 * Pow10(n - 1)
  }

  /** The number a digit string spells. */
  function Val(s: string): nat
    requires Digits(s)
  {
    if s == [] then 0 else 10 * Val(s[..|s| - 1]) + DigitValue(s[|s| - 1])
  }

  function Zeros(n: nat): (r: string)
    ensures |r| == n && Digits(r) && forall i :: 0 <= i < n ==> r[i] == '0'
  {
    seq(n, i => '0')
  }

  lemma {:induction false} PowSum(a: nat, b: nat)
    ensures Pow10(a + b) == Pow10(a) * Pow10(b)
  {
    if a > 0 {
      PowSum(a - 1, b);
      assert Pow10(a + b) == 10 * (Pow10(a - 1) * Pow10(b));
      assert 10 * (Pow10(a - 1) * Pow10(b)) == (10 * Pow10(a - 1)) * Pow10(b);
    }
  }

  lemma {:induction false} ValConcat(a: string, b: string)
    requires Digits(a) && Digits(b)
    ensures Digits(a + b) && Val(a + b) == Val(a) * Pow10(|b|) + Val(b)
  {
    if b == [] {
      assert a + b == a;
    } else {
      var front, last := b[..|b| - 1], b[|b| - 1];
      ValConcat(a, front);
      LastOfConcat(a, b);
      assert Val(a + b) == 10 * Val(a + front) + DigitValue(last);
      TenTimes(Val(a), Pow10(|front|), Val(front));
    }
  }

  lemma TenTimes(x: int, p: int, y: int)
    ensures 10 * (x * p + y) == x * (10 * p) + 10 * y
  {
    assert 10 * (x * p) == x * (10 * p);
  }

  lemma {:induction false} ValZeros(n: nat)
    ensures Val(Zeros(n)) == 0
  {
    if n > 0 {
      ValZeros(n - 1);
      assert Zeros(n)[..n - 1] == Zeros(n - 1);
    }
  }

  // ---------- Trimming ----------

  function TrimLeft(s: string): (r: string)
    ensures r == [] || r[0] != '0'
    ensures |r| <= |s| && (Digits(s) ==> Digits(r))
  {
    if s != [] && s[0] == '0' then TrimLeft(s[1..]) else s
  }

  lemma {:induction false} TrimLeftShape(s: string)
    ensures s == Zeros(|s| - |TrimLeft(s)|) + TrimLeft(s)
  {
    if s != [] && s[0] == '0' {
      TrimLeftShape(s[1..]);
      var r := TrimLeft(s[1..]);
      OneMoreZero(|s[1..]| - |r|, r);
      assert s == ['0'] + s[1..];
    }
  }

  lemma OneMoreZero(n: nat, r: string)
    ensures ['0'] + (Zeros(n) + r) == Zeros(n + 1) + r
  {
  }

  function TrimRight(s: string): (r: string)
    ensures r == [] || r[|r| - 1] != '0'
    ensures |r| <= |s| && (Digits(s) ==> Digits(r))
    ensures s != [] && s[0] != '0' ==> r != [] && r[0] == s[0]
  {
    if s != [] && s[|s| - 1] == '0' then TrimRight(s[..|s| - 1]) else s
  }

  lemma {:induction false} TrimRightShape(s: string)
    ensures s == TrimRight(s) + Zeros(|s| - |TrimRight(s)|)
  {
    if s != [] && s[|s| - 1] == '0' {
      var front := s[..|s| - 1];
      TrimRightShape(front);
      var r := TrimRight(front);
      OneMoreZeroAfter(|front| - |r|, r);
      assert s == front + ['0'];
    }
  }

  lemma OneMoreZeroAfter(n: nat, r: string)
    ensures (r + Zeros(n)) + ['0'] == r + Zeros(n + 1)
  {
  }

  lemma ValPadLeft(n: nat, s: string)
    requires Digits(s)
    ensures Digits(Zeros(n) + s) && Val(Zeros(n) + s) == Val(s)
  {
    ValConcat(Zeros(n), s);
    ValZeros(n);
  }

  lemma ValPadRight(s: string, n: nat)
    requires Digits(s)
    ensures Digits(s + Zeros(n)) && Val(s + Zeros(n)) == Val(s) * Pow10(n)
  {
    ValConcat(s, Zeros(n));
    ValZeros(n);
  }

  /** A string without leading zero spells a positive number. */
  lemma {:induction false} ValPositive(s: string)
    requires Digits(s) && s != [] && s[0] != '0'
    ensures Val(s) >= 1
  {
    if |s| > 1 { ValPositive(s[..|s| - 1]); } else { assert s[..0] == []; }
  }

  /** Digit strings without leading zeros are determined by their numbers. */
  lemma {:induction false} ValInjective(a: string, b: string)
    requires Digits(a) && Digits(b) && Val(a) == Val(b)
    requires (a == [] || a[0] != '0') && (b == [] || b[0] != '0')
    ensures a == b
  {
    if a == [] {
      if b != [] { ValPositive(b); }
    } else if b == [] {
      ValPositive(a);
    } else {
      var a', b' := a[..|a| - 1], b[..|b| - 1];
      SameDigits(Val(a'), DigitValue(a[|a| - 1]), Val(b'), DigitValue(b[|b| - 1]));
      ValInjective(a', b');
      assert a == a' + [a[|a| - 1]] && b == b' + [b[|b| - 1]];
    }
  }

  lemma SameDigits(x: nat, d: nat, y: nat, e: nat)
    requires d < 10 && e < 10 && 10 * x + d == 10 * y + e
    ensures x == y && d == e
  {
  }

  // ---------- Integers as text ----------

  function DigitChar(n: nat): char
    requires n < 10
  {
    '0' + n as char
  }

  function Natural(n: nat): (r: string)
    ensures r != [] && Digits(r) && Val(r) == n
    ensures n > 0 ==> r[0] != '0'
    ensures n == 0 ==> r == "0"
  {
    if n < 10 then
      assert [DigitChar(n)][..0] == [];
      [DigitChar(n)]
    else
      var r := Natural(n / 10) + [DigitChar(n % 10)];
      assert r[..|r| - 1] == Natural(n / 10);
      r
  }

  function IntegerText(n: int): string {
    if n < 0 then "-" + Natural(-n) else Natural(n)
  }

  /** A decimal integer with an optional sign. */
  function ParseInteger(s: string): Option<int> {
    var unsigned := if s != [] && (s[0] == '-' || s[0] == '+') then s[1..] else s;
    if unsigned == [] || !Digits(unsigned) then None
    else
      var n: int := Val(unsigned);
      Some(if s[0] == '-' then -n else n)
  }

  lemma ParsePlain(digits: string)
    requires Digits(digits) && digits != []
    ensures ParseInteger(digits) == Some(Val(digits))
  {
    assert IsDigit(digits[0]);
  }

  lemma ParseSigned(sign: char, digits: string)
    requires Digits(digits) && digits != [] && (sign == '-' || sign == '+')
    ensures ParseInteger([sign] + digits) == Some(if sign == '-' then -(Val(digits) as int) else Val(digits))
  {
    assert ([sign] + digits)[1..] == digits;
  }

  lemma IntegerRoundTrip(n: int)
    ensures ParseInteger(IntegerText(n)) == Some(n)
  {
    if n < 0 { ParseSigned('-', Natural(-n)); } else { ParsePlain(Natural(n)); }
  }

  // ---------- Rationals m * 10^e ----------

  datatype Rational = Rational(m: int, e: int)

  /** m * 10^e == n * 10^f, over a common exponent. */
  predicate Equal(a: Rational, b: Rational) {
    if a.e >= b.e then a.m * Pow10(a.e - b.e) == b.m else a.m == b.m * Pow10(b.e - a.e)
  }

  lemma ScaleUp(m: int, j: nat, k: nat)
    ensures m * Pow10(j + k) == (m * Pow10(j)) * Pow10(k)
  {
    PowSum(j, k);
    assert m * (Pow10(j) * Pow10(k)) == (m * Pow10(j)) * Pow10(k);
  }

  lemma ScaleInjective(a: int, b: int, k: nat)
    requires a * Pow10(k) == b * Pow10(k)
    ensures a == b
  {
    var p := Pow10(k);
    assert (a - b) * p == 0;
    if a != b { NonZeroProduct(a - b, p); }
  }

  lemma NonZeroProduct(a: int, p: int)
    requires a != 0 && p != 0
    ensures a * p != 0
  {
  }

  /** Any exponent below both may serve for the comparison. */
  lemma CommonExponent(a: Rational, b: Rational, k: int)
    requires k <= a.e && k <= b.e
    ensures Equal(a, b) <==> a.m * Pow10(a.e - k) == b.m * Pow10(b.e - k)
  {
    if a.e >= b.e {
      ScaleUp(a.m, a.e - b.e, b.e - k);
      if a.m * Pow10(a.e - k) == b.m * Pow10(b.e - k) {
        ScaleInjective(a.m * Pow10(a.e - b.e), b.m, b.e - k);
      }
    } else {
      ScaleUp(b.m, b.e - a.e, a.e - k);
      if a.m * Pow10(a.e - k) == b.m * Pow10(b.e - k) {
        ScaleInjective(a.m, b.m * Pow10(b.e - a.e), a.e - k);
      }
    }
  }

  lemma EqualTransitive(a: Rational, b: Rational, c: Rational)
    requires Equal(a, b) && Equal(b, c)
    ensures Equal(a, c)
  {
    var k := if a.e <= b.e && a.e <= c.e then a.e else if b.e <= c.e then b.e else c.e;
    CommonExponent(a, b, k);
    CommonExponent(b, c, k);
    CommonExponent(a, c, k);
  }

  lemma EqualSymmetric(a: Rational, b: Rational)
    requires Equal(a, b)
    ensures Equal(b, a)
  {
    var k := if a.e <= b.e then a.e else b.e;
    CommonExponent(a, b, k);
    CommonExponent(b, a, k);
  }
}
