/** Canonicalization of JSON number tokens (section 6 of RFC 8259). */
module Numbers {
  import opened Common
  import opened Decimals

  const MAX_BYTES := 4096
  const MAX_INT64: int := 0x7FFF_FFFF_FFFF_FFFF

  // ---------- Tokens ----------

  datatype Sign = NoSign | Plus | Minus

  datatype Exponent = Exponent(marker: char, sign: Sign, digits: string)

  function ExponentSign(s: Sign): string {
    match s
    case NoSign => ""
    case Plus => "+"
    case Minus => "-"
  }

  /** The exponent after its marker. */
  function SignedDigits(x: Exponent): string {
    ExponentSign(x.sign) + x.digits
  }

  datatype Parts = Parts(negative: bool, whole: string, fraction: Option<string>, exponent: Option<Exponent>)

  /** The JSON number grammar. */
  predicate WellFormed(p: Parts) {
    && p.whole != [] && Digits(p.whole) && (p.whole == "0" || p.whole[0] != '0')
    && (p.fraction.Some? ==> p.fraction.value != [] && Digits(p.fraction.value))
    && (p.exponent.Some? ==>
          && (p.exponent.value.marker == 'e' || p.exponent.value.marker == 'E')
          && p.exponent.value.digits != [] && Digits(p.exponent.value.digits))
  }

  function FractionText(p: Parts): string {
    if p.fraction.Some? then "." + p.fraction.value else ""
  }

  function ExponentText(p: Parts): string {
    if p.exponent.Some? then [p.exponent.value.marker] + SignedDigits(p.exponent.value) else ""
  }

  function MantissaText(p: Parts): string {
    p.whole + FractionText(p)
  }

  /** The token without its sign. */
  function BodyText(p: Parts): string {
    MantissaText(p) + ExponentText(p)
  }

  function Print(p: Parts): string {
    SignText(p.negative) + BodyText(p)
  }

  ghost predicate IsNumber(s: string) {
    exists p :: WellFormed(p) && s == Print(p)
  }

  function FractionDigits(p: Parts): string {
    if p.fraction.Some? then p.fraction.value else ""
  }

  function Signed(negative: bool, n: nat): int {
    if negative then -(n as int) else n
  }

  function ExponentValue(p: Parts): int
    requires WellFormed(p)
  {
    if p.exponent.None? then 0
    else Signed(p.exponent.value.sign == Minus, Val(p.exponent.value.digits))
  }

  /** The rational that a token spells. */
  function Denotes(p: Parts): Rational
    requires WellFormed(p)
  {
    Rational(Signed(p.negative, Val(p.whole + FractionDigits(p))), ExponentValue(p) - |FractionDigits(p)|)
  }

  // ---------- The program ----------

  datatype Outcome = Ok(text: string) | TooLong | BadExponent | Crash

  /** The first index of 'e' or 'E', or the length. */
  function FirstExponent(s: string): (i: nat)
    ensures i <= |s|
  {
    if s == [] || s[0] == 'e' || s[0] == 'E' then 0 else 1 + FirstExponent(s[1..])
  }

  function FirstDot(s: string): (i: nat)
    ensures i <= |s|
  {
    if s == [] || s[0] == '.' then 0 else 1 + FirstDot(s[1..])
  }

  function SignText(negative: bool): string {
    if negative then "-" else ""
  }

  /** 64-bit addition of the two non-negative operands of the length test. */
  function Wrapped(n: int): int {
    if n > MAX_INT64 then n - 2 * (MAX_INT64 + 1) else n
  }

  function Scientific(negative: bool, digits: string, e: int): string {
    SignText(negative) + digits + "e" + IntegerText(e)
  }

  /** The shortest plain spelling when it fits, otherwise scientific notation.
      Repeating an enormous number of zeros panics. */
  function Render(negative: bool, digits: string, e: int): Outcome {
    var size := |SignText(negative)| + |digits|;
    var scientific := Scientific(negative, digits, e);
    if e > 0 then
      if e <= MAX_INT64 && e <= MAX_BYTES - size then Ok(SignText(negative) + digits + Zeros(e)) else Ok(scientific)
    else if e == 0 then Ok(SignText(negative) + digits)
    else
      var places := -e;
      if places > MAX_INT64 then Ok(scientific)
      else if places < |digits| then
        var point := |digits| - places;
        if size + 1 <= MAX_BYTES then Ok(SignText(negative) + digits[..point] + "." + digits[point..])
        else Ok(scientific)
      else
        var zeros := places - |digits|;
        if Wrapped(size + 2 + zeros) <= MAX_BYTES then
          if zeros > MAX_BYTES then Crash
          else Ok(SignText(negative) + "0." + Zeros(zeros) + digits)
        else Ok(scientific)
  }

  datatype Scanned = Scanned(negative: bool, digits: string, e: int)

  /** Removes the decimal point; the digits behind it lower the exponent. */
  function ScanMantissa(negative: bool, mantissa: string, exponent: int): Scanned {
    var dot := FirstDot(mantissa);
    if dot < |mantissa| then
      Scanned(negative, mantissa[..dot] + mantissa[dot + 1..], exponent - (|mantissa| - dot - 1))
    else Scanned(negative, mantissa, exponent)
  }

  function ScanUnsigned(negative: bool, value: string): Option<Scanned> {
    var at := FirstExponent(value);
    if at == |value| then Some(ScanMantissa(negative, value, 0))
    else
      match ParseInteger(value[at + 1..])
      case None => None
      case Some(exponent) => Some(ScanMantissa(negative, value[..at], exponent))
  }

  function Scan(text: string): Option<Scanned> {
    if text != [] && text[0] == '-' then ScanUnsigned(true, text[1..]) else ScanUnsigned(false, text)
  }

  function Normalize(text: string): Outcome {
    if |text| > MAX_BYTES then TooLong
    else
      match Scan(text)
      case None => BadExponent
      case Some(s) => RenderTriple(Reduce(s.negative, s.digits, s.e))
  }

  /** Reading an unsigned token step by step, reassigning its mantissa and exponent. */
  method ScanToken(negative: bool, value: string) returns (r: Option<Scanned>)
    ensures r == ScanUnsigned(negative, value)
  {
    var mantissa, exponent := value, 0;
    var index := FirstExponent(value);
    if index < |value| {
      mantissa := value[..index];
      var parsed := ParseInteger(value[index + 1..]);
      if parsed.None? { return None; }
      exponent := parsed.value;
    }
    index := FirstDot(mantissa);
    if index < |mantissa| {
      r := Some(Scanned(negative, mantissa[..index] + mantissa[index + 1..], exponent - (|mantissa| - index - 1)));
    } else {
      r := Some(Scanned(negative, mantissa, exponent));
    }
  }

  method NormalizeJSONNumber(text: string) returns (r: Outcome)
    ensures r == Normalize(text)
  {
    if |text| > MAX_BYTES { return TooLong; }
    var negative := |text| > 0 && text[0] == '-';
    var scanned := ScanToken(negative, if negative then text[1..] else text);
    if scanned.None? { return BadExponent; }
    r := RenderReduced(scanned.value.negative, scanned.value.digits, scanned.value.e);
  }

  method RenderReduced(negative: bool, digits: string, exponent: int) returns (r: Outcome)
    ensures r == RenderTriple(Reduce(negative, digits, exponent))
  {
    var coefficient := TrimLeft(digits);
    if coefficient == "" { return Ok("0"); }
    var trimmed := TrimRight(coefficient);
    r := Render(negative, trimmed, exponent + (|coefficient| - |trimmed|));
  }

  // ---------- Canonical triples ----------

  /** Zero, or a signed digit string without outer zeros and an exponent. */
  datatype Triple = Zero | Triple(negative: bool, digits: string, e: int)

  predicate Canonical(t: Triple) {
    t.Triple? ==> && t.digits != [] && Digits(t.digits)
                  && t.digits[0] != '0' && t.digits[|t.digits| - 1] != '0'
  }

  function TripleValue(t: Triple): Rational
    requires Canonical(t)
  {
    if t.Zero? then Rational(0, 0) else Rational(Signed(t.negative, Val(t.digits)), t.e)
  }

  function RenderTriple(t: Triple): Outcome {
    if t.Zero? then Ok("0") else Render(t.negative, t.digits, t.e)
  }

  /** Strips outer zeros; trailing ones move into the exponent. */
  function Reduce(negative: bool, digits: string, e: int): (t: Triple)
    ensures Digits(digits) ==> Canonical(t)
    ensures t.Triple? ==> |t.digits| <= |digits|
  {
    var coefficient := TrimLeft(digits);
    if coefficient == [] then Zero
    else
      var trimmed := TrimRight(coefficient);
      Triple(negative, trimmed, e + (|coefficient| - |trimmed|))
  }

  lemma PaddedValue(s: string, a: nat, middle: string, k: nat)
    requires Digits(middle) && Padded(s, a, middle, k)
    ensures Digits(s) && Val(s) == Val(middle) * Pow10(k)
  {
    ValPadRight(middle, k);
    ValPadLeft(a, middle + Zeros(k));
  }

  lemma TrimShape(digits: string)
    ensures var c := TrimLeft(digits);
            var t := TrimRight(c);
            Padded(digits, |digits| - |c|, t, |c| - |t|)
  {
    var c := TrimLeft(digits);
    var t := TrimRight(c);
    calc {
      digits;
      == { TrimLeftShape(digits); }
      Zeros(|digits| - |c|) + c;
      == { TrimRightShape(c); }
      Zeros(|digits| - |c|) + (t + Zeros(|c| - |t|));
    }
  }

  /** `s` is `middle` between zeros. */
  predicate Padded(s: string, a: nat, middle: string, k: nat) {
    s == Zeros(a) + (middle + Zeros(k))
  }

  lemma DigitsWithin(s: string, a: nat, middle: string, k: nat)
    requires Padded(s, a, middle, k) && Digits(s)
    ensures Digits(middle)
  {
    forall i | 0 <= i < |middle| ensures IsDigit(middle[i]) { assert s[a + i] == middle[i]; }
  }

  lemma ReduceIsExact(negative: bool, digits: string, e: int)
    requires Digits(digits)
    ensures Equal(Rational(Signed(negative, Val(digits)), e), TripleValue(Reduce(negative, digits, e)))
  {
    var c := TrimLeft(digits);
    var t := TrimRight(c);
    var a, k := |digits| - |c|, |c| - |t|;
    TrimShape(digits);
    DigitsWithin(digits, a, t, k);
    ReducedValue(negative, digits, e, c, t);
    ReducedIsExact(negative, digits, e, a, t, k, c == [], TripleValue(Reduce(negative, digits, e)));
  }

  lemma ReducedIsExact(negative: bool, s: string, e: int, a: nat, middle: string, k: nat, zero: bool, r: Rational)
    requires Padded(s, a, middle, k) && Digits(middle) && Digits(s) && (zero ==> middle == [])
    requires r == if zero then Rational(0, 0) else Rational(Signed(negative, Val(middle)), e + k)
    ensures Equal(Rational(Signed(negative, Val(s)), e), r)
  {
    PaddingIsExact(negative, s, e, a, middle, k);
    var left := Rational(Signed(negative, Val(s)), e);
    if zero {
      ZeroIsZero(left);
      EqualBy(left, Rational(0, 0), r);
    } else {
      EqualBy(left, Rational(Signed(negative, Val(middle)), e + k), r);
    }
  }

  lemma EqualBy(a: Rational, b: Rational, c: Rational)
    requires Equal(a, b) && b == c
    ensures Equal(a, c)
  {
  }

  lemma ReducedValue(negative: bool, digits: string, e: int, c: string, t: string)
    requires Digits(digits) && c == TrimLeft(digits) && t == TrimRight(c)
    ensures TripleValue(Reduce(negative, digits, e)) ==
      if c == [] then Rational(0, 0) else Rational(Signed(negative, Val(t)), e + (|c| - |t|))
  {
  }

  lemma PaddingIsExact(negative: bool, s: string, e: int, a: nat, middle: string, k: nat)
    requires Digits(middle) && Padded(s, a, middle, k)
    ensures Digits(s) && (middle == [] ==> Val(s) == 0)
    ensures Equal(Rational(Signed(negative, Val(s)), e), Rational(Signed(negative, Val(middle)), e + k))
  {
    PaddedValue(s, a, middle, k);
    SignedScales(negative, Val(middle), Pow10(k));
    ShiftedEqual(Signed(negative, Val(middle)), e, k);
  }

  lemma ShiftedEqual(m: int, e: int, k: nat)
    ensures Equal(Rational(m * Pow10(k), e), Rational(m, e + k))
  {
    if k == 0 { assert Pow10(0) == 1; }
  }

  /** The canonical triple of a token. */
  function TripleOf(p: Parts): (t: Triple)
    requires WellFormed(p)
    ensures Canonical(t)
  {
    var s := ScannedParts(p);
    Reduce(s.negative, s.digits, s.e)
  }

  lemma {:induction false} FirstExponentAt(a: string, b: string)
    requires forall i :: 0 <= i < |a| ==> a[i] != 'e' && a[i] != 'E'
    requires b == [] || b[0] == 'e' || b[0] == 'E'
    ensures FirstExponent(a + b) == |a|
  {
    if a == [] {
      assert a + b == b;
    } else {
      assert (a + b)[1..] == a[1..] + b;
      FirstExponentAt(a[1..], b);
    }
  }

  lemma {:induction false} FirstDotAt(a: string, b: string)
    requires Digits(a) && (b == [] || b[0] == '.')
    ensures FirstDot(a + b) == |a|
  {
    if a == [] {
      assert a + b == b;
    } else {
      assert (a + b)[1..] == a[1..] + b;
      FirstDotAt(a[1..], b);
    }
  }

  lemma ExponentParses(p: Parts)
    requires WellFormed(p) && p.exponent.Some?
    ensures ParseInteger(SignedDigits(p.exponent.value)) == Some(ExponentValue(p))
  {
    var x := p.exponent.value;
    SignedText(x);
    match x.sign
    case NoSign => ParsePlain(x.digits);
    case Plus => ParseSigned('+', x.digits);
    case Minus => ParseSigned('-', x.digits);
  }

  lemma SignedText(x: Exponent)
    ensures SignedDigits(x) == match x.sign case NoSign => x.digits case Plus => ['+'] + x.digits case Minus => ['-'] + x.digits
  {
    assert "" + x.digits == x.digits;
  }

  /** What scanning finds in a printed token. */
  function ScannedParts(p: Parts): Scanned
    requires WellFormed(p)
  {
    Scanned(p.negative, p.whole + FractionDigits(p), ExponentValue(p) - |FractionDigits(p)|)
  }

  lemma ScanMantissaText(p: Parts, exponent: int)
    requires WellFormed(p)
    ensures ScanMantissa(p.negative, MantissaText(p), exponent) ==
              Scanned(p.negative, p.whole + FractionDigits(p), exponent - |FractionDigits(p)|)
  {
    FirstDotAt(p.whole, FractionText(p));
    CutConcat(p.whole, FractionText(p));
    if p.fraction.Some? {
      assert FractionText(p)[1..] == p.fraction.value;
    } else {
      assert p.whole + "" == p.whole;
    }
  }

  predicate NoMarker(a: string) {
    forall i :: 0 <= i < |a| ==> a[i] != 'e' && a[i] != 'E'
  }

  lemma MantissaHasNoMarker(p: Parts)
    requires WellFormed(p)
    ensures NoMarker(MantissaText(p))
  {
    var a := MantissaText(p);
    forall i | 0 <= i < |a| ensures IsDigit(a[i]) || a[i] == '.' {
      if i < |p.whole| { assert a[i] == p.whole[i]; }
    }
  }

  lemma ExponentShape(p: Parts)
    requires WellFormed(p)
    ensures p.exponent.None? <==> ExponentText(p) == []
    ensures p.exponent.Some? ==>
      ExponentText(p)[0] == p.exponent.value.marker && ExponentText(p)[1..] == SignedDigits(p.exponent.value)
  {
  }

  lemma CutConcat(a: string, b: string)
    ensures (a + b)[..|a|] == a && (a + b)[|a|..] == b
    ensures b == [] ==> a + b == a
    ensures b != [] ==> (a + b)[|a|] == b[0] && (a + b)[|a| + 1..] == b[1..]
  {
  }

  lemma BodyStarts(p: Parts)
    requires WellFormed(p)
    ensures BodyText(p) != [] && IsDigit(BodyText(p)[0])
  {
    assert BodyText(p)[0] == p.whole[0] && IsDigit(p.whole[0]);
  }

  /** The sign is the first character exactly when there is one. */
  lemma SignedBody(negative: bool, body: string)
    requires body != [] && IsDigit(body[0])
    ensures var text := SignText(negative) + body;
            && text != [] && (negative <==> text[0] == '-') && body == (if negative then text[1..] else text)
  {
    assert "" + body == body && ("-" + body)[1..] == body;
  }

  lemma ScanConcat(negative: bool, a: string, b: string, e: int)
    requires NoMarker(a) && (b == [] ==> e == 0)
    requires b != [] ==> (b[0] == 'e' || b[0] == 'E') && ParseInteger(b[1..]) == Some(e)
    ensures ScanUnsigned(negative, a + b) == Some(ScanMantissa(negative, a, e))
  {
    FirstExponentAt(a, b);
    CutConcat(a, b);
  }

  lemma ScanUnsignedPrint(p: Parts)
    requires WellFormed(p)
    ensures ScanUnsigned(p.negative, BodyText(p)) == Some(ScanMantissa(p.negative, MantissaText(p), ExponentValue(p)))
  {
    MantissaHasNoMarker(p);
    ExponentShape(p);
    if p.exponent.Some? { ExponentParses(p); }
    ScanConcat(p.negative, MantissaText(p), ExponentText(p), ExponentValue(p));
  }

  lemma ScanSigned(negative: bool, body: string)
    requires body != [] && IsDigit(body[0])
    ensures Scan(SignText(negative) + body) == ScanUnsigned(negative, body)
  {
    SignedBody(negative, body);
  }

  lemma ScanOfPrint(p: Parts)
    requires WellFormed(p)
    ensures Scan(Print(p)) == Some(ScannedParts(p))
  {
    calc {
      Scan(Print(p));
      == { BodyStarts(p); ScanSigned(p.negative, BodyText(p)); }
      ScanUnsigned(p.negative, BodyText(p));
      == { ScanUnsignedPrint(p); }
      Some(ScanMantissa(p.negative, MantissaText(p), ExponentValue(p)));
      == { ScanMantissaText(p, ExponentValue(p)); }
      Some(ScannedParts(p));
    }
  }

  /** On tokens within the byte limit the program renders the canonical triple. */
  lemma NormalizeRendersTriple(p: Parts)
    requires WellFormed(p) && |Print(p)| <= MAX_BYTES
    ensures Normalize(Print(p)) == RenderTriple(TripleOf(p))
  {
    ScanOfPrint(p);
    NormalizeScanned(Print(p), ScannedParts(p));
  }

  lemma NormalizeScanned(text: string, s: Scanned)
    requires |text| <= MAX_BYTES && Scan(text) == Some(s)
    ensures Normalize(text) == RenderTriple(Reduce(s.negative, s.digits, s.e))
  {
  }

  /** The triple denotes what the token denotes. */
  lemma TripleIsExact(p: Parts)
    requires WellFormed(p)
    ensures Equal(Denotes(p), TripleValue(TripleOf(p)))
  {
    ReduceIsExact(p.negative, p.whole + FractionDigits(p), ExponentValue(p) - |FractionDigits(p)|);
  }

  lemma SignedScales(negative: bool, n: nat, p: nat)
    ensures Signed(negative, n * p) == Signed(negative, n) * p
  {
  }

  lemma ZeroIsZero(a: Rational)
    requires a.m == 0
    ensures Equal(a, Rational(0, 0))
  {
  }

  /** Equal values have equal triples. */
  lemma TripleUnique(s: Triple, t: Triple)
    requires Canonical(s) && Canonical(t) && Equal(TripleValue(s), TripleValue(t))
    ensures s == t
  {
    if s.Triple? { ValPositive(s.digits); }
    if t.Triple? { ValPositive(t.digits); }
    if s.Zero? || t.Zero? {
      NonzeroTriple(s, t);
    } else if s.e >= t.e {
      TripleUniqueOrdered(s, t);
    } else {
      EqualSymmetric(TripleValue(s), TripleValue(t));
      TripleUniqueOrdered(t, s);
    }
  }

  lemma NonzeroTriple(s: Triple, t: Triple)
    requires Canonical(s) && Canonical(t) && Equal(TripleValue(s), TripleValue(t)) && (s.Zero? || t.Zero?)
    ensures s == t
  {
    var a, b := TripleValue(s), TripleValue(t);
    var k := if a.e <= b.e then a.e else b.e;
    CommonExponent(a, b, k);
    if s.Triple? { ValPositive(s.digits); NonZeroProduct(a.m, Pow10(a.e - k)); }
    if t.Triple? { ValPositive(t.digits); NonZeroProduct(b.m, Pow10(b.e - k)); }
  }

  /** Signed products of positive numbers determine sign and size. */
  lemma SignedProduct(m: bool, a: nat, p: nat, n: bool, b: nat)
    requires a >= 1 && p >= 1 && b >= 1 && Signed(m, a) * p == Signed(n, b)
    ensures a * p == b && m == n
  {
    SignedScales(m, a, p);
    PositiveProduct(a, p);
  }

  lemma TripleUniqueOrdered(s: Triple, t: Triple)
    requires Canonical(s) && Canonical(t) && s.Triple? && t.Triple? && s.e >= t.e
    requires Equal(TripleValue(s), TripleValue(t))
    ensures s == t
  {
    ValPositive(s.digits);
    ValPositive(t.digits);
    SignedProduct(s.negative, Val(s.digits), Pow10(s.e - t.e), t.negative, Val(t.digits));
    if s.e > t.e {
      LastDigitZero(t.digits, Val(s.digits), s.e - t.e);
    } else {
      ValInjective(s.digits, t.digits);
    }
  }

  lemma PositiveProduct(a: nat, p: nat)
    requires a >= 1 && p >= 1
    ensures a * p >= 1
  {
  }

  /** A multiple of ten ends in zero. */
  lemma LastDigitZero(s: string, n: nat, k: nat)
    requires Digits(s) && s != [] && k > 0 && Val(s) == n * Pow10(k)
    ensures s[|s| - 1] == '0'
  {
    assert n * Pow10(k) == 10 * (n * Pow10(k - 1));
    var q := n * Pow10(k - 1);
    assert DigitValue(s[|s| - 1]) == Val(s) - 10 * Val(s[..|s| - 1]);
    assert DigitValue(s[|s| - 1]) == 10 * (q - Val(s[..|s| - 1]));
  }

  // ---------- Rendering is exact ----------

  function ScientificParts(t: Triple): Parts
    requires t.Triple?
  {
    var magnitude := Natural(if t.e < 0 then -t.e else t.e);
    Parts(t.negative, t.digits, None, Some(Exponent('e', if t.e < 0 then Minus else NoSign, magnitude)))
  }

  lemma PrintWithExponent(negative: bool, whole: string, x: Exponent)
    ensures Print(Parts(negative, whole, None, Some(x))) == SignText(negative) + whole + [x.marker] + SignedDigits(x)
  {
  }

  lemma PrintWithFraction(negative: bool, whole: string, fraction: string)
    ensures Print(Parts(negative, whole, Some(fraction), None)) == SignText(negative) + whole + "." + fraction
  {
  }

  lemma PrintInteger(negative: bool, whole: string)
    ensures Print(Parts(negative, whole, None, None)) == SignText(negative) + whole
  {
  }

  lemma ScientificIsExact(t: Triple)
    requires Canonical(t) && t.Triple?
    ensures Spells(ScientificParts(t), Scientific(t.negative, t.digits, t.e), t)
  {
    var q := ScientificParts(t);
    PrintWithExponent(t.negative, t.digits, q.exponent.value);
    ExponentSpelling(t.e, q.exponent.value);
    ScientificValue(t);
    EqualReflexive(TripleValue(t));
  }

  lemma ExponentSpelling(e: int, x: Exponent)
    requires x == Exponent('e', if e < 0 then Minus else NoSign, Natural(if e < 0 then -e else e))
    ensures SignedDigits(x) == IntegerText(e)
  {
    assert "" + x.digits == x.digits;
  }

  lemma ScientificValue(t: Triple)
    requires Canonical(t) && t.Triple?
    ensures WellFormed(ScientificParts(t)) && Denotes(ScientificParts(t)) == TripleValue(t)
  {
    assert t.digits + "" == t.digits;
  }

  lemma EqualReflexive(r: Rational)
    ensures Equal(r, r)
  {
    assert Pow10(0) == 1;
  }

  lemma IntegerIsExact(t: Triple)
    requires Canonical(t) && t.Triple? && t.e >= 0
    ensures Spells(Parts(t.negative, t.digits + Zeros(t.e), None, None), SignText(t.negative) + t.digits + Zeros(t.e), t)
  {
    var whole := t.digits + Zeros(t.e);
    assert whole + "" == whole;
    ValPadRight(t.digits, t.e);
    SignedScales(t.negative, Val(t.digits), Pow10(t.e));
    ShiftedEqual(Signed(t.negative, Val(t.digits)), 0, t.e);
    PrintInteger(t.negative, whole);
    assert SignText(t.negative) + whole == SignText(t.negative) + t.digits + Zeros(t.e);
  }

  /** A token without exponent whose digits spell the value, scaled by the point. */
  lemma PointValue(negative: bool, whole: string, fraction: string, t: Triple)
    requires Canonical(t) && t.Triple? && t.negative == negative && t.e == -|fraction|
    requires WellFormed(Parts(negative, whole, Some(fraction), None)) && Val(whole + fraction) == Val(t.digits)
    ensures Equal(Denotes(Parts(negative, whole, Some(fraction), None)), TripleValue(t))
  {
  }

  lemma PointIsExact(t: Triple)
    requires Canonical(t) && t.Triple? && 0 < -t.e < |t.digits|
    ensures var point := |t.digits| + t.e;
            Spells(Parts(t.negative, t.digits[..point], Some(t.digits[point..]), None),
                   SignText(t.negative) + t.digits[..point] + "." + t.digits[point..], t)
  {
    var point := |t.digits| + t.e;
    assert t.digits[..point] + t.digits[point..] == t.digits;
    PointValue(t.negative, t.digits[..point], t.digits[point..], t);
    PrintWithFraction(t.negative, t.digits[..point], t.digits[point..]);
  }

  lemma FractionIsExact(t: Triple)
    requires Canonical(t) && t.Triple? && -t.e >= |t.digits|
    ensures var zeros := -t.e - |t.digits|;
            Spells(Parts(t.negative, "0", Some(Zeros(zeros) + t.digits), None),
                   SignText(t.negative) + "0." + Zeros(zeros) + t.digits, t)
  {
    var zeros := -t.e - |t.digits|;
    var fraction := Zeros(zeros) + t.digits;
    PaddedFraction(zeros, t.digits);
    ValPadLeft(zeros, t.digits);
    ValPadLeft(zeros + 1, t.digits);
    PointValue(t.negative, "0", fraction, t);
    PrintWithFraction(t.negative, "0", fraction);
    DottedText(SignText(t.negative), Zeros(zeros), t.digits);
  }

  lemma PaddedFraction(n: nat, digits: string)
    ensures "0" + (Zeros(n) + digits) == Zeros(n + 1) + digits
  {
  }

  lemma DottedText(sign: string, zeros: string, digits: string)
    ensures sign + "0" + "." + (zeros + digits) == sign + "0." + zeros + digits
  {
    assert "0" + "." == "0.";
  }

  /** The token `q` is spelled `text` and denotes the triple's value. */
  predicate Spells(q: Parts, text: string, t: Triple)
    requires Canonical(t)
  {
    WellFormed(q) && Print(q) == text && Equal(Denotes(q), TripleValue(t))
  }

  /** What is rendered is a JSON number that denotes the triple's value. */
  lemma RenderIsExact(t: Triple) returns (q: Parts)
    requires Canonical(t) && RenderTriple(t).Ok?
    ensures Spells(q, RenderTriple(t).text, t)
  {
    if t.Zero? {
      q := Parts(false, "0", None, None);
      PrintInteger(false, "0");
      assert "0" + "" == "0" && "" + "0" == "0";
      ValZeros(1);
      assert Zeros(1) == "0";
    } else {
      q := RenderNonzero(t);
    }
  }

  lemma RenderNonzero(t: Triple) returns (q: Parts)
    requires Canonical(t) && t.Triple? && Render(t.negative, t.digits, t.e).Ok?
    ensures Spells(q, Render(t.negative, t.digits, t.e).text, t)
  {
    var text := Render(t.negative, t.digits, t.e).text;
    if text == Scientific(t.negative, t.digits, t.e) {
      ScientificIsExact(t);
      q := ScientificParts(t);
    } else if t.e >= 0 {
      IntegerIsExact(t);
      q := Parts(t.negative, t.digits + Zeros(t.e), None, None);
      if t.e == 0 { assert SignText(t.negative) + t.digits + Zeros(0) == SignText(t.negative) + t.digits; }
    } else if -t.e < |t.digits| {
      PointIsExact(t);
      q := Parts(t.negative, t.digits[..|t.digits| + t.e], Some(t.digits[|t.digits| + t.e..]), None);
    } else {
      FractionIsExact(t);
      q := Parts(t.negative, "0", Some(Zeros(-t.e - |t.digits|) + t.digits), None);
    }
  }

  // ---------- Main results ----------

  /** The output denotes the same rational as the input token. */
  lemma NormalizeIsExact(p: Parts) returns (q: Parts)
    requires WellFormed(p) && Normalize(Print(p)).Ok?
    ensures WellFormed(q) && Print(q) == Normalize(Print(p)).text && Equal(Denotes(p), Denotes(q))
  {
    NormalizeRendersTriple(p);
    var t := TripleOf(p);
    TripleIsExact(p);
    q := RenderIsExact(t);
    EqualSymmetric(Denotes(q), TripleValue(t));
    EqualTransitive(Denotes(p), TripleValue(t), Denotes(q));
  }

  /** A text has at most one reading as a token. */
  lemma PrintInjective(p: Parts, q: Parts)
    requires WellFormed(p) && WellFormed(q) && Print(p) == Print(q)
    ensures p == q
  {
    assert p.negative == q.negative && BodyText(p) == BodyText(q) by {
      BodyStarts(p);
      BodyStarts(q);
      SignedBody(p.negative, BodyText(p));
      SignedBody(q.negative, BodyText(q));
    }
    MantissaHasNoMarker(p);
    MantissaHasNoMarker(q);
    ExponentShape(p);
    ExponentShape(q);
    SameCut(MantissaText(p), ExponentText(p), MantissaText(q), ExponentText(q));
    MantissaInjective(p, q);
    if p.exponent.Some? { SignedTextUnique(p.exponent.value, q.exponent.value); }
  }

  lemma SameCut(a: string, b: string, c: string, d: string)
    requires NoMarker(a) && NoMarker(c) && a + b == c + d
    requires (b == [] || b[0] == 'e' || b[0] == 'E') && (d == [] || d[0] == 'e' || d[0] == 'E')
    ensures a == c && b == d
  {
    FirstExponentAt(a, b);
    FirstExponentAt(c, d);
    CutConcat(a, b);
    CutConcat(c, d);
  }

  lemma MantissaInjective(p: Parts, q: Parts)
    requires WellFormed(p) && WellFormed(q) && MantissaText(p) == MantissaText(q)
    ensures p.whole == q.whole && p.fraction == q.fraction
  {
    FirstDotAt(p.whole, FractionText(p));
    FirstDotAt(q.whole, FractionText(q));
    CutConcat(p.whole, FractionText(p));
    CutConcat(q.whole, FractionText(q));
    if p.fraction.Some? { assert FractionText(p)[1..] == p.fraction.value; }
    if q.fraction.Some? { assert FractionText(q)[1..] == q.fraction.value; }
  }

  lemma SignedTextUnique(x: Exponent, y: Exponent)
    requires x.digits != [] && Digits(x.digits) && y.digits != [] && Digits(y.digits)
    requires SignedDigits(x) == SignedDigits(y)
    ensures x.sign == y.sign && x.digits == y.digits
  {
    var a, b := SignedDigits(x), SignedDigits(y);
    assert IsDigit(x.digits[0]) && IsDigit(y.digits[0]);
    if x.sign == NoSign { assert a == x.digits; } else { assert a[1..] == x.digits; }
    if y.sign == NoSign { assert b == y.digits; } else { assert b[1..] == y.digits; }
  }

  /** Two accepted tokens have the same canonical form exactly when they denote
      the same rational; negative zero is zero. */
  lemma NormalizeExactlyEqual(p: Parts, q: Parts)
    requires WellFormed(p) && WellFormed(q) && Normalize(Print(p)).Ok? && Normalize(Print(q)).Ok?
    ensures Normalize(Print(p)) == Normalize(Print(q)) <==> Equal(Denotes(p), Denotes(q))
  {
    NormalizeRendersTriple(p);
    NormalizeRendersTriple(q);
    var s, t := TripleOf(p), TripleOf(q);
    TripleIsExact(p);
    TripleIsExact(q);
    if Equal(Denotes(p), Denotes(q)) {
      EqualSymmetric(Denotes(p), TripleValue(s));
      EqualTransitive(TripleValue(s), Denotes(p), Denotes(q));
      EqualTransitive(TripleValue(s), Denotes(q), TripleValue(t));
      TripleUnique(s, t);
    }
    if Normalize(Print(p)) == Normalize(Print(q)) {
      var p' := NormalizeIsExact(p);
      var q' := NormalizeIsExact(q);
      PrintInjective(p', q');
      EqualSymmetric(Denotes(q), Denotes(q'));
      EqualTransitive(Denotes(p), Denotes(p'), Denotes(q));
    }
  }

  /** A canonical form within the byte limit is its own canonical form. */
  lemma NormalizeIdempotent(p: Parts)
    requires WellFormed(p) && Normalize(Print(p)).Ok? && |Normalize(Print(p)).text| <= MAX_BYTES
    ensures Normalize(Normalize(Print(p)).text) == Normalize(Print(p))
  {
    NormalizeRendersTriple(p);
    var q := NormalizeIsExact(p);
    NormalizeRendersTriple(q);
    var s, t := TripleOf(p), TripleOf(q);
    TripleIsExact(p);
    TripleIsExact(q);
    EqualSymmetric(Denotes(p), TripleValue(s));
    EqualTransitive(TripleValue(s), Denotes(p), Denotes(q));
    EqualTransitive(TripleValue(s), Denotes(q), TripleValue(t));
    TripleUnique(s, t);
  }

  /** A token fails to normalize exactly when it is too long, or when its
      canonical exponent is so close to -2^63 that the 64-bit length test wraps
      around and the program tries to write that many zeros. */
  lemma NormalizeFailsExactly(p: Parts)
    requires WellFormed(p)
    ensures var r, t := Normalize(Print(p)), TripleOf(p);
            && (r == TooLong <==> |Print(p)| > MAX_BYTES)
            && r != BadExponent
            && (r == Crash <==> && |Print(p)| <= MAX_BYTES && t.Triple? && -MAX_INT64 <= t.e
                                && -t.e + 2 + |SignText(t.negative)| > MAX_INT64)
  {
    if |Print(p)| <= MAX_BYTES {
      NormalizeRendersTriple(p);
      var t := TripleOf(p);
      if t.Triple? { RenderCrashes(t.negative, t.digits, t.e); }
    }
  }

  lemma RenderCrashes(negative: bool, digits: string, e: int)
    requires |digits| <= MAX_BYTES
    ensures Render(negative, digits, e) == Crash <==>
              -MAX_INT64 <= e && -e + 2 + |SignText(negative)| > MAX_INT64
    ensures Render(negative, digits, e).Ok? || Render(negative, digits, e) == Crash
  {
  }

  lemma {:induction false} NaturalLength(n: nat, k: nat)
    requires k >= 1 && n < Pow10(k)
    ensures |Natural(n)| <= k
  {
    if n >= 10 { NaturalLength(n / 10, k - 1); }
  }

  lemma PowerNineteen()
    ensures Pow10(19) == 10_000_000_000_000_000_000
  {
    assert Pow10(1) == 10 && Pow10(2) == 100 && Pow10(3) == 1000 && Pow10(4) == 10000;
    PowSum(4, 4);
    PowSum(8, 8);
    PowSum(16, 3);
  }

  /** Such a token exists: one at a distance of one from the smallest exponent. */
  lemma CrashHappens() returns (p: Parts)
    ensures WellFormed(p) && Normalize(Print(p)) == Crash
  {
    var digits := Natural((MAX_INT64 - 1) as nat);
    PowerNineteen();
    NaturalLength((MAX_INT64 - 1) as nat, 19);
    var x := Exponent('e', Minus, digits);
    p := Parts(false, "1", None, Some(x));
    PrintWithExponent(false, "1", x);
    assert "1" + FractionDigits(p) == "1";
    assert TrimLeft("1") == "1" && TrimRight("1") == "1";
    NormalizeFailsExactly(p);
  }
}
