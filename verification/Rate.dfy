/** Exact rational rates: a share of an amount is the exact decimal, or it is refused. A refusal means that
    no decimal at all has the value asked for, so nothing is ever rounded. */
module Rate {
  import opened Money

  const MAX_MONEY_SCALE: nat := 1000

  // ---------------------------------------------------------------- products

  lemma Swap(m: int, a: int, b: int, c: int, e: int)
    ensures m * a * b * (e * c) == m * ((a * c) * (b * e))
  {
    calc {
      m * a * b * (e * c);
      m * (a * b * (e * c));
      { assert a * b * (e * c) == a * (b * (e * c)) && b * (e * c) == (b * e) * c; }
      m * (a * ((b * e) * c));
      { assert a * ((b * e) * c) == (a * c) * (b * e); }
      m * ((a * c) * (b * e));
    }
  }

  lemma Regroup(x: int, y: int, z: int)
    ensures x * (y * z) == (x * y) * z && x * (y * z) == y * (x * z)
  {
  }

  lemma Distribute(k: int, p: int, q: int, g: int)
    ensures (k * p + q) * g == k * (p * g) + q * g
    ensures (q - k * p) * g == q * g - p * (k * g)
  {
  }

  lemma MulMonotone(x: int, y: int, g: nat)
    ensures x <= y ==> x * g <= y * g
  {
  }

  // ---------------------------------------------------------------- divisors

  function Pow(b: nat, n: nat): (p: nat)
    requires b > 0
    ensures p > 0
  {
    if n == 0 then 1 else b * Pow(b, n - 1)
  }

  function Pow10(n: nat): (p: nat)
    ensures p >= 1
  {
    if n == 0 then 1 else 10 * Pow10(n - 1)
  }

  lemma {:induction false} ValueTimesPow10(c: int, s: nat, k: nat)
    ensures Value(Decimal(c * Pow10(k), s + k)) == Value(Decimal(c, s))
  {
    if k > 0 {
      ValueTimesPow10(c, s, k - 1);
      ValueTimesTen(c * Pow10(k - 1), s + k - 1);
      Regroup(10, c, Pow10(k - 1));
    }
  }

  function Abs(x: int): nat { if x < 0 then -x else x }

  function Gcd(a: nat, b: nat): (g: nat)
    ensures a > 0 || b > 0 ==> g > 0
    decreases b
  {
    if b == 0 then a else Gcd(b, a % b)
  }

  /** Bezout: the greatest common divisor divides both numbers and is a combination of them. */
  lemma {:induction false} GcdIsCombination(a: nat, b: nat) returns (p: nat, q: nat, u: int, v: int)
    ensures a == p * Gcd(a, b) && b == q * Gcd(a, b)
    ensures Gcd(a, b) == u * a + v * b
    decreases b
  {
    if b == 0 {
      p, q, u, v := 1, 0, 1, 0;
    } else {
      var p', q', u', v' := GcdIsCombination(b, a % b);
      var g, k := Gcd(b, a % b), a / b;
      p, q, u, v := k * p' + q', p', v', u' - k * v';
      GcdStep(a, b, k, a % b, g, p', q', u', v');
    }
  }

  lemma GcdStep(a: int, b: int, k: int, r: int, g: int, p: int, q: int, u: int, v: int)
    requires a == k * b + r && b == p * g && r == q * g && g == u * b + v * r
    ensures a == (k * p + q) * g
    ensures g == v * a + (u - k * v) * b
  {
    Distribute(k, p, q, g);
    Distribute(k, v, u, b);
    assert v * a == v * (k * b) + v * r;
  }

  /** Divide out every factor f: the loop that counts twos, and the one that counts fives. */
  function Strip(d: nat, f: nat): (r: (nat, nat))
    requires d > 0 && f > 1
    ensures r.0 > 0 && r.0 % f != 0
    ensures d == r.0 * Pow(f, r.1)
    decreases d
  {
    if d % f == 0 then
      DivideExactly(d, f);
      var (rest, count) := Strip(d / f, f);
      StripStep(d, f, rest, count);
      (rest, count + 1)
    else (d, 0)
  }

  lemma DivideExactly(d: nat, f: nat)
    requires d > 0 && f > 1 && d % f == 0
    ensures d == f * (d / f) && 0 < d / f < d
  {
    var q := d / f;
    assert d == f * q;
    MulMonotone(2, f, q);
  }

  lemma StripStep(d: nat, f: nat, rest: nat, count: nat)
    requires f > 1 && d == f * (d / f) && d / f == rest * Pow(f, count)
    ensures d == rest * Pow(f, count + 1)
  {
    Regroup(f, rest, Pow(f, count));
  }

  lemma GcdDivides(a: nat, b: nat)
    requires b > 0
    ensures var g := Gcd(a, b); g > 0 && a == (a / g) * g && b == (b / g) * g && b / g > 0
  {
    var p, q, _, _ := GcdIsCombination(a, b);
    ExactQuotient(a, Gcd(a, b), p);
    ExactQuotient(b, Gcd(a, b), q);
  }

  lemma ExactQuotient(x: nat, g: nat, p: nat)
    requires g > 0 && x == p * g
    ensures x / g == p
  {
    MulMonotone(x / g + 1, p, g);
    MulMonotone(p + 1, x / g, g);
    assert x == (x / g) * g + x % g;
  }

  // ---------------------------------------------------------------- exact or refused

  lemma {:induction false} PowAdd(b: nat, m: nat, n: nat)
    requires b > 0
    ensures Pow(b, m + n) == Pow(b, m) * Pow(b, n)
  {
    if m > 0 {
      PowAdd(b, m - 1, n);
      Regroup(b, Pow(b, m - 1), Pow(b, n));
    }
  }

  lemma {:induction false} TenIsTwoTimesFive(n: nat)
    ensures Pow10(n) == Pow(2, n) * Pow(5, n)
  {
    if n > 0 {
      TenIsTwoTimesFive(n - 1);
      Swap(1, 2, 5, Pow(2, n - 1), Pow(5, n - 1));
    }
  }

  /** The digits produced times the denominator are the numerator times 10^scale. */
  lemma DigitsTimesDenominator(m: nat, d: nat, noTwos: nat, twos: nat, fives: nat)
    requires d == noTwos * Pow(2, twos) && noTwos == Pow(5, fives)
    ensures var scale := Larger(twos, fives);
            m * Pow(2, scale - twos) * Pow(5, scale - fives) * d == m * Pow10(scale)
  {
    var scale := Larger(twos, fives);
    PowAdd(2, scale - twos, twos);
    PowAdd(5, scale - fives, fives);
    TenIsTwoTimesFive(scale);
    Swap(m, Pow(2, scale - twos), Pow(5, scale - fives), Pow(2, twos), Pow(5, fives));
  }

  lemma {:induction false} ValueScales(c: int, s: nat, k: nat)
    ensures Value(Decimal(c * k, s)) == Value(Decimal(c, s)) * k as real
  {
    if k == 0 {
      ValueAtOneScale(0, 0, s);
    } else {
      ValueScales(c, s, k - 1);
      ValueAtOneScale(c * (k - 1), c, s);
      assert c * k == c * (k - 1) + c;
    }
  }

  /** Digits and scale of m/d for a denominator with no factor but twos and fives. */
  function Digits(m: nat, d: nat): (r: Option<(nat, nat)>)
    requires d > 0
    ensures r.Some? ==> r.value.0 * d == m * Pow10(r.value.1)
  {
    var (noTwos, twos) := Strip(d, 2);
    var (rest, fives) := Strip(noTwos, 5);
    if rest != 1 then None
    else
      var scale := Larger(twos, fives);
      DigitsTimesDenominator(m, d, noTwos, twos, fives);
      Some((m * Pow(2, scale - twos) * Pow(5, scale - fives), scale))
  }

  /** The decimal x is the number n/d. */
  ghost predicate IsQuotient(x: Decimal, n: int, d: nat) {
    Value(x) * d as real == n as real
  }

  /** The decimal n/d when that quotient terminates, and None when it does not. */
  function TerminatingDecimal(n: int, d: nat): (r: Option<Decimal>)
    requires d > 0
    ensures r.Some? ==> IsQuotient(r.value, n, d)
  {
    if n == 0 then Some(ZERO)
    else
      GcdDivides(Abs(n), d);
      var g := Gcd(Abs(n), d);
      var m, dd := Abs(n) / g, d / g;
      match Digits(m, dd)
      case None => None
      case Some((digits, scale)) =>
        var signed: int := if n < 0 then -(digits as int) else digits;
        FromReduced(n, d, g, m, dd, digits, scale, signed);
        Some(Decimal(signed, scale))
  }

  lemma FromReduced(n: int, d: nat, g: nat, m: nat, dd: nat, digits: nat, scale: nat, signed: int)
    requires Abs(n) == m * g && d == dd * g && digits * dd == m * Pow10(scale)
    requires Abs(signed) == digits && if n < 0 then signed <= 0 else signed >= 0
    ensures IsQuotient(Decimal(signed, scale), n, d)
  {
    ScaleBack(digits, dd, m, Pow10(scale), g);
    SignedEqual(n, signed, d, Pow10(scale));
    FromDigits(signed, scale, n, d);
  }

  lemma FromDigits(c: int, s: nat, n: int, d: nat)
    requires c * d == n * Pow10(s)
    ensures IsQuotient(Decimal(c, s), n, d)
  {
    ValueScales(c, s, d);
    ValueTimesPow10(n, 0, s);
  }

  lemma ScaleBack(digits: nat, d: nat, m: nat, p: nat, g: nat)
    requires digits * d == m * p
    ensures digits * (d * g) == (m * g) * p
  {
    Regroup(digits, d, g);
    Regroup(m, p, g);
    Regroup(m, g, p);
  }

  lemma SignedEqual(n: int, digits: int, d: nat, p: nat)
    requires Abs(digits) * d == Abs(n) * p
    requires if n < 0 then digits <= 0 else digits >= 0
    ensures digits * d == n * p
  {
  }

  // ---------------------------------------------------------------- refused only when it must be

  /** A divisor of a power of ten has no factor but twos and fives. */
  lemma {:induction false} StrippedDivisorIsOne(d: nat, k: nat, x: int)
    requires d > 0 && d % 2 != 0 && d % 5 != 0
    requires Pow10(k) == d * x
    ensures d == 1
    decreases k
  {
    if k == 0 {
      DivisorOfOne(d, x);
    } else {
      TenDividesCofactor(d, x, Pow10(k - 1));
      StrippedDivisorIsOne(d, k - 1, x / 10);
    }
  }

  lemma DivisorOfOne(d: nat, x: int)
    requires d > 0 && d * x == 1
    ensures d == 1
  {
    MulMonotone(1, x, d);
    MulMonotone(x, 0, d);
  }

  lemma TenDividesCofactor(d: nat, x: int, p: int)
    requires d % 2 != 0 && d % 5 != 0 && d * x == 10 * p
    ensures p == d * (x / 10)
  {
    EvenFactor(d, x, 5 * p);
    FiveFactor(d, x, 2 * p);
    MultipleOfTen(x);
    CofactorOfTen(d, x, x / 10, p);
  }

  lemma MultipleOfTen(x: int)
    requires x % 2 == 0 && x % 5 == 0
    ensures x == 10 * (x / 10)
  {
  }

  lemma CofactorOfTen(d: int, x: int, q: int, p: int)
    requires x == 10 * q && d * x == 10 * p
    ensures p == d * q
  {
    Regroup(d, 10, q);
  }

  lemma EvenFactor(d: int, x: int, h: int)
    requires d % 2 != 0 && d * x == 2 * h
    ensures x % 2 == 0
  {
    Distribute(2, d / 2, 1, x);
    assert d == 2 * (d / 2) + 1;
    EvenPart(x, h - (d / 2) * x);
  }

  lemma EvenPart(x: int, k: int)
    requires x == 2 * k
    ensures x % 2 == 0
  {
  }

  lemma FiveFactor(d: int, x: int, h: int)
    requires d % 5 != 0 && d * x == 5 * h
    ensures x % 5 == 0
  {
    ProductResidue(d, x, d / 5, d % 5, x / 5, x % 5, h);
    SmallResidues(x % 5, d % 5);
  }

  lemma ProductResidue(d: int, x: int, e: int, r: int, y: int, s: int, h: int)
    requires d == 5 * e + r && x == 5 * y + s && d * x == 5 * h
    ensures s * r % 5 == 0
  {
    Distribute(5, e, r, x);
    Distribute(5, y, s, r);
    FiveDivides(s * r, h - e * x - y * r);
  }

  lemma FiveDivides(x: int, k: int)
    requires x == 5 * k
    ensures x % 5 == 0
  {
  }

  lemma SmallResidues(s: nat, r: nat)
    requires s < 5 && 0 < r < 5 && s * r % 5 == 0
    ensures s == 0
  {
    if r == 1 {
    } else if r == 2 {
    } else if r == 3 {
    } else {
      assert s * r == 4 * s;
    }
  }

  lemma DigitsExist(m: nat, d: nat, c: nat, s: nat, u: int, v: int)
    requires d > 0 && u * m + v * d == 1
    requires c * d == m * Pow10(s)
    ensures Digits(m, d).Some?
  {
    var (noTwos, twos) := Strip(d, 2);
    var (rest, fives) := Strip(noTwos, 5);
    var x := u * c + v * Pow10(s);
    assert Pow10(s) == d * x by { Coprime(m, d, c, Pow10(s), u, v); }
    var y := Pow(5, fives) * (Pow(2, twos) * x);
    assert Pow10(s) == rest * y by {
      Regroup(noTwos, Pow(2, twos), x);
      Regroup(rest, Pow(5, fives), Pow(2, twos) * x);
    }
    assert rest % 2 != 0 by { OddFactor(rest, Pow(5, fives)); }
    StrippedDivisorIsOne(rest, s, y);
  }

  lemma OddFactor(a: int, b: int)
    requires a * b % 2 != 0
    ensures a % 2 != 0
  {
    Distribute(2, a / 2, a % 2, b);
    assert a == 2 * (a / 2) + a % 2;
  }

  lemma Coprime(m: int, d: int, c: int, p: int, u: int, v: int)
    requires u * m + v * d == 1 && c * d == m * p
    ensures p == d * (u * c + v * p)
  {
    calc {
      p;
      (u * m + v * d) * p;
      { Distribute(u, m, v * d, p); }
      u * (m * p) + (v * d) * p;
      u * (c * d) + (v * d) * p;
      { Regroup(u, c, d); assert (v * d) * p == d * (v * p); }
      (u * c) * d + d * (v * p);
      { Distribute(1, u * c, v * p, d); }
      d * (u * c + v * p);
    }
  }

  lemma ToDigits(x: Decimal, n: int, d: nat)
    requires IsQuotient(x, n, d)
    ensures x.coefficient * d == n * Pow10(x.scale)
  {
    hide Value, Pow10;
    assert x == Decimal(x.coefficient, x.scale);
    ValueScales(x.coefficient, x.scale, d);
    ValueTimesPow10(n, 0, x.scale);
    ValueOfInt(n);
    SameAtOneScale(x.coefficient * d, n * Pow10(x.scale), x.scale);
  }

  lemma ValueOfInt(n: int)
    ensures Value(Decimal(n, 0)) == n as real
  {
  }

  lemma SameAtOneScale(a: int, b: int, s: nat)
    requires Value(Decimal(a, s)) == Value(Decimal(b, s))
    ensures a == b
  {
    hide Value;
    ValueAtOneScale(a, b, s);
    ValueAtOneScale(b, a, s);
  }

  lemma ReducedDigitsExist(a: nat, d: nat, c: nat, s: nat)
    requires a > 0 && d > 0 && c * d == a * Pow10(s)
    ensures var g := Gcd(a, d); d / g > 0 && Digits(a / g, d / g).Some?
  {
    GcdDivides(a, d);
    var g := Gcd(a, d);
    var _, _, u, v := GcdIsCombination(a, d);
    CoprimeDigitsExist(a / g, d / g, g, c, s, u, v);
  }

  lemma CoprimeDigitsExist(m: nat, dd: nat, g: nat, c: nat, s: nat, u: int, v: int)
    requires g > 0 && dd > 0 && g == u * (m * g) + v * (dd * g)
    requires c * (dd * g) == (m * g) * Pow10(s)
    ensures Digits(m, dd).Some?
  {
    ReducedCombination(m, dd, g, u, v);
    CancelDivisor(c, dd, m, g, Pow10(s));
    DigitsExist(m, dd, c, s, u, v);
  }

  lemma CancelDivisor(c: int, d: int, m: int, g: nat, p: int)
    requires g > 0 && c * (d * g) == (m * g) * p
    ensures c * d == m * p
  {
    Regroup(c, d, g);
    Regroup(p, m, g);
    CancelFactor(c * d, m * p, g);
  }

  /** If any decimal at all has the value n/d, it is found: a refusal means none exists. */
  lemma RefusedOnlyWhenEndless(n: int, d: nat, x: Decimal)
    requires d > 0 && IsQuotient(x, n, d)
    ensures TerminatingDecimal(n, d).Some?
  {
    if n != 0 {
      ToDigits(x, n, d);
      AbsProduct(x.coefficient, d, n, Pow10(x.scale));
      ReducedDigitsExist(Abs(n), d, Abs(x.coefficient), x.scale);
    }
  }

  lemma AbsProduct(c: int, d: nat, n: int, p: nat)
    requires c * d == n * p
    ensures Abs(c) * d == Abs(n) * p
  {
    MulMonotone(0, c, d);
    MulMonotone(c, 0, d);
    MulMonotone(0, n, p);
    MulMonotone(n, 0, p);
  }

  lemma ReducedCombination(m: int, d: int, g: nat, u: int, v: int)
    requires g > 0 && g == u * (m * g) + v * (d * g)
    ensures u * m + v * d == 1
  {
    Regroup(u, m, g);
    Regroup(v, d, g);
    Distribute(1, u * m, v * d, g);
    CancelFactor(u * m + v * d, 1, g);
  }

  lemma CancelFactor(x: int, y: int, g: nat)
    requires g > 0 && x * g == y * g
    ensures x == y
  {
    MulMonotone(x + 1, y, g);
    MulMonotone(y + 1, x, g);
  }

  // ---------------------------------------------------------------- shares

  /** The amount x is numerator/denominator of the total. */
  ghost predicate IsShare(x: Decimal, total: Decimal, numerator: nat, denominator: nat) {
    Value(x) * denominator as real == Value(total) * numerator as real
  }

  /** numerator/denominator of an amount, canonical; None where the source throws. */
  function ShareOf(total: Decimal, numerator: nat, denominator: nat): (r: Option<Decimal>)
    requires denominator > 0
    ensures r.Some? ==> Canonical(r.value) && IsShare(r.value, total, numerator, denominator)
  {
    var n, d := total.coefficient * numerator, Pow10(total.scale) * denominator;
    match TerminatingDecimal(n, d)
    case None => None
    case Some(x) =>
      QuotientIsShare(x, total, numerator, denominator, n, d);
      // x is in lowest terms, so its scale is already that of its normal form
      if Normalize(x).scale > MAX_MONEY_SCALE then None else Some(Normalize(x))
  }

  lemma QuotientIsShare(x: Decimal, total: Decimal, w: nat, den: nat, n: int, d: nat)
    requires n == total.coefficient * w && d == Pow10(total.scale) * den
    requires IsQuotient(x, n, d)
    ensures IsShare(Normalize(x), total, w, den)
  {
    hide Normalize, Pow10, Value;
    WholeQuotient(total);
    NormalizeKeepsValue(x);
    ShareArithmetic(Value(x), Value(total), Pow10(total.scale), den, w, total.coefficient, n, d);
  }

  /** Exact or refused, in both directions: a share comes back precisely when some stored
      amount is that share, and then it is that amount. */
  lemma ShareOfIsExactOrRefused(total: Decimal, w: nat, den: nat, x: Decimal)
    requires den > 0
    ensures ShareOf(total, w, den) == Some(x)
       <==> Canonical(x) && IsShare(x, total, w, den) && x.scale <= 1000
  {
    if Canonical(x) && IsShare(x, total, w, den) && x.scale <= MAX_MONEY_SCALE {
      var n, d := total.coefficient * w, Pow10(total.scale) * den;
      ShareIsQuotient(x, total, w, den, n, d);
      RefusedOnlyWhenEndless(n, d, x);
      var y := TerminatingDecimal(n, d).value;
      QuotientIsShare(y, total, w, den, n, d);
      ShareIsUnique(x, Normalize(y), total, w, den);
    }
  }

  lemma ShareIsQuotient(x: Decimal, total: Decimal, w: nat, den: nat, n: int, d: nat)
    requires n == total.coefficient * w && d == Pow10(total.scale) * den
    requires IsShare(x, total, w, den)
    ensures IsQuotient(x, n, d)
  {
    WholeQuotient(total);
    QuotientArithmetic(Value(x), Value(total), Pow10(total.scale), den, w, total.coefficient, n, d);
  }

  lemma ShareIsUnique(x: Decimal, y: Decimal, total: Decimal, w: nat, den: nat)
    requires den > 0 && Canonical(x) && Canonical(y)
    requires IsShare(x, total, w, den) && IsShare(y, total, w, den)
    ensures x == y
  {
    SameShare(Value(x), Value(y), den, Value(total) * w as real);
    CanonicalUnique(x, y);
  }

  lemma SameShare(x: real, y: real, den: nat, t: real)
    requires den > 0 && x * den as real == t && y * den as real == t
    ensures x == y
  {
    assert (x - y) * den as real == 0.0;
  }

  /** A share in parts per million of an amount is never refused for lack of digits. */
  lemma MillionthsNeverRefused(total: Decimal, w: nat)
    requires total.scale + 6 <= MAX_MONEY_SCALE
    ensures ShareOf(total, w, 1_000_000).Some?
  {
    var x := Decimal(total.coefficient * w, total.scale + 6);
    assert total == Decimal(total.coefficient, total.scale);
    MillionthsOf(total.coefficient, total.scale, w);
    NormalizeKeepsValue(x);
    ShareOfIsExactOrRefused(total, w, 1_000_000, Normalize(x));
  }

  lemma MillionthsOf(c: int, s: nat, w: nat)
    ensures IsShare(Decimal(c * w, s + 6), Decimal(c, s), w, 1_000_000)
  {
    var a := c * w;
    ValueScales(c, s, w);
    assert Pow10(6) == 1_000_000;
    ValueTimesPow10(a, s, 6);
    ValueScales(a, s + 6, 1_000_000);
  }

  lemma WholeQuotient(a: Decimal)
    ensures IsQuotient(a, a.coefficient, Pow10(a.scale))
  {
    FromDigits(a.coefficient, a.scale, a.coefficient, Pow10(a.scale));
  }

  lemma ShareArithmetic(x: real, t: real, p: nat, den: nat, w: nat, c: int, n: int, d: nat)
    requires p >= 1 && n == c * w && d == p * den
    requires x * d as real == n as real && t * p as real == c as real
    ensures x * den as real == t * w as real
  {
    Product(c, w, n);
    Product(p, den, d);
    CancelReal(x, t, p as real, den as real, w as real, n as real, d as real, c as real);
  }

  lemma QuotientArithmetic(x: real, t: real, p: nat, den: nat, w: nat, c: int, n: int, d: nat)
    requires p >= 1 && n == c * w && d == p * den
    requires x * den as real == t * w as real && t * p as real == c as real
    ensures x * d as real == n as real
  {
    Product(c, w, n);
    Product(p, den, d);
    var p', den', w' := p as real, den as real, w as real;
    assert x * (p' * den') == (x * den') * p';
    assert (t * w') * p' == (t * p') * w';
  }

  lemma Product(a: int, b: int, c: int)
    requires c == a * b
    ensures c as real == a as real * b as real
  {
  }

  lemma CancelReal(x: real, t: real, p: real, den: real, w: real, n: real, d: real, c: real)
    requires p >= 1.0 && x * d == n && d == p * den && n == c * w && t * p == c
    ensures x * den == t * w
  {
    var a, b := x * den, t * w;
    assert x * (p * den) == a * p;
    assert (t * p) * w == b * p;
    assert (a - b) * p == 0.0;
  }
}
