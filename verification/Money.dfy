/** Exact decimal amounts: an integer coefficient and a scale. */
module Money {
  // Never a binary float. `Value` is what an amount means; every operation is proved against it.

  datatype Option<+T> = None | Some(value: T)

  datatype Decimal = Decimal(coefficient: int, scale: nat)

  /** The normal form every stored amount has: no trailing zero digit, and zero has scale 0. */
  predicate Canonical(d: Decimal) {
    && (d.coefficient == 0 ==> d.scale == 0)
    && (d.scale > 0 ==> d.coefficient % 10 != 0)
  }

  const ZERO := Decimal(0, 0)

  /** c * 10^k, one power of ten at a time. */
  function Shift(c: int, k: nat): int {
    if k == 0 then c else 10 * Shift(c, k - 1)
  }

  /** coefficient / 10^scale, dividing one decimal place at a time. */
  ghost function Value(d: Decimal): real
    decreases d.scale
  {
    if d.scale == 0 then d.coefficient as real
    else Value(Decimal(d.coefficient, d.scale - 1)) / 10.0
  }

  lemma ZeroIsWorthNothing()
    ensures Value(ZERO) == 0.0
  {
  }

  lemma {:induction false} ValueShift(c: int, s: nat, k: nat)
    ensures Value(Decimal(Shift(c, k), s + k)) == Value(Decimal(c, s))
  {
    if k > 0 {
      ValueShift(c, s, k - 1);
      ValueTimesTen(Shift(c, k - 1), s + k - 1);
    }
  }

  lemma {:induction false} ValueTimesTen(c: int, s: nat)
    ensures Value(Decimal(10 * c, s + 1)) == Value(Decimal(c, s))
  {
    if s > 0 {
      ValueTimesTen(c, s - 1);
    }
  }

  lemma {:induction false} ValueAtOneScale(a: int, b: int, s: nat)
    ensures Value(Decimal(a + b, s)) == Value(Decimal(a, s)) + Value(Decimal(b, s))
    ensures a < b <==> Value(Decimal(a, s)) < Value(Decimal(b, s))
  {
    if s > 0 {
      ValueAtOneScale(a, b, s - 1);
    }
  }

  // ---------------------------------------------------------------- normal form

  function Normalize(d: Decimal): (n: Decimal)
    ensures Canonical(n) && n.scale <= d.scale
    decreases d.scale
  {
    if d.coefficient == 0 then ZERO
    else if d.scale > 0 && d.coefficient % 10 == 0 then
      Normalize(Decimal(d.coefficient / 10, d.scale - 1))
    else d
  }

  lemma {:induction false} NormalizeKeepsValue(d: Decimal)
    ensures Value(Normalize(d)) == Value(d)
    decreases d.scale
  {
    if d.coefficient == 0 {
      ValueAtOneScale(0, 0, d.scale);
    } else if d.scale > 0 && d.coefficient % 10 == 0 {
      NormalizeKeepsValue(Decimal(d.coefficient / 10, d.scale - 1));
      ValueTimesTen(d.coefficient / 10, d.scale - 1);
      assert 10 * (d.coefficient / 10) == d.coefficient;
    }
  }

  /** The loop that strips trailing zeros computes the normal form. */
  method NormalizeLoop(coefficient: int, scale: nat) returns (d: Decimal)
    ensures Canonical(d) && Value(d) == Value(Decimal(coefficient, scale))
    ensures d == Normalize(Decimal(coefficient, scale))
  {
    var nextCoefficient, nextScale := coefficient, scale;
    if nextCoefficient == 0 {
      nextScale := 0;
    }
    while nextScale > 0 && nextCoefficient % 10 == 0
      invariant nextCoefficient == 0 ==> nextScale == 0
      invariant Normalize(Decimal(nextCoefficient, nextScale)) == Normalize(Decimal(coefficient, scale))
    {
      nextCoefficient, nextScale := nextCoefficient / 10, nextScale - 1;
    }
    d := Decimal(nextCoefficient, nextScale);
    NormalizeKeepsValue(Decimal(coefficient, scale));
  }

  lemma ShiftIsMultiple(c: int, k: nat)
    ensures k == 0 ==> Shift(c, k) == c
    ensures k > 0 ==> Shift(c, k) % 10 == 0
  {
  }

  /** A value has exactly one canonical form, so equal values are equal records. */
  lemma {:induction false} CanonicalUnique(a: Decimal, b: Decimal)
    requires Canonical(a) && Canonical(b)
    requires Value(a) == Value(b)
    ensures a == b
    decreases if a.scale > b.scale then 1 else 0
  {
    hide Value, Shift;
    if a.scale > b.scale {
      CanonicalUnique(b, a);
    } else {
      var gap := b.scale - a.scale;
      assert a == Decimal(a.coefficient, a.scale) && b == Decimal(b.coefficient, b.scale);
      ValueShift(a.coefficient, a.scale, gap);
      ValueAtOneScale(Shift(a.coefficient, gap), b.coefficient, b.scale);
      ValueAtOneScale(b.coefficient, Shift(a.coefficient, gap), b.scale);
      ShiftIsMultiple(a.coefficient, gap);
    }
  }

  // ---------------------------------------------------------------- arithmetic

  function Larger(a: nat, b: nat): nat { if a >= b then a else b }

  /** Both coefficients brought to the larger of the two scales. */
  function Aligned(a: Decimal, b: Decimal): (int, int, nat) {
    var scale := Larger(a.scale, b.scale);
    (Shift(a.coefficient, scale - a.scale), Shift(b.coefficient, scale - b.scale), scale)
  }

  lemma AlignedKeepsValues(a: Decimal, b: Decimal)
    ensures var (ac, bc, scale) := Aligned(a, b);
            Value(Decimal(ac, scale)) == Value(a) && Value(Decimal(bc, scale)) == Value(b)
  {
    var scale := Larger(a.scale, b.scale);
    assert a == Decimal(a.coefficient, a.scale) && b == Decimal(b.coefficient, b.scale);
    ValueShift(a.coefficient, a.scale, scale - a.scale);
    ValueShift(b.coefficient, b.scale, scale - b.scale);
  }

  function Add(a: Decimal, b: Decimal): (sum: Decimal)
    ensures Canonical(sum)
    ensures Value(sum) == Value(a) + Value(b)
  {
    var (ac, bc, scale) := Aligned(a, b);
    AlignedKeepsValues(a, b);
    ValueAtOneScale(ac, bc, scale);
    NormalizeKeepsValue(Decimal(ac + bc, scale));
    Normalize(Decimal(ac + bc, scale))
  }

  function Compare(a: Decimal, b: Decimal): (c: int)
    ensures -1 <= c <= 1
    ensures c < 0 <==> Value(a) < Value(b)
    ensures c > 0 <==> Value(a) > Value(b)
  {
    var (ac, bc, scale) := Aligned(a, b);
    AlignedKeepsValues(a, b);
    ValueAtOneScale(ac, bc, scale);
    ValueAtOneScale(bc, ac, scale);
    if ac < bc then -1 else if ac > bc then 1 else 0
  }

  /** Because results are canonical, adding in any grouping and order gives the same record. */
  lemma AddIsCommutativeAndAssociative(a: Decimal, b: Decimal, c: Decimal)
    ensures Add(a, b) == Add(b, a)
    ensures Add(Add(a, b), c) == Add(a, Add(b, c))
  {
    CanonicalUnique(Add(a, b), Add(b, a));
    CanonicalUnique(Add(Add(a, b), c), Add(a, Add(b, c)));
  }

  /** The product of two decimals has the product of their coefficients. */
  lemma {:induction false} ValueProduct(a: int, p: nat, b: int, q: nat, x: real, y: real)
    requires x == Value(Decimal(a, p)) && y == Value(Decimal(b, q))
    ensures Value(Decimal(a * b, p + q)) == x * y
    decreases p + q
  {
    if p > 0 {
      ValueProduct(a, p - 1, b, q, x * 10.0, y);
    } else if q > 0 {
      ValueProduct(a, p, b, q - 1, x, y * 10.0);
    }
  }
}
