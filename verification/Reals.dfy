/** Sums, products and quotients of real numbers, as far as several modules need them. Products are named,
    so that each nonlinear step is one small lemma. */
module Reals {

  function Min(a: real, b: real): real { if a <= b then a else b }
  function Max(a: real, b: real): real { if a >= b then a else b }

  function Product(x: real, y: real): real { x * y }

  function Sum(s: seq<real>): real { if s == [] then 0.0 else Sum(s[..|s| - 1]) + s[|s| - 1] }

  lemma SumPush(s: seq<real>, x: real)
    ensures Sum(s + [x]) == Sum(s) + x
  {
    assert (s + [x])[..|s|] == s;
  }

  lemma {:induction false} SumConcat(a: seq<real>, b: seq<real>)
    ensures Sum(a + b) == Sum(a) + Sum(b)
    decreases |b|
  {
    if b == [] {
      assert a + b == a;
    } else {
      var n := |b| - 1;
      SumConcat(a, b[..n]);
      assert a + b == (a + b[..n]) + [b[n]];
      SumPush(a + b[..n], b[n]);
    }
  }

  lemma ProductAdds(x: real, y: real, z: real)
    ensures Product(x, y + z) == Product(x, y) + Product(x, z)
  {
  }

  lemma SignOfProduct(x: real, y: real)
    ensures x >= 0.0 && Product(x, y) > 0.0 ==> y > 0.0
    ensures x >= 0.0 && Product(x, y) < 0.0 ==> y < 0.0
    ensures x > 0.0 && y > 0.0 ==> Product(x, y) > 0.0
    ensures x >= 0.0 && y >= 0.0 ==> Product(x, y) >= 0.0
  {
  }

  lemma ProductZero(x: real, y: real)
    ensures Product(x, y) == 0.0 <==> x == 0.0 || y == 0.0
  {
    if x > 0.0 {
      assert y > 0.0 ==> x * y > 0.0;
      assert y < 0.0 ==> x * -y > 0.0;
    } else if x < 0.0 {
      assert y > 0.0 ==> -x * y > 0.0;
      assert y < 0.0 ==> x * y > 0.0;
    }
  }

  lemma QuotientsSubtract(a: real, b: real, q: real)
    requires q > 0.0
    ensures a / q - b / q == (a - b) / q
  {
  }

  lemma ProductCommutes(x: real, y: real)
    ensures Product(x, y) == Product(y, x)
  {
  }

  lemma ProductRegroups(x: real, y: real, z: real)
    ensures Product(x, Product(y, z)) == Product(y, Product(x, z))
  {
  }

  lemma ProductNegates(x: real, y: real)
    ensures Product(x, -y) == -Product(x, y) == Product(-x, y)
  {
  }

  lemma ProductOrder(x: real, y: real, z: real)
    requires x >= 0.0 && y <= z
    ensures Product(x, y) <= Product(x, z)
  {
    assert x * (z - y) >= 0.0;
  }

  lemma ProductCancels(x: real, y: real, z: real)
    requires x > 0.0
    ensures Product(x, y) <= Product(x, z) <==> y <= z
  {
    if y > z {
      assert x * (y - z) > 0.0;
    } else {
      ProductOrder(x, y, z);
    }
  }

  lemma QuotientTimes(x: real, y: real)
    requires y != 0.0
    ensures Product(y, x / y) == x
  {
  }

  lemma {:induction false} SumOrder(a: seq<real>, b: seq<real>)
    requires |a| == |b| && forall k :: 0 <= k < |a| ==> a[k] <= b[k]
    ensures Sum(a) <= Sum(b)
    decreases |a|
  {
    if a != [] {
      SumOrder(a[..|a| - 1], b[..|b| - 1]);
    }
  }

  function Scaled(x: real, s: seq<real>): seq<real> {
    seq(|s|, k requires 0 <= k < |s| => Product(x, s[k]))
  }

  lemma {:induction false} SumScales(x: real, s: seq<real>)
    ensures Sum(Scaled(x, s)) == Product(x, Sum(s))
    decreases |s|
  {
    hide Product;
    if s == [] {
      ProductZero(x, 0.0);
    } else {
      var n := |s| - 1;
      SumScales(x, s[..n]);
      assert Scaled(x, s)[..n] == Scaled(x, s[..n]);
      ProductAdds(x, Sum(s[..n]), s[n]);
    }
  }

  function Negated(s: seq<real>): seq<real> { seq(|s|, k requires 0 <= k < |s| => -s[k]) }

  lemma {:induction false} SumNegates(s: seq<real>)
    ensures Sum(Negated(s)) == -Sum(s)
    decreases |s|
  {
    if s != [] {
      var n := |s| - 1;
      SumNegates(s[..n]);
      assert Negated(s)[..n] == Negated(s[..n]);
    }
  }

  function Greatest(s: seq<real>): (x: real)
    requires s != []
    ensures x in s && forall k :: 0 <= k < |s| ==> s[k] <= x
  {
    if |s| == 1 then s[0] else Max(Greatest(s[..|s| - 1]), s[|s| - 1])
  }

  function Least(s: seq<real>): (x: real)
    requires s != []
    ensures x in s && forall k :: 0 <= k < |s| ==> x <= s[k]
  {
    if |s| == 1 then s[0] else Min(Least(s[..|s| - 1]), s[|s| - 1])
  }
}
