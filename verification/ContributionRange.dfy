/** When a self-normalized estimate stays in the contribution range reported with it. */
module ContributionRange {
  // The report divides by the total weight, the range is of weighted rewards. Which weights keep the one
  // inside the other, whatever the rewards turn out to be, is decided by the weights and the bounds.

  import opened Reals
  import opened OffPolicy

  function Weighted(ws: seq<real>, rs: seq<real>): seq<real>
    requires |ws| == |rs|
  {
    seq(|ws|, k requires 0 <= k < |ws| => Product(ws[k], rs[k]))
  }

  /** The weighted average is above every single contribution. */
  ghost predicate Above(ws: seq<real>, cs: seq<real>) {
    forall k :: 0 <= k < |cs| ==> Product(Sum(ws), cs[k]) < Sum(cs)
  }

  ghost predicate Bounded(rs: seq<real>, n: nat, low: real, high: real) {
    |rs| == n && forall k :: 0 <= k < n ==> low <= rs[k] <= high
  }

  ghost predicate WeightsOk(ws: seq<real>) { ws != [] && NonNegative(ws) && Sum(ws) > 0.0 }

  // ---------------------------------------------------------------- the condition

  function Capped(ws: seq<real>, level: real, high: real): seq<real> {
    seq(|ws|, k requires 0 <= k < |ws| => Min(level, Product(ws[k], high)))
  }

  function Floored(ws: seq<real>, level: real, high: real): seq<real> {
    seq(|ws|, k requires 0 <= k < |ws| => Max(level, Product(ws[k], high)))
  }

  /** No rewards of which some are positive put the average above all contributions: the total weight is
      at least the number of positive weights, or what replaces it where rewards cannot be small. */
  predicate CeilingOk(ws: seq<real>, low: real, high: real)
    requires ws != []
  {
    if high <= 0.0 then true
    else if low <= 0.0 then Sum(ws) >= Positives(ws) as real
    else
      var level := Product(Greatest(ws), low);
      Sum(Capped(ws, level, high)) <= Product(Sum(ws), level)
  }

  /** And no negative rewards do. */
  predicate FloorOk(ws: seq<real>, low: real, high: real)
    requires ws != []
  {
    if low >= 0.0 then true
    else
      var level := Product(Least(ws), -low);
      Sum(Floored(ws, level, Max(-high, 0.0))) >= Product(Sum(ws), level)
  }

  predicate NeverAbove(ws: seq<real>, low: real, high: real)
    requires ws != []
  {
    CeilingOk(ws, low, high) && FloorOk(ws, low, high)
  }

  // ---------------------------------------------------------------- it suffices

  lemma CapGrowsSlower(small: real, big: real, x: real)
    requires 0.0 < small <= big && x >= 0.0
    ensures Product(small, Min(big, x)) <= Product(big, Min(small, x))
  {
    hide Product;
    ProductCommutes(small, big);
    if x <= small {
      ProductCommutes(small, x);
      ProductCommutes(big, x);
      ProductOrder(x, small, big);
    } else {
      ProductOrder(small, Min(big, x), big);
    }
  }

  lemma FloorGrowsSlower(small: real, big: real, x: real)
    requires 0.0 < small <= big && x >= 0.0
    ensures Product(small, Max(big, x)) <= Product(big, Max(small, x))
  {
    hide Product;
    ProductCommutes(small, big);
    if x >= big {
      ProductCommutes(small, x);
      ProductCommutes(big, x);
      ProductOrder(x, small, big);
    } else {
      ProductOrder(big, small, Max(small, x));
    }
  }

  lemma CapsGrowSlower(ws: seq<real>, small: real, big: real, high: real)
    requires NonNegative(ws) && 0.0 < small <= big && high >= 0.0
    ensures Product(small, Sum(Capped(ws, big, high))) <= Product(big, Sum(Capped(ws, small, high)))
  {
    hide Sum, Product, Min;
    var a, b := Scaled(small, Capped(ws, big, high)), Scaled(big, Capped(ws, small, high));
    forall k | 0 <= k < |a| ensures a[k] <= b[k] {
      SignOfProduct(ws[k], high);
      CapGrowsSlower(small, big, Product(ws[k], high));
    }
    SumOrder(a, b);
    SumScales(small, Capped(ws, big, high));
    SumScales(big, Capped(ws, small, high));
  }

  lemma FloorsGrowSlower(ws: seq<real>, small: real, big: real, high: real)
    requires NonNegative(ws) && 0.0 < small <= big && high >= 0.0
    ensures Product(small, Sum(Floored(ws, big, high))) <= Product(big, Sum(Floored(ws, small, high)))
  {
    hide Sum, Product, Max;
    var a, b := Scaled(small, Floored(ws, big, high)), Scaled(big, Floored(ws, small, high));
    forall k | 0 <= k < |a| ensures a[k] <= b[k] {
      SignOfProduct(ws[k], high);
      FloorGrowsSlower(small, big, Product(ws[k], high));
    }
    SumOrder(a, b);
    SumScales(small, Floored(ws, big, high));
    SumScales(big, Floored(ws, small, high));
  }

  lemma {:induction false} SomeIsPositive(ws: seq<real>)
    requires forall k :: 0 <= k < |ws| ==> ws[k] <= 0.0
    ensures Sum(ws) <= 0.0
    decreases |ws|
  {
    if ws != [] {
      SomeIsPositive(ws[..|ws| - 1]);
    }
  }

  /** Where every reward is positive: the greatest contribution is at least the greatest weight's least one. */
  lemma PositiveRewardsStayBelow(ws: seq<real>, rs: seq<real>, low: real, high: real)
    requires WeightsOk(ws) && Bounded(rs, |ws|, low, high) && low > 0.0 && CeilingOk(ws, low, high)
    ensures !Above(ws, Weighted(ws, rs))
  {
    hide Sum, Product, Greatest, Min;
    var cs, w := Weighted(ws, rs), Greatest(ws);
    var top, level := Greatest(cs), Product(w, low);
    var g :| 0 <= g < |ws| && ws[g] == w;
    var t :| 0 <= t < |cs| && cs[t] == top;
    if w <= 0.0 {
      SomeIsPositive(ws);
    }
    ProductOrder(w, low, rs[g]);
    SignOfProduct(w, low);
    assert cs[g] == Product(w, rs[g]) && cs[g] <= top;
    forall k | 0 <= k < |cs| ensures cs[k] <= Capped(ws, top, high)[k] {
      ProductOrder(ws[k], rs[k], high);
      LeastOfTwo(cs[k], top, Product(ws[k], high));
    }
    SumOrder(cs, Capped(ws, top, high));
    CapsGrowSlower(ws, level, top, high);
    FollowsTheCap(Sum(ws), level, top, Sum(Capped(ws, level, high)), Sum(Capped(ws, top, high)));
  }

  lemma LeastOfTwo(x: real, a: real, b: real)
    requires x <= a && x <= b
    ensures x <= Min(a, b)
  {
  }

  lemma FollowsTheCap(total: real, level: real, top: real, small: real, big: real)
    requires 0.0 < level && 0.0 < top && small <= Product(total, level)
    requires Product(level, big) <= Product(top, small)
    ensures big <= Product(total, top)
  {
    hide Product;
    ProductOrder(top, small, Product(total, level));
    ProductRegroups(top, total, level);
    ProductCommutes(top, level);
    ProductRegroups(total, level, top);
    ProductCancels(level, big, Product(total, top));
  }

  lemma {:induction false} SumWithinPositives(ws: seq<real>, cs: seq<real>, top: real)
    requires |ws| == |cs| && NonNegative(ws) && top >= 0.0
    requires forall k :: 0 <= k < |cs| ==> cs[k] <= top && (ws[k] == 0.0 ==> cs[k] == 0.0)
    ensures Sum(cs) <= Product(Positives(ws) as real, top)
    decreases |cs|
  {
    hide Product;
    if cs == [] {
      ProductZero(0.0, top);
    } else {
      var n := |cs| - 1;
      SumWithinPositives(ws[..n], cs[..n], top);
      OneTermMore(Positives(ws[..n]), top);
    }
  }

  lemma OneTermMore(n: nat, x: real)
    ensures Product((n + 1) as real, x) == Product(n as real, x) + x
  {
  }

  /** Where some contribution is not negative, as many terms as there are positive weights count. */
  lemma MixedRewardsStayBelow(ws: seq<real>, rs: seq<real>)
    requires WeightsOk(ws) && |rs| == |ws| && Sum(ws) >= Positives(ws) as real
    requires Greatest(Weighted(ws, rs)) >= 0.0
    ensures !Above(ws, Weighted(ws, rs))
  {
    hide Sum, Product, Greatest, Positives;
    var cs := Weighted(ws, rs);
    var top := Greatest(cs);
    var t :| 0 <= t < |cs| && cs[t] == top;
    forall k | 0 <= k < |ws| && ws[k] == 0.0 ensures cs[k] == 0.0 {
      ProductZero(ws[k], rs[k]);
    }
    SumWithinPositives(ws, cs, top);
    ProductCommutes(Positives(ws) as real, top);
    ProductCommutes(Sum(ws), top);
    ProductOrder(top, Positives(ws) as real, Sum(ws));
  }

  lemma NoRewardStaysBelow(ws: seq<real>, rs: seq<real>)
    requires WeightsOk(ws) && |rs| == |ws| && Greatest(Weighted(ws, rs)) == 0.0
    ensures !Above(ws, Weighted(ws, rs))
  {
    hide Sum, Product, Greatest;
    var cs := Weighted(ws, rs);
    var t :| 0 <= t < |cs| && cs[t] == 0.0;
    SomeIsPositive(cs);
    ProductZero(Sum(ws), 0.0);
  }

  /** Where every contribution is negative. */
  lemma NegativeRewardsStayBelow(ws: seq<real>, rs: seq<real>, low: real, high: real)
    requires WeightsOk(ws) && Bounded(rs, |ws|, low, high) && low < high && FloorOk(ws, low, high)
    requires Greatest(Weighted(ws, rs)) < 0.0
    ensures !Above(ws, Weighted(ws, rs))
  {
    hide Sum, Product, Greatest, Least, Max;
    var cs, w := Weighted(ws, rs), Least(ws);
    var small, level, h := -Greatest(cs), Product(w, -low), Max(-high, 0.0);
    var g :| 0 <= g < |ws| && ws[g] == w;
    var t :| 0 <= t < |cs| && cs[t] == Greatest(cs);
    var sizes := Negated(cs);
    forall k | 0 <= k < |cs| ensures sizes[k] >= Floored(ws, small, h)[k] {
      assert cs[k] == Product(ws[k], rs[k]) && cs[k] <= Greatest(cs);
      SizeOfNegative(ws[k], rs[k], high, small);
    }
    GreaterOfTwo(-high, 0.0);
    assert cs[g] == Product(w, rs[g]) && cs[g] <= Greatest(cs);
    SizeOfNegative(w, rs[g], high, small);
    ProductOrder(w, -rs[g], -low);
    ProductNegates(w, rs[g]);
    assert 0.0 < small <= level;
    SumOrder(Floored(ws, small, h), sizes);
    FloorsGrowSlower(ws, small, level, h);
    SumNegates(cs);
    FollowsTheFloor(Sum(ws), level, small, Sum(Floored(ws, level, h)), Sum(Floored(ws, small, h)));
    ProductNegates(Sum(ws), small);
  }

  lemma GreaterOfTwo(a: real, b: real)
    ensures Max(a, b) >= a && Max(a, b) >= b && (Max(a, b) == a || Max(a, b) == b)
  {
  }

  lemma SizeOfNegative(w: real, r: real, high: real, small: real)
    requires w >= 0.0 && r <= high && Product(w, r) <= -small < 0.0
    ensures r < 0.0 && -Product(w, r) >= Max(small, Product(w, Max(-high, 0.0)))
  {
    hide Product;
    SignOfProduct(w, r);
    ProductNegates(w, r);
    if r >= 0.0 {
      SignOfProduct(w, r);
    }
    ProductOrder(w, Max(-high, 0.0), -r);
  }

  lemma FollowsTheFloor(total: real, level: real, small: real, big: real, sum: real)
    requires 0.0 < level && 0.0 < small && big >= Product(total, level)
    requires Product(small, big) <= Product(level, sum)
    ensures sum >= Product(total, small)
  {
    hide Product;
    ProductOrder(small, Product(total, level), big);
    ProductRegroups(small, total, level);
    ProductCommutes(small, level);
    ProductRegroups(total, level, small);
    ProductCancels(level, Product(total, small), sum);
  }

  lemma NeverAboveSuffices(ws: seq<real>, rs: seq<real>, low: real, high: real)
    requires WeightsOk(ws) && Bounded(rs, |ws|, low, high) && low < high && NeverAbove(ws, low, high)
    ensures !Above(ws, Weighted(ws, rs))
  {
    hide Sum, Product, Greatest, FloorOk, Above, Positives, Capped;
    var top := Greatest(Weighted(ws, rs));
    if top < 0.0 {
      NegativeRewardsStayBelow(ws, rs, low, high);
    } else if top == 0.0 {
      NoRewardStaysBelow(ws, rs);
    } else if low > 0.0 {
      PositiveRewardsStayBelow(ws, rs, low, high);
    } else {
      PositiveNeedsHigh(ws, rs, low, high);
      MixedRewardsStayBelow(ws, rs);
    }
  }

  lemma PositiveNeedsHigh(ws: seq<real>, rs: seq<real>, low: real, high: real)
    requires WeightsOk(ws) && Bounded(rs, |ws|, low, high) && Greatest(Weighted(ws, rs)) > 0.0
    ensures high > 0.0
  {
    hide Sum, Product, Greatest;
    var cs := Weighted(ws, rs);
    var t :| 0 <= t < |cs| && cs[t] == Greatest(cs);
    SignOfProduct(ws[t], rs[t]);
  }

  // ---------------------------------------------------------------- it is needed

  /** Rewards that bring every contribution to the level, or as near as the upper bound lets it come. */
  function CappedRewards(ws: seq<real>, level: real, high: real): seq<real> {
    seq(|ws|, k requires 0 <= k < |ws| =>
      if Product(ws[k], high) <= level || ws[k] == 0.0 then high else level / ws[k])
  }

  lemma CappedReward(w: real, level: real, low: real, high: real)
    requires w >= 0.0 && level > 0.0 && low < high && high > 0.0 && Product(w, low) <= level
    ensures var r := if Product(w, high) <= level || w == 0.0 then high else level / w;
            low <= r <= high && Product(w, r) == Min(level, Product(w, high))
  {
    hide Product;
    if w == 0.0 {
      ProductZero(w, high);
    } else if Product(w, high) > level {
      QuotientTimes(level, w);
      ProductCancels(w, low, level / w);
      ProductCancels(w, level / w, high);
    }
  }

  lemma CapIsReached(ws: seq<real>, level: real, low: real, high: real) returns (rs: seq<real>)
    requires WeightsOk(ws) && level > 0.0 && low < high && high > 0.0
    requires forall k :: 0 <= k < |ws| ==> Product(ws[k], low) <= level
    requires Sum(Capped(ws, level, high)) > Product(Sum(ws), level)
    ensures Bounded(rs, |ws|, low, high) && Above(ws, Weighted(ws, rs))
  {
    hide Sum, Product;
    rs := CappedRewards(ws, level, high);
    forall k | 0 <= k < |ws|
      ensures low <= rs[k] <= high && Product(ws[k], rs[k]) == Min(level, Product(ws[k], high))
    {
      CappedReward(ws[k], level, low, high);
    }
    assert Weighted(ws, rs) == Capped(ws, level, high);
    forall k | 0 <= k < |ws| ensures Product(Sum(ws), Capped(ws, level, high)[k]) <= Product(Sum(ws), level) {
      ProductOrder(Sum(ws), Capped(ws, level, high)[k], level);
    }
  }

  lemma {:induction false} PositiveFloor(ws: seq<real>) returns (e: real)
    requires NonNegative(ws)
    ensures e > 0.0 && forall k :: 0 <= k < |ws| ==> ws[k] == 0.0 || ws[k] >= e
    decreases |ws|
  {
    if ws == [] {
      e := 1.0;
    } else {
      var n := |ws| - 1;
      e := PositiveFloor(ws[..n]);
      if ws[n] > 0.0 {
        e := Min(e, ws[n]);
      }
    }
  }

  lemma {:induction false} CapsOfPositives(ws: seq<real>, level: real, high: real)
    requires NonNegative(ws) && level > 0.0
    requires forall k :: 0 <= k < |ws| ==> ws[k] == 0.0 || Product(ws[k], high) >= level
    ensures Sum(Capped(ws, level, high)) == Product(Positives(ws) as real, level)
    decreases |ws|
  {
    hide Product;
    if ws == [] {
      ProductZero(0.0, level);
    } else {
      var n := |ws| - 1;
      CapsOfPositives(ws[..n], level, high);
      assert Capped(ws, level, high)[..n] == Capped(ws[..n], level, high);
      OneTermMore(Positives(ws[..n]), level);
      ProductZero(ws[n], high);
    }
  }

  lemma CeilingIsNeeded(ws: seq<real>, low: real, high: real) returns (rs: seq<real>)
    requires WeightsOk(ws) && low < high && !CeilingOk(ws, low, high)
    ensures Bounded(rs, |ws|, low, high) && Above(ws, Weighted(ws, rs))
  {
    hide Sum, Product, Greatest, Positives, Capped, Above;
    if low > 0.0 {
      var w := Greatest(ws);
      if w <= 0.0 {
        SomeIsPositive(ws);
      }
      SignOfProduct(w, low);
      forall k | 0 <= k < |ws| ensures Product(ws[k], low) <= Product(w, low) {
        ProductCommutes(ws[k], low);
        ProductCommutes(w, low);
        ProductOrder(low, ws[k], w);
      }
      rs := CapIsReached(ws, Product(w, low), low, high);
    } else {
      rs := FewWeightsFallShort(ws, low, high);
    }
  }

  lemma FewWeightsFallShort(ws: seq<real>, low: real, high: real) returns (rs: seq<real>)
    requires WeightsOk(ws) && low <= 0.0 < high && Sum(ws) < Positives(ws) as real
    ensures Bounded(rs, |ws|, low, high) && Above(ws, Weighted(ws, rs))
  {
    hide Sum, Product, Positives, Capped, Above;
    var e := PositiveFloor(ws);
    var level := Product(high, e);
    SignOfProduct(high, e);
    forall k | 0 <= k < |ws|
      ensures Product(ws[k], low) <= level && (ws[k] == 0.0 || Product(ws[k], high) >= level)
    {
      ProductNegates(ws[k], low);
      SignOfProduct(ws[k], -low);
      ProductCommutes(ws[k], high);
      if ws[k] >= e {
        ProductOrder(high, e, ws[k]);
      }
    }
    CapsOfPositives(ws, level, high);
    ProductCommutes(Positives(ws) as real, level);
    ProductCommutes(Sum(ws), level);
    ProductCancels(level, Positives(ws) as real, Sum(ws));
    rs := CapIsReached(ws, level, low, high);
  }

  function FlooredRewards(ws: seq<real>, level: real, size: real): seq<real> {
    seq(|ws|, k requires 0 <= k < |ws| => if ws[k] == 0.0 then 0.0 else -Max(level, Product(ws[k], size)) / ws[k])
  }

  lemma FlooredReward(w: real, level: real, low: real, high: real)
    requires w > 0.0 && low < high && low < 0.0 && level <= Product(w, -low)
    ensures var size := Max(level, Product(w, Max(-high, 0.0)));
            low <= -size / w <= high && Product(w, -size / w) == -size
  {
    hide Product;
    var h := Max(-high, 0.0);
    var size := Max(level, Product(w, h));
    QuotientTimes(-size, w);
    ProductOrder(w, h, -low);
    ProductNegates(w, -size / w);
    ProductCancels(w, h, -(-size / w));
    ProductCancels(w, -(-size / w), -low);
  }

  lemma FloorIsNeeded(ws: seq<real>, low: real, high: real) returns (rs: seq<real>)
    requires WeightsOk(ws) && low < high && !FloorOk(ws, low, high)
    ensures Bounded(rs, |ws|, low, high) && Above(ws, Weighted(ws, rs))
  {
    hide Sum, Product, Least, Max;
    var level, h := Product(Least(ws), -low), Max(-high, 0.0);
    LeastIsPositive(ws, level, -low, h);
    rs := FlooredRewards(ws, level, h);
    var sizes := Floored(ws, level, h);
    forall k | 0 <= k < |ws| ensures low <= rs[k] <= high && Product(ws[k], rs[k]) == -sizes[k] {
      ProductCommutes(ws[k], -low);
      ProductCommutes(Least(ws), -low);
      ProductOrder(-low, Least(ws), ws[k]);
      FlooredReward(ws[k], level, low, high);
    }
    assert Weighted(ws, rs) == Negated(sizes);
    SumNegates(sizes);
    forall k | 0 <= k < |ws| ensures Product(Sum(ws), -sizes[k]) <= -Product(Sum(ws), level) {
      GreaterOfTwo(level, Product(ws[k], h));
      ProductNegates(Sum(ws), sizes[k]);
      ProductOrder(Sum(ws), level, sizes[k]);
    }
  }

  lemma LeastIsPositive(ws: seq<real>, level: real, size: real, h: real)
    requires WeightsOk(ws) && size > 0.0 && level == Product(Least(ws), size)
    requires Sum(Floored(ws, level, h)) < Product(Sum(ws), level)
    ensures Least(ws) > 0.0
  {
    hide Sum, Product, Least;
    var g :| 0 <= g < |ws| && ws[g] == Least(ws);
    if Least(ws) == 0.0 {
      ProductZero(0.0, size);
      ProductZero(Sum(ws), 0.0);
      NoneNegative(Floored(ws, level, h));
    }
  }

  lemma {:induction false} NoneNegative(s: seq<real>)
    requires NonNegative(s)
    ensures Sum(s) >= 0.0
    decreases |s|
  {
    if s != [] {
      NoneNegative(s[..|s| - 1]);
    }
  }

  /** Of these weights and bounds, no rewards put the average above every contribution, exactly then. */
  lemma NeverAboveExactly(ws: seq<real>, low: real, high: real)
    requires WeightsOk(ws) && low < high
    ensures NeverAbove(ws, low, high)
       <==> forall rs :: Bounded(rs, |ws|, low, high) ==> !Above(ws, Weighted(ws, rs))
  {
    assert ws != [];
    hide WeightsOk, Above, CeilingOk, FloorOk, Weighted;
    if NeverAbove(ws, low, high) {
      forall rs | Bounded(rs, |ws|, low, high) ensures !Above(ws, Weighted(ws, rs)) {
        NeverAboveSuffices(ws, rs, low, high);
      }
    } else if !CeilingOk(ws, low, high) {
      var rs := CeilingIsNeeded(ws, low, high);
    } else {
      var rs := FloorIsNeeded(ws, low, high);
    }
  }

  // ---------------------------------------------------------------- both ends of the range

  /** Whatever the rewards within the bounds, the average is neither above nor below all contributions. */
  predicate StaysInside(ws: seq<real>, low: real, high: real)
    requires ws != []
  {
    NeverAbove(ws, low, high) && NeverAbove(ws, -high, -low)
  }

  lemma MirroredContributions(ws: seq<real>, rs: seq<real>)
    requires |ws| == |rs|
    ensures Weighted(ws, Negated(rs)) == Negated(Weighted(ws, rs))
  {
    hide Product;
    forall k | 0 <= k < |ws| ensures Product(ws[k], -rs[k]) == -Product(ws[k], rs[k]) {
      ProductNegates(ws[k], rs[k]);
    }
  }

  lemma MirroredBounds(rs: seq<real>, n: nat, low: real, high: real)
    ensures Bounded(rs, n, low, high) ==> Bounded(Negated(rs), n, -high, -low)
    ensures Negated(Negated(rs)) == rs
  {
  }

  lemma {:induction false} CountedPositives(ws: seq<real>)
    requires NonNegative(ws)
    ensures Positives(ws) <= |ws| && (Positives(ws) == |ws| <==> 0.0 !in ws)
    decreases |ws|
  {
    if ws != [] {
      var n := |ws| - 1;
      CountedPositives(ws[..n]);
      assert ws == ws[..n] + [ws[n]];
    }
  }

  lemma {:induction false} FlooredByLevel(ws: seq<real>, level: real)
    requires level >= 0.0
    ensures Sum(Floored(ws, level, 0.0)) == Product(|ws| as real, level)
    decreases |ws|
  {
    hide Product;
    if ws == [] {
      ProductZero(0.0, level);
    } else {
      var n := |ws| - 1;
      FlooredByLevel(ws[..n], level);
      assert Floored(ws, level, 0.0)[..n] == Floored(ws[..n], level, 0.0);
      OneTermMore(n, level);
      ProductZero(ws[n], 0.0);
    }
  }

  lemma FloorUnderMixedBounds(ws: seq<real>, low: real, high: real)
    requires WeightsOk(ws) && low < 0.0 <= high
    ensures FloorOk(ws, low, high) <==> 0.0 in ws || Sum(ws) <= |ws| as real
  {
    hide Sum, Product, Least, Floored;
    var w := Least(ws);
    var level, n := Product(w, -low), |ws| as real;
    SignOfProduct(w, -low);
    ProductZero(w, -low);
    FlooredByLevel(ws, level);
    if level == 0.0 {
      ProductZero(n, level);
      ProductZero(Sum(ws), level);
      var g :| 0 <= g < |ws| && ws[g] == w;
    } else {
      ProductCommutes(n, level);
      ProductCommutes(Sum(ws), level);
      ProductCancels(level, Sum(ws), n);
    }
  }

  /** If rewards may be of either sign, or zero, only the weights decide: they add up to as many as there
      are, or some weight is zero and they add up to at least as many as are positive. */
  lemma MixedBoundsExactly(ws: seq<real>, low: real, high: real)
    requires WeightsOk(ws) && low <= 0.0 <= high && low < high
    ensures StaysInside(ws, low, high)
       <==> Sum(ws) == |ws| as real || (0.0 in ws && Sum(ws) >= Positives(ws) as real)
  {
    hide Sum, Product, FloorOk, Positives, Capped;
    CountedPositives(ws);
    if low < 0.0 {
      FloorUnderMixedBounds(ws, low, high);
    } else {
      FloorIsFree(ws, low, high);
    }
    if high > 0.0 {
      FloorUnderMixedBounds(ws, -high, -low);
    } else {
      FloorIsFree(ws, -high, -low);
    }
  }

  lemma FloorIsFree(ws: seq<real>, low: real, high: real)
    requires ws != [] && low >= 0.0
    ensures FloorOk(ws, low, high)
  {
  }

  // ---------------------------------------------------------------- evaluations

  function Rewards(rows: seq<Observation>): seq<real> {
    seq(|rows|, k requires 0 <= k < |rows| => rows[k].reward)
  }

  lemma ContributionsAreWeighted(i: Input)
    requires Accepted(i) && i.estimator == SelfNormalized
    ensures RowsOk(i, i.rows)
    ensures Contributions(i, i.rows) == Weighted(Weights(i, i.rows), Rewards(i.rows))
    ensures WeightsOk(Weights(i, i.rows)) && Bounded(Rewards(i.rows), |i.rows|, i.low, i.high)
  {
    AcceptedMeans(i);
    WeightsNonNegative(i, i.rows);
    EffectiveSampleSizeInRange(i, Weights(i, i.rows));
    hide Weight, Sum, SumSquares, Squared, Supported, IdsDistinct, Positives, Contribution, Product;
    forall k | 0 <= k < |i.rows|
      ensures Contributions(i, i.rows)[k] == Product(Weights(i, i.rows)[k], Rewards(i.rows)[k])
    {
      ContributionIs(i, i.rows[k]);
    }
  }

  lemma ContributionIs(i: Input, o: Observation)
    requires RowOk(i, o) && i.estimator == SelfNormalized
    ensures Contribution(i, o) == Product(Weight(i, o), o.reward)
  {
  }

  lemma QuotientAbove(c: real, w: real, x: real)
    requires w > 0.0
    ensures c / w > x <==> Product(w, x) < c
    ensures c / w < x <==> Product(w, -x) < -c
  {
    hide Product;
    QuotientTimes(c, w);
    ProductCancels(w, c / w, x);
    ProductCancels(w, x, c / w);
    ProductNegates(w, x);
  }

  /** The estimate lies outside the reported range exactly when it is above, or below, all contributions. */
  lemma OutsideExactly(i: Input, e: Evaluation)
    requires Accepted(i) && Evaluates(i, e) && i.estimator == SelfNormalized
    ensures RowsOk(i, i.rows)
    ensures var ws, cs := Weights(i, i.rows), Contributions(i, i.rows);
            && (e.estimate > e.highest <==> Above(ws, cs))
            && (e.estimate < e.lowest <==> Above(ws, Negated(cs)))
  {
    AcceptedMeans(i);
    hide Sum, Product, Weight, Contribution, SumSquares, Squared, RowOk, MaximumWeight, MinimumPropensity, Clipped,
         Supported, IdsDistinct, HeadOk;
    var ws, cs := Weights(i, i.rows), Contributions(i, i.rows);
    SumNegates(cs);
    var t :| 0 <= t < |cs| && cs[t] == e.lowest;
    assert Negated(cs)[t] == -e.lowest;
    AboveTop(ws, cs, e.highest);
    AboveTop(ws, Negated(cs), -e.lowest);
    QuotientAbove(Sum(cs), Sum(ws), e.highest);
    QuotientAbove(Sum(cs), Sum(ws), e.lowest);
  }

  lemma AboveTop(ws: seq<real>, cs: seq<real>, top: real)
    requires Sum(ws) > 0.0
    requires (exists k :: 0 <= k < |cs| && cs[k] == top) && forall k :: 0 <= k < |cs| ==> cs[k] <= top
    ensures Above(ws, cs) <==> Product(Sum(ws), top) < Sum(cs)
  {
    hide Sum, Product;
    forall k | 0 <= k < |cs| ensures Product(Sum(ws), cs[k]) <= Product(Sum(ws), top) {
      ProductOrder(Sum(ws), cs[k], top);
    }
  }

  /** The same log with other rewards within the bounds. */
  ghost predicate Rerewarded(i: Input, j: Input) {
    && |j.rows| == |i.rows| && j == i.(rows := j.rows)
    && forall k :: 0 <= k < |i.rows| ==>
         j.rows[k] == i.rows[k].(reward := j.rows[k].reward) && i.low <= j.rows[k].reward <= i.high
  }

  lemma {:induction false} SameSupport(a: seq<Observation>, b: seq<Observation>)
    requires |a| == |b| && forall k :: 0 <= k < |a| ==> a[k].probability == b[k].probability
    ensures Supported(a) == Supported(b)
    decreases |a|
  {
    if a != [] {
      SameSupport(a[..|a| - 1], b[..|b| - 1]);
    }
  }

  lemma RerewardedRow(i: Input, j: Input, o: Observation, reward: real)
    requires RowOk(i, o) && i.low <= reward <= i.high && j == i.(rows := j.rows)
    ensures o.propensity != 0.0 && RowOk(j, o.(reward := reward)) && Weight(j, o.(reward := reward)) == Weight(i, o)
  {
  }

  lemma RerewardedIsAccepted(i: Input, j: Input)
    requires Accepted(i) && Rerewarded(i, j)
    ensures Accepted(j) && RowsOk(i, i.rows) && RowsOk(j, j.rows) && Weights(j, j.rows) == Weights(i, i.rows)
  {
    hide RowOk, Weight, Supported;
    SameSupport(i.rows, j.rows);
    forall k | 0 <= k < |i.rows|
      ensures i.rows[k].propensity != 0.0 && RowOk(j, j.rows[k]) && Weight(j, j.rows[k]) == Weight(i, i.rows[k])
    {
      assert RowOk(i, i.rows[k]);
      RerewardedRow(i, j, i.rows[k], j.rows[k].reward);
    }
  }

  lemma WithRewards(i: Input, rs: seq<real>) returns (j: Input)
    requires Accepted(i) && Bounded(rs, |i.rows|, i.low, i.high)
    ensures Rerewarded(i, j) && Rewards(j.rows) == rs
  {
    j := i.(rows := seq(|i.rows|, k requires 0 <= k < |i.rows| => i.rows[k].(reward := rs[k])));
  }

  lemma SomeEvaluation(i: Input) returns (e: Evaluation)
    requires Accepted(i)
    ensures Evaluates(i, e)
  {
    AcceptedMeans(i);
    var ws, cs := Weights(i, i.rows), Contributions(i, i.rows);
    EffectiveSampleSizeInRange(i, ws);
    RangeOf(cs);
    hide Weight, Contribution, RowOk, Sum, SumSquares, Squared, MaximumWeight, MinimumPropensity, Clipped, Supported,
         IdsDistinct, HeadOk;
    e := Evaluation(Sum(cs) / (if i.estimator == SelfNormalized then Sum(ws) else |i.rows| as real),
                    Supported(i.rows), MaximumWeight(i.rows), MinimumPropensity(i.rows),
                    Squared(Sum(ws)) / SumSquares(ws), Clipped(i, i.rows), Least(cs), Greatest(cs));
  }

  /** The exact condition for logs of any length: with the weights of this log, the reported estimate lies
      in the reported range for all rewards within the bounds if and only if the weights keep it there. */
  lemma SelfNormalizedStaysInsideExactly(i: Input)
    requires Accepted(i) && i.estimator == SelfNormalized
    ensures RowsOk(i, i.rows) && Weights(i, i.rows) != []
    ensures StaysInside(Weights(i, i.rows), i.low, i.high)
       <==> forall j, e :: Rerewarded(i, j) && Accepted(j) && Evaluates(j, e) ==> e.lowest <= e.estimate <= e.highest
  {
    ContributionsAreWeighted(i);
    var ws := Weights(i, i.rows);
    if StaysInside(ws, i.low, i.high) {
      forall j, e | Rerewarded(i, j) && Accepted(j) && Evaluates(j, e) ensures e.lowest <= e.estimate <= e.highest {
        InsideForRewards(i, j, e);
      }
    } else {
      var j, e := LeavesTheRange(i);
    }
  }

  lemma InsideForRewards(i: Input, j: Input, e: Evaluation)
    requires Accepted(i) && i.estimator == SelfNormalized && RowsOk(i, i.rows) && Weights(i, i.rows) != []
    requires StaysInside(Weights(i, i.rows), i.low, i.high)
    requires Rerewarded(i, j) && Accepted(j) && Evaluates(j, e)
    ensures e.lowest <= e.estimate <= e.highest
  {
    hide NeverAbove, Above, Weighted, Contributions, Evaluates, WeightsOk, IdsDistinct, RowOk, Supported, Weight;
    var ws, rs := Weights(i, i.rows), Rewards(j.rows);
    RerewardedIsAccepted(i, j);
    ContributionsAreWeighted(j);
    OutsideExactly(j, e);
    NeverAboveExactly(ws, i.low, i.high);
    NeverAboveExactly(ws, -i.high, -i.low);
    MirroredBounds(rs, |ws|, i.low, i.high);
    MirroredContributions(ws, rs);
  }

  /** Otherwise some rewards leave the range. */
  lemma LeavesTheRange(i: Input) returns (j: Input, e: Evaluation)
    requires Accepted(i) && i.estimator == SelfNormalized && RowsOk(i, i.rows) && Weights(i, i.rows) != []
    requires !StaysInside(Weights(i, i.rows), i.low, i.high)
    ensures Rerewarded(i, j) && Accepted(j) && Evaluates(j, e)
    ensures !(e.lowest <= e.estimate <= e.highest)
  {
    hide NeverAbove, Above, Weighted, Contributions, Evaluates, WeightsOk, Rewards, IdsDistinct, RowOk, Supported,
         Weight;
    var ws := Weights(i, i.rows);
    ContributionsAreWeighted(i);
    NeverAboveExactly(ws, i.low, i.high);
    NeverAboveExactly(ws, -i.high, -i.low);
    var rs: seq<real>;
    if !NeverAbove(ws, i.low, i.high) {
      rs :| Bounded(rs, |ws|, i.low, i.high) && Above(ws, Weighted(ws, rs));
    } else {
      var mirrored :| Bounded(mirrored, |ws|, -i.high, -i.low) && Above(ws, Weighted(ws, mirrored));
      MirroredBounds(mirrored, |ws|, -i.high, -i.low);
      rs := Negated(mirrored);
      MirroredContributions(ws, rs);
      MirroredBounds(rs, |ws|, i.low, i.high);
    }
    j := WithRewards(i, rs);
    RerewardedIsAccepted(i, j);
    e := SomeEvaluation(j);
    ContributionsAreWeighted(j);
    OutsideExactly(j, e);
  }

  /** Of a log with one row, the self-normalized estimate is the reward and the contribution range is the
      weighted reward, so the estimate lies outside that range precisely when weighting changes it. */
  lemma SelfNormalizedMayLeaveContributionRange(i: Input, e: Evaluation)
    requires Accepted(i) && Evaluates(i, e) && i.estimator == SelfNormalized && |i.rows| == 1
    ensures i.rows[0].propensity != 0.0
    ensures e.estimate == i.rows[0].reward && e.lowest == e.highest == Product(Weight(i, i.rows[0]), i.rows[0].reward)
    ensures !(e.lowest <= e.estimate <= e.highest) <==> i.rows[0].reward != 0.0 && Weight(i, i.rows[0]) != 1.0
  {
    AcceptedMeans(i);
    RowDivisible(i, 0);
    OutsideExactly(i, e);
    ContributionIs(i, i.rows[0]);
    hide RowOk, Weight, SumSquares, MaximumWeight, MinimumPropensity, Clipped, Supported, Squared, Sum, Contribution,
         Product;
    var w, r := Weight(i, i.rows[0]), i.rows[0].reward;
    var ws, cs := Weights(i, i.rows), Contributions(i, i.rows);
    assert ws == [w] && cs == [Product(w, r)] && Negated(cs) == [-Product(w, r)];
    SumOne(w);
    SumOne(cs[0]);
    SumOne(-cs[0]);
    ProductNegates(w, cs[0]);
    OneRow(w, r);
    OneRow(w, cs[0]);
    ProductZero(w, r);
  }

  lemma SumOne(x: real)
    ensures Sum([x]) == x
  {
    assert [x][..0] == [];
  }

  lemma OneRow(w: real, reward: real)
    requires w > 0.0
    ensures Product(w, reward) / w == reward
    ensures Product(w, reward) == reward <==> reward == 0.0 || w == 1.0
  {
    assert w * reward / w == reward;
    assert Product(w - 1.0, reward) == Product(w, reward) - reward;
    ProductZero(w - 1.0, reward);
  }
}
