/** Importance-weighted evaluation on logged actions. */
module OffPolicy {
  // Rewards, probabilities and weights are real numbers; `wellFormed` stands for the identities, digests
  // and timestamps of a record.

  import opened Money
  import opened Reals
  import opened Tables

  datatype Estimator = Ips | SelfNormalized | DoublyRobust

  datatype Model = Model(target: real, logged: real)

  datatype Observation = Observation(id: string, reward: real, propensity: real, probability: real,
                                     model: Option<Model>, wellFormed: bool)

  /** `policyMax` is the exploration policy's bound on weights, `overlapMax` the bound that clipping lifts. */
  datatype Input = Input(estimator: Estimator, rows: seq<Observation>, low: real, high: real, minPropensity: real,
                         overlapMax: real, policyMax: real, clipping: Option<real>, otherwiseOk: bool)

  datatype Evaluation = Evaluation(estimate: real, supported: nat, maximumWeight: real, minimumPropensity: real,
                                   effectiveSampleSize: real, clipped: nat, lowest: real, highest: real)

  function RawWeight(o: Observation): real
    requires o.propensity != 0.0
  {
    o.probability / o.propensity
  }

  function Weight(i: Input, o: Observation): real
    requires o.propensity != 0.0
  {
    if i.clipping.Some? && RawWeight(o) > i.clipping.value then i.clipping.value else RawWeight(o)
  }

  // ---------------------------------------------------------------- acceptance

  predicate HeadOk(i: Input) {
    && i.rows != [] && i.low < i.high && 0.0 < i.minPropensity <= 1.0 && i.overlapMax > 0.0 && i.policyMax > 0.0
    && (i.clipping.Some? ==> i.clipping.value > 0.0) && i.otherwiseOk
  }

  predicate OverlapOk(i: Input, o: Observation)
    requires o.propensity != 0.0
  {
    && o.propensity >= i.minPropensity
    && (RawWeight(o) > i.overlapMax ==> i.clipping.Some?)
    && (RawWeight(o) > i.policyMax ==> i.clipping.Some? && i.clipping.value <= i.policyMax)
  }

  predicate RowOk(i: Input, o: Observation) {
    && o.wellFormed && i.low <= o.reward <= i.high
    && 0.0 < o.propensity <= 1.0 && 0.0 <= o.probability <= 1.0
    && (o.probability > 0.0 ==> OverlapOk(i, o))
    && (i.estimator == DoublyRobust ==>
          o.model.Some? && i.low <= o.model.value.target <= i.high && i.low <= o.model.value.logged <= i.high)
  }

  function Supported(rows: seq<Observation>): nat {
    if rows == [] then 0 else Supported(rows[..|rows| - 1]) + if rows[|rows| - 1].probability > 0.0 then 1 else 0
  }

  ghost predicate RowsOk(i: Input, rows: seq<Observation>) {
    forall k :: 0 <= k < |rows| ==> RowOk(i, rows[k])
  }

  ghost predicate IdsDistinct(rows: seq<Observation>) {
    forall j, k :: 0 <= j < k < |rows| ==> rows[j].id != rows[k].id
  }

  ghost predicate Accepted(i: Input) {
    HeadOk(i) && RowsOk(i, i.rows) && IdsDistinct(i.rows) && Supported(i.rows) > 0
  }

  method ValidateInput(i: Input) returns (ok: bool)
    ensures ok <==> Accepted(i)
  {
    if !HeadOk(i) {
      return false;
    }
    var seen: set<string> := {};
    var supported := 0;
    for n := 0 to |i.rows|
      invariant forall x :: x in seen <==> exists k :: 0 <= k < n && i.rows[k].id == x
      invariant IdsDistinct(i.rows[..n]) && RowsOk(i, i.rows[..n])
      invariant supported == Supported(i.rows[..n])
    {
      hide RowOk;
      assert i.rows[..n + 1][..n] == i.rows[..n];
      if i.rows[n].id in seen || !RowOk(i, i.rows[n]) {
        return false;
      }
      seen := seen + {i.rows[n].id};
      if i.rows[n].probability > 0.0 {
        supported := supported + 1;
      }
    }
    assert i.rows[..|i.rows|] == i.rows;
    ok := supported > 0;
  }

  // ---------------------------------------------------------------- the sums

  function Contribution(i: Input, o: Observation): real
    requires RowOk(i, o)
  {
    match i.estimator
    case DoublyRobust => o.model.value.target + Weight(i, o) * (o.reward - o.model.value.logged)
    case Ips => Weight(i, o) * o.reward
    case SelfNormalized => Weight(i, o) * o.reward
  }

  function Weights(i: Input, rows: seq<Observation>): seq<real>
    requires RowsOk(i, rows)
  {
    seq(|rows|, k requires 0 <= k < |rows| => Weight(i, rows[k]))
  }

  function Contributions(i: Input, rows: seq<Observation>): seq<real>
    requires RowsOk(i, rows)
  {
    seq(|rows|, k requires 0 <= k < |rows| => Contribution(i, rows[k]))
  }

  function Squared(x: real): real { Product(x, x) }

  function SumSquares(s: seq<real>): real {
    if s == [] then 0.0 else SumSquares(s[..|s| - 1]) + Squared(s[|s| - 1])
  }

  function Positives(s: seq<real>): nat {
    if s == [] then 0 else Positives(s[..|s| - 1]) + if s[|s| - 1] > 0.0 then 1 else 0
  }

  function Clipped(i: Input, rows: seq<Observation>): nat
    requires RowsOk(i, rows)
  {
    if rows == [] then 0
    else
      var o := rows[|rows| - 1];
      Clipped(i, rows[..|rows| - 1]) + if i.clipping.Some? && RawWeight(o) > i.clipping.value then 1 else 0
  }

  function MaximumWeight(rows: seq<Observation>): real
    requires forall k :: 0 <= k < |rows| ==> rows[k].propensity != 0.0
  {
    if rows == [] then 0.0
    else
      var o, before := rows[|rows| - 1], MaximumWeight(rows[..|rows| - 1]);
      if o.probability > 0.0 then Max(before, RawWeight(o)) else before
  }

  function MinimumPropensity(rows: seq<Observation>): real {
    if rows == [] then 1.0
    else
      var o, before := rows[|rows| - 1], MinimumPropensity(rows[..|rows| - 1]);
      if o.probability > 0.0 then Min(before, o.propensity) else before
  }

  // ---------------------------------------------------------------- weights

  lemma WeightFacts(i: Input, o: Observation)
    requires HeadOk(i) && RowOk(i, o)
    ensures Weight(i, o) >= 0.0
    ensures Weight(i, o) > 0.0 <==> o.probability > 0.0
  {
    Ratio(o.probability, o.propensity);
  }

  lemma Ratio(p: real, q: real)
    requires p >= 0.0 && q > 0.0
    ensures p / q >= 0.0 && (p / q > 0.0 <==> p > 0.0)
  {
    var w := p / q;
    assert w * q == p;
    assert w < 0.0 ==> w * q < 0.0;
    assert w > 0.0 ==> w * q > 0.0;
  }

  /** Whatever the clipping, no weight that is used exceeds the exploration policy's bound. */
  lemma UsedWeightWithinPolicy(i: Input, o: Observation)
    requires HeadOk(i) && RowOk(i, o)
    ensures Weight(i, o) <= i.policyMax
  {
    WeightFacts(i, o);
    if o.probability == 0.0 {
      assert Weight(i, o) == 0.0;
    }
  }

  /** When the overlap bound binds the weights in use: with no clipping above it, or if the policy's bound
      or the propensity floor already keeps weights below it. */
  predicate OverlapBinds(minPropensity: real, overlapMax: real, policyMax: real, clipping: Option<real>) {
    || clipping == None || clipping.value <= overlapMax || policyMax <= overlapMax
    || Product(overlapMax, minPropensity) >= 1.0
  }

  predicate Declares(i: Input, minPropensity: real, overlapMax: real, policyMax: real, clipping: Option<real>) {
    && i.minPropensity == minPropensity && i.overlapMax == overlapMax && i.policyMax == policyMax
    && i.clipping == clipping
  }

  lemma UsedWeightWithinOverlap(i: Input, o: Observation)
    requires HeadOk(i) && RowOk(i, o) && OverlapBinds(i.minPropensity, i.overlapMax, i.policyMax, i.clipping)
    ensures Weight(i, o) <= i.overlapMax
  {
    WeightFacts(i, o);
    if o.probability == 0.0 {
      assert Weight(i, o) == 0.0;
    } else if Product(i.overlapMax, i.minPropensity) >= 1.0 {
      WithinFloor(o.probability, o.propensity, i.minPropensity, i.overlapMax);
    } else {
      UsedWeightWithinPolicy(i, o);
    }
  }

  lemma WithinFloor(p: real, q: real, floor: real, bound: real)
    requires 0.0 < p <= 1.0 && 0.0 < floor <= q && bound > 0.0 && Product(bound, floor) >= 1.0
    ensures p / q <= bound
  {
    var w := p / q;
    assert w * q == p;
    assert Product(bound, q) == Product(bound, floor) + Product(bound, q - floor);
    SignOfProduct(bound, q - floor);
    assert bound * q >= 1.0;
    assert w > bound ==> w * q > bound * q;
  }

  /** Where it does not bind, some accepted log uses a weight above it, and clips nothing. */
  lemma OverlapCanBeExceeded(minPropensity: real, overlapMax: real, policyMax: real, clip: real) returns (i: Input)
    requires 0.0 < minPropensity <= 1.0 && overlapMax > 0.0 && policyMax > 0.0 && clip > 0.0
    requires !OverlapBinds(minPropensity, overlapMax, policyMax, Some(clip))
    ensures Declares(i, minPropensity, overlapMax, policyMax, Some(clip)) && |i.rows| == 1
    ensures Accepted(i) && Clipped(i, i.rows) == 0 && Weight(i, i.rows[0]) > overlapMax
  {
    var w := Min(policyMax, Min(clip, 1.0 / minPropensity));
    AboveBound(minPropensity, overlapMax, policyMax, clip);
    var o := Observation("o", 0.5, minPropensity, w * minPropensity, None, true);
    i := Input(Ips, [o], 0.0, 1.0, minPropensity, overlapMax, policyMax, Some(clip), true);
    assert RawWeight(o) == w;
    assert i.rows[..0] == [];
    assert Supported(i.rows) == 1;
  }

  lemma AboveBound(minPropensity: real, overlapMax: real, policyMax: real, clip: real)
    requires 0.0 < minPropensity <= 1.0 && overlapMax > 0.0
    requires overlapMax < policyMax && overlapMax < clip && Product(overlapMax, minPropensity) < 1.0
    ensures var w := Min(policyMax, Min(clip, 1.0 / minPropensity));
            overlapMax < w && 0.0 < w * minPropensity <= 1.0 && w * minPropensity / minPropensity == w
  {
    var inverse := 1.0 / minPropensity;
    assert inverse * minPropensity == 1.0;
    assert inverse <= overlapMax ==> inverse * minPropensity <= overlapMax * minPropensity;
    var w := Min(policyMax, Min(clip, inverse));
    assert (inverse - w) * minPropensity >= 0.0;
    Divides(w, minPropensity);
  }

  lemma Divides(w: real, q: real)
    requires q > 0.0
    ensures w * q / q == w
  {
  }

  /** The exact condition: the overlap bound binds every weight of every accepted log that declares these
      four parameters if and only if one of the others keeps weights below it. */
  lemma OverlapBindsExactly(minPropensity: real, overlapMax: real, policyMax: real, clipping: Option<real>)
    requires 0.0 < minPropensity <= 1.0 && overlapMax > 0.0 && policyMax > 0.0
    requires clipping.Some? ==> clipping.value > 0.0
    ensures OverlapBinds(minPropensity, overlapMax, policyMax, clipping)
       <==> forall i, k ::
              Declares(i, minPropensity, overlapMax, policyMax, clipping) && Accepted(i) && 0 <= k < |i.rows| ==>
                Weight(i, i.rows[k]) <= overlapMax
  {
    hide OverlapBinds, Weight, RowOk, IdsDistinct, Supported;
    if OverlapBinds(minPropensity, overlapMax, policyMax, clipping) {
      forall i, k | Declares(i, minPropensity, overlapMax, policyMax, clipping) && Accepted(i) && 0 <= k < |i.rows|
        ensures i.rows[k].propensity != 0.0 && Weight(i, i.rows[k]) <= overlapMax
      {
        RowDivisible(i, k);
        UsedWeightWithinOverlap(i, i.rows[k]);
      }
    } else {
      NoClippingBinds(minPropensity, overlapMax, policyMax);
      var i := OverlapCanBeExceeded(minPropensity, overlapMax, policyMax, clipping.value);
    }
  }

  lemma NoClippingBinds(minPropensity: real, overlapMax: real, policyMax: real)
    ensures OverlapBinds(minPropensity, overlapMax, policyMax, None)
  {
  }

  ghost predicate NonNegative(ws: seq<real>) { forall k :: 0 <= k < |ws| ==> ws[k] >= 0.0 }

  lemma WeightsNonNegative(i: Input, rows: seq<Observation>)
    requires HeadOk(i) && RowsOk(i, rows)
    ensures NonNegative(Weights(i, rows))
  {
    hide Weight, HeadOk, RowOk;
    forall k | 0 <= k < |rows| ensures Weights(i, rows)[k] >= 0.0 {
      WeightFacts(i, rows[k]);
    }
  }

  lemma {:induction false} SupportedArePositive(i: Input, rows: seq<Observation>)
    requires HeadOk(i) && RowsOk(i, rows)
    ensures Positives(Weights(i, rows)) == Supported(rows)
    decreases |rows|
  {
    if rows != [] {
      hide Weight, HeadOk, RowOk;
      var n := |rows| - 1;
      SupportedArePositive(i, rows[..n]);
      WeightFacts(i, rows[n]);
      assert Weights(i, rows)[..n] == Weights(i, rows[..n]);
    }
  }

  /** The reported maximum, taken before clipping, bounds every weight in use. */
  lemma {:induction false} UsedWeightWithinReported(i: Input, rows: seq<Observation>, k: nat)
    requires HeadOk(i) && RowsOk(i, rows) && k < |rows|
    ensures forall j :: 0 <= j < |rows| ==> rows[j].propensity != 0.0
    ensures 0.0 <= Weight(i, rows[k]) <= MaximumWeight(rows)
    decreases |rows|
  {
    var n := |rows| - 1;
    WeightFacts(i, rows[k]);
    if k < n {
      UsedWeightWithinReported(i, rows[..n], k);
    } else if n > 0 {
      UsedWeightWithinReported(i, rows[..n], 0);
    }
  }

  // ---------------------------------------------------------------- effective sample size

  lemma SquareFacts(w: real)
    ensures Squared(w) >= 0.0 && (Squared(w) == 0.0 <==> w == 0.0)
  {
    SameSquare(w);
    if w > 0.0 {
      PositiveSquare(w);
    } else if w < 0.0 {
      PositiveSquare(-w);
    }
  }

  lemma SameSquare(w: real)
    ensures Squared(w) == Squared(-w) && Squared(0.0) == 0.0
  {
  }

  lemma PositiveSquare(w: real)
    requires w > 0.0
    ensures Squared(w) > 0.0
  {
    SignOfProduct(w, w);
  }

  lemma SquareOfSum(t: real, w: real)
    ensures Squared(t + w) == Squared(t) + 2.0 * (t * w) + Squared(w)
  {
  }

  lemma SquaresStep(t: real, q: real, w: real)
    requires t >= 0.0 && w >= 0.0 && q <= Squared(t)
    ensures q + Squared(w) <= Squared(t + w)
  {
    SquareOfSum(t, w);
    assert t * w >= 0.0;
  }

  /** x is at most n times q. */
  ghost predicate Times(x: real, n: nat, q: real) { x <= n as real * q }

  lemma CrossTerm(t: real, q: real, w: real, n: nat)
    requires n > 0 && Times(Squared(t), n, q)
    ensures 2.0 * (t * w) <= q + n as real * Squared(w)
  {
    var m := n as real;
    SquareFacts(t - m * w);
    assert Squared(t - m * w) == Squared(t) - 2.0 * (m * (t * w)) + m * (m * Squared(w));
    assert m * (2.0 * (t * w)) <= m * (q + m * Squared(w));
    DivideOut(m, 2.0 * (t * w), q + m * Squared(w));
  }

  lemma DivideOut(m: real, x: real, y: real)
    requires m > 0.0 && m * x <= m * y
    ensures x <= y
  {
    assert x > y ==> m * x > m * y;
  }

  lemma CauchyStep(t: real, q: real, w: real, n: nat)
    requires q >= 0.0 && Times(Squared(t), n, q)
    ensures Times(Squared(t + w), n + 1, q + Squared(w))
  {
    SquareOfSum(t, w);
    SquareFacts(t);
    if n > 0 {
      CrossTerm(t, q, w, n);
    }
    var m := n as real;
    assert (n + 1) as real * (q + Squared(w)) == m * q + q + m * Squared(w) + Squared(w);
  }

  /** Sum of squares, square of the sum, and number of positive weights (Cauchy-Schwarz). */
  lemma {:induction false} SumsOfWeights(ws: seq<real>)
    requires NonNegative(ws)
    ensures Sum(ws) >= 0.0 && SumSquares(ws) >= 0.0
    ensures Positives(ws) > 0 ==> Sum(ws) > 0.0 && SumSquares(ws) > 0.0
    ensures SumSquares(ws) <= Squared(Sum(ws))
    ensures Times(Squared(Sum(ws)), Positives(ws), SumSquares(ws))
    decreases |ws|
  {
    if ws == [] {
      assert Sum(ws) == 0.0 && SumSquares(ws) == 0.0;
    } else {
      hide Squared, Times;
      var n := |ws| - 1;
      var t, q, w := Sum(ws[..n]), SumSquares(ws[..n]), ws[n];
      SumsOfWeights(ws[..n]);
      SquareFacts(w);
      SquaresStep(t, q, w);
      CauchyStep(t, q, w, Positives(ws[..n]));
    }
  }

  lemma Quotient(x: real, q: real, n: nat)
    requires q > 0.0 && q <= x && Times(x, n, q)
    ensures 1.0 <= x / q <= n as real
  {
    var e := x / q;
    assert e * q == x;
    assert e < 1.0 ==> e * q < q;
    assert e > n as real ==> e * q > n as real * q;
  }

  /** The effective sample size is at least one observation and at most the supported ones. */
  lemma EffectiveSampleSizeInRange(i: Input, ws: seq<real>)
    requires Accepted(i) && ws == Weights(i, i.rows)
    ensures SumSquares(ws) > 0.0 && Sum(ws) > 0.0
    ensures 1.0 <= Squared(Sum(ws)) / SumSquares(ws) <= Supported(i.rows) as real
  {
    hide HeadOk, RowsOk, Weights, Sum, SumSquares, Squared, Times, Positives, Supported;
    WeightsNonNegative(i, i.rows);
    SupportedArePositive(i, i.rows);
    SumsOfWeights(ws);
    Quotient(Squared(Sum(ws)), SumSquares(ws), Supported(i.rows));
  }

  // ---------------------------------------------------------------- estimates

  /** c is between low and high times w. */
  ghost predicate Between(c: real, w: real, low: real, high: real) { low * w <= c <= high * w }

  lemma BetweenStep(c: real, w: real, d: real, v: real, low: real, high: real)
    requires Between(c, w, low, high) && Between(d, v, low, high)
    ensures Between(c + d, w + v, low, high)
  {
    assert low * (w + v) == low * w + low * v && high * (w + v) == high * w + high * v;
  }

  lemma {:induction false} SumsBetween(cs: seq<real>, ws: seq<real>, low: real, high: real)
    requires |cs| == |ws| && forall k :: 0 <= k < |cs| ==> Between(cs[k], ws[k], low, high)
    ensures Between(Sum(cs), Sum(ws), low, high)
    decreases |cs|
  {
    if cs == [] {
      assert Sum(cs) == 0.0 && Sum(ws) == 0.0;
    } else {
      hide Between;
      var n := |cs| - 1;
      SumsBetween(cs[..n], ws[..n], low, high);
      BetweenStep(Sum(cs[..n]), Sum(ws[..n]), cs[n], ws[n], low, high);
    }
  }

  lemma QuotientBetween(c: real, w: real, low: real, high: real)
    requires w > 0.0 && Between(c, w, low, high)
    ensures low <= c / w <= high
  {
    var e := c / w;
    assert e * w == c;
    assert (e - low) * w >= 0.0 && (high - e) * w >= 0.0;
  }

  lemma WeightedReward(w: real, r: real, low: real, high: real)
    requires w >= 0.0 && low <= r <= high
    ensures Between(w * r, w, low, high)
  {
    assert w * (r - low) >= 0.0 && w * (high - r) >= 0.0;
  }

  lemma RewardBetween(i: Input, o: Observation)
    requires HeadOk(i) && RowOk(i, o) && i.estimator == SelfNormalized
    ensures Between(Contribution(i, o), Weight(i, o), i.low, i.high)
  {
    WeightFacts(i, o);
    hide Weight, HeadOk;
    WeightedReward(Weight(i, o), o.reward, i.low, i.high);
  }

  /** The self-normalized estimate is a weighted average of rewards, and so within their bounds. */
  lemma SelfNormalizedInRewardBounds(i: Input)
    requires Accepted(i) && i.estimator == SelfNormalized
    ensures Sum(Weights(i, i.rows)) > 0.0
    ensures i.low <= Sum(Contributions(i, i.rows)) / Sum(Weights(i, i.rows)) <= i.high
  {
    EffectiveSampleSizeInRange(i, Weights(i, i.rows));
    hide Sum, SumSquares, Squared, Weight, HeadOk, Between, RowOk, Contribution, Supported, IdsDistinct;
    forall k | 0 <= k < |i.rows| ensures Between(Contributions(i, i.rows)[k], Weights(i, i.rows)[k], i.low, i.high) {
      RewardBetween(i, i.rows[k]);
    }
    SumsBetween(Contributions(i, i.rows), Weights(i, i.rows), i.low, i.high);
    QuotientBetween(Sum(Contributions(i, i.rows)), Sum(Weights(i, i.rows)), i.low, i.high);
  }

  lemma {:induction false} SumOfOnes(n: nat)
    ensures Sum(seq(n, k => 1.0)) == n as real
  {
    if n > 0 {
      SumOfOnes(n - 1);
      assert seq(n, k => 1.0)[..n - 1] == seq(n - 1, k => 1.0);
    }
  }

  /** The mean of the contributions is within the range they are reported to have. */
  lemma MeanInContributionRange(cs: seq<real>, low: real, high: real)
    requires cs != [] && forall k :: 0 <= k < |cs| ==> low <= cs[k] <= high
    ensures low <= Sum(cs) / |cs| as real <= high
  {
    hide Sum;
    var ones := seq(|cs|, k => 1.0);
    assert forall k :: 0 <= k < |cs| ==> Between(cs[k], ones[k], low, high);
    SumsBetween(cs, ones, low, high);
    SumOfOnes(|cs|);
    QuotientBetween(Sum(cs), |cs| as real, low, high);
  }

  function Targets(rows: seq<Observation>): seq<real>
    requires forall k :: 0 <= k < |rows| ==> rows[k].model.Some?
  {
    seq(|rows|, k requires 0 <= k < |rows| => rows[k].model.value.target)
  }

  lemma Residual(w: real, most: real, r: real, width: real)
    requires 0.0 <= w <= most && -width <= r <= width && width >= 0.0
    ensures -(most * width) <= w * r <= most * width
  {
    ResidualProduct(w, most, r, width);
  }

  lemma ResidualProduct(w: real, most: real, r: real, width: real)
    requires 0.0 <= w <= most && -width <= r <= width && width >= 0.0
    ensures -Product(most, width) <= Product(w, r) <= Product(most, width)
  {
    hide Product;
    ProductOrder(w, r, width);
    ProductOrder(w, -width, r);
    ProductNegates(w, width);
    ProductCommutes(w, width);
    ProductCommutes(most, width);
    ProductOrder(width, w, most);
  }

  lemma {:induction false} DifferencesBetween(cs: seq<real>, ts: seq<real>, d: real)
    requires |cs| == |ts| && forall k :: 0 <= k < |cs| ==> -d <= cs[k] - ts[k] <= d
    ensures Between(Sum(cs) - Sum(ts), |cs| as real, -d, d)
    decreases |cs|
  {
    if cs == [] {
      assert Sum(cs) == 0.0 && Sum(ts) == 0.0;
    } else {
      var n := |cs| - 1;
      DifferencesBetween(cs[..n], ts[..n], d);
      assert Between(cs[n] - ts[n], 1.0, -d, d);
      hide Between;
      BetweenStep(Sum(cs[..n]) - Sum(ts[..n]), n as real, cs[n] - ts[n], 1.0, -d, d);
    }
  }

  lemma MeansBetween(a: real, b: real, d: real, n: nat)
    requires n > 0 && Between(a - b, n as real, -d, d)
    ensures -d <= a / n as real - b / n as real <= d
  {
    hide Between;
    QuotientBetween(a - b, n as real, -d, d);
    QuotientsSubtract(a, b, n as real);
  }

  lemma ContributionNearTarget(i: Input, o: Observation, most: real)
    requires HeadOk(i) && RowOk(i, o) && i.estimator == DoublyRobust && Weight(i, o) <= most
    ensures -(most * (i.high - i.low)) <= Contribution(i, o) - o.model.value.target <= most * (i.high - i.low)
  {
    WeightFacts(i, o);
    hide Weight;
    Residual(Weight(i, o), most, o.reward - o.model.value.logged, i.high - i.low);
  }

  /** The doubly robust estimate differs from the mean model prediction by at most the largest weight
      used times the width of the reward bounds. */
  lemma DoublyRobustNearModel(i: Input, most: real)
    requires Accepted(i) && i.estimator == DoublyRobust && HeadOk(i)
    requires forall k :: 0 <= k < |i.rows| ==> Weights(i, i.rows)[k] <= most
    ensures forall k :: 0 <= k < |i.rows| ==> i.rows[k].model.Some?
    ensures var gap := Sum(Contributions(i, i.rows)) / |i.rows| as real - Sum(Targets(i.rows)) / |i.rows| as real;
            -(most * (i.high - i.low)) <= gap <= most * (i.high - i.low)
  {
    AcceptedMeans(i);
    hide Sum, Weight, Between, Contribution, Accepted, OverlapOk;
    var d := most * (i.high - i.low);
    forall k | 0 <= k < |i.rows|
      ensures -d <= Contributions(i, i.rows)[k] - Targets(i.rows)[k] <= d
    {
      assert Weights(i, i.rows)[k] <= most;
      ContributionNearTarget(i, i.rows[k], most);
    }
    DifferencesBetween(Contributions(i, i.rows), Targets(i.rows), d);
    MeansBetween(Sum(Contributions(i, i.rows)), Sum(Targets(i.rows)), d, |i.rows|);
  }

  // ---------------------------------------------------------------- the evaluation

  function Smaller(): (real, real) -> bool { (a, b) => a < b }

  lemma RangeOf(cs: seq<real>)
    requires cs != []
    ensures var sorted := Sort(Smaller(), cs);
            && |sorted| == |cs| && sorted[0] in cs && sorted[|sorted| - 1] in cs
            && forall k :: 0 <= k < |cs| ==> sorted[0] <= cs[k] <= sorted[|sorted| - 1]
  {
    var sorted := Sort(Smaller(), cs);
    SortSorts(Smaller(), cs);
    assert |sorted| == |multiset(sorted)| == |multiset(cs)| == |cs|;
    SameMembers(cs, sorted);
    forall k | 0 <= k < |cs| ensures sorted[0] <= cs[k] <= sorted[|sorted| - 1] {
      assert cs[k] in sorted;
      var j :| 0 <= j < |sorted| && sorted[j] == cs[k];
      assert j > 0 ==> !Smaller()(sorted[j], sorted[0]);
      assert j < |sorted| - 1 ==> !Smaller()(sorted[|sorted| - 1], sorted[j]);
    }
  }

  /** The running values of one evaluation, n rows in. */
  datatype Tally = Tally(weights: seq<real>, contributions: seq<real>, total: real, squares: real,
                         maximum: real, minimum: real, clipped: nat)

  ghost predicate Tallied(i: Input, n: nat, t: Tally)
    requires RowsOk(i, i.rows) && n <= |i.rows|
  {
    && t.weights == Weights(i, i.rows[..n]) && t.contributions == Contributions(i, i.rows[..n])
    && t.total == Sum(t.weights) && t.squares == SumSquares(t.weights)
    && t.maximum == MaximumWeight(i.rows[..n]) && t.minimum == MinimumPropensity(i.rows[..n])
    && t.clipped == Clipped(i, i.rows[..n])
  }

  lemma TallyStep(i: Input, n: nat, t: Tally)
    requires RowsOk(i, i.rows) && n < |i.rows| && Tallied(i, n, t)
    ensures var o := i.rows[n];
            Tallied(i, n + 1, Tally(
              t.weights + [Weight(i, o)], t.contributions + [Contribution(i, o)],
              t.total + Weight(i, o), t.squares + Weight(i, o) * Weight(i, o),
              if o.probability > 0.0 then Max(t.maximum, RawWeight(o)) else t.maximum,
              if o.probability > 0.0 then Min(t.minimum, o.propensity) else t.minimum,
              if i.clipping.Some? && RawWeight(o) > i.clipping.value then t.clipped + 1 else t.clipped))
  {
    assert i.rows[..n + 1][..n] == i.rows[..n];
    assert RowOk(i, i.rows[n]);
    hide Weight, Contribution, RowOk, RawWeight, Max, Min;
    assert (t.weights + [Weight(i, i.rows[n])])[..n] == t.weights;
  }

  /** What an evaluation reports of an accepted log. */
  ghost predicate Evaluates(i: Input, e: Evaluation)
    requires Accepted(i)
  {
    AcceptedMeans(i);
    var ws, cs := Weights(i, i.rows), Contributions(i, i.rows);
    && e.supported == Supported(i.rows)
    && e.maximumWeight == MaximumWeight(i.rows) && e.minimumPropensity == MinimumPropensity(i.rows)
    && e.clipped == Clipped(i, i.rows)
    && SumSquares(ws) > 0.0 && e.effectiveSampleSize == Squared(Sum(ws)) / SumSquares(ws)
    && Sum(ws) > 0.0
    && e.estimate == Sum(cs) / (if i.estimator == SelfNormalized then Sum(ws) else |i.rows| as real)
    && e.lowest in cs && e.highest in cs
    && forall k :: 0 <= k < |cs| ==> e.lowest <= cs[k] <= e.highest
  }

  /** Evaluates the policy on the log, or refuses it. */
  method EvaluateOpe(i: Input) returns (r: Option<Evaluation>)
    ensures r == None <==> !Accepted(i)
    ensures r.Some? ==> Evaluates(i, r.value)
  {
    hide *;
    var ok := ValidateInput(i);
    if !ok {
      return None;
    }
    AcceptedMeans(i);
    var t := Tally([], [], 0.0, 0.0, 0.0, 1.0, 0);
    NothingTallied(i);
    for n := 0 to |i.rows|
      invariant Tallied(i, n, t)
    {
      TallyStep(i, n, t);
      RowDivisible(i, n);
      var o := i.rows[n];
      var w := Weight(i, o);
      var maximum, minimum, clipped := t.maximum, t.minimum, t.clipped;
      if i.clipping.Some? && RawWeight(o) > i.clipping.value {
        clipped := clipped + 1;
      }
      if o.probability > 0.0 {
        maximum, minimum := Max(maximum, RawWeight(o)), Min(minimum, o.propensity);
      }
      t := Tally(t.weights + [w], t.contributions + [Contribution(i, o)], t.total + w, t.squares + w * w,
                 maximum, minimum, clipped);
    }
    AllTallied(i, t);
    EffectiveSampleSizeInRange(i, t.weights);
    RangeOf(t.contributions);
    var sorted := Sort(Smaller(), t.contributions);
    var estimate := Sum(t.contributions) / (if i.estimator == SelfNormalized then t.total else |i.rows| as real);
    r := Some(Evaluation(estimate, Supported(i.rows), t.maximum, t.minimum, t.total * t.total / t.squares, t.clipped,
                         sorted[0], sorted[|sorted| - 1]));
    SquareIsProduct(t.total);
    EvaluatesIs(i, r.value);
  }

  lemma EvaluatesIs(i: Input, e: Evaluation)
    requires Accepted(i) && RowsOk(i, i.rows) && i.rows != []
    requires forall k :: 0 <= k < |i.rows| ==> i.rows[k].propensity != 0.0
    requires var ws, cs := Weights(i, i.rows), Contributions(i, i.rows);
             && e.supported == Supported(i.rows)
             && e.maximumWeight == MaximumWeight(i.rows) && e.minimumPropensity == MinimumPropensity(i.rows)
             && e.clipped == Clipped(i, i.rows)
             && SumSquares(ws) > 0.0 && e.effectiveSampleSize == Squared(Sum(ws)) / SumSquares(ws)
             && Sum(ws) > 0.0
             && e.estimate == Sum(cs) / (if i.estimator == SelfNormalized then Sum(ws) else |i.rows| as real)
             && e.lowest in cs && e.highest in cs
             && forall k :: 0 <= k < |cs| ==> e.lowest <= cs[k] <= e.highest
    ensures Evaluates(i, e)
  {
    hide RowOk, Sum, SumSquares, Squared, Weight, Contribution, MaximumWeight, MinimumPropensity, Clipped, Supported;
  }

  lemma SquareIsProduct(x: real)
    ensures Squared(x) == x * x
  {
  }

  lemma AcceptedMeans(i: Input)
    requires Accepted(i)
    ensures i.rows != [] && RowsOk(i, i.rows)
    ensures forall k :: 0 <= k < |i.rows| ==> i.rows[k].propensity != 0.0
  {
  }

  lemma RowDivisible(i: Input, n: nat)
    requires RowsOk(i, i.rows) && n < |i.rows|
    ensures i.rows[n].propensity != 0.0 && RowOk(i, i.rows[n])
  {
  }

  lemma NothingTallied(i: Input)
    requires RowsOk(i, i.rows)
    ensures Tallied(i, 0, Tally([], [], 0.0, 0.0, 0.0, 1.0, 0))
  {
  }

  lemma AllTallied(i: Input, t: Tally)
    requires RowsOk(i, i.rows) && Tallied(i, |i.rows|, t)
    ensures t.weights == Weights(i, i.rows) && t.contributions == Contributions(i, i.rows)
    ensures |t.contributions| == |i.rows|
    ensures t.total == Sum(t.weights) && t.squares == SumSquares(t.weights)
    ensures forall k :: 0 <= k < |i.rows| ==> i.rows[k].propensity != 0.0
    ensures t.maximum == MaximumWeight(i.rows) && t.minimum == MinimumPropensity(i.rows)
    ensures t.clipped == Clipped(i, i.rows)
  {
    assert i.rows[..|i.rows|] == i.rows;
  }

  /** The ordinary and doubly robust estimates lie in the contribution range; the self-normalized one
      lies in the reward bounds; and the sample size is what it may be. */
  lemma EvaluationIsInRange(i: Input, e: Evaluation)
    requires Accepted(i) && Evaluates(i, e)
    ensures i.estimator == SelfNormalized ==> i.low <= e.estimate <= i.high
    ensures i.estimator != SelfNormalized ==> e.lowest <= e.estimate <= e.highest
  {
    hide Sum, SumSquares, Weight, Contribution, RowOk, MaximumWeight, MinimumPropensity, Clipped, Supported, Squared;
    if i.estimator == SelfNormalized {
      SelfNormalizedInRewardBounds(i);
    } else {
      MeanInContributionRange(Contributions(i, i.rows), e.lowest, e.highest);
    }
  }
}
