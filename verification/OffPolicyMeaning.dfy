/** What an evaluation says of its log, row by row. */
module OffPolicyMeaning {
  // Nothing here speaks of the functions that compute an evaluation: weights are the numbers that give the
  // target probability times the propensity, and counts and bounds are those of the rows.

  import opened Money
  import opened OffPolicy
  import opened Reals

  // ---------------------------------------------------------------- acceptance

  /** The ratio of the probabilities is at most a bound. */
  ghost predicate Under(o: Observation, bound: real) { o.probability <= bound * o.propensity }

  ghost predicate Equals(o: Observation, ratio: real) { o.probability == ratio * o.propensity }

  /** A row as an estimator may use it: an action the target policy can take was logged often enough, and
      more often than a bound on weights allows only where clipping says what to do. */
  ghost predicate Usable(i: Input, o: Observation) {
    && o.wellFormed && i.low <= o.reward <= i.high
    && 0.0 < o.propensity <= 1.0 && 0.0 <= o.probability <= 1.0
    && (o.probability == 0.0 || i.minPropensity <= o.propensity)
    && (Under(o, i.overlapMax) || i.clipping != None)
    && (Under(o, i.policyMax) || (i.clipping != None && i.clipping.value <= i.policyMax))
    && (i.estimator == DoublyRobust ==>
          o.model != None && i.low <= o.model.value.target <= i.high && i.low <= o.model.value.logged <= i.high)
  }

  /** A log that meets every gate. */
  ghost predicate Admissible(i: Input) {
    && i.low < i.high && 0.0 < i.minPropensity <= 1.0 && 0.0 < i.overlapMax && 0.0 < i.policyMax
    && (i.clipping == None || 0.0 < i.clipping.value) && i.otherwiseOk
    && (forall k :: 0 <= k < |i.rows| ==> Usable(i, i.rows[k]))
    && (forall j, k :: 0 <= j < k < |i.rows| ==> i.rows[j].id != i.rows[k].id)
    && exists k :: 0 <= k < |i.rows| && i.rows[k].probability > 0.0
  }

  lemma Exceeds(p: real, q: real, bound: real)
    requires q > 0.0
    ensures p / q > bound <==> p > bound * q
    ensures p / q * q == p
  {
    var w := p / q;
    assert w * q == p;
    assert w > bound ==> w * q > bound * q;
    assert w <= bound ==> w * q <= bound * q;
  }

  lemma PositiveBound(bound: real, q: real)
    requires bound > 0.0 && q > 0.0
    ensures bound * q > 0.0
  {
  }

  lemma RowOkExactly(i: Input, o: Observation)
    requires i.overlapMax > 0.0 && i.policyMax > 0.0
    ensures RowOk(i, o) <==> Usable(i, o)
  {
    if 0.0 < o.propensity <= 1.0 {
      Exceeds(o.probability, o.propensity, i.overlapMax);
      Exceeds(o.probability, o.propensity, i.policyMax);
      PositiveBound(i.overlapMax, o.propensity);
      PositiveBound(i.policyMax, o.propensity);
    }
  }

  lemma {:induction false} SupportedCounts(rows: seq<Observation>)
    ensures Supported(rows) == |set k | 0 <= k < |rows| && rows[k].probability > 0.0|
    decreases |rows|
  {
    if rows != [] {
      var n := |rows| - 1;
      SupportedCounts(rows[..n]);
      var before := set k | 0 <= k < n && rows[..n][k].probability > 0.0;
      var all := set k | 0 <= k < |rows| && rows[k].probability > 0.0;
      assert all == before + if rows[n].probability > 0.0 then {n} else {};
    }
  }

  lemma RowsOkExactly(i: Input)
    requires i.overlapMax > 0.0 && i.policyMax > 0.0
    ensures RowsOk(i, i.rows) <==> forall k :: 0 <= k < |i.rows| ==> Usable(i, i.rows[k])
  {
    hide RowOk, Usable;
    forall k | 0 <= k < |i.rows| ensures RowOk(i, i.rows[k]) <==> Usable(i, i.rows[k]) {
      RowOkExactly(i, i.rows[k]);
    }
  }

  lemma SomeSupported(rows: seq<Observation>)
    ensures Supported(rows) > 0 <==> exists k :: 0 <= k < |rows| && rows[k].probability > 0.0
  {
    hide Supported;
    SupportedCounts(rows);
    var counted := set k | 0 <= k < |rows| && rows[k].probability > 0.0;
    if |counted| > 0 {
      var k :| k in counted;
    } else {
      assert forall k :: 0 <= k < |rows| && rows[k].probability > 0.0 ==> k in counted;
    }
  }

  /** The log is accepted if and only if it meets every gate. */
  lemma AcceptedExactly(i: Input)
    ensures Accepted(i) <==> Admissible(i)
  {
    hide RowsOk, Usable, Supported;
    SomeSupported(i.rows);
    if i.overlapMax > 0.0 && i.policyMax > 0.0 {
      RowsOkExactly(i);
    }
  }

  // ---------------------------------------------------------------- the numbers

  /** The weight used of a row: the ratio of its probabilities, or the clip if that is smaller. */
  ghost predicate Weighs(i: Input, o: Observation, w: real) {
    && w * o.propensity <= o.probability && (i.clipping.Some? ==> w <= i.clipping.value)
    && (w * o.propensity == o.probability || i.clipping == Some(w))
  }

  /** What a row adds: its weighted reward; or the model's target plus what the reward is above the model's
      value of the logged action, weighted. */
  ghost predicate Adds(i: Input, o: Observation, w: real, c: real) {
    if i.estimator == DoublyRobust
    then o.model.Some? && c == o.model.value.target + w * (o.reward - o.model.value.logged)
    else c == w * o.reward
  }

  ghost predicate Numbers(i: Input, ws: seq<real>, cs: seq<real>) {
    && |ws| == |i.rows| == |cs|
    && forall k :: 0 <= k < |i.rows| ==> Weighs(i, i.rows[k], ws[k]) && Adds(i, i.rows[k], ws[k], cs[k])
  }

  ghost function Squares(ws: seq<real>): seq<real> { seq(|ws|, k requires 0 <= k < |ws| => ws[k] * ws[k]) }

  /** Sums of an evaluation: the mean of what the rows add, over their number or over their weights, and the
      number of equal weights that would weigh as evenly. */
  ghost predicate SumsUp(i: Input, e: Evaluation, ws: seq<real>, cs: seq<real>) {
    && Sum(ws) > 0.0 && Sum(Squares(ws)) > 0.0
    && e.estimate * (if i.estimator == SelfNormalized then Sum(ws) else |i.rows| as real) == Sum(cs)
    && e.effectiveSampleSize * Sum(Squares(ws)) == Sum(ws) * Sum(ws)
    && e.lowest in cs && e.highest in cs && forall k :: 0 <= k < |cs| ==> e.lowest <= cs[k] <= e.highest
  }

  /** m is the largest ratio of probabilities, before clipping, of the actions the target policy can take. */
  ghost predicate MostWeighing(rows: seq<Observation>, m: real) {
    && (forall k :: 0 <= k < |rows| && rows[k].probability > 0.0 ==> Under(rows[k], m))
    && exists k :: 0 <= k < |rows| && rows[k].probability > 0.0 && Equals(rows[k], m)
  }

  /** q is the smallest propensity of those actions. */
  ghost predicate LeastLogged(rows: seq<Observation>, q: real) {
    && (forall k :: 0 <= k < |rows| && rows[k].probability > 0.0 ==> q <= rows[k].propensity)
    && exists k :: 0 <= k < |rows| && rows[k].probability > 0.0 && rows[k].propensity == q
  }

  ghost function AboveClip(i: Input, rows: seq<Observation>): set<int> {
    set k | 0 <= k < |rows| && i.clipping.Some? && !Under(rows[k], i.clipping.value)
  }

  /** Of those actions, how many they are, their largest ratio and their smallest propensity; and how many
      ratios are above the clip. */
  ghost predicate Overlaps(i: Input, e: Evaluation) {
    && MostWeighing(i.rows, e.maximumWeight) && LeastLogged(i.rows, e.minimumPropensity)
    && e.supported == |set k | 0 <= k < |i.rows| && i.rows[k].probability > 0.0|
    && e.clipped == |AboveClip(i, i.rows)|
  }

  ghost predicate Says(i: Input, e: Evaluation) {
    Overlaps(i, e) && exists ws, cs :: Numbers(i, ws, cs) && SumsUp(i, e, ws, cs)
  }

  lemma WeightWeighs(i: Input, o: Observation)
    requires 0.0 < o.propensity
    ensures Weighs(i, o, Weight(i, o))
  {
    Exceeds(o.probability, o.propensity, if i.clipping.Some? then i.clipping.value else 0.0);
  }

  lemma NumbersAre(i: Input)
    requires RowsOk(i, i.rows)
    ensures Numbers(i, Weights(i, i.rows), Contributions(i, i.rows))
  {
    hide Weighs, Weight;
    forall k | 0 <= k < |i.rows|
      ensures Weighs(i, i.rows[k], Weight(i, i.rows[k]))
      ensures Adds(i, i.rows[k], Weight(i, i.rows[k]), Contribution(i, i.rows[k]))
    {
      WeightWeighs(i, i.rows[k]);
    }
  }

  lemma {:induction false} SquaresAdd(ws: seq<real>)
    ensures SumSquares(ws) == Sum(Squares(ws))
    decreases |ws|
  {
    if ws != [] {
      var n := |ws| - 1;
      SquaresAdd(ws[..n]);
      SquareIsProduct(ws[n]);
      forall k | 0 <= k < n ensures Squares(ws)[k] == Squares(ws[..n])[k] {
        assert ws[..n][k] == ws[k];
      }
      assert Squares(ws)[..n] == Squares(ws[..n]);
    }
  }

  lemma RawRatio(o: Observation, m: real)
    requires o.propensity > 0.0
    ensures RawWeight(o) * o.propensity == o.probability
    ensures Under(o, m) <==> RawWeight(o) <= m
    ensures o.probability > 0.0 ==> RawWeight(o) > 0.0
  {
    Exceeds(o.probability, o.propensity, m);
    if o.probability > 0.0 {
      Ratio(o.probability, o.propensity);
    }
  }

  lemma {:induction false} RatiosUnder(i: Input, rows: seq<Observation>, k: nat)
    requires RowsOk(i, rows) && k < |rows| && rows[k].probability > 0.0
    ensures Under(rows[k], MaximumWeight(rows))
    decreases |rows|
  {
    assert RowOk(i, rows[k]) && RowOk(i, rows[|rows| - 1]);
    hide RowOk, Under, RawWeight;
    var n := |rows| - 1;
    RawRatio(rows[k], MaximumWeight(rows));
    if k < n {
      RatiosUnder(i, rows[..n], k);
      RawRatio(rows[k], MaximumWeight(rows[..n]));
    }
  }

  lemma {:induction false} NoRatio(rows: seq<Observation>)
    requires forall k :: 0 <= k < |rows| ==> rows[k].propensity != 0.0
    requires Supported(rows) == 0
    ensures MaximumWeight(rows) == 0.0
    decreases |rows|
  {
    if rows != [] {
      NoRatio(rows[..|rows| - 1]);
    }
  }

  lemma {:induction false} SomeRatio(i: Input, rows: seq<Observation>) returns (k: nat)
    requires RowsOk(i, rows) && Supported(rows) > 0
    ensures k < |rows| && rows[k].probability > 0.0 && rows[k].propensity != 0.0
    ensures RawWeight(rows[k]) == MaximumWeight(rows)
    decreases |rows|
  {
    var n := |rows| - 1;
    assert RowOk(i, rows[n]);
    RowsDivisible(i, rows);
    hide RowOk, RawWeight;
    RawRatio(rows[n], 0.0);
    if Supported(rows[..n]) == 0 {
      NoRatio(rows[..n]);
      k := n;
    } else if rows[n].probability > 0.0 && RawWeight(rows[n]) == MaximumWeight(rows) {
      k := n;
    } else {
      k := SomeRatio(i, rows[..n]);
    }
  }

  lemma RowsDivisible(i: Input, rows: seq<Observation>)
    requires RowsOk(i, rows)
    ensures forall k :: 0 <= k < |rows| ==> rows[k].propensity > 0.0
  {
  }

  lemma LargestRatio(i: Input, rows: seq<Observation>)
    requires RowsOk(i, rows) && Supported(rows) > 0
    ensures MostWeighing(rows, MaximumWeight(rows))
  {
    hide MaximumWeight, RowOk, Under, Supported;
    var k := SomeRatio(i, rows);
    RowsDivisible(i, rows);
    RawRatio(rows[k], 0.0);
    forall j | 0 <= j < |rows| && rows[j].probability > 0.0 ensures Under(rows[j], MaximumWeight(rows)) {
      RatiosUnder(i, rows, j);
    }
  }

  lemma {:induction false} PropensitiesAbove(rows: seq<Observation>, k: nat)
    requires k < |rows| && rows[k].probability > 0.0
    ensures MinimumPropensity(rows) <= rows[k].propensity
    decreases |rows|
  {
    if k < |rows| - 1 {
      PropensitiesAbove(rows[..|rows| - 1], k);
    }
  }

  lemma {:induction false} NoPropensity(rows: seq<Observation>)
    requires Supported(rows) == 0
    ensures MinimumPropensity(rows) == 1.0
    decreases |rows|
  {
    if rows != [] {
      NoPropensity(rows[..|rows| - 1]);
    }
  }

  lemma {:induction false} SomePropensity(i: Input, rows: seq<Observation>) returns (k: nat)
    requires RowsOk(i, rows) && Supported(rows) > 0
    ensures k < |rows| && rows[k].probability > 0.0 && rows[k].propensity == MinimumPropensity(rows)
    decreases |rows|
  {
    var n := |rows| - 1;
    assert RowOk(i, rows[n]) && rows[n].propensity <= 1.0;
    hide RowOk;
    if Supported(rows[..n]) == 0 {
      NoPropensity(rows[..n]);
      k := n;
    } else if rows[n].probability > 0.0 && rows[n].propensity == MinimumPropensity(rows) {
      k := n;
    } else {
      k := SomePropensity(i, rows[..n]);
    }
  }

  lemma SmallestPropensity(i: Input, rows: seq<Observation>)
    requires RowsOk(i, rows) && Supported(rows) > 0
    ensures LeastLogged(rows, MinimumPropensity(rows))
  {
    hide MinimumPropensity, RowOk, Supported;
    var k := SomePropensity(i, rows);
    forall j | 0 <= j < |rows| && rows[j].probability > 0.0 ensures MinimumPropensity(rows) <= rows[j].propensity {
      PropensitiesAbove(rows, j);
    }
  }

  lemma {:induction false} ClippedCounts(i: Input, rows: seq<Observation>)
    requires RowsOk(i, rows)
    ensures Clipped(i, rows) == |AboveClip(i, rows)|
    decreases |rows|
  {
    if rows != [] {
      var n := |rows| - 1;
      ClippedCounts(i, rows[..n]);
      RowsDivisible(i, rows);
      RawRatio(rows[n], if i.clipping.Some? then i.clipping.value else 0.0);
      hide RowOk, RawWeight, Under;
      var above := i.clipping.Some? && !Under(rows[n], i.clipping.value);
      assert AboveClip(i, rows) == AboveClip(i, rows[..n]) + if above then {n} else {};
    }
  }

  lemma OverlapReported(i: Input, e: Evaluation)
    requires Accepted(i) && Evaluates(i, e)
    ensures Overlaps(i, e)
  {
    hide RowOk, Sum, SumSquares, Weights, Contributions, MaximumWeight, MinimumPropensity, Clipped, Supported;
    hide MostWeighing, LeastLogged, AboveClip, HeadOk, IdsDistinct;
    AcceptedMeans(i);
    LargestRatio(i, i.rows);
    SmallestPropensity(i, i.rows);
    SupportedCounts(i.rows);
    ClippedCounts(i, i.rows);
  }

  lemma Divided(x: real, y: real, z: real)
    requires y > 0.0 && z == x / y
    ensures z * y == x
  {
  }

  /** An evaluation of an accepted log says what its rows add up to. */
  lemma EvaluationSays(i: Input, e: Evaluation)
    requires Accepted(i) && Evaluates(i, e)
    ensures Says(i, e)
  {
    hide Overlaps, Numbers, Weights, Contributions, Sum, SumSquares, MaximumWeight, MinimumPropensity, Clipped;
    hide Supported, RowOk, HeadOk, IdsDistinct, Squared, Squares;
    AcceptedMeans(i);
    OverlapReported(i, e);
    NumbersAre(i);
    var ws, cs := Weights(i, i.rows), Contributions(i, i.rows);
    SquaresAdd(ws);
    SquareIsProduct(Sum(ws));
    Divided(Sum(ws) * Sum(ws), SumSquares(ws), e.effectiveSampleSize);
    Divided(Sum(cs), if i.estimator == SelfNormalized then Sum(ws) else |i.rows| as real, e.estimate);
    assert SumsUp(i, e, ws, cs);
  }

  // ---------------------------------------------------------------- nothing is left open

  lemma SameFactor(x: real, y: real, z: real)
    requires z > 0.0 && x * z == y * z
    ensures x == y
  {
    assert (x - y) * z == 0.0;
    assert x > y ==> (x - y) * z > 0.0;
    assert y > x ==> (y - x) * z > 0.0;
  }

  lemma OneWeight(i: Input, o: Observation, w: real, v: real)
    requires o.propensity > 0.0 && Weighs(i, o, w) && Weighs(i, o, v)
    ensures w == v
  {
    assert w < v ==> w * o.propensity < v * o.propensity;
    assert v < w ==> v * o.propensity < w * o.propensity;
  }

  lemma Cancels(x: real, y: real, q: real)
    requires q > 0.0 && x * q <= y * q
    ensures x <= y
  {
    assert x > y ==> x * q > y * q;
  }

  lemma NumbersAreDetermined(i: Input, ws: seq<real>, cs: seq<real>, vs: seq<real>, ds: seq<real>)
    requires RowsOk(i, i.rows) && Numbers(i, ws, cs) && Numbers(i, vs, ds)
    ensures ws == vs && cs == ds
  {
    hide Weighs, RowOk, Adds;
    RowsDivisible(i, i.rows);
    forall k | 0 <= k < |i.rows| ensures ws[k] == vs[k] && cs[k] == ds[k] {
      OneWeight(i, i.rows[k], ws[k], vs[k]);
      OneAddition(i, i.rows[k], ws[k], cs[k], ds[k]);
    }
  }

  lemma OneAddition(i: Input, o: Observation, w: real, c: real, d: real)
    requires Adds(i, o, w, c) && Adds(i, o, w, d)
    ensures c == d
  {
  }

  lemma OneLargest(i: Input, m: real, n: real)
    requires RowsOk(i, i.rows) && MostWeighing(i.rows, m) && MostWeighing(i.rows, n)
    ensures m <= n
  {
    RowsDivisible(i, i.rows);
    hide RowsOk, Equals, Under;
    var k :| 0 <= k < |i.rows| && i.rows[k].probability > 0.0 && Equals(i.rows[k], m);
    EqualUnder(i.rows[k], m, n);
  }

  lemma EqualUnder(o: Observation, m: real, n: real)
    requires o.propensity > 0.0 && Equals(o, m) && Under(o, n)
    ensures m <= n
  {
    Cancels(m, n, o.propensity);
  }

  lemma SumsAreDetermined(i: Input, e: Evaluation, f: Evaluation, ws: seq<real>, cs: seq<real>)
    requires i.rows != [] && SumsUp(i, e, ws, cs) && SumsUp(i, f, ws, cs)
    ensures e.estimate == f.estimate && e.effectiveSampleSize == f.effectiveSampleSize
    ensures e.lowest == f.lowest && e.highest == f.highest
  {
    hide Sum, Squares;
    SameFactor(e.estimate, f.estimate, if i.estimator == SelfNormalized then Sum(ws) else |i.rows| as real);
    SameFactor(e.effectiveSampleSize, f.effectiveSampleSize, Sum(Squares(ws)));
  }

  /** A log has one evaluation that says what its rows add up to. */
  lemma EvaluationIsDetermined(i: Input, e: Evaluation, f: Evaluation)
    requires Accepted(i) && Says(i, e) && Says(i, f)
    ensures e == f
  {
    hide RowsOk, Numbers, SumsUp, MostWeighing, LeastLogged, AboveClip, HeadOk, Supported;
    AcceptedMeans(i);
    var ws, cs :| Numbers(i, ws, cs) && SumsUp(i, e, ws, cs);
    var vs, ds :| Numbers(i, vs, ds) && SumsUp(i, f, vs, ds);
    NumbersAreDetermined(i, ws, cs, vs, ds);
    SumsAreDetermined(i, e, f, ws, cs);
    OneLargest(i, e.maximumWeight, f.maximumWeight);
    OneLargest(i, f.maximumWeight, e.maximumWeight);
    OneSmallest(i.rows, e.minimumPropensity, f.minimumPropensity);
  }

  lemma OneSmallest(rows: seq<Observation>, q: real, r: real)
    requires LeastLogged(rows, q) && LeastLogged(rows, r)
    ensures q == r
  {
  }
}
