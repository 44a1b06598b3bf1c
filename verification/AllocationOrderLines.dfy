/** Listings made from the same groups are permutations of each other, and sorting makes them equal. */
module AllocationOrderLines {
  import opened Money
  import opened Rate
  import opened Tables
  import opened Holdings
  import opened Shares
  import opened AllocationRules
  import opened AllocationGroups
  import opened AllocationLines
  import opened AllocationLineage
  import opened AllocationOrder

  // ---------------------------------------------------------------- drivers

  predicate Drives(l: Line, id: Identity, centre: string) {
    l.item.identity == id && l.centre == centre && l.item.amount.coefficient > 0
  }

  ghost function DriverIn(id: Identity, centre: string): Line -> real {
    (l: Line) => if Drives(l, id, centre) then Value(l.item.amount) else 0.0
  }

  predicate HasDriver(d: Drivers, id: Identity, centre: string) { id in d.at && centre in d.at[id].at }

  ghost function DriverAmount(d: Drivers, id: Identity, centre: string): real {
    if HasDriver(d, id, centre) then Value(d.at[id].at[centre]) else 0.0
  }

  ghost predicate CanonicalLines(lines: seq<Line>) {
    forall i :: 0 <= i < |lines| ==> Canonical(lines[i].item.amount)
  }

  lemma AddDriverMeans(d: Drivers, l: Line, id: Identity, centre: string)
    ensures HasDriver(AddDriver(d, l), id, centre) <==> HasDriver(d, id, centre) || Drives(l, id, centre)
    ensures DriverAmount(AddDriver(d, l), id, centre) == DriverAmount(d, id, centre) + DriverIn(id, centre)(l)
    ensures id in AddDriver(d, l).at <==> id in d.at || Drives(l, id, l.centre)
  {
    hide Value;
  }

  lemma {:induction false} DriversMean(lines: seq<Line>, id: Identity, centre: string)
    ensures HasDriver(DriversOf(lines), id, centre) <==> exists l :: l in lines && Drives(l, id, centre)
    ensures DriverAmount(DriversOf(lines), id, centre) == Total(DriverIn(id, centre), lines)
    ensures id in DriversOf(lines).at <==> exists l :: l in lines && Drives(l, id, l.centre)
    decreases |lines|
  {
    hide AddDriver, HasDriver, Drives, DriverAmount, DriverIn;
    if lines == [] {
      NoDrivers(id, centre);
    } else {
      var n := |lines| - 1;
      DriversMean(lines[..n], id, centre);
      AddDriverMeans(DriversOf(lines[..n]), lines[n], id, centre);
      assert forall l :: l in lines <==> l in lines[..n] || l == lines[n];
    }
  }

  lemma NoDrivers(id: Identity, centre: string)
    ensures DriversOf([]).at == map[]
    ensures !HasDriver(DriversOf([]), id, centre) && DriverAmount(DriversOf([]), id, centre) == 0.0
  {
  }

  ghost predicate CanonicalDrivers(d: Drivers) {
    forall id, centre :: HasDriver(d, id, centre) ==> Canonical(d.at[id].at[centre])
  }

  lemma {:induction false} DriversCanonical(lines: seq<Line>)
    requires CanonicalLines(lines)
    ensures CanonicalDrivers(DriversOf(lines))
    decreases |lines|
  {
    if lines != [] {
      hide Canonical;
      DriversCanonical(lines[..|lines| - 1]);
    }
  }

  ghost predicate SameDrivers(d: Drivers, e: Drivers) {
    && (forall id :: id in d.at <==> id in e.at)
    && (forall id :: id in d.at && id in e.at ==> d.at[id].at == e.at[id].at)
  }

  lemma OneDriver(a: seq<Line>, b: seq<Line>, id: Identity, centre: string)
    requires multiset(a) == multiset(b) && CanonicalLines(a) && CanonicalLines(b)
    ensures HasDriver(DriversOf(a), id, centre) <==> HasDriver(DriversOf(b), id, centre)
    ensures HasDriver(DriversOf(a), id, centre) ==> DriversOf(a).at[id].at[centre] == DriversOf(b).at[id].at[centre]
    ensures id in DriversOf(a).at <==> id in DriversOf(b).at
  {
    hide DriversOf, Value, Canonical, Drives;
    DriversMean(a, id, centre);
    DriversMean(b, id, centre);
    SameMembers(a, b);
    TotalPermuted(DriverIn(id, centre), a, b);
    DriversCanonical(a);
    DriversCanonical(b);
    if HasDriver(DriversOf(a), id, centre) {
      CanonicalUnique(DriversOf(a).at[id].at[centre], DriversOf(b).at[id].at[centre]);
    }
  }

  /** Drivers do not depend on the order of the lines they are read from. */
  lemma DriversForgetOrder(a: seq<Line>, b: seq<Line>)
    requires multiset(a) == multiset(b) && CanonicalLines(a) && CanonicalLines(b)
    ensures SameDrivers(DriversOf(a), DriversOf(b))
  {
    hide DriversOf, CanonicalLines;
    forall id, centre
      ensures HasDriver(DriversOf(a), id, centre) <==> HasDriver(DriversOf(b), id, centre)
      ensures HasDriver(DriversOf(a), id, centre) ==> DriversOf(a).at[id].at[centre] == DriversOf(b).at[id].at[centre]
      ensures id in DriversOf(a).at <==> id in DriversOf(b).at
    {
      OneDriver(a, b, id, centre);
    }
    var d, e := DriversOf(a), DriversOf(b);
    forall id ensures id in d.at <==> id in e.at {
      OneDriver(a, b, id, "");
    }
    forall id | id in d.at && id in e.at ensures d.at[id].at == e.at[id].at {
      forall centre ensures centre in d.at[id].at <==> centre in e.at[id].at {
        assert HasDriver(d, id, centre) <==> HasDriver(e, id, centre);
      }
      forall centre | centre in d.at[id].at ensures d.at[id].at[centre] == e.at[id].at[centre] {
        assert HasDriver(d, id, centre);
      }
    }
  }

  // ---------------------------------------------------------------- weights

  lemma {:induction false} CommonScaleReached(d: Table<string, Decimal>, keys: seq<string>) returns (i: nat)
    requires CommonScale(d, keys) > 0
    ensures i < |keys| && keys[i] in d.at && d.at[keys[i]].scale == CommonScale(d, keys)
    decreases |keys|
  {
    var n := |keys| - 1;
    if keys[n] in d.at && d.at[keys[n]].scale == CommonScale(d, keys) {
      return n;
    }
    i := CommonScaleReached(d, keys[..n]);
  }

  lemma CommonScaleAtMost(d: Table<string, Decimal>, e: Table<string, Decimal>)
    requires Ok(d) && Ok(e) && d.at == e.at
    ensures CommonScale(d, d.order) <= CommonScale(e, e.order)
  {
    hide CommonScale;
    if CommonScale(d, d.order) > 0 {
      var i := CommonScaleReached(d, d.order);
      assert d.order[i] in e.order;
      var j :| 0 <= j < |e.order| && e.order[j] == d.order[i];
      CommonScaleCovers(e, e.order, j);
    }
  }

  function WeightAt(d: Table<string, Decimal>, common: nat): string -> seq<Weight> {
    (centre: string) => [DriverWeight(d, common, centre)]
  }

  lemma {:induction false} WeightsFlattened(d: Table<string, Decimal>, common: nat, keys: seq<string>)
    ensures Flatten(WeightAt(d, common), keys)
         == seq(|keys|, i requires 0 <= i < |keys| => DriverWeight(d, common, keys[i]))
    decreases |keys|
  {
    if keys != [] {
      hide DriverWeight;
      WeightsFlattened(d, common, keys[..|keys| - 1]);
    }
  }

  function WeightOf(): Weight -> real { (w: Weight) => w.weight as real }

  lemma {:induction false} DenominatorIsTotal(ws: seq<Weight>)
    ensures Denominator(ws) as real == Total(WeightOf(), ws)
    decreases |ws|
  {
    if ws != [] {
      DenominatorIsTotal(ws[..|ws| - 1]);
    }
  }

  lemma WeightsForgetOrder(d: Drivers, e: Drivers, id: Identity)
    requires DriversOk(d) && DriversOk(e) && SameDrivers(d, e) && id in d.at
    ensures multiset(PoolWeights(d, id)) == multiset(PoolWeights(e, id))
    ensures Denominator(PoolWeights(d, id)) == Denominator(PoolWeights(e, id))
  {
    hide CommonScale, DriverWeight, Denominator;
    var x, y := d.at[id], e.at[id];
    CommonScaleAtMost(x, y);
    CommonScaleAtMost(y, x);
    var common := CommonScale(x, x.order);
    SameElements(x.order, y.order);
    WeightsFlattened(x, common, x.order);
    WeightsFlattened(y, common, y.order);
    forall centre ensures DriverWeight(x, common, centre) == DriverWeight(y, common, centre) {
      SameWeight(x, y, common, centre);
    }
    FlattenPermuted(WeightAt(x, common), WeightAt(y, common), x.order, y.order);
    assert PoolWeights(d, id) == Flatten(WeightAt(x, common), x.order);
    assert PoolWeights(e, id) == Flatten(WeightAt(y, common), y.order);
    DenominatorIsTotal(PoolWeights(d, id));
    DenominatorIsTotal(PoolWeights(e, id));
    TotalPermuted(WeightOf(), PoolWeights(d, id), PoolWeights(e, id));
  }

  lemma SameWeight(x: Table<string, Decimal>, y: Table<string, Decimal>, common: nat, centre: string)
    requires x.at == y.at
    ensures DriverWeight(x, common, centre) == DriverWeight(y, common, centre)
  {
  }

  // ---------------------------------------------------------------- lines

  function LineFor(k: Place, b: Bucket, den: nat): Weight -> seq<Line> {
    (w: Weight) => if b.rule.Some? then [ShareLine(k, b, den, w)] else []
  }

  lemma {:induction false} ShareLinesFlattened(k: Place, b: Bucket, den: nat, ws: seq<Weight>)
    requires b.rule.Some?
    ensures ShareLines(k, b, den, ws) == Flatten(LineFor(k, b, den), ws)
    decreases |ws|
  {
    if ws != [] {
      hide ShareLine;
      ShareLinesFlattened(k, b, den, ws[..|ws| - 1]);
    }
  }

  lemma ShareLinesForgetOrder(k: Place, a: Bucket, b: Bucket, den: nat, ws: seq<Weight>, vs: seq<Weight>)
    requires a.rule.Some? && SameBucket(a, b) && multiset(ws) == multiset(vs)
    ensures multiset(ShareLines(k, a, den, ws)) == multiset(ShareLines(k, b, den, vs))
  {
    hide Part, ShareLines;
    ShareLinesFlattened(k, a, den, ws);
    ShareLinesFlattened(k, b, den, vs);
    FlattenPermuted(LineFor(k, a, den), LineFor(k, b, den), ws, vs);
  }

  lemma {:induction false} RefusesForgetsOrder(total: Decimal, ws: seq<Weight>, vs: seq<Weight>, den: nat)
    requires multiset(ws) == multiset(vs) && Refuses(total, ws, den)
    ensures Refuses(total, vs, den)
  {
    hide ShareOf;
    SameMembers(ws, vs);
    var i :| 0 <= i < |ws| && ws[i].weight > 0 && ShareOf(total, ws[i].weight, den) == None;
    assert ws[i] in vs;
    var j :| 0 <= j < |vs| && vs[j] == ws[i];
  }

  function TargetWeight(): Target -> seq<Weight> { (x: Target) => [Weight(x.centre, x.parts)] }

  lemma {:induction false} TargetWeightsFlattened(targets: seq<Target>)
    ensures TargetWeights(targets) == Flatten(TargetWeight(), targets)
    decreases |targets|
  {
    if targets != [] {
      TargetWeightsFlattened(targets[..|targets| - 1]);
    }
  }

  lemma TargetsForgetOrder(a: seq<Target>, b: seq<Target>)
    requires multiset(a) == multiset(b)
    ensures multiset(TargetWeights(a)) == multiset(TargetWeights(b))
    ensures Denominator(TargetWeights(a)) == Denominator(TargetWeights(b))
  {
    hide TargetWeights, Denominator;
    TargetWeightsFlattened(a);
    TargetWeightsFlattened(b);
    FlattenPermuted(TargetWeight(), TargetWeight(), a, b);
    DenominatorIsTotal(TargetWeights(a));
    DenominatorIsTotal(TargetWeights(b));
    TotalPermuted(WeightOf(), TargetWeights(a), TargetWeights(b));
  }

  /** A claimed group is split by a rule with ratios. */
  ghost predicate ClaimsHaveRatios(t: Groups) {
    forall k :: IsClaim(t, k) ==> t.at[k].rule.value.way != ProportionalToDirect
  }

  lemma ClaimsForgetOrder(s: Groups, t: Groups, k: Place)
    requires SameGroups(s, t) && ClaimsHaveRatios(s)
    ensures multiset(ClaimLines(s)(k)) == multiset(ClaimLines(t)(k))
    ensures ClaimRefused(s, k) <==> ClaimRefused(t, k)
  {
    hide Refuses, ShareLines, Denominator, TargetWeights;
    assert k in s.at <==> k in s.at.Keys;
    assert k in t.at <==> k in t.at.Keys;
    if IsClaim(s, k) {
      assert SameBucket(s.at[k], t.at[k]);
      TargetsForgetOrder(s.at[k].rule.value.targets, t.at[k].rule.value.targets);
      var ws, vs := ClaimWeights(s, k), ClaimWeights(t, k);
      if ClaimRefused(s, k) {
        RefusesForgetsOrder(s.at[k].amount, ws, vs, Denominator(ws));
      }
      if ClaimRefused(t, k) {
        RefusesForgetsOrder(s.at[k].amount, vs, ws, Denominator(ws));
      }
      ShareLinesForgetOrder(k, s.at[k], t.at[k], Denominator(ClaimWeights(s, k)), ClaimWeights(s, k),
                            ClaimWeights(t, k));
    }
  }

  lemma PoolsForgetOrder(s: Groups, t: Groups, d: Drivers, e: Drivers, k: Place)
    requires SameGroups(s, t) && DriversOk(d) && DriversOk(e) && SameDrivers(d, e)
    ensures multiset(PoolLines(s, d)(k)) == multiset(PoolLines(t, e)(k))
    ensures PoolRefused(s, d, k) <==> PoolRefused(t, e, k)
    ensures Driven(s, d, k) <==> Driven(t, e, k)
  {
    hide Refuses, ShareLines, Denominator, PoolWeights, DriversOk;
    assert k in s.at <==> k in s.at.Keys;
    assert k in t.at <==> k in t.at.Keys;
    if Driven(s, d, k) {
      WeightsForgetOrder(d, e, k.identity);
      var ws, vs := PoolWeights(d, k.identity), PoolWeights(e, k.identity);
      ShareLinesForgetOrder(k, s.at[k], t.at[k], Denominator(ws), ws, vs);
      if PoolRefused(s, d, k) {
        RefusesForgetsOrder(s.at[k].amount, ws, vs, Denominator(ws));
      }
      if PoolRefused(t, e, k) {
        RefusesForgetsOrder(s.at[k].amount, vs, ws, Denominator(ws));
      }
    }
  }

  lemma ClaimLinesCanonical(t: Groups)
    ensures CanonicalLines(AllClaimLines(t))
  {
    hide Canonical, ShareOf, ShareLines;
    forall i | 0 <= i < |AllClaimLines(t)| ensures Canonical(AllClaimLines(t)[i].item.amount) {
      var l := AllClaimLines(t)[i];
      InFlatten(ClaimLines(t), t.order, l);
      var k :| k in t.order && l in ClaimLines(t)(k);
      var n := ShareLineFrom(k, t.at[k], Denominator(ClaimWeights(t, k)), ClaimWeights(t, k), l);
      PartIsCanonical(t.at[k].amount, ClaimWeights(t, k)[n].weight, Denominator(ClaimWeights(t, k)));
    }
  }

  lemma PartIsCanonical(total: Decimal, w: nat, den: nat)
    ensures Canonical(Part(total, w, den))
  {
    hide ShareOf;
  }

  /** The lines that share out pools. */
  ghost function PooledLines(t: Groups): seq<Line> { Flatten(PoolLines(t, AllDrivers(t)), t.order) }

  /** The same groups give the same lines, in some order, and the same drivers. */
  lemma LinesForgetOrder(s: Groups, t: Groups)
    requires Ok(s) && Ok(t) && SameGroups(s, t) && ClaimsHaveRatios(s)
    ensures multiset(AllLines(s)) == multiset(AllLines(t))
    ensures multiset(AllClaimLines(s)) == multiset(AllClaimLines(t))
    ensures multiset(PooledLines(s)) == multiset(PooledLines(t))
    ensures SameDrivers(AllDrivers(s), AllDrivers(t)) && DriversOk(AllDrivers(s)) && DriversOk(AllDrivers(t))
    ensures multiset(s.order) == multiset(t.order)
  {
    hide SameGroups, ClaimsHaveRatios, SameDrivers, DriversOk, DriversOf, ClaimLines, PoolLines, Flatten,
         CanonicalLines;
    OrdersPermuted(s, t);
    forall i | 0 <= i < |s.order| ensures multiset(ClaimLines(s)(s.order[i])) == multiset(ClaimLines(t)(s.order[i])) {
      ClaimsForgetOrder(s, t, s.order[i]);
    }
    FlattenPermuted(ClaimLines(s), ClaimLines(t), s.order, t.order);
    ClaimLinesCanonical(s);
    ClaimLinesCanonical(t);
    DriversForgetOrder(AllClaimLines(s), AllClaimLines(t));
    DriversAreOk(AllClaimLines(s));
    DriversAreOk(AllClaimLines(t));
    var d, e := AllDrivers(s), AllDrivers(t);
    forall i | 0 <= i < |s.order|
      ensures multiset(PoolLines(s, d)(s.order[i])) == multiset(PoolLines(t, e)(s.order[i])) {
      PoolsForgetOrder(s, t, d, e, s.order[i]);
    }
    FlattenPermuted(PoolLines(s, d), PoolLines(t, e), s.order, t.order);
  }

  lemma OrdersPermuted(s: Groups, t: Groups)
    requires Ok(s) && Ok(t) && SameGroups(s, t)
    ensures multiset(s.order) == multiset(t.order)
  {
    forall k ensures k in s.order <==> k in t.order {
      assert k in s.at <==> k in s.at.Keys;
      assert k in t.at <==> k in t.at.Keys;
    }
    SameElements(s.order, t.order);
  }

  lemma RefusalForgetsOrder(s: Groups, t: Groups)
    requires Ok(s) && Ok(t) && SameGroups(s, t) && ClaimsHaveRatios(s) && Refused(s)
    ensures Refused(t)
  {
    hide SameGroups, ClaimsHaveRatios, SameDrivers, DriversOk, AllDrivers, ClaimRefused, PoolRefused, AllLines,
         AllClaimLines, PooledLines, Ok;
    LinesForgetOrder(s, t);
    SameMembers(s.order, t.order);
    var i :| 0 <= i < |s.order| && (ClaimRefused(s, s.order[i]) || PoolRefused(s, AllDrivers(s), s.order[i]));
    ClaimsForgetOrder(s, t, s.order[i]);
    PoolsForgetOrder(s, t, AllDrivers(s), AllDrivers(t), s.order[i]);
    assert s.order[i] in t.order;
    var j :| 0 <= j < |t.order| && t.order[j] == s.order[i];
  }
}
