/** From groups to lines and unplaced entries. */
module AllocationLines {
  // Claimed groups are split by their rule's ratios, pools by what the claimed lines gave each centre, and
  // everything else is reported as unplaced.

  import opened Money
  import opened Tables
  import opened Holdings
  import opened Shares
  import opened AllocationRules
  import opened AllocationGroups

  datatype Line = Line(centre: string, ruleId: string, version: nat, way: Method, ratioParts: nat, item: Item)

  datatype Reason = NoMatchingRule | NoDriver | TargetArchived

  /** An unplaced amount; `byProject` is what its five largest projects are chosen from. */
  datatype Unplaced = Unplaced(reason: Reason, item: Item, byProject: Table<string, Decimal>)

  type Drivers = Table<Identity, Table<string, Decimal>>

  function LineItem(): Line -> seq<Item> { (l: Line) => [l.item] }

  function LineItems(lines: seq<Line>): seq<Item> { Flatten(LineItem(), lines) }

  function UnplacedItem(): Unplaced -> seq<Item> { (u: Unplaced) => [u.item] }

  function UnplacedItems(us: seq<Unplaced>): seq<Item> { Flatten(UnplacedItem(), us) }

  function ShareLine(place: Place, b: Bucket, den: nat, w: Weight): Line
    requires b.rule.Some?
  {
    Line(w.centre, b.rule.value.ruleId, b.rule.value.version, b.rule.value.way,
         if den == 0 then 0 else w.weight * RATIO_SCALE / den,
         Item(place.identity, Part(b.amount, w.weight, den), b.sources))
  }

  function ShareLines(place: Place, b: Bucket, den: nat, ws: seq<Weight>): seq<Line>
    requires b.rule.Some?
  {
    if ws == [] then []
    else ShareLines(place, b, den, ws[..|ws| - 1]) + [ShareLine(place, b, den, ws[|ws| - 1])]
  }

  function TargetWeights(targets: seq<Target>): seq<Weight> {
    seq(|targets|, i requires 0 <= i < |targets| => Weight(targets[i].centre, targets[i].parts))
  }

  // ---------------------------------------------------------------- claimed groups

  predicate IsClaim(t: Groups, k: Place) { k in t.at && k.kind == Claimed && t.at[k].rule.Some? }

  function ClaimWeights(t: Groups, k: Place): seq<Weight>
    requires IsClaim(t, k)
  {
    TargetWeights(t.at[k].rule.value.targets)
  }

  function ClaimLines(t: Groups): Place -> seq<Line> {
    (k: Place) =>
      if IsClaim(t, k) then ShareLines(k, t.at[k], Denominator(ClaimWeights(t, k)), ClaimWeights(t, k)) else []
  }

  predicate ClaimRefused(t: Groups, k: Place) {
    IsClaim(t, k) && Refuses(t.at[k].amount, ClaimWeights(t, k), Denominator(ClaimWeights(t, k)))
  }

  // ---------------------------------------------------------------- drivers

  function AddDriver(d: Drivers, l: Line): Drivers {
    if l.item.amount.coefficient <= 0 then d
    else
      var inner := if l.item.identity in d.at then d.at[l.item.identity] else Empty();
      Put(d, l.item.identity,
          Put(inner, l.centre,
              if l.centre in inner.at then Add(inner.at[l.centre], l.item.amount) else l.item.amount))
  }

  /** What the claimed lines gave each centre, positive amounts only. */
  function DriversOf(lines: seq<Line>): Drivers {
    if lines == [] then Empty() else AddDriver(DriversOf(lines[..|lines| - 1]), lines[|lines| - 1])
  }

  function CommonScale(d: Table<string, Decimal>, keys: seq<string>): nat {
    if keys == [] then 0
    else
      var k := keys[|keys| - 1];
      Larger(CommonScale(d, keys[..|keys| - 1]), if k in d.at then d.at[k].scale else 0)
  }

  /** A driver's coefficient at the common scale. */
  function DriverWeight(d: Table<string, Decimal>, common: nat, centre: string): Weight {
    var positive := centre in d.at && d.at[centre].coefficient > 0 && d.at[centre].scale <= common;
    Weight(centre, if positive then ShiftNat(d.at[centre].coefficient, common - d.at[centre].scale) else 0)
  }

  function ShiftNat(c: nat, k: nat): (r: nat)
    ensures r == Shift(c, k)
    ensures c > 0 ==> r > 0
  {
    if k == 0 then c else 10 * ShiftNat(c, k - 1)
  }

  function DriverWeights(d: Table<string, Decimal>, common: nat): seq<Weight> {
    seq(|d.order|, i requires 0 <= i < |d.order| => DriverWeight(d, common, d.order[i]))
  }

  // ---------------------------------------------------------------- pools

  predicate IsPool(t: Groups, k: Place) { k in t.at && k.kind == Pooled && t.at[k].rule.Some? }

  predicate Driven(t: Groups, d: Drivers, k: Place) { IsPool(t, k) && k.identity in d.at }

  function PoolWeights(d: Drivers, id: Identity): seq<Weight>
    requires id in d.at
  {
    DriverWeights(d.at[id], CommonScale(d.at[id], d.at[id].order))
  }

  function PoolLines(t: Groups, d: Drivers): Place -> seq<Line> {
    (k: Place) =>
      if Driven(t, d, k) then
        ShareLines(k, t.at[k], Denominator(PoolWeights(d, k.identity)), PoolWeights(d, k.identity))
      else []
  }

  predicate PoolRefused(t: Groups, d: Drivers, k: Place) {
    Driven(t, d, k) && Refuses(t.at[k].amount, PoolWeights(d, k.identity), Denominator(PoolWeights(d, k.identity)))
  }

  // ---------------------------------------------------------------- the rest

  function UnplacedOf(t: Groups, k: Place, reason: Reason): Unplaced
    requires k in t.at
  {
    Unplaced(reason, Item(k.identity, t.at[k].amount, t.at[k].sources), t.at[k].byProject)
  }

  function UnplacedOfKind(t: Groups, kind: Kind, reason: Reason): Place -> seq<Unplaced> {
    (k: Place) => if k in t.at && k.kind == kind then [UnplacedOf(t, k, reason)] else []
  }

  function UndrivenPools(t: Groups, d: Drivers): Place -> seq<Unplaced> {
    (k: Place) => if IsPool(t, k) && !Driven(t, d, k) then [UnplacedOf(t, k, NoDriver)] else []
  }

  function AllClaimLines(t: Groups): seq<Line> { Flatten(ClaimLines(t), t.order) }

  function AllDrivers(t: Groups): Drivers { DriversOf(AllClaimLines(t)) }

  function AllLines(t: Groups): seq<Line> {
    AllClaimLines(t) + Flatten(PoolLines(t, AllDrivers(t)), t.order)
  }

  function AllUnplaced(t: Groups): seq<Unplaced> {
    Flatten(UnplacedOfKind(t, Unmatched, NoMatchingRule), t.order)
    + Flatten(UnplacedOfKind(t, ToArchived, TargetArchived), t.order)
    + Flatten(UndrivenPools(t, AllDrivers(t)), t.order)
  }

  /** Some share of some group has no finite decimal form. */
  predicate Refused(t: Groups) {
    exists i :: 0 <= i < |t.order| && (ClaimRefused(t, t.order[i]) || PoolRefused(t, AllDrivers(t), t.order[i]))
  }

  // ---------------------------------------------------------------- drivers are positive

  ghost predicate DriversOk(d: Drivers) {
    && Ok(d)
    && forall id :: id in d.at ==>
         && Ok(d.at[id]) && d.at[id].order != []
         && forall c :: c in d.at[id].at ==> d.at[id].at[c].coefficient > 0
  }

  lemma PositiveMeansPositive(a: Decimal)
    ensures a.coefficient > 0 <==> Value(a) > 0.0
    ensures a.coefficient < 0 <==> Value(a) < 0.0
  {
    assert a == Decimal(a.coefficient, a.scale);
    ZeroAtScale(a.scale);
    ValueAtOneScale(0, a.coefficient, a.scale);
    ValueAtOneScale(a.coefficient, 0, a.scale);
  }

  lemma {:induction false} ZeroAtScale(s: nat)
    ensures Value(Decimal(0, s)) == 0.0
  {
    if s > 0 {
      ZeroAtScale(s - 1);
    }
  }

  lemma AddDriverKeepsOk(d: Drivers, l: Line)
    requires DriversOk(d)
    ensures DriversOk(AddDriver(d, l))
  {
    if l.item.amount.coefficient > 0 {
      hide Value;
      var id := l.item.identity;
      var inner := if id in d.at then d.at[id] else Empty();
      var sum := if l.centre in inner.at then Add(inner.at[l.centre], l.item.amount) else l.item.amount;
      if l.centre in inner.at {
        PositiveMeansPositive(inner.at[l.centre]);
      }
      PositiveMeansPositive(l.item.amount);
      PositiveMeansPositive(sum);
      PutKeepsOk(inner, l.centre, sum);
      PutKeepsOk(d, id, Put(inner, l.centre, sum));
    }
  }

  lemma {:induction false} DriversAreOk(lines: seq<Line>)
    ensures DriversOk(DriversOf(lines))
    decreases |lines|
  {
    if lines != [] {
      hide DriversOk, AddDriver;
      DriversAreOk(lines[..|lines| - 1]);
      AddDriverKeepsOk(DriversOf(lines[..|lines| - 1]), lines[|lines| - 1]);
    } else {
      EmptyDriversOk();
    }
  }

  lemma EmptyDriversOk()
    ensures DriversOk(Empty())
  {
  }

  lemma {:induction false} CommonScaleCovers(d: Table<string, Decimal>, keys: seq<string>, i: nat)
    requires i < |keys| && keys[i] in d.at
    ensures d.at[keys[i]].scale <= CommonScale(d, keys)
    decreases |keys|
  {
    if i < |keys| - 1 {
      CommonScaleCovers(d, keys[..|keys| - 1], i);
    }
  }

  lemma {:induction false} DenominatorCovers(ws: seq<Weight>, i: nat)
    requires i < |ws|
    ensures ws[i].weight <= Denominator(ws)
    decreases |ws|
  {
    if i < |ws| - 1 {
      DenominatorCovers(ws[..|ws| - 1], i);
    }
  }

  /** A pool with a driver has positive weights only, and so a positive denominator. */
  lemma PoolWeightsPositive(d: Drivers, id: Identity)
    requires DriversOk(d) && id in d.at
    ensures forall i :: 0 <= i < |PoolWeights(d, id)| ==> PoolWeights(d, id)[i].weight > 0
    ensures Denominator(PoolWeights(d, id)) > 0 && PoolWeights(d, id) != []
    ensures CentresDistinct(PoolWeights(d, id))
  {
    var inner := d.at[id];
    var ws := PoolWeights(d, id);
    forall i | 0 <= i < |ws| ensures ws[i].weight > 0 {
      assert inner.order[i] in inner.at;
      CommonScaleCovers(inner, inner.order, i);
    }
    DenominatorCovers(ws, 0);
  }

}
