/** Nothing is lost or invented between rows and listings. */
module AllocationConserves {
  import opened Money
  import opened Tables
  import opened Holdings
  import opened Shares
  import opened AllocationRules
  import opened AllocationGroups
  import opened AllocationLines

  ghost predicate PolicyOk(p: Policy) { forall r :: r in p.ordered ==> RuleOk(r) }

  ghost function LineIn(id: Identity): Line -> real {
    (l: Line) => if l.item.identity == id then Value(l.item.amount) else 0.0
  }

  ghost function UnplacedIn(id: Identity): Unplaced -> real {
    (u: Unplaced) => if u.item.identity == id then Value(u.item.amount) else 0.0
  }

  lemma LineItemsTotal(id: Identity, lines: seq<Line>)
    ensures Total(AmountIn(id), LineItems(lines)) == Total(LineIn(id), lines)
  {
    forall l: Line ensures Total(AmountIn(id), LineItem()(l)) == LineIn(id)(l) {
      TotalOne(AmountIn(id), l.item);
    }
    TotalFlatten(AmountIn(id), LineItem(), LineIn(id), lines);
  }

  lemma UnplacedItemsTotal(id: Identity, us: seq<Unplaced>)
    ensures Total(AmountIn(id), UnplacedItems(us)) == Total(UnplacedIn(id), us)
  {
    forall u: Unplaced ensures Total(AmountIn(id), UnplacedItem()(u)) == UnplacedIn(id)(u) {
      TotalOne(AmountIn(id), u.item);
    }
    TotalFlatten(AmountIn(id), UnplacedItem(), UnplacedIn(id), us);
  }

  // ---------------------------------------------------------------- one group

  lemma {:induction false} ShareLinesTotal(k: Place, b: Bucket, den: nat, ws: seq<Weight>, id: Identity)
    requires b.rule.Some?
    ensures Total(LineIn(id), ShareLines(k, b, den, ws))
         == if k.identity == id then Total(PartOf(b.amount, den), ws) else 0.0
    decreases |ws|
  {
    if ws != [] {
      hide Part, Value;
      var n := |ws| - 1;
      ShareLinesTotal(k, b, den, ws[..n], id);
      TotalConcat(LineIn(id), ShareLines(k, b, den, ws[..n]), [ShareLine(k, b, den, ws[n])]);
      TotalOne(LineIn(id), ShareLine(k, b, den, ws[n]));
    }
  }

  lemma {:induction false} WeightsOfTargets(targets: seq<Target>)
    ensures Denominator(TargetWeights(targets)) == TotalParts(targets)
    decreases |targets|
  {
    if targets != [] {
      var n := |targets| - 1;
      WeightsOfTargets(targets[..n]);
      assert TargetWeights(targets)[..n] == TargetWeights(targets[..n]);
    }
  }

  /** The ratios of a rule that claims rows add up to the whole. */
  lemma ClaimIsWhole(r: Rule)
    requires RuleOk(r) && r.way != ProportionalToDirect
    ensures Denominator(TargetWeights(r.targets)) == RATIO_SCALE && |TargetWeights(r.targets)| > 0
  {
    WeightsOfTargets(r.targets);
    assert |r.targets| == 1 ==> r.targets[..0] == [];
  }

  ghost function ClaimIn(t: Groups, id: Identity): Place -> real {
    (k: Place) => if IsClaim(t, k) && k.identity == id then Value(t.at[k].amount) else 0.0
  }

  ghost function PoolIn(t: Groups, d: Drivers, id: Identity): Place -> real {
    (k: Place) => if Driven(t, d, k) && k.identity == id then Value(t.at[k].amount) else 0.0
  }

  lemma ClaimTotal(p: Policy, t: Groups, k: Place, id: Identity)
    requires PolicyOk(p) && GroupsOk(p, t) && !ClaimRefused(t, k)
    ensures Total(LineIn(id), ClaimLines(t)(k)) == ClaimIn(t, id)(k)
  {
    if IsClaim(t, k) {
      hide Value, Refuses, ShareLines, TargetWeights, RuleOk;
      ClaimIsWhole(t.at[k].rule.value);
      PartsConserve(t.at[k].amount, ClaimWeights(t, k));
      ShareLinesTotal(k, t.at[k], Denominator(ClaimWeights(t, k)), ClaimWeights(t, k), id);
    }
  }

  lemma PoolTotal(t: Groups, d: Drivers, k: Place, id: Identity)
    requires DriversOk(d) && !PoolRefused(t, d, k)
    ensures Total(LineIn(id), PoolLines(t, d)(k)) == PoolIn(t, d, id)(k)
  {
    if Driven(t, d, k) {
      hide Value, Refuses, ShareLines, PoolWeights, DriversOk;
      PoolWeightsPositive(d, k.identity);
      PartsConserve(t.at[k].amount, PoolWeights(d, k.identity));
      ShareLinesTotal(k, t.at[k], Denominator(PoolWeights(d, k.identity)), PoolWeights(d, k.identity), id);
    }
  }

  // ---------------------------------------------------------------- all groups

  lemma LinesTotal(p: Policy, t: Groups, id: Identity)
    requires PolicyOk(p) && GroupsOk(p, t) && !Refused(t)
    ensures var d := AllDrivers(t);
            Total(LineIn(id), AllLines(t)) == Total(ClaimIn(t, id), t.order) + Total(PoolIn(t, d, id), t.order)
  {
    hide GroupsOk, DriversOk, PolicyOk, DriversOf, ClaimRefused, PoolRefused;
    var d := AllDrivers(t);
    DriversAreOk(AllClaimLines(t));
    forall k | k in t.order ensures Total(LineIn(id), ClaimLines(t)(k)) == ClaimIn(t, id)(k) {
      ClaimTotal(p, t, k, id);
    }
    TotalFlatten(LineIn(id), ClaimLines(t), ClaimIn(t, id), t.order);
    forall k | k in t.order ensures Total(LineIn(id), PoolLines(t, d)(k)) == PoolIn(t, d, id)(k) {
      PoolTotal(t, d, k, id);
    }
    TotalFlatten(LineIn(id), PoolLines(t, d), PoolIn(t, d, id), t.order);
    TotalConcat(LineIn(id), AllClaimLines(t), Flatten(PoolLines(t, d), t.order));
  }

  ghost function KindIn(t: Groups, kind: Kind, id: Identity): Place -> real {
    (k: Place) => if k in t.at && k.kind == kind && k.identity == id then Value(t.at[k].amount) else 0.0
  }

  ghost function UndrivenIn(t: Groups, d: Drivers, id: Identity): Place -> real {
    (k: Place) => if IsPool(t, k) && !Driven(t, d, k) && k.identity == id then Value(t.at[k].amount) else 0.0
  }

  lemma KindTotal(t: Groups, kind: Kind, reason: Reason, id: Identity)
    ensures Total(UnplacedIn(id), Flatten(UnplacedOfKind(t, kind, reason), t.order))
            == Total(KindIn(t, kind, id), t.order)
  {
    hide Value;
    forall k: Place ensures Total(UnplacedIn(id), UnplacedOfKind(t, kind, reason)(k)) == KindIn(t, kind, id)(k) {
      if k in t.at {
        TotalOne(UnplacedIn(id), UnplacedOf(t, k, reason));
      }
    }
    TotalFlatten(UnplacedIn(id), UnplacedOfKind(t, kind, reason), KindIn(t, kind, id), t.order);
  }

  lemma UndrivenTotal(t: Groups, d: Drivers, id: Identity)
    ensures Total(UnplacedIn(id), Flatten(UndrivenPools(t, d), t.order)) == Total(UndrivenIn(t, d, id), t.order)
  {
    hide Value;
    forall k: Place ensures Total(UnplacedIn(id), UndrivenPools(t, d)(k)) == UndrivenIn(t, d, id)(k) {
      if k in t.at {
        TotalOne(UnplacedIn(id), UnplacedOf(t, k, NoDriver));
      }
    }
    TotalFlatten(UnplacedIn(id), UndrivenPools(t, d), UndrivenIn(t, d, id), t.order);
  }

  lemma UnplacedTotal(t: Groups, id: Identity)
    ensures Total(UnplacedIn(id), AllUnplaced(t))
         == Total(KindIn(t, Unmatched, id), t.order) + Total(KindIn(t, ToArchived, id), t.order)
            + Total(UndrivenIn(t, AllDrivers(t), id), t.order)
  {
    hide DriversOf, UnplacedOfKind, UndrivenPools, KindIn, UndrivenIn, UnplacedIn;
    var d := AllDrivers(t);
    KindTotal(t, Unmatched, NoMatchingRule, id);
    KindTotal(t, ToArchived, TargetArchived, id);
    UndrivenTotal(t, d, id);
    var a := Flatten(UnplacedOfKind(t, Unmatched, NoMatchingRule), t.order);
    var b := Flatten(UnplacedOfKind(t, ToArchived, TargetArchived), t.order);
    TotalConcat(UnplacedIn(id), a, b);
    TotalConcat(UnplacedIn(id), a + b, Flatten(UndrivenPools(t, d), t.order));
  }

  ghost function PlacedIn(t: Groups, d: Drivers, id: Identity): Place -> real {
    (k: Place) => ClaimIn(t, id)(k) + PoolIn(t, d, id)(k)
  }

  ghost function OutsideIn(t: Groups, id: Identity): Place -> real {
    (k: Place) => KindIn(t, Unmatched, id)(k) + KindIn(t, ToArchived, id)(k)
  }

  ghost function RestIn(t: Groups, d: Drivers, id: Identity): Place -> real {
    (k: Place) => OutsideIn(t, id)(k) + UndrivenIn(t, d, id)(k)
  }

  lemma OneGroupOnce(p: Policy, t: Groups, d: Drivers, id: Identity, k: Place)
    requires GroupsOk(p, t)
    ensures PlacedIn(t, d, id)(k) + RestIn(t, d, id)(k) == BucketIn(t, id)(k)
  {
    assert PlacedIn(t, d, id)(k) == ClaimIn(t, id)(k) + PoolIn(t, d, id)(k);
    assert RestIn(t, d, id)(k) == KindIn(t, Unmatched, id)(k) + KindIn(t, ToArchived, id)(k) + UndrivenIn(t, d, id)(k);
    if k in t.at {
      assert BucketOk(p, k, t.at[k]);
      assert IsClaim(t, k) <==> k.kind == Claimed;
      assert IsPool(t, k) <==> k.kind == Pooled;
    }
  }

  /** Each group's amount goes to its lines or to its one unplaced entry, never to both. */
  lemma EachGroupOnce(p: Policy, t: Groups, d: Drivers, id: Identity)
    requires GroupsOk(p, t)
    ensures Total(ClaimIn(t, id), t.order) + Total(PoolIn(t, d, id), t.order)
            + Total(KindIn(t, Unmatched, id), t.order) + Total(KindIn(t, ToArchived, id), t.order)
            + Total(UndrivenIn(t, d, id), t.order)
         == Total(BucketIn(t, id), t.order)
  {
    hide GroupsOk, ClaimIn, PoolIn, KindIn, UndrivenIn, BucketIn;
    TotalPlus(ClaimIn(t, id), PoolIn(t, d, id), PlacedIn(t, d, id), t.order);
    TotalPlus(KindIn(t, Unmatched, id), KindIn(t, ToArchived, id), OutsideIn(t, id), t.order);
    TotalPlus(OutsideIn(t, id), UndrivenIn(t, d, id), RestIn(t, d, id), t.order);
    forall k: Place ensures PlacedIn(t, d, id)(k) + RestIn(t, d, id)(k) == BucketIn(t, id)(k) {
      OneGroupOnce(p, t, d, id, k);
    }
    TotalPlus(PlacedIn(t, d, id), RestIn(t, d, id), BucketIn(t, id), t.order);
  }

  /** Conservation: whatever the rows, the rules and the archive, for every currency and basis the
      lines and the unplaced entries together amount to exactly what the rows do. */
  lemma NothingLostOrInvented(p: Policy, rows: seq<Row>, id: Identity)
    requires PolicyOk(p) && HasSources(rows) && !Refused(Group(p, rows))
    ensures Total(AmountIn(id), LineItems(AllLines(Group(p, rows))))
            + Total(AmountIn(id), UnplacedItems(AllUnplaced(Group(p, rows))))
         == Total(AmountIn(id), RowItems(rows))
  {
    hide *;
    var t := Group(p, rows);
    GroupIsOk(p, rows);
    LineItemsTotal(id, AllLines(t));
    UnplacedItemsTotal(id, AllUnplaced(t));
    LinesTotal(p, t, id);
    UnplacedTotal(t, id);
    EachGroupOnce(p, t, AllDrivers(t), id);
    GroupConserves(p, rows, id);
  }
}
