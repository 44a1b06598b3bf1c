/** The mutable maps of a run, filled pass by pass. */
module AllocationEngine {
  // Each pass is proved to leave the specified result.

  import opened Money
  import opened Tables
  import opened Holdings
  import opened Shares
  import opened AllocationRules
  import opened AllocationGroups
  import opened AllocationLines
  import opened AllocationConserves
  import opened AllocationLineage
  import opened AllocationRun

  method RouteRows(p: Policy, rows: seq<Row>) returns (total: Sums, groups: Groups)
    ensures total == Tally(RowItems(rows))
    ensures groups == Group(p, rows)
  {
    total, groups := Empty(), Empty();
    for n := 0 to |rows|
      invariant total == Tally(RowItems(rows[..n]))
      invariant groups == Group(p, rows[..n])
    {
      hide PlaceOf, RuleFor, AddAmount, AddToBucket;
      var row := rows[n];
      assert rows[..n + 1][..n] == rows[..n];
      assert RowItems(rows[..n + 1]) == RowItems(rows[..n]) + [ItemOf(row)];
      TallyPush(RowItems(rows[..n]), ItemOf(row));
      total := AddAmount(total, ItemOf(row));
      var place := PlaceOf(p, row);
      var bucket := if place in groups.at then groups.at[place] else Created(RuleFor(p, row));
      groups := Put(groups, place, AddToBucket(bucket, row));
    }
    assert rows[..|rows|] == rows;
  }

  lemma TallyPush(items: seq<Item>, i: Item)
    ensures Tally(items + [i]) == AddAmount(Tally(items), i)
  {
    assert (items + [i])[..|items|] == items;
  }

  /** What the two line passes keep up to date while they push lines. */
  ghost predicate Pushed(lines: seq<Line>, sums: Sums) {
    sums == Tally(LineItems(lines))
  }

  lemma PushLine(lines: seq<Line>, sums: Sums, l: Line)
    requires Pushed(lines, sums)
    ensures Pushed(lines + [l], AddAmount(sums, l.item))
    ensures DriversOf(lines + [l]) == AddDriver(DriversOf(lines), l)
  {
    hide AddAmount, AddDriver;
    assert (lines + [l])[..|lines|] == lines;
    TallyPush(LineItems(lines), l.item);
  }

  lemma ShareLinesPush(k: Place, b: Bucket, den: nat, ws: seq<Weight>, m: nat)
    requires b.rule.Some? && m < |ws|
    ensures ShareLines(k, b, den, ws[..m + 1]) == ShareLines(k, b, den, ws[..m]) + [ShareLine(k, b, den, ws[m])]
  {
    assert ws[..m + 1][..m] == ws[..m];
  }

  lemma FlattenPush<K, T>(f: K -> seq<T>, keys: seq<K>, n: nat)
    requires n < |keys|
    ensures Flatten(f, keys[..n + 1]) == Flatten(f, keys[..n]) + f(keys[n])
  {
    assert keys[..n + 1][..n] == keys[..n];
  }

  /** The lines of one claimed group, one per target. */
  method SplitClaim(p: Policy, t: Groups, k: Place, lines: seq<Line>, sums: Sums, drivers: Drivers)
    returns (r: Option<(seq<Line>, Sums, Drivers)>)
    requires PolicyOk(p) && GroupsOk(p, t) && IsClaim(t, k)
    requires Pushed(lines, sums) && drivers == DriversOf(lines)
    ensures r == None <==> ClaimRefused(t, k)
    ensures r.Some? ==>
              && r.value.0 == lines + ClaimLines(t)(k)
              && Pushed(r.value.0, r.value.1)
              && r.value.2 == DriversOf(r.value.0)
  {
    hide Refuses, DriversOf, Pushed, AddDriver, Part;
    var rule, bucket := t.at[k].rule.value, t.at[k];
    assert BucketOk(p, k, bucket);
    var ws := ClaimWeights(t, k);
    ClaimIsWhole(rule);
    var split := SplitByWeights(bucket.amount, ws);
    if split == None {
      return None;
    }
    var out, allocatedSums, outDrivers := lines, sums, drivers;
    for m := 0 to |rule.targets|
      invariant out == lines + ShareLines(k, bucket, RATIO_SCALE, ws[..m])
      invariant Pushed(out, allocatedSums) && outDrivers == DriversOf(out)
    {
      hide Denominator;
      var target := rule.targets[m];
      var amount := if target.centre in split.value then split.value[target.centre] else ZERO;
      var line := Line(target.centre, rule.ruleId, rule.version, rule.way, target.parts,
                       Item(k.identity, amount, bucket.sources));
      assert ws[m] == Weight(target.centre, target.parts);
      TargetLine(k, bucket, rule.targets, m, amount);
      ShareLinesPush(k, bucket, RATIO_SCALE, ws, m);
      PushLine(out, allocatedSums, line);
      out := out + [line];
      allocatedSums := AddAmount(allocatedSums, line.item);
      outDrivers := AddDriver(outDrivers, line);
    }
    assert ws[..|ws|] == ws;
    r := Some((out, allocatedSums, outDrivers));
  }

  /** Written from the rule's target, the line is the one written from its weight. */
  lemma TargetLine(k: Place, b: Bucket, targets: seq<Target>, m: nat, amount: Decimal)
    requires b.rule.Some? && m < |targets| && Denominator(TargetWeights(targets)) == RATIO_SCALE
    requires amount == if targets[m].parts > 0 then Part(b.amount, targets[m].parts, RATIO_SCALE) else ZERO
    ensures ShareLine(k, b, RATIO_SCALE, TargetWeights(targets)[m])
         == Line(targets[m].centre, b.rule.value.ruleId, b.rule.value.version, b.rule.value.way, targets[m].parts,
                 Item(k.identity, amount, b.sources))
  {
    hide Refuses;
    assert targets[m].parts * RATIO_SCALE / RATIO_SCALE == targets[m].parts;
  }

  /** The lines of one pool, one per driver. */
  method SplitPool(t: Groups, d: Drivers, k: Place, lines: seq<Line>, sums: Sums)
    returns (r: Option<(seq<Line>, Sums)>)
    requires DriversOk(d) && Driven(t, d, k) && Pushed(lines, sums)
    ensures r == None <==> PoolRefused(t, d, k)
    ensures r.Some? ==> r.value.0 == lines + PoolLines(t, d)(k) && Pushed(r.value.0, r.value.1)
  {
    hide Refuses, Pushed, Part, PoolWeights, DriversOk;
    var rule, bucket := t.at[k].rule.value, t.at[k];
    PoolWeightsPositive(d, k.identity);
    var ws := PoolWeights(d, k.identity);
    var split := SplitByWeights(bucket.amount, ws);
    if split == None {
      return None;
    }
    var denominator := Denominator(ws);
    var out, allocatedSums := lines, sums;
    for m := 0 to |ws|
      invariant out == lines + ShareLines(k, bucket, denominator, ws[..m])
      invariant Pushed(out, allocatedSums)
    {
      hide Denominator, ShareLines;
      var line := Line(ws[m].centre, rule.ruleId, rule.version, rule.way, ws[m].weight * RATIO_SCALE / denominator,
                       Item(k.identity, split.value[ws[m].centre], bucket.sources));
      assert line == ShareLine(k, bucket, denominator, ws[m]);
      ShareLinesPush(k, bucket, denominator, ws, m);
      PushLine(out, allocatedSums, line);
      out := out + [line];
      allocatedSums := AddAmount(allocatedSums, line.item);
    }
    assert ws[..|ws|] == ws;
    r := Some((out, allocatedSums));
  }

  method ClaimStep(p: Policy, t: Groups, k: Place, lines: seq<Line>, sums: Sums, drivers: Drivers)
    returns (r: Option<(seq<Line>, Sums, Drivers)>)
    requires PolicyOk(p) && GroupsOk(p, t) && Pushed(lines, sums) && drivers == DriversOf(lines)
    ensures r == None <==> ClaimRefused(t, k)
    ensures r.Some? ==>
              && r.value.0 == lines + ClaimLines(t)(k)
              && Pushed(r.value.0, r.value.1)
              && r.value.2 == DriversOf(r.value.0)
  {
    hide Refuses, GroupsOk, PolicyOk, Pushed, DriversOf;
    if IsClaim(t, k) {
      r := SplitClaim(p, t, k, lines, sums, drivers);
    } else {
      assert lines + [] == lines;
      r := Some((lines, sums, drivers));
    }
  }

  /** First pass: every claimed group, and the drivers its lines build. */
  method ClaimPass(p: Policy, t: Groups) returns (r: Option<(seq<Line>, Sums, Drivers)>)
    requires PolicyOk(p) && GroupsOk(p, t)
    ensures r == None <==> exists i :: 0 <= i < |t.order| && ClaimRefused(t, t.order[i])
    ensures r.Some? ==> r.value.0 == AllClaimLines(t) && Pushed(r.value.0, r.value.1) && r.value.2 == AllDrivers(t)
  {
    hide *;
    var lines: seq<Line> := [];
    var sums: Sums := Empty();
    var drivers: Drivers := Empty();
    NothingPushed(t);
    for n := 0 to |t.order|
      invariant lines == Flatten(ClaimLines(t), t.order[..n])
      invariant Pushed(lines, sums) && drivers == DriversOf(lines)
      invariant forall i :: 0 <= i < n ==> !ClaimRefused(t, t.order[i])
    {
      FlattenPush(ClaimLines(t), t.order, n);
      var step := ClaimStep(p, t, t.order[n], lines, sums, drivers);
      if step == None {
        return None;
      }
      lines, sums, drivers := step.value.0, step.value.1, step.value.2;
    }
    assert t.order[..|t.order|] == t.order;
    AllClaimsPushed(t);
    r := Some((lines, sums, drivers));
  }

  lemma NothingPushed(t: Groups)
    ensures Flatten(ClaimLines(t), t.order[..0]) == []
    ensures Pushed([], Empty()) && DriversOf([]) == Empty()
  {
  }

  lemma AllClaimsPushed(t: Groups)
    ensures AllClaimLines(t) == Flatten(ClaimLines(t), t.order)
    ensures AllDrivers(t) == DriversOf(AllClaimLines(t))
  {
  }

  /** One pool in the second pass: split, or set aside in the unallocated sums. */
  method PoolStep(t: Groups, d: Drivers, k: Place, lines: seq<Line>, sums: Sums, ghost us: seq<Unplaced>,
                  unplaced: Sums)
    returns (r: Option<(seq<Line>, Sums, Sums)>)
    requires DriversOk(d) && Pushed(lines, sums) && unplaced == Tally(UnplacedItems(us))
    ensures r == None <==> PoolRefused(t, d, k)
    ensures r.Some? ==>
              && r.value.0 == lines + PoolLines(t, d)(k) && Pushed(r.value.0, r.value.1)
              && r.value.2 == Tally(UnplacedItems(us + UndrivenPools(t, d)(k)))
  {
    hide Refuses, DriversOk, Pushed, Tally, AddAmount, UnplacedItems;
    if Driven(t, d, k) {
      var split := SplitPool(t, d, k, lines, sums);
      if split == None {
        return None;
      }
      assert us + [] == us;
      r := Some((split.value.0, split.value.1, unplaced));
    } else if IsPool(t, k) {
      var u := UnplacedOf(t, k, NoDriver);
      UnplacedPush(us, u);
      assert lines + [] == lines;
      r := Some((lines, sums, AddAmount(unplaced, u.item)));
    } else {
      assert lines + [] == lines && us + [] == us;
      r := Some((lines, sums, unplaced));
    }
  }

  /** Second pass: every pool, split by the drivers of its identity or set aside for want of one. */
  method PoolPass(t: Groups, drivers: Drivers, claimed: seq<Line>, sums: Sums)
    returns (r: Option<(seq<Line>, Sums, Sums)>)
    requires drivers == AllDrivers(t) && claimed == AllClaimLines(t) && Pushed(claimed, sums)
    ensures r == None <==> exists i :: 0 <= i < |t.order| && PoolRefused(t, drivers, t.order[i])
    ensures r.Some? ==>
              && r.value.0 == AllLines(t) && Pushed(r.value.0, r.value.1)
              && r.value.2 == Tally(UnplacedItems(Flatten(UndrivenPools(t, drivers), t.order)))
  {
    hide *;
    NoPoolYet(t, drivers);
    var lines, allocatedSums := claimed, sums;
    var unplacedSums: Sums := Empty();
    assert claimed + [] == claimed;
    for n := 0 to |t.order|
      invariant lines == claimed + Flatten(PoolLines(t, drivers), t.order[..n]) && Pushed(lines, allocatedSums)
      invariant unplacedSums == Tally(UnplacedItems(Flatten(UndrivenPools(t, drivers), t.order[..n])))
      invariant forall i :: 0 <= i < n ==> !PoolRefused(t, drivers, t.order[i])
    {
      ghost var us := Flatten(UndrivenPools(t, drivers), t.order[..n]);
      FlattenPush(PoolLines(t, drivers), t.order, n);
      FlattenPush(UndrivenPools(t, drivers), t.order, n);
      var step := PoolStep(t, drivers, t.order[n], lines, allocatedSums, us, unplacedSums);
      if step == None {
        return None;
      }
      lines, allocatedSums, unplacedSums := step.value.0, step.value.1, step.value.2;
    }
    assert t.order[..|t.order|] == t.order;
    AllPoolsPushed(t);
    r := Some((lines, allocatedSums, unplacedSums));
  }

  lemma NoPoolYet(t: Groups, d: Drivers)
    requires d == AllDrivers(t)
    ensures Flatten(PoolLines(t, d), t.order[..0]) == []
    ensures Empty() == Tally(UnplacedItems(Flatten(UndrivenPools(t, d), t.order[..0])))
    ensures DriversOk(d)
  {
    hide DriversOk, DriversOf;
    DriversAreOk(AllClaimLines(t));
  }

  lemma AllPoolsPushed(t: Groups)
    ensures AllLines(t) == AllClaimLines(t) + Flatten(PoolLines(t, AllDrivers(t)), t.order)
  {
  }

  lemma UnplacedPush(us: seq<Unplaced>, u: Unplaced)
    ensures UnplacedItems(us + [u]) == UnplacedItems(us) + [u.item]
    ensures Tally(UnplacedItems(us + [u])) == AddAmount(Tally(UnplacedItems(us)), u.item)
  {
    hide AddAmount;
    assert (us + [u])[..|us|] == us;
    TallyPush(UnplacedItems(us), u.item);
  }

  lemma ListPush(c: Locale, listed: seq<Listed>, made: seq<Unplaced>, u: Unplaced)
    ensures listed + Flatten(ToListed(c), made + [u]) == (listed + Flatten(ToListed(c), made)) + [Listing(c, u)]
  {
    hide Listing;
    FlattenConcat(ToListed(c), made, [u]);
    FlattenOne(ToListed(c), u);
  }

  lemma KindPush(t: Groups, kind: Kind, reason: Reason, n: nat)
    requires n < |t.order|
    ensures Flatten(UnplacedOfKind(t, kind, reason), t.order[..n + 1])
         == Flatten(UnplacedOfKind(t, kind, reason), t.order[..n])
            + (if t.order[n] in t.at && t.order[n].kind == kind then [UnplacedOf(t, t.order[n], reason)] else [])
  {
    FlattenPush(UnplacedOfKind(t, kind, reason), t.order, n);
  }

  lemma PoolOverlaps(t: Groups, d: Drivers, us: seq<Unplaced>, k: Place)
    requires k in t.order && IsPool(t, k) && !Driven(t, d, k) && t.at[k].sources != {}
    requires forall u :: u in Flatten(UndrivenPools(t, d), t.order) ==> u in us
    ensures SourcesAt(Tally(UnplacedItems(us)), k.identity) * UnplacedOf(t, k, NoDriver).item.sources != {}
  {
    hide Tally, UnplacedItems, Flatten, SourcesAt, Driven, UndrivenPools;
    PoolAlreadyCounted(t, d, us, k);
    var at := SourcesAt(Tally(UnplacedItems(us)), k.identity);
    assert at * t.at[k].sources == t.at[k].sources;
  }

  lemma UndrivenPush(t: Groups, d: Drivers, n: nat)
    requires n < |t.order|
    ensures Flatten(UndrivenPools(t, d), t.order[..n + 1])
         == Flatten(UndrivenPools(t, d), t.order[..n])
            + (if IsPool(t, t.order[n]) && !Driven(t, d, t.order[n]) then [UnplacedOf(t, t.order[n], NoDriver)] else [])
  {
    FlattenPush(UndrivenPools(t, d), t.order, n);
  }

  method ListOne(c: Locale, u: Unplaced, listed: seq<Listed>, sums: Sums,
                 ghost base: seq<Listed>, ghost us: seq<Unplaced>, ghost made: seq<Unplaced>)
    returns (out: seq<Listed>, outSums: Sums)
    requires listed == base + Flatten(ToListed(c), made) && sums == Tally(UnplacedItems(us + made))
    ensures out == base + Flatten(ToListed(c), made + [u])
    ensures outSums == Tally(UnplacedItems(us + (made + [u])))
  {
    hide Tally, UnplacedItems, Flatten, AddAmount, Listing, ToListed;
    ListPush(c, base, made, u);
    UnplacedPush(us + made, u);
    assert (us + made) + [u] == us + (made + [u]);
    out := listed + [Listing(c, u)];
    outSums := AddAmount(sums, u.item);
  }

  /** Lists one kind of unplaced group and adds it to the unallocated sums. */
  method AppendUnallocated(c: Locale, t: Groups, kind: Kind, reason: Reason, listed: seq<Listed>, sums: Sums,
                           ghost us: seq<Unplaced>)
    returns (out: seq<Listed>, outSums: Sums)
    requires sums == Tally(UnplacedItems(us))
    ensures out == listed + Flatten(ToListed(c), Flatten(UnplacedOfKind(t, kind, reason), t.order))
    ensures outSums == Tally(UnplacedItems(us + Flatten(UnplacedOfKind(t, kind, reason), t.order)))
  {
    out, outSums := listed, sums;
    ghost var made: seq<Unplaced> := [];
    assert us + made == us && listed + [] == listed;
    for n := 0 to |t.order|
      invariant made == Flatten(UnplacedOfKind(t, kind, reason), t.order[..n])
      invariant out == listed + Flatten(ToListed(c), made)
      invariant outSums == Tally(UnplacedItems(us + made))
    {
      hide Tally, UnplacedItems, Flatten, AddAmount, Listing, UnplacedOfKind, ToListed, UnplacedOf;
      var k := t.order[n];
      KindPush(t, kind, reason, n);
      if k in t.at && k.kind == kind {
        var u := UnplacedOf(t, k, reason);
        out, outSums := ListOne(c, u, out, outSums, listed, us, made);
        made := made + [u];
      } else {
        assert made + [] == made;
      }
    }
    assert t.order[..|t.order|] == t.order;
  }

  /** A pool without drivers is already in the sums: its events are there. */
  lemma PoolAlreadyCounted(t: Groups, d: Drivers, us: seq<Unplaced>, k: Place)
    requires k in t.order && IsPool(t, k) && !Driven(t, d, k)
    requires forall u :: u in Flatten(UndrivenPools(t, d), t.order) ==> u in us
    ensures t.at[k].sources <= SourcesAt(Tally(UnplacedItems(us)), k.identity)
  {
    hide Tally, SourcesIn, UnplacedItems, Driven;
    var u := UnplacedOf(t, k, NoDriver);
    InFlatten(UndrivenPools(t, d), t.order, u);
    assert u in UndrivenPools(t, d)(k);
    TallyMeans(UnplacedItems(us), k.identity);
    forall x | x in t.at[k].sources ensures x in SourcesIn(k.identity, UnplacedItems(us)) {
      UnplacedItemSources(k.identity, us, x);
    }
  }

  /** The pools without drivers are listed last, and added to the sums only if they are not there
      yet -- which never happens, since the second pass added them all. */
  method ListUndriven(c: Locale, t: Groups, d: Drivers, listed: seq<Listed>, sums: Sums, ghost us: seq<Unplaced>)
    returns (out: seq<Listed>, outSums: Sums)
    requires forall k :: k in t.order && IsPool(t, k) ==> t.at[k].sources != {}
    requires sums == Tally(UnplacedItems(us))
    requires forall u :: u in Flatten(UndrivenPools(t, d), t.order) ==> u in us
    ensures out == listed + Flatten(ToListed(c), Flatten(UndrivenPools(t, d), t.order))
    ensures outSums == sums
  {
    out, outSums := listed, sums;
    ghost var made: seq<Unplaced> := [];
    assert listed + [] == listed;
    for n := 0 to |t.order|
      invariant made == Flatten(UndrivenPools(t, d), t.order[..n])
      invariant out == listed + Flatten(ToListed(c), made)
      invariant outSums == sums
    {
      hide *;
      var k := t.order[n];
      UndrivenPush(t, d, n);
      if IsPool(t, k) && !Driven(t, d, k) {
        var u := UnplacedOf(t, k, NoDriver);
        ListPush(c, listed, made, u);
        var already := SourcesAt(outSums, k.identity) * u.item.sources != {};
        PoolOverlaps(t, d, us, k);
        made := made + [u];
        out := out + [Listing(c, u)];
        if !already {
          outSums := AddAmount(outSums, u.item);
        }
      } else {
        assert made + [] == made;
      }
    }
    assert t.order[..|t.order|] == t.order;
  }

  /** The final check over every currency and basis that occurs anywhere. */
  method Conserves(total: Sums, placed: Sums, unplaced: Sums) returns (ok: bool)
    ensures ok <==> forall id :: id in total.order + placed.order + unplaced.order ==>
                      Value(AmountAt(total, id)) == Value(AmountAt(placed, id)) + Value(AmountAt(unplaced, id))
  {
    var keys := total.order + placed.order + unplaced.order;
    ok := true;
    for n := 0 to |keys|
      invariant ok <==> forall i :: 0 <= i < n ==>
        Value(AmountAt(total, keys[i])) == Value(AmountAt(placed, keys[i])) + Value(AmountAt(unplaced, keys[i]))
    {
      hide Value;
      if Compare(AmountAt(total, keys[n]), Add(AmountAt(placed, keys[n]), AmountAt(unplaced, keys[n]))) != 0 {
        ok := false;
      }
    }
    assert forall id :: id in keys ==> exists i :: 0 <= i < |keys| && keys[i] == id;
  }

  // ---------------------------------------------------------------- the whole run

  predicate RulesOk(rules: seq<Rule>) { forall i :: 0 <= i < |rules| ==> RuleOk(rules[i]) }

  predicate CentresKnown(rules: seq<Rule>, centres: seq<Centre>) {
    forall i, j :: 0 <= i < |rules| && 0 <= j < |rules[i].targets| ==>
      exists n :: 0 <= n < |centres| && centres[n].id == rules[i].targets[j].centre
  }

  ghost predicate InputsOk(rows: seq<Row>, rules: seq<Rule>, centres: seq<Centre>, start: int, end: int) {
    start < end && RowsOk(rows, start, end) && RulesOk(rules) && CentresKnown(rules, centres)
  }

  function PolicyFor(c: Locale, rules: seq<Rule>, centres: seq<Centre>): Policy {
    Policy(OrderRules(c.name, rules), set n | 0 <= n < |centres| && centres[n].archived :: centres[n].id)
  }

  lemma PolicyIsOk(c: Locale, rules: seq<Rule>, centres: seq<Centre>)
    requires RulesOk(rules)
    ensures PolicyOk(PolicyFor(c, rules, centres))
  {
    hide RuleOk;
    SameMembers(rules, OrderRules(c.name, rules));
  }

  lemma UnplacedSums(t: Groups, id: Identity)
    ensures Value(AmountAt(UnplacedTally(t), id)) == Total(AmountIn(id), UnplacedItems(AllUnplaced(t)))
    ensures SourcesAt(UnplacedTally(t), id) == SourcesIn(id, UnplacedItems(AllUnplaced(t)))
    ensures Ok(UnplacedTally(t))
  {
    hide Tally, AmountIn, SourcesIn, AmountAt, SourcesAt, UndrivenPools, UnplacedOfKind, UnplacedItem, Ok, AllDrivers;
    var a, b := Flatten(UnplacedOfKind(t, Unmatched, NoMatchingRule), t.order),
                Flatten(UnplacedOfKind(t, ToArchived, TargetArchived), t.order);
    var und := Flatten(UndrivenPools(t, AllDrivers(t)), t.order);
    assert multiset(und + a + b) == multiset(a + b + und);
    FlattenPermuted(UnplacedItem(), UnplacedItem(), und + a + b, a + b + und);
    TotalPermuted(AmountIn(id), UnplacedItems(und + a + b), UnplacedItems(a + b + und));
    SourcesPermuted(id, UnplacedItems(und + a + b), UnplacedItems(a + b + und));
    TallyMeans(UnplacedItems(und + a + b), id);
  }

  /** The check at the end of a run cannot fail. */
  lemma AlwaysConserves(p: Policy, rows: seq<Row>, id: Identity)
    requires PolicyOk(p) && HasSources(rows) && !Refused(Group(p, rows))
    ensures Value(AmountAt(Tally(RowItems(rows)), id))
         == Value(AmountAt(Tally(LineItems(AllLines(Group(p, rows)))), id))
            + Value(AmountAt(UnplacedTally(Group(p, rows)), id))
  {
    hide *;
    TallyMeans(RowItems(rows), id);
    TallyMeans(LineItems(AllLines(Group(p, rows))), id);
    UnplacedSums(Group(p, rows), id);
    NothingLostOrInvented(p, rows, id);
  }

  lemma RefusedMeans(t: Groups)
    ensures (exists i :: 0 <= i < |t.order| && ClaimRefused(t, t.order[i])) ==> Refused(t)
    ensures (exists i :: 0 <= i < |t.order| && PoolRefused(t, AllDrivers(t), t.order[i])) ==> Refused(t)
    ensures Refused(t) ==> || (exists i :: 0 <= i < |t.order| && ClaimRefused(t, t.order[i]))
                           || (exists i :: 0 <= i < |t.order| && PoolRefused(t, AllDrivers(t), t.order[i]))
  {
    hide ClaimRefused, PoolRefused, AllDrivers;
  }

  lemma PoolSources(p: Policy, t: Groups)
    requires GroupsOk(p, t)
    ensures forall k :: k in t.order && IsPool(t, k) ==> t.at[k].sources != {}
  {
  }

  /** The three lists of unplaced groups, in the order the engine appends them. */
  method ListUnplaced(c: Locale, p: Policy, t: Groups, d: Drivers, sums: Sums)
    returns (listed: seq<Listed>, outSums: Sums)
    requires GroupsOk(p, t) && d == AllDrivers(t)
    requires sums == Tally(UnplacedItems(Flatten(UndrivenPools(t, d), t.order)))
    ensures listed == Flatten(ToListed(c), AllUnplaced(t))
    ensures outSums == UnplacedTally(t)
  {
    hide GroupsOk, UndrivenPools, UnplacedOfKind, AllDrivers, ToListed, Tally, UnplacedItems;
    ghost var und := Flatten(UndrivenPools(t, d), t.order);
    ghost var a := Flatten(UnplacedOfKind(t, Unmatched, NoMatchingRule), t.order);
    ghost var b := Flatten(UnplacedOfKind(t, ToArchived, TargetArchived), t.order);
    listed, outSums := AppendUnallocated(c, t, Unmatched, NoMatchingRule, [], sums, und);
    listed, outSums := AppendUnallocated(c, t, ToArchived, TargetArchived, listed, outSums, und + a);
    PoolSources(p, t);
    listed, outSums := ListUndriven(c, t, d, listed, outSums, und + a + b);
    FlattenConcat(ToListed(c), a, b);
    FlattenConcat(ToListed(c), a + b, und);
    assert [] + Flatten(ToListed(c), a) == Flatten(ToListed(c), a);
  }

  /** Applies the rules to the rows. A run is refused for a malformed input, or because a share has
      no finite decimal form; otherwise its result is the specified one, and it conserves. */
  method ApplyExactAllocation(c: Locale, rows: seq<Row>, rules: seq<Rule>, centres: seq<Centre>, start: int, end: int)
    returns (r: Outcome)
    ensures r == InvalidInput <==> !InputsOk(rows, rules, centres, start, end)
    ensures r == EndlessShare ==> Refused(Group(PolicyFor(c, rules, centres), TrimmedRows(rows)))
    ensures r.Done? ==>
              && !Refused(Group(PolicyFor(c, rules, centres), TrimmedRows(rows)))
              && r.result == ResultOf(c, PolicyFor(c, rules, centres), TrimmedRows(rows))
  {
    hide *;
    var checked := CheckInputs(rows, rules, centres, start, end);
    if checked == None {
      return InvalidInput;
    }
    var p, kept := PolicyFor(c, rules, centres), checked.value;
    InputsMeet(c, rows, rules, centres, start, end);
    var total, t := RouteRows(p, kept);
    GroupIsOk(p, kept);
    RefusedMeans(t);
    var claims := ClaimPass(p, t);
    if claims == None {
      return EndlessShare;
    }
    var pools := PoolPass(t, claims.value.2, claims.value.0, claims.value.1);
    if pools == None {
      return EndlessShare;
    }
    var lines, allocatedSums := pools.value.0, pools.value.1;
    var listed, unallocatedSums := ListUnplaced(c, p, t, claims.value.2, pools.value.2);
    var conserves := Conserves(total, allocatedSums, unallocatedSums);
    PushedMeans(lines, allocatedSums);
    forall id: Identity
      ensures Value(AmountAt(total, id)) == Value(AmountAt(allocatedSums, id)) + Value(AmountAt(unallocatedSums, id))
    {
      AlwaysConserves(p, kept, id);
    }
    ResultAssembled(c, p, kept);
    r := Done(Result(ByIdentity(c, total), ByIdentity(c, allocatedSums), ByIdentity(c, unallocatedSums),
                     Sort(LineOrder(c), lines), Sort(ListedOrder(c), listed), Bases(kept), conserves));
  }

  method CheckInputs(rows: seq<Row>, rules: seq<Rule>, centres: seq<Centre>, start: int, end: int)
    returns (kept: Option<seq<Row>>)
    ensures kept == if InputsOk(rows, rules, centres, start, end) then Some(TrimmedRows(rows)) else None
  {
    hide RowsOk, RulesOk, CentresKnown, TrimmedRows;
    kept := CanonicalRows(rows, start, end);
    if !(start < end && RulesOk(rules) && CentresKnown(rules, centres)) {
      kept := None;
    }
  }

  lemma InputsMeet(c: Locale, rows: seq<Row>, rules: seq<Rule>, centres: seq<Centre>, start: int, end: int)
    requires InputsOk(rows, rules, centres, start, end)
    ensures PolicyOk(PolicyFor(c, rules, centres)) && HasSources(TrimmedRows(rows)) && RowsCanonical(TrimmedRows(rows))
  {
    hide RowsOk, RulesOk, CentresKnown, PolicyFor, PolicyOk, HasSources, RowsCanonical, TrimmedRows;
    PolicyIsOk(c, rules, centres);
    KeptRowsAreCanonical(rows, start, end);
  }

  lemma PushedMeans(lines: seq<Line>, sums: Sums)
    requires Pushed(lines, sums)
    ensures sums == Tally(LineItems(lines))
  {
  }

  lemma ResultAssembled(c: Locale, p: Policy, rows: seq<Row>)
    ensures ResultOf(c, p, rows)
         == Result(ByIdentity(c, Tally(RowItems(rows))), ByIdentity(c, Tally(LineItems(AllLines(Group(p, rows))))),
                   ByIdentity(c, UnplacedTally(Group(p, rows))), Sort(LineOrder(c), AllLines(Group(p, rows))),
                   Sort(ListedOrder(c), Flatten(ToListed(c), AllUnplaced(Group(p, rows)))), Bases(rows), true)
  {
  }
}
