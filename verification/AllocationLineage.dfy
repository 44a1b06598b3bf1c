/** Where every source event ends up, and which centres a line can name. */
module AllocationLineage {
  import opened Tables
  import opened Holdings
  import opened Shares
  import opened AllocationRules
  import opened AllocationGroups
  import opened AllocationLines
  import opened AllocationConserves

  // ---------------------------------------------------------------- from listings back to groups

  lemma {:induction false} ShareLineFrom(k: Place, b: Bucket, den: nat, ws: seq<Weight>, l: Line) returns (i: nat)
    requires b.rule.Some? && l in ShareLines(k, b, den, ws)
    ensures i < |ws| && l == ShareLine(k, b, den, ws[i])
    decreases |ws|
  {
    var n := |ws| - 1;
    if l == ShareLine(k, b, den, ws[n]) {
      return n;
    }
    i := ShareLineFrom(k, b, den, ws[..n], l);
  }

  ghost predicate ClaimLineOf(t: Groups, k: Place, l: Line) {
    && IsClaim(t, k) && l.item.identity == k.identity && l.item.sources == t.at[k].sources
    && exists i :: 0 <= i < |t.at[k].rule.value.targets| && t.at[k].rule.value.targets[i].centre == l.centre
  }

  ghost predicate PoolLineOf(t: Groups, d: Drivers, k: Place, l: Line) {
    && Driven(t, d, k) && l.item.identity == k.identity && l.item.sources == t.at[k].sources
    && l.centre in d.at[k.identity].order
  }

  lemma ClaimLineFrom(t: Groups, l: Line) returns (k: Place)
    requires l in AllClaimLines(t)
    ensures k in t.order && ClaimLineOf(t, k, l)
  {
    InFlatten(ClaimLines(t), t.order, l);
    k :| k in t.order && l in ClaimLines(t)(k);
    var i := ShareLineFrom(k, t.at[k], Denominator(ClaimWeights(t, k)), ClaimWeights(t, k), l);
    assert t.at[k].rule.value.targets[i].centre == l.centre;
  }

  lemma PoolLineFrom(t: Groups, d: Drivers, l: Line) returns (k: Place)
    requires l in Flatten(PoolLines(t, d), t.order)
    ensures k in t.order && PoolLineOf(t, d, k, l)
  {
    InFlatten(PoolLines(t, d), t.order, l);
    k :| k in t.order && l in PoolLines(t, d)(k);
    var ws := PoolWeights(d, k.identity);
    var i := ShareLineFrom(k, t.at[k], Denominator(ws), ws, l);
    assert ws[i].centre == d.at[k.identity].order[i];
  }

  /** Every line shares out one claimed group or one pool that had a driver. */
  lemma LineFrom(t: Groups, l: Line) returns (k: Place)
    requires l in AllLines(t)
    ensures k in t.order && (ClaimLineOf(t, k, l) || PoolLineOf(t, AllDrivers(t), k, l))
  {
    hide ClaimLineOf, PoolLineOf, PoolLines, DriversOf;
    if l in AllClaimLines(t) {
      k := ClaimLineFrom(t, l);
    } else {
      k := PoolLineFrom(t, AllDrivers(t), l);
    }
  }

  ghost predicate UnplacedFrom(t: Groups, d: Drivers, k: Place, u: Unplaced) {
    && k in t.at
    && (k.kind == Unmatched || k.kind == ToArchived || (IsPool(t, k) && !Driven(t, d, k)))
    && u == UnplacedOf(t, k, if k.kind == Unmatched then NoMatchingRule
                             else if k.kind == ToArchived then TargetArchived else NoDriver)
  }

  /** Every unplaced entry is one whole group that no line shares out. */
  lemma UnplacedComesFrom(t: Groups, u: Unplaced) returns (k: Place)
    requires u in AllUnplaced(t)
    ensures k in t.order && UnplacedFrom(t, AllDrivers(t), k, u)
  {
    hide DriversOf;
    var d := AllDrivers(t);
    var unmatched := UnplacedOfKind(t, Unmatched, NoMatchingRule);
    var archived := UnplacedOfKind(t, ToArchived, TargetArchived);
    InFlatten(unmatched, t.order, u);
    InFlatten(archived, t.order, u);
    InFlatten(UndrivenPools(t, d), t.order, u);
    if u in Flatten(unmatched, t.order) {
      k :| k in t.order && u in unmatched(k);
    } else if u in Flatten(archived, t.order) {
      k :| k in t.order && u in archived(k);
    } else {
      k :| k in t.order && u in UndrivenPools(t, d)(k);
    }
  }

  // ---------------------------------------------------------------- archived centres

  lemma {:induction false} DriverCameFromLine(lines: seq<Line>, id: Identity, centre: string) returns (l: Line)
    requires id in DriversOf(lines).at && centre in DriversOf(lines).at[id].at
    ensures l in lines && l.centre == centre
    decreases |lines|
  {
    var n := |lines| - 1;
    var d := DriversOf(lines[..n]);
    if id in d.at && centre in d.at[id].at {
      l := DriverCameFromLine(lines[..n], id, centre);
    } else {
      l := lines[n];
    }
  }

  lemma ClaimedCentreIsOpen(p: Policy, t: Groups, l: Line)
    requires GroupsOk(p, t) && l in AllClaimLines(t)
    ensures l.centre !in p.archived
  {
    var k := ClaimLineFrom(t, l);
    assert BucketOk(p, k, t.at[k]);
  }

  /** No archived centre ever receives a line, not even through a pool. */
  lemma ArchivedCentresReceiveNothing(p: Policy, t: Groups, l: Line)
    requires GroupsOk(p, t) && l in AllLines(t)
    ensures l.centre !in p.archived
  {
    hide GroupsOk, DriversOf;
    if l in AllClaimLines(t) {
      ClaimedCentreIsOpen(p, t, l);
    } else {
      var d := AllDrivers(t);
      var k := PoolLineFrom(t, d, l);
      DriversAreOk(AllClaimLines(t));
      var l' := DriverCameFromLine(AllClaimLines(t), k.identity, l.centre);
      ClaimedCentreIsOpen(p, t, l');
    }
  }

  // ---------------------------------------------------------------- from groups to listings

  lemma ShareLinesListed(k: Place, b: Bucket, den: nat, ws: seq<Weight>)
    requires b.rule.Some? && ws != []
    ensures ShareLine(k, b, den, ws[|ws| - 1]) in ShareLines(k, b, den, ws)
  {
  }

  ghost predicate LineSource(t: Groups, id: Identity, x: string) {
    exists l :: l in AllLines(t) && l.item.identity == id && x in l.item.sources
  }

  ghost predicate UnplacedSource(t: Groups, id: Identity, x: string) {
    exists u :: u in AllUnplaced(t) && u.item.identity == id && x in u.item.sources
  }

  lemma ClaimIsListed(p: Policy, t: Groups, k: Place) returns (l: Line)
    requires PolicyOk(p) && GroupsOk(p, t) && IsClaim(t, k)
    ensures l in AllLines(t) && l.item.identity == k.identity && l.item.sources == t.at[k].sources
  {
    hide RuleOk;
    ClaimIsWhole(t.at[k].rule.value);
    var ws := ClaimWeights(t, k);
    l := ShareLine(k, t.at[k], Denominator(ws), ws[|ws| - 1]);
    ShareLinesListed(k, t.at[k], Denominator(ws), ws);
    InFlatten(ClaimLines(t), t.order, l);
    assert l in ClaimLines(t)(k);
  }

  lemma PoolIsListed(t: Groups, k: Place) returns (l: Line)
    requires Ok(t) && Driven(t, AllDrivers(t), k)
    ensures l in AllLines(t) && l.item.identity == k.identity && l.item.sources == t.at[k].sources
  {
    hide DriversOk, DriversOf, PoolWeights;
    var d := AllDrivers(t);
    DriversAreOk(AllClaimLines(t));
    PoolWeightsPositive(d, k.identity);
    var ws := PoolWeights(d, k.identity);
    l := ShareLine(k, t.at[k], Denominator(ws), ws[|ws| - 1]);
    ShareLinesListed(k, t.at[k], Denominator(ws), ws);
    InFlatten(PoolLines(t, d), t.order, l);
    assert l in PoolLines(t, d)(k);
  }

  lemma RestIsListed(t: Groups, k: Place, u: Unplaced)
    requires Ok(t) && UnplacedFrom(t, AllDrivers(t), k, u)
    ensures u in AllUnplaced(t)
  {
    hide DriversOf;
    var d := AllDrivers(t);
    InFlatten(UnplacedOfKind(t, Unmatched, NoMatchingRule), t.order, u);
    InFlatten(UnplacedOfKind(t, ToArchived, TargetArchived), t.order, u);
    InFlatten(UndrivenPools(t, d), t.order, u);
    assert k.kind == Unmatched ==> u in UnplacedOfKind(t, Unmatched, NoMatchingRule)(k);
    assert k.kind == ToArchived ==> u in UnplacedOfKind(t, ToArchived, TargetArchived)(k);
    assert IsPool(t, k) ==> u in UndrivenPools(t, d)(k);
  }

  lemma GroupIsListed(p: Policy, t: Groups, k: Place, x: string)
    requires PolicyOk(p) && GroupsOk(p, t) && k in t.at && x in t.at[k].sources
    ensures LineSource(t, k.identity, x) || UnplacedSource(t, k.identity, x)
  {
    hide DriversOf, AllLines, AllUnplaced, Ok;
    assert BucketOk(p, k, t.at[k]);
    var d := AllDrivers(t);
    if IsClaim(t, k) {
      var l := ClaimIsListed(p, t, k);
    } else if Driven(t, d, k) {
      var l := PoolIsListed(t, k);
    } else {
      var u := UnplacedOf(t, k, if k.kind == Unmatched then NoMatchingRule
                                else if k.kind == ToArchived then TargetArchived else NoDriver);
      RestIsListed(t, k, u);
    }
  }

  lemma ListedIsGrouped(t: Groups, id: Identity, x: string)
    requires Ok(t) && (LineSource(t, id, x) || UnplacedSource(t, id, x))
    ensures x in GroupSources(t, id)
  {
    hide AllLines, AllUnplaced, DriversOf;
    if LineSource(t, id, x) {
      var l :| l in AllLines(t) && l.item.identity == id && x in l.item.sources;
      var k := LineFrom(t, l);
    } else {
      var u :| u in AllUnplaced(t) && u.item.identity == id && x in u.item.sources;
      var k := UnplacedComesFrom(t, u);
    }
  }

  // ---------------------------------------------------------------- lineage

  lemma {:induction false} LineItemSources(id: Identity, lines: seq<Line>, x: string)
    ensures x in SourcesIn(id, LineItems(lines))
       <==> exists l :: l in lines && l.item.identity == id && x in l.item.sources
    decreases |lines|
  {
    if lines != [] {
      hide SourcesIn;
      var n := |lines| - 1;
      LineItemSources(id, lines[..n], x);
      SourcesWithLast(id, LineItems(lines[..n]), lines[n].item);
      assert lines == lines[..n] + [lines[n]];
    }
  }

  lemma {:induction false} UnplacedItemSources(id: Identity, us: seq<Unplaced>, x: string)
    ensures x in SourcesIn(id, UnplacedItems(us))
       <==> exists u :: u in us && u.item.identity == id && x in u.item.sources
    decreases |us|
  {
    if us != [] {
      hide SourcesIn;
      var n := |us| - 1;
      UnplacedItemSources(id, us[..n], x);
      SourcesWithLast(id, UnplacedItems(us[..n]), us[n].item);
      assert us == us[..n] + [us[n]];
    }
  }

  /** Every event of the rows is accounted for, and nothing else is. */
  lemma LineageIsKept(p: Policy, rows: seq<Row>, id: Identity)
    requires PolicyOk(p) && HasSources(rows)
    ensures SourcesIn(id, LineItems(AllLines(Group(p, rows))))
            + SourcesIn(id, UnplacedItems(AllUnplaced(Group(p, rows))))
         == SourcesIn(id, RowItems(rows))
  {
    hide SourcesIn, AllLines, AllUnplaced, Group, RowItems, LineItems, UnplacedItems, BucketOk;
    var t := Group(p, rows);
    GroupIsOk(p, rows);
    GroupConserves(p, rows, id);
    forall x ensures x in SourcesIn(id, LineItems(AllLines(t))) || x in SourcesIn(id, UnplacedItems(AllUnplaced(t)))
                <==> x in GroupSources(t, id)
    {
      LineItemSources(id, AllLines(t), x);
      UnplacedItemSources(id, AllUnplaced(t), x);
      if LineSource(t, id, x) || UnplacedSource(t, id, x) {
        ListedIsGrouped(t, id, x);
      } else if x in GroupSources(t, id) {
        var k :| k in t.at && k.identity == id && x in t.at[k].sources;
        GroupIsListed(p, t, k, x);
      }
    }
  }

  // ---------------------------------------------------------------- exactly one place

  /** No event belongs to two rows. */
  ghost predicate RowsDisjoint(rows: seq<Row>) {
    forall i, j :: 0 <= i < j < |rows| ==> SourceSet(rows[i]) !! SourceSet(rows[j])
  }

  ghost predicate InPlace(p: Policy, rows: seq<Row>, k: Place, x: string) {
    exists i :: 0 <= i < |rows| && PlaceOf(p, rows[i]) == k && x in SourceSet(rows[i])
  }

  lemma InPlaceStep(p: Policy, rows: seq<Row>, k: Place, x: string)
    requires rows != []
    ensures InPlace(p, rows, k, x)
       <==> InPlace(p, rows[..|rows| - 1], k, x)
            || (PlaceOf(p, rows[|rows| - 1]) == k && x in SourceSet(rows[|rows| - 1]))
  {
    hide PlaceOf, SourceSet;
    var init := rows[..|rows| - 1];
    if InPlace(p, init, k, x) {
      var i :| 0 <= i < |init| && PlaceOf(p, init[i]) == k && x in SourceSet(init[i]);
      assert rows[i] == init[i];
    }
    if InPlace(p, rows, k, x) {
      var i :| 0 <= i < |rows| && PlaceOf(p, rows[i]) == k && x in SourceSet(rows[i]);
      assert i < |init| ==> rows[i] == init[i];
    }
  }

  lemma AddRowMembers(p: Policy, t: Groups, row: Row, k: Place, x: string)
    ensures k in AddRow(p, t, row).at && x in AddRow(p, t, row).at[k].sources
       <==> (k in t.at && x in t.at[k].sources) || (PlaceOf(p, row) == k && x in SourceSet(row))
  {
    hide PlaceOf, SourceSet, RuleFor;
  }

  lemma {:induction false} GroupMembers(p: Policy, rows: seq<Row>, k: Place, x: string)
    ensures k in Group(p, rows).at && x in Group(p, rows).at[k].sources <==> InPlace(p, rows, k, x)
    decreases |rows|
  {
    if rows != [] {
      hide PlaceOf, SourceSet, AddRow, InPlace;
      var n := |rows| - 1;
      GroupMembers(p, rows[..n], k, x);
      InPlaceStep(p, rows, k, x);
      AddRowMembers(p, Group(p, rows[..n]), rows[n], k, x);
    }
  }

  /** An event is gathered by the place its row is routed to and by no other. */
  lemma EventHasOnePlace(p: Policy, rows: seq<Row>, i: nat, x: string, k: Place)
    requires RowsDisjoint(rows) && i < |rows| && x in SourceSet(rows[i])
    ensures k in Group(p, rows).at && x in Group(p, rows).at[k].sources <==> k == PlaceOf(p, rows[i])
  {
    hide Group, PlaceOf, SourceSet;
    GroupMembers(p, rows, k, x);
    if InPlace(p, rows, k, x) {
      var j :| 0 <= j < |rows| && PlaceOf(p, rows[j]) == k && x in SourceSet(rows[j]);
      assert i == j;
    }
  }

  /** No event is both allocated and unplaced. */
  lemma AllocatedOrUnplaced(p: Policy, rows: seq<Row>, l: Line, u: Unplaced)
    requires RowsDisjoint(rows) && HasSources(rows)
    requires l in AllLines(Group(p, rows)) && u in AllUnplaced(Group(p, rows))
    ensures l.item.sources !! u.item.sources
  {
    hide AllLines, AllUnplaced, Group, SourceSet, PlaceOf, DriversOf;
    var t := Group(p, rows);
    GroupIsOk(p, rows);
    var k := LineFrom(t, l);
    var k' := UnplacedComesFrom(t, u);
    forall x | x in l.item.sources ensures x !in u.item.sources {
      GroupMembers(p, rows, k, x);
      GroupMembers(p, rows, k', x);
      var i :| 0 <= i < |rows| && PlaceOf(p, rows[i]) == k && x in SourceSet(rows[i]);
      EventHasOnePlace(p, rows, i, x, k');
    }
  }
}
