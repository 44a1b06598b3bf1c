/** Every result of a run passes the independent validator, which recomputes every sum and every lineage
    from the listings alone. */
module AllocationAccepted {
  import opened Money
  import opened Rate
  import opened Tables
  import opened Holdings
  import opened Text
  import opened Shares
  import opened AllocationRules
  import opened AllocationGroups
  import opened AllocationLines
  import opened AllocationConserves
  import opened AllocationLineage
  import opened AllocationRun
  import opened AllocationEngine
  import opened AllocationValidation

  // ---------------------------------------------------------------- buckets by identity

  lemma {:induction false} EntriesMean(t: Sums, keys: seq<Identity>, id: Identity)
    requires Distinct(keys)
    ensures Total(AmountIn(id), Flatten(Entry(t), keys)) == if id in keys then Value(AmountAt(t, id)) else 0.0
    ensures SourcesIn(id, Flatten(Entry(t), keys)) == if id in keys then SourcesAt(t, id) else {}
    decreases |keys|
  {
    if keys != [] {
      hide Value, SourcesIn, AmountAt, SourcesAt;
      var n := |keys| - 1;
      var item := Item(keys[n], AmountAt(t, keys[n]), SourcesAt(t, keys[n]));
      EntriesMean(t, keys[..n], id);
      assert keys == keys[..n] + [keys[n]];
      TotalConcat(AmountIn(id), Flatten(Entry(t), keys[..n]), [item]);
      TotalOne(AmountIn(id), item);
      SourcesWithLast(id, Flatten(Entry(t), keys[..n]), item);
    } else {
      assert SourcesIn(id, []) == {};
    }
  }

  lemma ByIdentityMeans(c: Locale, t: Sums, id: Identity)
    requires Ok(t)
    ensures Total(AmountIn(id), ByIdentity(c, t)) == Value(AmountAt(t, id))
    ensures SourcesIn(id, ByIdentity(c, t)) == SourcesAt(t, id)
  {
    hide SourcesIn, Value, Entry, AmountIn;
    EntriesMean(t, t.order, id);
    TotalPermuted(AmountIn(id), ByIdentity(c, t), Flatten(Entry(t), t.order));
    SourcesPermuted(id, ByIdentity(c, t), Flatten(Entry(t), t.order));
    ZeroIsWorthNothing();
  }

  /** Buckets built from sums are one per identity. */
  ghost predicate SumsOk(t: Sums) {
    Ok(t) && forall id :: id in t.at ==> Canonical(t.at[id].amount) && t.at[id].sources != {}
  }

  lemma {:induction false} EntriesAt(t: Sums, keys: seq<Identity>)
    ensures |Flatten(Entry(t), keys)| == |keys|
    ensures forall i :: 0 <= i < |keys| ==>
              Flatten(Entry(t), keys)[i] == Item(keys[i], AmountAt(t, keys[i]), SourcesAt(t, keys[i]))
    decreases |keys|
  {
    if keys != [] {
      EntriesAt(t, keys[..|keys| - 1]);
    }
  }

  lemma ByIdentityIsOk(c: Locale, t: Sums)
    requires SumsOk(t)
    ensures BucketsOk(ByIdentity(c, t))
    ensures forall i :: 0 <= i < |ByIdentity(c, t)| ==> ByIdentity(c, t)[i].identity in t.at
    ensures forall id :: id in t.at ==> exists i :: 0 <= i < |ByIdentity(c, t)| && ByIdentity(c, t)[i].identity == id
  {
    hide Flatten, Canonical;
    var entries, items := Flatten(Entry(t), t.order), ByIdentity(c, t);
    EntriesAt(t, t.order);
    SameMembers(entries, items);
    assert Distinct(entries);
    DistinctPermuted(entries, items);
    forall i | 0 <= i < |items| ensures ItemOk(items[i]) && items[i].identity in t.at {
      assert items[i] in entries;
    }
    forall i, j | 0 <= i < j < |items| ensures items[i].identity != items[j].identity {
      assert items[i] in entries && items[j] in entries;
    }
    forall id | id in t.at ensures exists i :: 0 <= i < |items| && items[i].identity == id {
      var n :| 0 <= n < |t.order| && t.order[n] == id;
      assert entries[n] in items;
    }
  }

  lemma TallyIsOk(items: seq<Item>)
    requires forall i :: 0 <= i < |items| ==> ItemOk(items[i])
    ensures SumsOk(Tally(items))
  {
    hide Tally, Value, Canonical;
    var t := Tally(items);
    TallyCanonical(items);
    TallyMeans(items, Identity("", ""));
    forall id | id in t.at ensures t.at[id].sources != {} {
      var k :| 0 <= k < |items| && items[k].identity == id;
      TallyMeans(items, id);
      var x :| x in items[k].sources;
      assert x in SourcesIn(id, items);
    }
  }

  // ---------------------------------------------------------------- listings

  lemma {:induction false} ListedItemsAre(c: Locale, us: seq<Unplaced>)
    ensures ListedItems(Flatten(ToListed(c), us)) == UnplacedItems(us)
    decreases |us|
  {
    if us != [] {
      hide TopProjects;
      var n := |us| - 1;
      ListedItemsAre(c, us[..n]);
      var l := Listing(c, us[n]);
      FlattenConcat(ListedItem(), Flatten(ToListed(c), us[..n]), [l]);
      FlattenOne(ListedItem(), l);
    }
  }

  lemma ListingsPermuted(c: Locale, t: Groups, id: Identity)
    ensures Total(AmountIn(id), LineItems(Sort(LineOrder(c), AllLines(t))))
            == Total(AmountIn(id), LineItems(AllLines(t)))
    ensures SourcesIn(id, LineItems(Sort(LineOrder(c), AllLines(t)))) == SourcesIn(id, LineItems(AllLines(t)))
    ensures Total(AmountIn(id), ListedItems(Sort(ListedOrder(c), Flatten(ToListed(c), AllUnplaced(t)))))
         == Total(AmountIn(id), UnplacedItems(AllUnplaced(t)))
    ensures SourcesIn(id, ListedItems(Sort(ListedOrder(c), Flatten(ToListed(c), AllUnplaced(t)))))
         == SourcesIn(id, UnplacedItems(AllUnplaced(t)))
  {
    hide AllLines, AllUnplaced, AmountIn, SourcesIn, LineItem, ListedItem, ToListed, Flatten, Total, LineOrder,
         ListedOrder, UnplacedItems;
    var lines, us := AllLines(t), Flatten(ToListed(c), AllUnplaced(t));
    FlattenPermuted(LineItem(), LineItem(), Sort(LineOrder(c), lines), lines);
    TotalPermuted(AmountIn(id), LineItems(Sort(LineOrder(c), lines)), LineItems(lines));
    SourcesPermuted(id, LineItems(Sort(LineOrder(c), lines)), LineItems(lines));
    FlattenPermuted(ListedItem(), ListedItem(), Sort(ListedOrder(c), us), us);
    TotalPermuted(AmountIn(id), ListedItems(Sort(ListedOrder(c), us)), ListedItems(us));
    SourcesPermuted(id, ListedItems(Sort(ListedOrder(c), us)), ListedItems(us));
    ListedItemsAre(c, AllUnplaced(t));
  }

  // ---------------------------------------------------------------- the shape of lines

  lemma RatioInRange(w: nat, den: nat)
    requires 0 < den && w <= den
    ensures w * RATIO_SCALE / den <= RATIO_SCALE
  {
    assert w * RATIO_SCALE <= den * RATIO_SCALE;
    Quotient(w * RATIO_SCALE, den, RATIO_SCALE);
  }

  lemma Quotient(a: nat, den: nat, q: nat)
    requires 0 < den && a <= den * q
    ensures a / den <= q
  {
  }

  lemma ShareLineIsOk(k: Place, b: Bucket, ws: seq<Weight>, i: nat)
    requires b.rule.Some? && b.rule.value.version >= 1 && b.sources != {} && i < |ws|
    ensures LineOk(ShareLine(k, b, Denominator(ws), ws[i]))
  {
    hide ShareOf;
    DenominatorCovers(ws, i);
    if Denominator(ws) > 0 {
      RatioInRange(ws[i].weight, Denominator(ws));
    }
  }

  lemma LineIsOk(p: Policy, t: Groups, l: Line)
    requires PolicyOk(p) && GroupsOk(p, t) && l in AllLines(t)
    ensures LineOk(l)
  {
    hide DriversOf, LineOk, ShareLines, Denominator, PoolWeights, TargetWeights;
    var d := AllDrivers(t);
    InFlatten(ClaimLines(t), t.order, l);
    InFlatten(PoolLines(t, d), t.order, l);
    if l in AllClaimLines(t) {
      var k :| k in t.order && l in ClaimLines(t)(k);
      assert BucketOk(p, k, t.at[k]);
      var i := ShareLineFrom(k, t.at[k], Denominator(ClaimWeights(t, k)), ClaimWeights(t, k), l);
      ShareLineIsOk(k, t.at[k], ClaimWeights(t, k), i);
    } else {
      var k :| k in t.order && l in PoolLines(t, d)(k);
      assert BucketOk(p, k, t.at[k]);
      var ws := PoolWeights(d, k.identity);
      var i := ShareLineFrom(k, t.at[k], Denominator(ws), ws, l);
      ShareLineIsOk(k, t.at[k], ws, i);
    }
  }

  lemma UnplacedIsOk(p: Policy, t: Groups, u: Unplaced)
    requires GroupsOk(p, t) && u in AllUnplaced(t)
    ensures ItemOk(u.item)
  {
    hide AllDrivers, Canonical;
    var k := UnplacedComesFrom(t, u);
    assert BucketOk(p, k, t.at[k]);
  }

  // ---------------------------------------------------------------- acceptance

  lemma {:induction false} RowItemsAt(rows: seq<Row>)
    ensures |RowItems(rows)| == |rows| && forall i :: 0 <= i < |rows| ==> RowItems(rows)[i] == ItemOf(rows[i])
    decreases |rows|
  {
    if rows != [] {
      hide ItemOf;
      RowItemsAt(rows[..|rows| - 1]);
    }
  }

  lemma RowTallyIsOk(rows: seq<Row>)
    requires RowsCanonical(rows)
    ensures SumsOk(Tally(RowItems(rows)))
    ensures forall id :: id in Tally(RowItems(rows)).at <==> exists i :: 0 <= i < |rows| && rows[i].identity == id
  {
    hide Tally, RowItems, Canonical, SumsOk;
    RowItemsAt(rows);
    forall i | 0 <= i < |rows| ensures ItemOk(RowItems(rows)[i]) {
      assert rows[i].sources[0] in SourceSet(rows[i]);
    }
    TallyIsOk(RowItems(rows));
    TallyCanonical(RowItems(rows));
    forall id ensures id in Tally(RowItems(rows)).at <==> exists i :: 0 <= i < |rows| && rows[i].identity == id {
      if i: nat :| i < |rows| && rows[i].identity == id {
        assert RowItems(rows)[i].identity == id;
      }
    }
  }

  lemma BasesAreTotals(c: Locale, rows: seq<Row>)
    requires RowsCanonical(rows)
    ensures var items := ByIdentity(c, Tally(RowItems(rows)));
            BucketsOk(items) && Bases(rows) == set i | 0 <= i < |items| :: items[i].identity.basis
  {
    hide Tally, RowItems, Canonical, ByIdentity, SumsOk, BucketsOk;
    var t := Tally(RowItems(rows));
    RowTallyIsOk(rows);
    ByIdentityIsOk(c, t);
    var items := ByIdentity(c, t);
    forall b ensures b in Bases(rows) <==> b in (set i | 0 <= i < |items| :: items[i].identity.basis) {
      if b in Bases(rows) {
        var i :| 0 <= i < |rows| && rows[i].identity.basis == b;
        assert rows[i].identity in t.at;
        var j :| 0 <= j < |items| && items[j].identity == rows[i].identity;
      }
    }
  }

  lemma {:induction false} ItemsOfLines(lines: seq<Line>)
    requires forall i :: 0 <= i < |lines| ==> ItemOk(lines[i].item)
    ensures forall i :: 0 <= i < |LineItems(lines)| ==> ItemOk(LineItems(lines)[i])
    decreases |lines|
  {
    if lines != [] {
      hide ItemOk;
      var n := |lines| - 1;
      ItemsOfLines(lines[..n]);
      assert LineItems(lines) == LineItems(lines[..n]) + [lines[n].item];
    }
  }

  lemma {:induction false} ItemsOfUnplaced(us: seq<Unplaced>)
    requires forall i :: 0 <= i < |us| ==> ItemOk(us[i].item)
    ensures forall i :: 0 <= i < |UnplacedItems(us)| ==> ItemOk(UnplacedItems(us)[i])
    decreases |us|
  {
    if us != [] {
      hide ItemOk;
      var n := |us| - 1;
      ItemsOfUnplaced(us[..n]);
      assert UnplacedItems(us) == UnplacedItems(us[..n]) + [us[n].item];
    }
  }

  lemma LineSumsOk(p: Policy, t: Groups)
    requires PolicyOk(p) && GroupsOk(p, t)
    ensures SumsOk(Tally(LineItems(AllLines(t))))
    ensures forall l :: l in AllLines(t) ==> LineOk(l)
  {
    hide PolicyOk, GroupsOk, AllLines, Tally, SumsOk, LineItems, ItemOk;
    forall l | l in AllLines(t) ensures LineOk(l) {
      LineIsOk(p, t, l);
    }
    assert forall i :: 0 <= i < |AllLines(t)| ==> LineOk(AllLines(t)[i]);
    ItemsOfLines(AllLines(t));
    TallyIsOk(LineItems(AllLines(t)));
  }

  lemma UnplacedSumsOk(p: Policy, t: Groups)
    requires GroupsOk(p, t)
    ensures SumsOk(UnplacedTally(t))
    ensures forall u :: u in AllUnplaced(t) ==> ItemOk(u.item)
  {
    hide GroupsOk, Tally, SumsOk, UnplacedItems, ItemOk, AllDrivers, UndrivenPools, UnplacedOfKind;
    forall u | u in AllUnplaced(t) ensures ItemOk(u.item) {
      UnplacedIsOk(p, t, u);
    }
    var und := Flatten(UndrivenPools(t, AllDrivers(t)), t.order);
    var a := Flatten(UnplacedOfKind(t, Unmatched, NoMatchingRule), t.order);
    var b := Flatten(UnplacedOfKind(t, ToArchived, TargetArchived), t.order);
    forall u | u in und + a + b ensures u in AllUnplaced(t) {
    }
    ItemsOfUnplaced(und + a + b);
    TallyIsOk(UnplacedItems(und + a + b));
  }

  lemma SortedLinesOk(c: Locale, t: Groups)
    requires forall l :: l in AllLines(t) ==> LineOk(l)
    ensures forall i :: 0 <= i < |Sort(LineOrder(c), AllLines(t))| ==> LineOk(Sort(LineOrder(c), AllLines(t))[i])
  {
    hide LineOk, AllLines;
    SameMembers(AllLines(t), Sort(LineOrder(c), AllLines(t)));
  }

  /** What the projects of a group contributed is exact and named. */
  ghost predicate ProjectsOk(m: map<string, Decimal>) {
    forall name :: name in m ==> !Blank(name) && Canonical(m[name])
  }

  lemma AddRowProjectsOk(p: Policy, t: Groups, row: Row, k: Place)
    requires k in AddRow(p, t, row).at && Canonical(row.amount) && !Blank(row.project)
    requires k in t.at ==> ProjectsOk(t.at[k].byProject.at)
    ensures ProjectsOk(AddRow(p, t, row).at[k].byProject.at)
  {
    hide PlaceOf, RuleFor, Blank, Canonical;
  }

  lemma {:induction false} GroupProjectsOk(p: Policy, rows: seq<Row>, k: Place)
    requires RowsCanonical(rows) && k in Group(p, rows).at
    ensures ProjectsOk(Group(p, rows).at[k].byProject.at)
    decreases |rows|
  {
    hide AddRow, Blank, Canonical, ProjectsOk;
    var n := |rows| - 1;
    if k in Group(p, rows[..n]).at {
      GroupProjectsOk(p, rows[..n], k);
    }
    AddRowProjectsOk(p, Group(p, rows[..n]), rows[n], k);
  }

  lemma MadeProjectOk(id: Identity, b: Table<string, Decimal>, x: Project)
    requires Ok(b) && ProjectsOk(b.at) && x in Projects(id, b)
    ensures ProjectOk(x, id)
  {
    hide Blank, Canonical;
    assert x.name in b.order;
  }

  lemma TopProjectsOk(c: Locale, id: Identity, b: Table<string, Decimal>)
    requires Ok(b) && ProjectsOk(b.at)
    ensures forall i :: 0 <= i < |TopProjects(c, id, b)| ==> ProjectOk(TopProjects(c, id, b)[i], id)
  {
    hide Sort, ProjectOrder, ProjectOk, ProjectsOk, Ok;
    var made, top := Projects(id, b), TopProjects(c, id, b);
    SameMembers(made, Sort(ProjectOrder(c), made));
    forall i | 0 <= i < |top| ensures ProjectOk(top[i], id) {
      assert top[i] in Sort(ProjectOrder(c), made) && top[i] in made;
      MadeProjectOk(id, b, top[i]);
    }
  }

  lemma ListingOk(c: Locale, p: Policy, rows: seq<Row>, u: Unplaced)
    requires RowsCanonical(rows) && u in AllUnplaced(Group(p, rows)) && ItemOk(u.item)
    ensures UnplacedOk(Listing(c, u))
  {
    hide Group, AllUnplaced, AllDrivers, RowsCanonical, ProjectsOk, TopProjects, ItemOk, ProjectOk;
    RowsHaveSources(rows);
    GroupIsOk(p, rows);
    var k := UnplacedComesFrom(Group(p, rows), u);
    assert BucketOk(p, k, Group(p, rows).at[k]);
    GroupProjectsOk(p, rows, k);
    TopProjectsOk(c, k.identity, u.byProject);
  }

  lemma SortedListingOk(c: Locale, p: Policy, rows: seq<Row>)
    requires RowsCanonical(rows) && forall u :: u in AllUnplaced(Group(p, rows)) ==> ItemOk(u.item)
    ensures var listed := Sort(ListedOrder(c), Flatten(ToListed(c), AllUnplaced(Group(p, rows))));
            forall i :: 0 <= i < |listed| ==> UnplacedOk(listed[i])
  {
    hide ItemOk, UnplacedOk, AllUnplaced, Group, Listing, RowsCanonical;
    var made := Flatten(ToListed(c), AllUnplaced(Group(p, rows)));
    SameMembers(made, Sort(ListedOrder(c), made));
    forall x | x in made ensures UnplacedOk(x) {
      InFlatten(ToListed(c), AllUnplaced(Group(p, rows)), x);
      var u :| u in AllUnplaced(Group(p, rows)) && x in ToListed(c)(u);
      ListingOk(c, p, rows, u);
    }
  }

  lemma ResultShape(c: Locale, p: Policy, rows: seq<Row>)
    requires PolicyOk(p) && RowsCanonical(rows)
    ensures ShapeOk(ResultOf(c, p, rows))
  {
    hide PolicyOk, RowsCanonical, GroupsOk, Tally, SumsOk, LineOk, ItemOk, UnplacedOk, ByIdentity, Group, AllLines,
         AllUnplaced, UnplacedTally, BucketsOk, Flatten;
    var t := Group(p, rows);
    RowsHaveSources(rows);
    GroupIsOk(p, rows);
    BasesAreTotals(c, rows);
    LineSumsOk(p, t);
    UnplacedSumsOk(p, t);
    ByIdentityIsOk(c, Tally(LineItems(AllLines(t))));
    ByIdentityIsOk(c, UnplacedTally(t));
    SortedLinesOk(c, t);
    SortedListingOk(c, p, rows);
    ResultAssembled(c, p, rows);
  }

  lemma RowsHaveSources(rows: seq<Row>)
    requires RowsCanonical(rows)
    ensures HasSources(rows)
  {
  }

  lemma ResultAgrees(c: Locale, p: Policy, rows: seq<Row>, id: Identity)
    requires PolicyOk(p) && RowsCanonical(rows) && !Refused(Group(p, rows))
    ensures Agrees(ResultOf(c, p, rows), id)
  {
    hide PolicyOk, RowsCanonical, Refused, Tally, ByIdentity, Group, AllLines, AllUnplaced, UnplacedTally, Flatten,
         SourcesIn, AmountIn, Total, LineItems, ListedItems, Value, AmountAt, SourcesAt, Ok, RowItems, Sort;
    var t := Group(p, rows);
    RowsHaveSources(rows);
    TallyMeans(RowItems(rows), id);
    TallyMeans(LineItems(AllLines(t)), id);
    UnplacedSums(t, id);
    ByIdentityMeans(c, Tally(RowItems(rows)), id);
    ByIdentityMeans(c, Tally(LineItems(AllLines(t))), id);
    ByIdentityMeans(c, UnplacedTally(t), id);
    ListingsPermuted(c, t, id);
    NothingLostOrInvented(p, rows, id);
    LineageIsKept(p, rows, id);
  }

  /** The validator, which recomputes everything from the listings, accepts every result the engine
      can produce. */
  lemma EveryResultIsAccepted(c: Locale, p: Policy, rows: seq<Row>)
    requires PolicyOk(p) && RowsCanonical(rows) && !Refused(Group(p, rows))
    ensures Valid(ResultOf(c, p, rows))
  {
    hide ShapeOk, Agrees;
    ResultShape(c, p, rows);
    forall id: Identity ensures Agrees(ResultOf(c, p, rows), id) {
      ResultAgrees(c, p, rows, id);
    }
  }

  /** From inputs that are not refused to acceptance: whatever a run returns, the validator accepts. */
  lemma AcceptedInputsGiveAcceptedResults(c: Locale, rows: seq<Row>, rules: seq<Rule>, centres: seq<Centre>, start: int,
                                          end: int)
    requires InputsOk(rows, rules, centres, start, end)
    requires !Refused(Group(PolicyFor(c, rules, centres), TrimmedRows(rows)))
    ensures Valid(ResultOf(c, PolicyFor(c, rules, centres), TrimmedRows(rows)))
  {
    hide *;
    InputsMeet(c, rows, rules, centres, start, end);
    EveryResultIsAccepted(c, PolicyFor(c, rules, centres), TrimmedRows(rows));
  }
}
