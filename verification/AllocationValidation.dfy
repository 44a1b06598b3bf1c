/** The independent check a result must pass. */
module AllocationValidation {
  // It knows nothing of rules or rows: it recomputes every sum and every lineage from the listings.

  import opened Money
  import opened Tables
  import opened Holdings
  import opened Text
  import opened AllocationRules
  import opened AllocationLines
  import opened AllocationRun

  function ListedItem(): Listed -> seq<Item> { (u: Listed) => [u.item] }

  function ListedItems(us: seq<Listed>): seq<Item> { Flatten(ListedItem(), us) }

  predicate ItemOk(i: Item) { Canonical(i.amount) && i.sources != {} }

  predicate LineOk(l: Line) { ItemOk(l.item) && l.version >= 1 && l.ratioParts <= RATIO_SCALE }

  predicate ProjectOk(x: Project, id: Identity) { !Blank(x.name) && Canonical(x.amount) && x.identity == id }

  predicate UnplacedOk(u: Listed) {
    ItemOk(u.item) && forall i :: 0 <= i < |u.top| ==> ProjectOk(u.top[i], u.item.identity)
  }

  /** One bucket for each currency and basis. */
  predicate BucketsOk(items: seq<Item>) {
    && (forall i :: 0 <= i < |items| ==> ItemOk(items[i]))
    && (forall i, j :: 0 <= i < j < |items| ==> items[i].identity != items[j].identity)
  }

  predicate ShapeOk(r: Result) {
    && r.conserves
    && BucketsOk(r.totalBy) && BucketsOk(r.allocatedBy) && BucketsOk(r.unallocatedBy)
    && (forall i :: 0 <= i < |r.lines| ==> LineOk(r.lines[i]))
    && (forall i :: 0 <= i < |r.unplaced| ==> UnplacedOk(r.unplaced[i]))
    && r.bases == set i | 0 <= i < |r.totalBy| :: r.totalBy[i].identity.basis
  }

  /** For one currency and basis: the buckets are what the listings add up to, the listings add up
      to the total, and the events behind them are the same. */
  ghost predicate Agrees(r: Result, id: Identity) {
    && Total(AmountIn(id), r.allocatedBy) == Total(AmountIn(id), LineItems(r.lines))
    && Total(AmountIn(id), r.unallocatedBy) == Total(AmountIn(id), ListedItems(r.unplaced))
    && Total(AmountIn(id), r.totalBy)
       == Total(AmountIn(id), LineItems(r.lines)) + Total(AmountIn(id), ListedItems(r.unplaced))
    && SourcesIn(id, r.allocatedBy) == SourcesIn(id, LineItems(r.lines))
    && SourcesIn(id, r.unallocatedBy) == SourcesIn(id, ListedItems(r.unplaced))
    && SourcesIn(id, r.totalBy) == SourcesIn(id, LineItems(r.lines)) + SourcesIn(id, ListedItems(r.unplaced))
  }

  ghost predicate Valid(r: Result) { ShapeOk(r) && forall id :: Agrees(r, id) }

  // ---------------------------------------------------------------- the validator

  method SumItems(items: seq<Item>) returns (t: Sums)
    ensures t == Tally(items)
  {
    t := Empty();
    for n := 0 to |items|
      invariant t == Tally(items[..n])
    {
      hide AddAmount;
      assert items[..n + 1][..n] == items[..n];
      t := AddAmount(t, items[n]);
    }
    assert items[..|items|] == items;
  }

  predicate SumsAgree(total: Sums, allocatedBy: Sums, unallocatedBy: Sums, lines: Sums, unplaced: Sums, id: Identity) {
    && Compare(AmountAt(allocatedBy, id), AmountAt(lines, id)) == 0
    && Compare(AmountAt(unallocatedBy, id), AmountAt(unplaced, id)) == 0
    && Compare(AmountAt(total, id), Add(AmountAt(lines, id), AmountAt(unplaced, id))) == 0
    && SourcesAt(total, id) == SourcesAt(lines, id) + SourcesAt(unplaced, id)
    && SourcesAt(allocatedBy, id) == SourcesAt(lines, id)
    && SourcesAt(unallocatedBy, id) == SourcesAt(unplaced, id)
  }

  lemma SumsAgreeMeans(r: Result, id: Identity)
    ensures SumsAgree(Tally(r.totalBy), Tally(r.allocatedBy), Tally(r.unallocatedBy), Tally(LineItems(r.lines)),
                      Tally(ListedItems(r.unplaced)), id)
       <==> Agrees(r, id)
  {
    hide Tally, AmountAt, SourcesAt, Value, AmountIn, SourcesIn, LineItems, ListedItems, Total, Ok;
    TallyMeans(r.totalBy, id);
    TallyMeans(r.allocatedBy, id);
    TallyMeans(r.unallocatedBy, id);
    TallyMeans(LineItems(r.lines), id);
    TallyMeans(ListedItems(r.unplaced), id);
  }

  lemma UnlistedAgree(total: Sums, a: Sums, u: Sums, lines: Sums, unplaced: Sums, id: Identity)
    requires id !in total.at && id !in a.at && id !in u.at && id !in lines.at && id !in unplaced.at
    ensures SumsAgree(total, a, u, lines, unplaced, id)
  {
    hide Value;
    ZeroIsWorthNothing();
  }

  method ValidateExactAllocation(r: Result) returns (ok: bool)
    ensures ok <==> Valid(r)
  {
    hide *;
    if !ShapeOk(r) {
      ShapeMatters(r);
      return false;
    }
    var total := SumItems(r.totalBy);
    var a := SumItems(r.allocatedBy);
    var u := SumItems(r.unallocatedBy);
    var lines := SumItems(LineItems(r.lines));
    var unplaced := SumItems(ListedItems(r.unplaced));
    var keys := total.order + a.order + u.order + lines.order + unplaced.order;
    ok := true;
    for n := 0 to |keys|
      invariant ok <==> forall i :: 0 <= i < n ==> SumsAgree(total, a, u, lines, unplaced, keys[i])
    {
      ok := ok && SumsAgree(total, a, u, lines, unplaced, keys[n]);
    }
    KeysSuffice(r, keys);
  }

  lemma ShapeMatters(r: Result)
    requires !ShapeOk(r)
    ensures !Valid(r)
  {
  }

  /** Checking the identities that occur anywhere is checking them all. */
  lemma KeysSuffice(r: Result, keys: seq<Identity>)
    requires ShapeOk(r)
    requires keys == Tally(r.totalBy).order + Tally(r.allocatedBy).order + Tally(r.unallocatedBy).order
                     + Tally(LineItems(r.lines)).order + Tally(ListedItems(r.unplaced)).order
    ensures Valid(r) <==> forall i :: 0 <= i < |keys| ==>
              SumsAgree(Tally(r.totalBy), Tally(r.allocatedBy), Tally(r.unallocatedBy), Tally(LineItems(r.lines)),
                        Tally(ListedItems(r.unplaced)), keys[i])
  {
    hide Tally, LineItems, ListedItems, SumsAgree, Agrees, ShapeOk;
    var total, a, u := Tally(r.totalBy), Tally(r.allocatedBy), Tally(r.unallocatedBy);
    var lines, unplaced := Tally(LineItems(r.lines)), Tally(ListedItems(r.unplaced));
    forall id: Identity
      ensures SumsAgree(total, a, u, lines, unplaced, id) <==> Agrees(r, id)
      ensures id in keys || SumsAgree(total, a, u, lines, unplaced, id)
    {
      SumsAgreeMeans(r, id);
      OrdersListKeys(r, id);
      if id !in keys {
        UnlistedAgree(total, a, u, lines, unplaced, id);
      }
    }
    assert forall id :: id in keys ==> exists i :: 0 <= i < |keys| && keys[i] == id;
  }

  lemma OrdersListKeys(r: Result, id: Identity)
    ensures id in Tally(r.totalBy).at ==> id in Tally(r.totalBy).order
    ensures id in Tally(r.allocatedBy).at ==> id in Tally(r.allocatedBy).order
    ensures id in Tally(r.unallocatedBy).at ==> id in Tally(r.unallocatedBy).order
    ensures id in Tally(LineItems(r.lines)).at ==> id in Tally(LineItems(r.lines)).order
    ensures id in Tally(ListedItems(r.unplaced)).at ==> id in Tally(ListedItems(r.unplaced)).order
  {
    hide Tally, LineItems, ListedItems, SourcesIn, Value;
    TallyMeans(r.totalBy, id);
    TallyMeans(r.allocatedBy, id);
    TallyMeans(r.unallocatedBy, id);
    TallyMeans(LineItems(r.lines), id);
    TallyMeans(ListedItems(r.unplaced), id);
  }
}
