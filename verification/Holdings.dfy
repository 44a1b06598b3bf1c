/** Exact amounts with the source events they came from, gathered per currency and economic basis. */
module Holdings {
  import opened Money
  import opened Tables

  datatype Identity = Identity(currency: string, basis: string)

  datatype Item = Item(identity: Identity, amount: Decimal, sources: set<string>)

  datatype Held = Held(amount: Decimal, sources: set<string>)

  type Sums = Table<Identity, Held>

  function AddAmount(t: Sums, i: Item): Sums {
    Put(t, i.identity,
        if i.identity in t.at then
          Held(Add(t.at[i.identity].amount, i.amount), t.at[i.identity].sources + i.sources)
        else Held(i.amount, i.sources))
  }

  function Tally(items: seq<Item>): Sums {
    if items == [] then Empty() else AddAmount(Tally(items[..|items| - 1]), items[|items| - 1])
  }

  function AmountAt(t: Sums, id: Identity): Decimal { if id in t.at then t.at[id].amount else ZERO }

  function SourcesAt(t: Sums, id: Identity): set<string> { if id in t.at then t.at[id].sources else {} }

  // ---------------------------------------------------------------- what a tally means

  ghost function AmountIn(id: Identity): Item -> real {
    (i: Item) => if i.identity == id then Value(i.amount) else 0.0
  }

  ghost function SourcesIn(id: Identity, items: seq<Item>): set<string> {
    set k, x | 0 <= k < |items| && items[k].identity == id && x in items[k].sources :: x
  }

  ghost predicate CanonicalItems(items: seq<Item>) {
    forall k :: 0 <= k < |items| ==> Canonical(items[k].amount)
  }

  lemma SourcesWithLast(id: Identity, items: seq<Item>, last: Item)
    ensures SourcesIn(id, items + [last]) == SourcesIn(id, items) + if last.identity == id then last.sources else {}
  {
    var all := items + [last];
    forall x ensures x in SourcesIn(id, all) <==>
                     x in SourcesIn(id, items) || (last.identity == id && x in last.sources)
    {
      if x in SourcesIn(id, items) {
        var k :| 0 <= k < |items| && items[k].identity == id && x in items[k].sources;
        assert all[k] == items[k];
      }
      assert all[|items|] == last;
    }
  }

  /** A tally holds, for each identity, exactly the sum and the union of what was added. */
  lemma {:induction false} TallyMeans(items: seq<Item>, id: Identity)
    ensures Ok(Tally(items))
    ensures Value(AmountAt(Tally(items), id)) == Total(AmountIn(id), items)
    ensures SourcesAt(Tally(items), id) == SourcesIn(id, items)
    decreases |items|
  {
    if items != [] {
      hide SourcesIn, Ok, Value;
      var init, last := items[..|items| - 1], items[|items| - 1];
      TallyMeans(init, id);
      SourcesWithLast(id, init, last);
      assert items == init + [last];
      PutKeepsOk(Tally(init), last.identity, Tally(items).at[last.identity]);
    }
    ZeroIsWorthNothing();
  }

  lemma {:induction false} TallyCanonical(items: seq<Item>)
    requires CanonicalItems(items)
    ensures forall id :: id in Tally(items).at ==> Canonical(Tally(items).at[id].amount)
    ensures forall id :: id in Tally(items).at <==> exists k :: 0 <= k < |items| && items[k].identity == id
    decreases |items|
  {
    if items != [] {
      hide Canonical;
      var init, last := items[..|items| - 1], items[|items| - 1];
      TallyCanonical(init);
      assert items == init + [last];
    }
  }

  lemma SourcesPermuted(id: Identity, a: seq<Item>, b: seq<Item>)
    requires multiset(a) == multiset(b)
    ensures SourcesIn(id, a) == SourcesIn(id, b)
  {
    SourcesWithin(id, a, b);
    SourcesWithin(id, b, a);
  }

  lemma SourcesWithin(id: Identity, a: seq<Item>, b: seq<Item>)
    requires multiset(a) == multiset(b)
    ensures SourcesIn(id, a) <= SourcesIn(id, b)
  {
    forall x | x in SourcesIn(id, a) ensures x in SourcesIn(id, b) {
      var k :| 0 <= k < |a| && a[k].identity == id && x in a[k].sources;
      assert a[k] in multiset(b);
      var j :| 0 <= j < |b| && b[j] == a[k];
    }
  }
}
