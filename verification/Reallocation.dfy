/** Re-weighting one budget over cells by return, so that what is trimmed and what grows cancel out. */
module Reallocation {
  import opened Money
  import opened Reals
  import opened Tables

  datatype Cell = Cell(key: string, cost: real, roi: Option<real>, realizedSpend: real)

  /** A cell with what it spends now and what is recommended for it. */
  datatype Item = Item(key: string, current: real, recommended: real)

  /** What the re-weighting uses: the scored spend, the sum of weights and the clamped tilt. */
  datatype Scale = Scale(total: real, weight: real, tilt: real)

  function Clamp01(x: real): real { if x < 0.0 then 0.0 else if x > 1.0 then 1.0 else x }

  // ---------------------------------------------------------------- re-weighting

  predicate Scored(c: Cell) { c.roi.Some? && c.cost > 0.0 }

  function Spend(): Cell -> real { (c: Cell) => if Scored(c) then c.cost else 0.0 }

  function Return(c: Cell, floor: real): real { if c.roi == None then floor else Max(c.roi.value, floor) }

  function Weight(floor: real): Cell -> real {
    (c: Cell) => if Scored(c) then Product(c.cost, Return(c, floor)) else 0.0
  }

  function ScaleOf(cells: seq<Cell>, floor: real, tilt: real): Scale {
    Scale(Total(Spend(), cells), Total(Weight(floor), cells), Clamp01(tilt))
  }

  /** How far a spend of `cost` with a weight is moved; both arguments enter linearly. */
  function Shift(s: Scale, weight: real, cost: real): real
    requires s.weight > 0.0
  {
    Product(s.tilt, Product(s.total, weight) / s.weight - cost)
  }

  function Recommended(s: Scale, floor: real, c: Cell): real {
    if Scored(c) && s.weight > 0.0 then c.cost + Shift(s, Weight(floor)(c), c.cost) else c.cost
  }

  function ItemsUnder(s: Scale, floor: real, cells: seq<Cell>): seq<Item> {
    seq(|cells|, i requires 0 <= i < |cells| => Item(cells[i].key, cells[i].cost, Recommended(s, floor, cells[i])))
  }

  function Items(cells: seq<Cell>, floor: real, tilt: real): (items: seq<Item>)
    ensures |items| == |cells|
  {
    ItemsUnder(ScaleOf(cells, floor, tilt), floor, cells)
  }

  function Delta(): Item -> real { (i: Item) => i.recommended - i.current }

  lemma QuotientAdds(x: real, y: real, q: real)
    requires q > 0.0
    ensures (x + y) / q == x / q + y / q
  {
  }

  lemma ShiftAdds(s: Scale, w: real, c: real, w': real, c': real)
    requires s.weight > 0.0
    ensures Shift(s, w + w', c + c') == Shift(s, w, c) + Shift(s, w', c')
  {
    hide Product;
    ProductAdds(s.total, w, w');
    QuotientAdds(Product(s.total, w), Product(s.total, w'), s.weight);
    ProductAdds(s.tilt, Product(s.total, w) / s.weight - c, Product(s.total, w') / s.weight - c');
  }

  lemma ShiftZero(s: Scale)
    requires s.weight > 0.0
    ensures Shift(s, 0.0, 0.0) == 0.0
  {
    assert Product(s.total, 0.0) == 0.0;
  }

  lemma WholeStays(s: Scale)
    requires s.weight > 0.0
    ensures Shift(s, s.weight, s.total) == 0.0
  {
    ProductOverItself(s.total, s.weight);
  }

  lemma ProductOverItself(x: real, y: real)
    requires y > 0.0
    ensures Product(x, y) / y == x
  {
  }

  lemma {:induction false} DeltasUnder(s: Scale, floor: real, cells: seq<Cell>)
    requires s.weight > 0.0
    ensures Total(Delta(), ItemsUnder(s, floor, cells)) == Shift(s, Total(Weight(floor), cells), Total(Spend(), cells))
    decreases |cells|
  {
    if cells == [] {
      ShiftZero(s);
    } else {
      hide Shift, Weight, Spend;
      var n := |cells| - 1;
      var init, last := cells[..n], cells[n];
      DeltasUnder(s, floor, init);
      var items := ItemsUnder(s, floor, cells);
      assert items[..n] == ItemsUnder(s, floor, init);
      OneDelta(s, floor, last);
      ShiftAdds(s, Total(Weight(floor), init), Total(Spend(), init), Weight(floor)(last), Spend()(last));
    }
  }

  lemma OneDelta(s: Scale, floor: real, c: Cell)
    requires s.weight > 0.0
    ensures Recommended(s, floor, c) - c.cost == Shift(s, Weight(floor)(c), Spend()(c))
  {
    if !Scored(c) {
      ShiftZero(s);
    }
  }

  lemma {:induction false} DeltasZero(items: seq<Item>)
    requires forall i :: 0 <= i < |items| ==> items[i].recommended == items[i].current
    ensures Total(Delta(), items) == 0.0
  {
    if items != [] {
      DeltasZero(items[..|items| - 1]);
    }
  }

  /** Whatever the tilt and the floor, the recommendations add up to the spend. */
  lemma BudgetIsConserved(cells: seq<Cell>, floor: real, tilt: real)
    ensures Total(Delta(), Items(cells, floor, tilt)) == 0.0
  {
    hide Shift, Total, Weight, Spend;
    var s := ScaleOf(cells, floor, tilt);
    if s.weight > 0.0 {
      DeltasUnder(s, floor, cells);
      WholeStays(s);
    } else {
      DeltasZero(Items(cells, floor, tilt));
    }
  }

  /** A cell without a return, or without spend, keeps what it has. */
  lemma UnscoredIsUntouched(cells: seq<Cell>, floor: real, tilt: real, i: nat)
    requires i < |cells| && (cells[i].roi == None || cells[i].cost <= 0.0)
    ensures Items(cells, floor, tilt)[i].recommended == cells[i].cost
  {
  }

  // ---------------------------------------------------------------- direction of the re-weighting

  lemma {:induction false} SpendIsNonNegative(cells: seq<Cell>)
    ensures Total(Spend(), cells) >= 0.0
    decreases |cells|
  {
    if cells != [] {
      SpendIsNonNegative(cells[..|cells| - 1]);
    }
  }

  lemma Cancel(c: real, x: real, q: real)
    requires c > 0.0 && q > 0.0
    ensures Product(c, x) / q > c ==> x > q
    ensures Product(c, x) / q < c ==> x < q
  {
    var e := Product(c, x) / q;
    assert e * q == Product(c, x);
    assert c * (x - q) == (e - c) * q;
    SignOfProduct(c, x - q);
    assert e > c ==> (e - c) * q > 0.0;
    assert e < c ==> (e - c) * q < 0.0 by {
      if e < c { assert (c - e) * q > 0.0; }
    }
  }

  /** A scored cell grows only above the mean return, and is trimmed only below it. */
  lemma GrowsAboveTheMean(s: Scale, floor: real, c: Cell)
    requires Scored(c) && s.weight > 0.0 && s.tilt >= 0.0
    ensures Recommended(s, floor, c) > c.cost ==> Product(s.total, Return(c, floor)) > s.weight
    ensures Recommended(s, floor, c) < c.cost ==> Product(s.total, Return(c, floor)) < s.weight
  {
    hide Product, Return;
    var w := Product(c.cost, Return(c, floor));
    SignOfProduct(s.tilt, Product(s.total, w) / s.weight - c.cost);
    ProductRegroups(s.total, c.cost, Return(c, floor));
    Cancel(c.cost, Product(s.total, Return(c, floor)), s.weight);
  }

  lemma Steeper(total: real, low: real, high: real, mean: real)
    requires total >= 0.0 && Product(total, low) < mean < Product(total, high)
    ensures low < high
  {
    assert Product(total, high) - Product(total, low) == Product(total, high - low);
    SignOfProduct(total, high - low);
  }

  /** Whatever is trimmed has a lower return than whatever grows, and what grows has a positive one. */
  lemma TrimmedReturnsLess(cells: seq<Cell>, floor: real, tilt: real, from: nat, to: nat)
    requires from < |cells| && to < |cells|
    requires Delta()(Items(cells, floor, tilt)[from]) < 0.0 < Delta()(Items(cells, floor, tilt)[to])
    ensures Scored(cells[from]) && Scored(cells[to]) && cells[from].roi.value < cells[to].roi.value
    ensures cells[to].roi.value > 0.0
  {
    hide Total, Product, Shift, Weight, Spend;
    var s := ScaleOf(cells, floor, tilt);
    GrowsAboveTheMean(s, floor, cells[from]);
    GrowsAboveTheMean(s, floor, cells[to]);
    SpendIsNonNegative(cells);
    Steeper(s.total, Return(cells[from], floor), Return(cells[to], floor), s.weight);
    SignOfProduct(s.total, Return(cells[to], floor));
  }

  lemma Blend(cost: real, raw: real, tilt: real)
    requires cost > 0.0 && raw > 0.0 && 0.0 <= tilt <= 1.0
    ensures cost + Product(tilt, raw - cost) > 0.0
  {
    ProductAdds(tilt, raw, -cost);
    assert Product(tilt, -cost) == -Product(tilt, cost);
    assert cost - Product(tilt, cost) == Product(1.0 - tilt, cost);
    SignOfProduct(1.0 - tilt, cost);
    SignOfProduct(tilt, raw);
    if tilt > 0.0 { assert Product(tilt, raw) > 0.0; } else { assert Product(tilt, cost) == 0.0; }
  }

  /** With a positive floor no scored cell is zeroed outright, however low its return. */
  lemma NothingIsZeroed(cells: seq<Cell>, floor: real, tilt: real, i: nat)
    requires i < |cells| && Scored(cells[i]) && floor > 0.0
    ensures Items(cells, floor, tilt)[i].recommended > 0.0
  {
    hide Total, Product, Spend, Weight;
    var s := ScaleOf(cells, floor, tilt);
    if s.weight > 0.0 {
      var c := cells[i];
      SpendIsPositive(cells, i);
      WeightIs(floor, c);
      SignOfProduct(c.cost, Return(c, floor));
      var w := Product(c.cost, Return(c, floor));
      SignOfProduct(s.total, w);
      PositiveQuotient(Product(s.total, w), s.weight);
      Blend(c.cost, Product(s.total, w) / s.weight, s.tilt);
    }
  }

  lemma WeightIs(floor: real, c: Cell)
    requires Scored(c)
    ensures Weight(floor)(c) == Product(c.cost, Return(c, floor))
  {
  }

  lemma PositiveQuotient(x: real, q: real)
    requires x > 0.0 && q > 0.0
    ensures x / q > 0.0
  {
  }

  lemma {:induction false} SpendIsPositive(cells: seq<Cell>, i: nat)
    requires i < |cells| && Scored(cells[i])
    ensures Total(Spend(), cells) > 0.0
    decreases |cells|
  {
    var n := |cells| - 1;
    SpendIsNonNegative(cells[..n]);
    if i < n {
      SpendIsPositive(cells[..n], i);
    }
  }

}
