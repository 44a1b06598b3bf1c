/** What a recommendation says, cell by cell and move by move. */
module ReallocationMeaning {
  // Stated from the cells alone: sums over the scored cells, and for each transfer what earlier transfers
  // have left of every trim and growth.

  import opened Money
  import opened Reals
  import opened Tables
  import opened Reallocation
  import opened ReallocationMoves

  // ---------------------------------------------------------------- the recommended amounts

  ghost predicate HasScore(c: Cell) { c.roi != None && c.cost > 0.0 }

  /** The return that counts: never less than the floor. */
  ghost function Counting(c: Cell, floor: real): real
    requires HasScore(c)
  {
    if c.roi.value < floor then floor else c.roi.value
  }

  ghost function ScoredSpend(cells: seq<Cell>): real {
    if cells == [] then 0.0
    else
      var c := cells[|cells| - 1];
      ScoredSpend(cells[..|cells| - 1]) + if HasScore(c) then c.cost else 0.0
  }

  ghost function ScoredWeight(cells: seq<Cell>, floor: real): real {
    if cells == [] then 0.0
    else
      var c := cells[|cells| - 1];
      ScoredWeight(cells[..|cells| - 1], floor) + if HasScore(c) then c.cost * Counting(c, floor) else 0.0
  }

  /** The part of the scored spend that a cell's spend and return are of all of them. */
  ghost predicate IsFair(cells: seq<Cell>, floor: real, c: Cell, fair: real) {
    HasScore(c) && fair * ScoredWeight(cells, floor) == ScoredSpend(cells) * (c.cost * Counting(c, floor))
  }

  /** The tilt, kept between nothing and all of the way. */
  ghost predicate Tilts(tilt: real, t: real) {
    0.0 <= t <= 1.0 && (t == tilt || (t == 0.0 && tilt < 0.0) || (t == 1.0 && tilt > 1.0))
  }

  /** A scored cell goes that far of the way to its fair part; every other one keeps what it has. */
  ghost predicate IsRecommended(cells: seq<Cell>, floor: real, t: real, c: Cell, amount: real) {
    if HasScore(c) && ScoredWeight(cells, floor) > 0.0
    then exists fair: real :: IsFair(cells, floor, c, fair) && amount == c.cost + t * (fair - c.cost)
    else amount == c.cost
  }

  ghost predicate Recommends(cells: seq<Cell>, floor: real, tilt: real, items: seq<Item>) {
    && |items| == |cells|
    && exists t: real :: Tilts(tilt, t) && forall i :: 0 <= i < |cells| ==>
         && items[i].key == cells[i].key && items[i].current == cells[i].cost
         && IsRecommended(cells, floor, t, cells[i], items[i].recommended)
  }

  lemma {:induction false} SumsAreScored(cells: seq<Cell>, floor: real)
    ensures Total(Spend(), cells) == ScoredSpend(cells) && Total(Weight(floor), cells) == ScoredWeight(cells, floor)
    decreases |cells|
  {
    if cells != [] {
      SumsAreScored(cells[..|cells| - 1], floor);
    }
  }

  lemma QuotientTimes(x: real, q: real)
    requires q > 0.0
    ensures x / q * q == x
  {
  }

  lemma OneRecommended(cells: seq<Cell>, floor: real, tilt: real, c: Cell)
    ensures IsRecommended(cells, floor, Clamp01(tilt), c, Recommended(ScaleOf(cells, floor, tilt), floor, c))
  {
    SumsAreScored(cells, floor);
    hide Total, ScoredSpend, ScoredWeight, Clamp01;
    var s := ScaleOf(cells, floor, tilt);
    if HasScore(c) && s.weight > 0.0 {
      var fair := Product(s.total, Weight(floor)(c)) / s.weight;
      QuotientTimes(Product(s.total, Weight(floor)(c)), s.weight);
      assert IsFair(cells, floor, c, fair);
    }
  }

  lemma ItemsRecommend(cells: seq<Cell>, floor: real, tilt: real)
    ensures Recommends(cells, floor, tilt, Items(cells, floor, tilt))
  {
    hide Recommended, IsRecommended;
    forall i | 0 <= i < |cells|
      ensures IsRecommended(cells, floor, Clamp01(tilt), cells[i],
                            Recommended(ScaleOf(cells, floor, tilt), floor, cells[i]))
    {
      OneRecommended(cells, floor, tilt, cells[i]);
    }
    assert Tilts(tilt, Clamp01(tilt));
  }

  // ---------------------------------------------------------------- the transfers

  /** How far an item is to be trimmed, or to grow. */
  ghost function Gap(i: Item, trim: bool): real {
    if trim then i.current - i.recommended else i.recommended - i.current
  }

  /** What is left of it after earlier transfers. */
  ghost function Outstanding(items: seq<Item>, earlier: seq<Transfer>, trim: bool, k: nat): real
    requires k < |items|
  {
    Gap(items[k], trim) - Sent(earlier, k, trim)
  }

  /** Of the items of which more than a billionth is left, k was to be moved furthest, and of those that were
      to be moved as far it is listed first. */
  ghost predicate Leads(items: seq<Item>, earlier: seq<Transfer>, trim: bool, k: nat, left: real) {
    && k < |items| && left == Outstanding(items, earlier, trim, k) && left > 0.000000001
    && forall j :: 0 <= j < |items| && j != k && Outstanding(items, earlier, trim, j) > 0.000000001 ==>
         Gap(items[k], trim) > Gap(items[j], trim) || (Gap(items[k], trim) == Gap(items[j], trim) && k < j)
  }

  /** A transfer leads from the leading trim to the leading growth, and moves what is left of one of them. */
  ghost predicate ComesNext(items: seq<Item>, earlier: seq<Transfer>, t: Transfer) {
    exists x: real, y: real ::
      Leads(items, earlier, true, t.from, x) && Leads(items, earlier, false, t.to, y)
      && t.amount <= x && t.amount <= y && (t.amount == x || t.amount == y)
  }

  /** Transfers follow one another until no trim, or no growth, is left. */
  ghost predicate Paired(items: seq<Item>, transfers: seq<Transfer>) {
    && (forall n :: 0 <= n < |transfers| ==> ComesNext(items, transfers[..n], transfers[n]))
    && ((forall k :: 0 <= k < |items| ==> Outstanding(items, transfers, true, k) <= 0.000000001)
        || (forall k :: 0 <= k < |items| ==> Outstanding(items, transfers, false, k) <= 0.000000001))
  }

  lemma {:induction false} SentNotNegative(transfers: seq<Transfer>, k: nat, trim: bool)
    requires forall i :: 0 <= i < |transfers| ==> transfers[i].amount >= 0.0
    ensures Sent(transfers, k, trim) >= 0.0
    decreases |transfers|
  {
    if transfers != [] {
      SentNotNegative(transfers[..|transfers| - 1], k, trim);
    }
  }

  lemma {:induction false} DueIsPart(items: seq<Item>, trim: bool, k: nat)
    requires k < |items| && Gap(items[k], trim) > 0.000000001
    ensures Part(k, Gap(items[k], trim)) in Parts(items, trim)
    decreases |items|
  {
    if k < |items| - 1 {
      DueIsPart(items[..|items| - 1], trim, k);
    } else {
      var parts := Parts(items, trim);
      assert parts[|parts| - 1] == Part(k, Gap(items[k], trim));
    }
  }

  lemma DueIsRanked(items: seq<Item>, trim: bool, k: nat) returns (m: nat)
    requires k < |items| && Gap(items[k], trim) > 0.000000001
    ensures m < |Ranked(items, trim)| && Ranked(items, trim)[m] == Part(k, Gap(items[k], trim))
  {
    DueIsPart(items, trim, k);
    hide Parts;
    SameMembers(Ranked(items, trim), Parts(items, trim));
    m :| 0 <= m < |Ranked(items, trim)| && Ranked(items, trim)[m] == Part(k, Gap(items[k], trim));
  }

  lemma FirstLeads(items: seq<Item>, earlier: seq<Transfer>, trim: bool, at: nat, left: real)
    requires FirstLeft(Ranked(items, trim), earlier, trim, at, left)
    requires forall n :: 0 <= n < |earlier| ==> earlier[n].amount >= 0.0
    ensures Leads(items, earlier, trim, at, left)
  {
    hide Ranked, Sent;
    var r := Ranked(items, trim);
    var i :| 0 <= i < |r| && FirstLeftAt(r, earlier, trim, i, at, left);
    RankedOrder(items, trim);
    RankedDue(items, trim);
    assert r[i] in r && r[i].amount == Gap(items[at], trim);
    forall j | 0 <= j < |items| && j != at && Outstanding(items, earlier, trim, j) > 0.000000001
      ensures Gap(items[at], trim) > Gap(items[j], trim) || (Gap(items[at], trim) == Gap(items[j], trim) && at < j)
    {
      SentNotNegative(earlier, j, trim);
      var m := DueIsRanked(items, trim, j);
      BeforeMeans(r[i], r[m]);
    }
  }

  lemma BeforeMeans(a: Part, b: Part)
    ensures Before()(a, b) <==> a.amount > b.amount || (a.amount == b.amount && a.at < b.at)
  {
  }

  lemma GreedyComesNext(items: seq<Item>, earlier: seq<Transfer>, t: Transfer)
    requires Greedy(Ranked(items, true), Ranked(items, false), earlier, t)
    requires forall n :: 0 <= n < |earlier| ==> earlier[n].amount >= 0.0
    ensures ComesNext(items, earlier, t)
  {
    hide Ranked, FirstLeft, Leads;
    var x, y :| FirstLeft(Ranked(items, true), earlier, true, t.from, x)
             && FirstLeft(Ranked(items, false), earlier, false, t.to, y) && t.amount == Min(x, y);
    FirstLeads(items, earlier, true, t.from, x);
    FirstLeads(items, earlier, false, t.to, y);
  }

  lemma NothingOutstanding(items: seq<Item>, now: seq<Part>, transfers: seq<Transfer>, trim: bool, k: nat)
    requires k < |items| && Left(now, Ranked(items, trim), transfers, trim) && Side(now, Ranked(items, trim), |now|)
    requires forall n :: 0 <= n < |transfers| ==> transfers[n].amount >= 0.0
    ensures Outstanding(items, transfers, trim, k) <= 0.000000001
  {
    hide Ranked, Sent;
    SentNotNegative(transfers, k, trim);
    if Gap(items[k], trim) > 0.000000001 {
      var m := DueIsRanked(items, trim, k);
      assert now[m].amount <= CUT;
    }
  }

  lemma OneComesAfterAnother(items: seq<Item>, transfers: seq<Transfer>)
    requires AllGreedy(Ranked(items, true), Ranked(items, false), transfers)
    requires forall n :: 0 <= n < |transfers| ==> transfers[n].amount >= 0.0
    ensures forall n :: 0 <= n < |transfers| ==> ComesNext(items, transfers[..n], transfers[n])
  {
    hide Ranked, Greedy, ComesNext;
    forall n | 0 <= n < |transfers| ensures ComesNext(items, transfers[..n], transfers[n]) {
      GreedyComesNext(items, transfers[..n], transfers[n]);
    }
  }

  lemma SideUsedUp(items: seq<Item>, now: seq<Part>, transfers: seq<Transfer>, trim: bool)
    requires Left(now, Ranked(items, trim), transfers, trim) && Side(now, Ranked(items, trim), |now|)
    requires forall n :: 0 <= n < |transfers| ==> transfers[n].amount >= 0.0
    ensures forall k :: 0 <= k < |items| ==> Outstanding(items, transfers, trim, k) <= 0.000000001
  {
    hide Ranked, Left, Side, Outstanding;
    forall k | 0 <= k < |items| ensures Outstanding(items, transfers, trim, k) <= 0.000000001 {
      NothingOutstanding(items, now, transfers, trim, k);
    }
  }

  lemma EndOf(items: seq<Item>, end: State)
    requires Finished(items, end) && Follows(end, Ranked(items, true), Ranked(items, false))
    ensures AllGreedy(Ranked(items, true), Ranked(items, false), end.transfers)
    ensures Left(end.trims, Ranked(items, true), end.transfers, true)
    ensures Left(end.grows, Ranked(items, false), end.transfers, false)
    ensures Side(end.trims, Ranked(items, true), |end.trims|) || Side(end.grows, Ranked(items, false), |end.grows|)
  {
    hide Ranked, AllGreedy, Left, Side;
    RunningOf(items, end);
    Bounds(end, Ranked(items, true), Ranked(items, false));
    SidesOf(end, Ranked(items, true), Ranked(items, false));
    hide Running;
  }

  lemma TransfersPaired(items: seq<Item>, end: State)
    requires Finished(items, end) && Follows(end, Ranked(items, true), Ranked(items, false))
    ensures Paired(items, end.transfers)
  {
    TransfersInRange(items, end);
    EndOf(items, end);
    OneComesAfterAnother(items, end.transfers);
    hide *;
    if Side(end.trims, Ranked(items, true), |end.trims|) {
      SideUsedUp(items, end.trims, end.transfers, true);
    } else {
      SideUsedUp(items, end.grows, end.transfers, false);
    }
    PairedIs(items, end.transfers);
  }

  lemma PairedIs(items: seq<Item>, transfers: seq<Transfer>)
    ensures Paired(items, transfers)
       <==> && (forall n :: 0 <= n < |transfers| ==> ComesNext(items, transfers[..n], transfers[n]))
            && ((forall k :: 0 <= k < |items| ==> Outstanding(items, transfers, true, k) <= 0.000000001)
                || (forall k :: 0 <= k < |items| ==> Outstanding(items, transfers, false, k) <= 0.000000001))
  {
    hide ComesNext, Outstanding;
  }

  // ---------------------------------------------------------------- the moves

  /** The part of a cell's spend that reached a realized unit, kept between nothing and all of it. */
  ghost predicate IsRate(c: Cell, q: real) {
    if c.cost <= 0.0 || c.realizedSpend < 0.0 then q == 0.0
    else if c.realizedSpend > c.cost then q == 1.0
    else q * c.cost == c.realizedSpend
  }

  /** The rate under a key is that of the last cell with it. */
  ghost predicate IsRateOf(cells: seq<Cell>, key: string, q: real) {
    exists k :: 0 <= k < |cells| && cells[k].key == key && IsRate(cells[k], q)
                && forall j :: k < j < |cells| ==> cells[j].key != key
  }

  ghost predicate Tells(cells: seq<Cell>, t: Transfer, m: Move) {
    && t.from < |cells| && t.to < |cells|
    && m.fromKey == cells[t.from].key && m.toKey == cells[t.to].key && m.amount == t.amount
    && exists p: real, q: real ::
         IsRateOf(cells, m.fromKey, p) && IsRateOf(cells, m.toKey, q) && m.gain == m.amount * (q - p)
  }

  /** The moves tell the transfers of more than half a cent, in order, and no others; `told` lists which. */
  ghost predicate TellsAll(cells: seq<Cell>, transfers: seq<Transfer>, moves: seq<Move>, told: seq<nat>) {
    && |told| == |moves|
    && (forall i, j :: 0 <= i < j < |told| ==> told[i] < told[j])
    && (forall n :: 0 <= n < |transfers| ==> (transfers[n].amount > 0.005 <==> n in told))
    && forall i :: 0 <= i < |told| ==> told[i] < |transfers| && Tells(cells, transfers[told[i]], moves[i])
  }

  lemma RateIs(c: Cell)
    ensures IsRate(c, Rate(c))
  {
    if c.cost > 0.0 {
      QuotientTimes(c.realizedSpend, c.cost);
      QuotientSign(c.realizedSpend, c.cost);
    }
  }

  lemma QuotientSign(x: real, q: real)
    requires q > 0.0
    ensures x / q < 0.0 <==> x < 0.0
    ensures x / q > 1.0 <==> x > q
  {
    var w := x / q;
    assert w * q == x;
    assert w < 0.0 ==> w * q < 0.0;
    assert w >= 0.0 ==> w * q >= 0.0;
    assert w > 1.0 ==> w * q > q;
    assert w <= 1.0 ==> w * q <= q;
  }

  lemma {:induction false} RatesAreLast(cells: seq<Cell>, key: string)
    ensures key in Rates(cells) <==> exists k :: 0 <= k < |cells| && cells[k].key == key
    ensures key in Rates(cells) ==> IsRateOf(cells, key, Rates(cells)[key])
    decreases |cells|
  {
    if cells != [] {
      hide IsRate, Rate;
      var n := |cells| - 1;
      RatesAreLast(cells[..n], key);
      RateIs(cells[n]);
      if cells[n].key == key {
        assert IsRate(cells[n], Rates(cells)[key]);
      } else if key in Rates(cells[..n]) {
        var k :| 0 <= k < n && cells[..n][k].key == key && IsRate(cells[..n][k], Rates(cells)[key])
                 && forall j :: k < j < n ==> cells[..n][j].key != key;
        assert cells[k].key == key && IsRate(cells[k], Rates(cells)[key]);
        assert forall j :: k < j < |cells| ==> cells[j].key != key;
      }
    }
  }

  lemma MoveIs(items: seq<Item>, rates: map<string, real>, t: Transfer)
    ensures var m := MoveOf(items, rates, t);
            && m.fromKey == Key(items, t.from) && m.toKey == Key(items, t.to) && m.amount == t.amount
            && m.gain == m.amount * (RateOf(rates, m.toKey) - RateOf(rates, m.fromKey))
  {
    hide RateOf, Key;
  }

  lemma RateIsKept(cells: seq<Cell>, k: nat)
    requires k < |cells|
    ensures IsRateOf(cells, cells[k].key, RateOf(Rates(cells), cells[k].key))
  {
    RatesAreLast(cells, cells[k].key);
    hide Rates, IsRateOf;
  }

  lemma MoveTells(cells: seq<Cell>, floor: real, tilt: real, t: Transfer)
    requires t.from < |cells| && t.to < |cells|
    ensures Tells(cells, t, MoveOf(Items(cells, floor, tilt), Rates(cells), t))
  {
    hide Items, Rates, IsRateOf, MoveOf, RateOf, Key;
    KeyOfCell(cells, floor, tilt, t.from);
    KeyOfCell(cells, floor, tilt, t.to);
    RateIsKept(cells, t.from);
    RateIsKept(cells, t.to);
    MoveIs(Items(cells, floor, tilt), Rates(cells), t);
  }

  lemma LargeStep(transfers: seq<Transfer>)
    requires transfers != []
    ensures var n := |transfers| - 1;
            Large(transfers) == Large(transfers[..n]) + if transfers[n].amount > 0.005 then [transfers[n]] else []
  {
  }

  /** The positions of the large transfers, in order. */
  ghost predicate ListsLarge(transfers: seq<Transfer>, large: seq<Transfer>, told: seq<nat>) {
    && |told| == |large|
    && (forall i, j :: 0 <= i < j < |told| ==> told[i] < told[j])
    && (forall n :: 0 <= n < |transfers| ==> (transfers[n].amount > 0.005 <==> n in told))
    && forall i :: 0 <= i < |told| ==> told[i] < |transfers| && large[i] == transfers[told[i]]
  }

  lemma ListOneMore(transfers: seq<Transfer>, large: seq<Transfer>, told: seq<nat>)
    requires transfers != [] && ListsLarge(transfers[..|transfers| - 1], large, told)
    ensures var n := |transfers| - 1;
            if transfers[n].amount > 0.005 then ListsLarge(transfers, large + [transfers[n]], told + [n])
            else ListsLarge(transfers, large, told)
  {
  }

  lemma {:induction false} LargeAreListed(transfers: seq<Transfer>) returns (told: seq<nat>)
    ensures ListsLarge(transfers, Large(transfers), told)
    decreases |transfers|
  {
    if transfers == [] {
      told := [];
    } else {
      var n := |transfers| - 1;
      told := LargeAreListed(transfers[..n]);
      ListOneMore(transfers, Large(transfers[..n]), told);
      LargeStep(transfers);
      hide Large, ListsLarge;
      assert Large(transfers[..n]) + [] == Large(transfers[..n]);
      if transfers[n].amount > 0.005 {
        told := told + [n];
      }
    }
  }

  lemma MovesTell(cells: seq<Cell>, floor: real, tilt: real, transfers: seq<Transfer>)
    requires InRange(transfers, |cells|)
    ensures exists told ::
              TellsAll(cells, transfers, Moves(Items(cells, floor, tilt), Rates(cells), Large(transfers)), told)
  {
    hide Items, Rates, MoveOf, Tells, Large;
    var told := LargeAreListed(transfers);
    forall i | 0 <= i < |told|
      ensures Tells(cells, transfers[told[i]], MoveOf(Items(cells, floor, tilt), Rates(cells), Large(transfers)[i]))
    {
      MoveTells(cells, floor, tilt, transfers[told[i]]);
    }
    assert TellsAll(cells, transfers, Moves(Items(cells, floor, tilt), Rates(cells), Large(transfers)), told);
  }

  // ---------------------------------------------------------------- all of it

  ghost function GainSum(moves: seq<Move>): real {
    if moves == [] then 0.0 else GainSum(moves[..|moves| - 1]) + moves[|moves| - 1].gain
  }

  lemma {:induction false} GainsAddUp(moves: seq<Move>)
    ensures Total(MoveGain(), moves) == GainSum(moves)
    decreases |moves|
  {
    if moves != [] {
      GainsAddUp(moves[..|moves| - 1]);
    }
  }

  /** What a recommendation says: the amount of each cell, the moves that lead there, and what they gain. */
  ghost predicate Says(cells: seq<Cell>, floor: real, tilt: real, items: seq<Item>, moves: seq<Move>, gain: real) {
    && Recommends(cells, floor, tilt, items)
    && (exists transfers, told :: Paired(items, transfers) && TellsAll(cells, transfers, moves, told))
    && gain == GainSum(moves)
  }

  /** A recommendation as it is returned says just this. */
  lemma RecommendationSays(cells: seq<Cell>, floor: real, tilt: real, items: seq<Item>, moves: seq<Move>,
                           gain: real, end: State)
    requires items == Items(cells, floor, tilt) && moves == Moves(items, Rates(cells), Large(end.transfers))
    requires Finished(items, end) && Follows(end, Ranked(items, true), Ranked(items, false))
    requires gain == Total(MoveGain(), moves)
    ensures Says(cells, floor, tilt, items, moves, gain)
  {
    hide Recommends, Paired, TellsAll, Finished, Follows, Rates, ItemsUnder, Large;
    ItemsRecommend(cells, floor, tilt);
    TransfersPaired(items, end);
    TransfersInRange(items, end);
    MovesTell(cells, floor, tilt, end.transfers);
    GainsAddUp(moves);
  }
}
