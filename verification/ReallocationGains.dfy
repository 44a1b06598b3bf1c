/** Which returns and rates admit a plan that projects a loss. */
module ReallocationGains {
  // A plan moves money by returns and projects its gain by realized rates. Spend, floor and tilt are free
  // here; returns and rates are given.

  import opened Money
  import opened Reals
  import opened Tables
  import opened Reallocation
  import opened ReallocationMoves

  /** A cell but for its spend; `share` is the part of the spend that is realized. */
  datatype Profile = Profile(key: string, roi: Option<real>, share: real)

  function CellOf(p: Profile, cost: real): Cell { Cell(p.key, cost, p.roi, Product(p.share, cost)) }

  function CellsOf(ps: seq<Profile>, costs: seq<real>): seq<Cell>
    requires |costs| == |ps|
  {
    seq(|ps|, i requires 0 <= i < |ps| => CellOf(ps[i], costs[i]))
  }

  ghost predicate ProfilesOk(ps: seq<Profile>) {
    && (forall i, j :: 0 <= i < j < |ps| ==> ps[i].key != ps[j].key)
    && forall i :: 0 <= i < |ps| ==> 0.0 <= ps[i].share <= 1.0
  }

  /** A pair of profiles of which the first returns less, the second more than nothing, and the first
      realizes more. */
  predicate Crossed(a: Profile, b: Profile) {
    && a.roi.Some? && b.roi.Some? && a.roi.value < b.roi.value && b.roi.value > 0.0
    && a.share > b.share
  }

  ghost predicate SharesFollow(ps: seq<Profile>) {
    forall j, k :: 0 <= j < |ps| && 0 <= k < |ps| ==> !Crossed(ps[j], ps[k])
  }

  // ---------------------------------------------------------------- rates of profiles

  lemma RateOfProfile(p: Profile, cost: real)
    requires 0.0 <= p.share <= 1.0
    ensures Rate(CellOf(p, cost)) == if cost > 0.0 then p.share else 0.0
  {
    if cost > 0.0 {
      assert p.share * cost / cost == p.share;
    }
  }

  lemma {:induction false} RatesByKey(cells: seq<Cell>, i: nat)
    requires i < |cells| && forall j, k :: 0 <= j < k < |cells| ==> cells[j].key != cells[k].key
    ensures RateOf(Rates(cells), cells[i].key) == Rate(cells[i])
    decreases |cells|
  {
    hide Rate;
    if i < |cells| - 1 {
      RatesByKey(cells[..|cells| - 1], i);
    }
  }

  lemma RatesOfProfiles(ps: seq<Profile>, costs: seq<real>, i: nat)
    requires ProfilesOk(ps) && |costs| == |ps| && i < |ps|
    ensures RateOf(Rates(CellsOf(ps, costs)), ps[i].key) == if costs[i] > 0.0 then ps[i].share else 0.0
  {
    hide Rates, Rate, Product;
    RatesByKey(CellsOf(ps, costs), i);
    RateOfProfile(ps[i], costs[i]);
  }

  // ---------------------------------------------------------------- no loss where shares follow

  lemma SharesGiveRates(ps: seq<Profile>, costs: seq<real>)
    requires ProfilesOk(ps) && |costs| == |ps| && SharesFollow(ps)
    ensures RatesFollow(CellsOf(ps, costs))
  {
    hide Rates, RateOf, Product;
    var cells := CellsOf(ps, costs);
    forall j, k | 0 <= j < |cells| && 0 <= k < |cells| && Scored(cells[j]) && Scored(cells[k])
                  && cells[j].roi.value < cells[k].roi.value && cells[k].roi.value > 0.0
      ensures RateOf(Rates(cells), cells[j].key) <= RateOf(Rates(cells), cells[k].key)
    {
      RatesOfProfiles(ps, costs, j);
      RatesOfProfiles(ps, costs, k);
      assert !Crossed(ps[j], ps[k]);
    }
  }

  // ---------------------------------------------------------------- a loss where they do not

  lemma {:induction false} Finishes(s: State, trims: seq<Part>, grows: seq<Part>) returns (end: State)
    requires Running(s, trims, grows)
    ensures Running(end, trims, grows) && (end.ti == |trims| || end.gi == |grows|)
    decreases |trims| + |grows| - s.ti - s.gi
  {
    hide Running, Next;
    Bounds(s, trims, grows);
    if s.ti == |trims| || s.gi == |grows| {
      end := s;
    } else {
      NextKeepsRunning(s, trims, grows);
      Bounds(Next(s), trims, grows);
      end := Finishes(Next(s), trims, grows);
    }
  }

  lemma SomePlan(items: seq<Item>) returns (end: State)
    ensures Finished(items, end)
  {
    hide Running, Ranked;
    var trims, grows := Ranked(items, true), Ranked(items, false);
    RankedAboveCut(items);
    StartsRunning(State(trims, grows, 0, 0, []));
    end := Finishes(State(trims, grows, 0, 0, []), trims, grows);
  }

  /** The same spend for two cells and none for the others. */
  function TwoCosts(n: nat, j: nat, k: nat, cost: real): seq<real> {
    seq(n, i => if i == j || i == k then cost else 0.0)
  }

  lemma {:induction false} TotalOfPair<T>(f: T -> real, s: seq<T>, j: nat, k: nat)
    requires j != k && forall i :: 0 <= i < |s| && i != j && i != k ==> f(s[i]) == 0.0
    ensures Total(f, s) == (if j < |s| then f(s[j]) else 0.0) + (if k < |s| then f(s[k]) else 0.0)
    decreases |s|
  {
    if s != [] {
      TotalOfPair(f, s[..|s| - 1], j, k);
    }
  }

  lemma {:induction false} WorthOfPair(rates: map<string, real>, items: seq<Item>, amounts: seq<real>, j: nat, k: nat)
    requires j != k && |amounts| <= |items|
    requires forall i :: 0 <= i < |amounts| && i != j && i != k ==> RateOf(rates, items[i].key) == 0.0
    ensures Worth(rates, items, amounts)
         == (if j < |amounts| then Product(amounts[j], RateOf(rates, items[j].key)) else 0.0)
            + (if k < |amounts| then Product(amounts[k], RateOf(rates, items[k].key)) else 0.0)
    decreases |amounts|
  {
    hide Product, RateOf;
    if amounts != [] {
      var n := |amounts| - 1;
      WorthOfPair(rates, items, amounts[..n], j, k);
      ProductZero(amounts[n], RateOf(rates, items[n].key));
    }
  }

  /** How much of an equal spend is moved between two returns: (high - low) / (high + low). */
  function Tilted(low: real, high: real): real
    requires low + high != 0.0
  {
    (high - low) / (high + low)
  }

  lemma EqualSpendMoves(cost: real, low: real, high: real, mine: real)
    requires cost > 0.0 && 0.0 < low < high && (mine == low || mine == high)
    ensures var total, weight := cost + cost, Product(cost, low) + Product(cost, high);
            && weight > 0.0
            && cost + Product(1.0, Product(total, Product(cost, mine)) / weight - cost)
               == (if mine == low then cost - Product(cost, Tilted(low, high))
                   else cost + Product(cost, Tilted(low, high)))
    ensures 0.0 < Tilted(low, high) < 1.0
  {
    var sum := low + high;
    var weight := Product(cost, low) + Product(cost, high);
    assert weight == cost * sum;
    SignOfProduct(cost, low);
    SignOfProduct(cost, high);
    ShareOfSum(cost, mine, sum);
    TiltIs(cost, low, high);
  }

  lemma ShareOfSum(cost: real, mine: real, sum: real)
    requires cost > 0.0 && sum > 0.0
    ensures cost * sum > 0.0
    ensures (cost + cost) * (cost * mine) / (cost * sum) == 2.0 * (cost * (mine / sum))
  {
    var q := mine / sum;
    assert q * sum == mine;
    var x := 2.0 * (cost * q);
    assert cost * sum > 0.0;
    TwiceShare(cost, q, sum);
    assert x * (cost * sum) == (cost + cost) * (cost * mine);
    DividesBack(x, cost * sum);
  }

  lemma TwiceShare(cost: real, q: real, sum: real)
    ensures 2.0 * (cost * q) * (cost * sum) == (cost + cost) * (cost * (q * sum))
  {
    assert (cost * q) * (cost * sum) == cost * (cost * (q * sum));
  }

  lemma DividesBack(x: real, y: real)
    requires y > 0.0
    ensures x * y / y == x
  {
  }

  lemma TiltIs(cost: real, low: real, high: real)
    requires 0.0 < low < high
    ensures 0.0 < Tilted(low, high) < 1.0
    ensures 2.0 * (cost * (low / (low + high))) - cost == -Product(cost, Tilted(low, high))
    ensures 2.0 * (cost * (high / (low + high))) - cost == Product(cost, Tilted(low, high))
  {
    var sum := low + high;
    var a, b, q := low / sum, high / sum, Tilted(low, high);
    assert a * sum == low && b * sum == high && q * sum == high - low;
    assert (a + b - 1.0) * sum == 0.0;
    assert a + b == 1.0;
    assert (b - a - q) * sum == 0.0;
    assert q == b - a;
    assert q > 0.0;
    assert a > 0.0;
    assert q == 1.0 - 2.0 * a;
    assert cost * q == cost - 2.0 * (cost * a);
  }

  /** A floor that lifts the lower return above nothing and leaves it below the higher one. */
  function FloorBetween(a: Profile, b: Profile): real
    requires Crossed(a, b)
  {
    Max(a.roi.value, b.roi.value / 2.0)
  }

  lemma CrossedReturns(a: Profile, b: Profile, cost: real)
    requires Crossed(a, b)
    ensures var low := FloorBetween(a, b);
            && 0.0 < low < b.roi.value
            && Return(CellOf(a, cost), low) == low && Return(CellOf(b, cost), low) == b.roi.value
  {
  }

  /** Of two crossed profiles with one spend, the plan trims the first and grows the second. */
  lemma PairIsMoved(ps: seq<Profile>, j: nat, k: nat, cost: real)
    requires ProfilesOk(ps) && j < |ps| && k < |ps| && Crossed(ps[j], ps[k]) && cost > 0.0
    ensures var low, high := FloorBetween(ps[j], ps[k]), ps[k].roi.value;
            var items := Items(CellsOf(ps, TwoCosts(|ps|, j, k, cost)), low, 1.0);
            && low + high != 0.0
            && items[j].recommended == cost - Product(cost, Tilted(low, high))
            && items[k].recommended == cost + Product(cost, Tilted(low, high))
  {
    hide Product, Tilted, Return, FloorBetween, Total;
    var low, high := FloorBetween(ps[j], ps[k]), ps[k].roi.value;
    var cells := CellsOf(ps, TwoCosts(|ps|, j, k, cost));
    CrossedReturns(ps[j], ps[k], cost);
    TotalOfPair(Spend(), cells, j, k);
    TotalOfPair(Weight(low), cells, j, k);
    EqualSpendMoves(cost, low, high, low);
    EqualSpendMoves(cost, low, high, high);
  }

  lemma LessIsWorthLess(cost: real, moved: real, slack: real, a: real, b: real, more: real, less: real)
    requires a <= cost - moved + slack && b <= cost + moved + slack && slack >= 0.0
    requires 0.0 <= less < more <= 1.0 && Product(moved, more - less) > slack + slack
    ensures Product(a, more) + Product(b, less) < Product(cost, more) + Product(cost, less)
  {
    assert (cost - moved + slack - a) * more >= 0.0;
    assert (cost + moved + slack - b) * less >= 0.0;
    assert slack * more <= slack && slack * less <= slack;
    assert (cost - moved + slack) * more == cost * more - moved * more + slack * more;
    assert (cost + moved + slack) * less == cost * less + moved * less + slack * less;
    assert moved * (more - less) == moved * more - moved * less;
  }

  /** Enough spend for what is moved to outweigh what is left untold. */
  lemma EnoughSpend(slack: real, tilt: real, gap: real) returns (cost: real)
    requires slack >= 0.0 && tilt > 0.0 && gap > 0.0
    ensures cost > 0.0 && Product(Product(cost, tilt), gap) > slack + slack
  {
    var both := tilt * gap;
    assert both > 0.0;
    cost := (slack + slack + 1.0) / both;
    assert cost * both == slack + slack + 1.0;
    TimesBoth(cost, tilt, gap);
    PositiveFactor(cost, both);
  }

  lemma PositiveFactor(x: real, y: real)
    requires y > 0.0 && x * y > 0.0
    ensures x > 0.0
  {
  }

  lemma TimesBoth(x: real, y: real, z: real)
    ensures x * y * z == x * (y * z)
  {
  }

  lemma PairLoses(ps: seq<Profile>, j: nat, k: nat, cost: real, told: seq<Transfer>, gain: real)
    requires ProfilesOk(ps) && j < |ps| && k < |ps| && Crossed(ps[j], ps[k]) && cost > 0.0
    requires var low, high := FloorBetween(ps[j], ps[k]), ps[k].roi.value;
             var slack := (CUT + WORTHWHILE) * |ps| as real;
             low + high != 0.0 && Product(Product(cost, Tilted(low, high)), ps[j].share - ps[k].share) > slack + slack
    requires var cells := CellsOf(ps, TwoCosts(|ps|, j, k, cost));
             Delivers(Items(cells, FloorBetween(ps[j], ps[k]), 1.0), Rates(cells), told, gain)
    ensures gain < 0.0
  {
    hide Product, Tilted, FloorBetween, Apply, Worth, Rates, RateOf, Recommended;
    var costs := TwoCosts(|ps|, j, k, cost);
    var cells, low, high := CellsOf(ps, costs), FloorBetween(ps[j], ps[k]), ps[k].roi.value;
    var items, rates, slack := Items(cells, low, 1.0), Rates(cells), (CUT + WORTHWHILE) * |ps| as real;
    var after := Apply(Current(items), told);
    PairIsMoved(ps, j, k, cost);
    forall i | 0 <= i < |ps| ensures RateOf(rates, items[i].key) == if i == j || i == k then ps[i].share else 0.0 {
      RatesOfProfiles(ps, costs, i);
    }
    WorthOfPair(rates, items, after, j, k);
    WorthOfPair(rates, items, Current(items), j, k);
    assert Near(after[j], items[j].recommended, slack) && Near(after[k], items[k].recommended, slack);
    LessIsWorthLess(cost, Product(cost, Tilted(low, high)), slack, after[j], after[k], ps[j].share, ps[k].share);
  }

  /** A plan with negative gain exists for every crossed pair. */
  lemma CrossedLoses(ps: seq<Profile>, j: nat, k: nat) returns (costs: seq<real>, floor: real, end: State)
    requires ProfilesOk(ps) && j < |ps| && k < |ps| && Crossed(ps[j], ps[k])
    ensures |costs| == |ps| && Finished(Items(CellsOf(ps, costs), floor, 1.0), end)
    ensures Gain(ps, costs, floor, 1.0, end) < 0.0
  {
    hide Finished, Items, Delivers, Product, Tilted, FloorBetween, Large, Total, Rates;
    floor := FloorBetween(ps[j], ps[k]);
    CrossedReturns(ps[j], ps[k], 1.0);
    EqualSpendMoves(1.0, floor, ps[k].roi.value, floor);
    var slack := (CUT + WORTHWHILE) * |ps| as real;
    var cost := EnoughSpend(slack, Tilted(floor, ps[k].roi.value), ps[j].share - ps[k].share);
    costs := TwoCosts(|ps|, j, k, cost);
    var cells := CellsOf(ps, costs);
    var items := Items(cells, floor, 1.0);
    end := SomePlan(items);
    BudgetIsConserved(cells, floor, 1.0);
    MovesDeliver(items, Rates(cells), end);
    PairLoses(ps, j, k, cost, Large(end.transfers), Gain(ps, costs, floor, 1.0, end));
  }

  /** The projected gain of a plan for these spends. */
  function Gain(ps: seq<Profile>, costs: seq<real>, floor: real, tilt: real, end: State): real
    requires |costs| == |ps|
  {
    var cells := CellsOf(ps, costs);
    Total(GainOf(Items(cells, floor, tilt), Rates(cells)), Large(end.transfers))
  }

  /** The exact condition on returns and rates: no spends, floor and tilt give a plan that projects a loss,
      if and only if no profile of a higher, positive return realizes less than one of a lower return. */
  lemma NoPlanLosesExactly(ps: seq<Profile>)
    requires ProfilesOk(ps)
    ensures SharesFollow(ps)
       <==> forall costs, floor, tilt, end ::
              |costs| == |ps| && Finished(Items(CellsOf(ps, costs), floor, tilt), end) ==>
                Gain(ps, costs, floor, tilt, end) >= 0.0
  {
    hide ProfilesOk, Finished, Items, Gain, Crossed, CellsOf;
    if SharesFollow(ps) {
      forall costs, floor, tilt, end | |costs| == |ps| && Finished(Items(CellsOf(ps, costs), floor, tilt), end)
        ensures Gain(ps, costs, floor, tilt, end) >= 0.0
      {
        FollowingGains(ps, costs, floor, tilt, end);
      }
    } else {
      var j, k :| 0 <= j < |ps| && 0 <= k < |ps| && Crossed(ps[j], ps[k]);
      var costs, floor, end := CrossedLoses(ps, j, k);
    }
  }

  lemma FollowingGains(ps: seq<Profile>, costs: seq<real>, floor: real, tilt: real, end: State)
    requires ProfilesOk(ps) && SharesFollow(ps) && |costs| == |ps|
    requires Finished(Items(CellsOf(ps, costs), floor, tilt), end)
    ensures Gain(ps, costs, floor, tilt, end) >= 0.0
  {
    hide ProfilesOk, SharesFollow, Finished, Items, CellsOf, RatesFollow;
    SharesGiveRates(ps, costs);
    NoMoveLoses(CellsOf(ps, costs), floor, tilt, end);
  }
}
