/** The loop that pairs the largest trims with the largest growths, and what applying its moves gives. */
module ReallocationMoves {
  import opened Money
  import opened Reals
  import opened Tables
  import opened Reallocation

  /** The amount still to be given up, or taken on, by the item at a position. */
  datatype Part = Part(at: nat, amount: real)

  datatype Transfer = Transfer(from: nat, to: nat, amount: real)
  datatype Move = Move(fromKey: string, toKey: string, amount: real, gain: real)

  const CUT := 0.000000001
  const WORTHWHILE := 0.005

  // ---------------------------------------------------------------- moves

  /** The realized share of a cell's spend, kept between nothing and all of it. */
  function Rate(c: Cell): real { if c.cost > 0.0 then Clamp01(c.realizedSpend / c.cost) else 0.0 }

  /** Rates by key; of cells that share a key the last one is kept. */
  function Rates(cells: seq<Cell>): map<string, real> {
    if cells == [] then map[]
    else Rates(cells[..|cells| - 1])[cells[|cells| - 1].key := Rate(cells[|cells| - 1])]
  }

  function RateOf(rates: map<string, real>, key: string): real { if key in rates then rates[key] else 0.0 }

  function Key(items: seq<Item>, k: nat): string { if k < |items| then items[k].key else "" }

  /** The projected gain of a transfer at the rates of the two cells it joins. */
  function GainOf(items: seq<Item>, rates: map<string, real>): Transfer -> real {
    (t: Transfer) => Product(t.amount, RateOf(rates, Key(items, t.to)) - RateOf(rates, Key(items, t.from)))
  }

  function MoveOf(items: seq<Item>, rates: map<string, real>, t: Transfer): Move {
    Move(Key(items, t.from), Key(items, t.to), t.amount, GainOf(items, rates)(t))
  }

  /** The transfers worth telling. */
  function Large(transfers: seq<Transfer>): seq<Transfer> {
    if transfers == [] then []
    else
      var t := transfers[|transfers| - 1];
      Large(transfers[..|transfers| - 1]) + if t.amount > WORTHWHILE then [t] else []
  }

  function Moves(items: seq<Item>, rates: map<string, real>, transfers: seq<Transfer>): (moves: seq<Move>)
    ensures |moves| == |transfers|
  {
    seq(|transfers|, i requires 0 <= i < |transfers| => MoveOf(items, rates, transfers[i]))
  }

  // ---------------------------------------------------------------- what is to be moved

  /** What an item gives up, or takes on; differences within the cut-off are left alone. */
  function Due(i: Item, trim: bool): real { if trim then i.current - i.recommended else i.recommended - i.current }

  function Parts(items: seq<Item>, trim: bool): seq<Part> {
    if items == [] then []
    else
      var n := |items| - 1;
      Parts(items[..n], trim) + if Due(items[n], trim) > CUT then [Part(n, Due(items[n], trim))] else []
  }

  function Larger(): (Part, Part) -> bool { (a: Part, b: Part) => a.amount > b.amount }

  function Ranked(items: seq<Item>, trim: bool): seq<Part> { Sort(Larger(), Parts(items, trim)) }

  function Amount(): Part -> real { (p: Part) => p.amount }
  function Held(k: nat): Part -> real { (p: Part) => if p.at == k then p.amount else 0.0 }

  /** What a transfer adds to the item at position `k`. */
  function Net(k: nat): Transfer -> real {
    (t: Transfer) => (if t.to == k then t.amount else 0.0) - (if t.from == k then t.amount else 0.0)
  }

  lemma {:induction false} RankedDue(items: seq<Item>, trim: bool)
    ensures forall p :: p in Ranked(items, trim) ==> p.at < |items| && p.amount == Due(items[p.at], trim) > CUT
  {
    PartsDue(items, trim);
    SameMembers(Ranked(items, trim), Parts(items, trim));
  }

  lemma {:induction false} PartsDue(items: seq<Item>, trim: bool)
    ensures forall p :: p in Parts(items, trim) ==> p.at < |items| && p.amount == Due(items[p.at], trim) > CUT
    decreases |items|
  {
    if items != [] {
      PartsDue(items[..|items| - 1], trim);
    }
  }

  /** The parts at one position hold what is due there. */
  lemma {:induction false} PartsHold(items: seq<Item>, trim: bool, k: nat)
    ensures Total(Held(k), Parts(items, trim))
         == if k < |items| && Due(items[k], trim) > CUT then Due(items[k], trim) else 0.0
    decreases |items|
  {
    if items != [] {
      var n := |items| - 1;
      PartsHold(items[..n], trim, k);
      hide Total;
      var last := if Due(items[n], trim) > CUT then [Part(n, Due(items[n], trim))] else [];
      TotalConcat(Held(k), Parts(items[..n], trim), last);
      if last == [] { TotalNone(Held(k)); } else { TotalOne(Held(k), last[0]); }
    }
  }

  /** The order of the ranking, with ties going by position. */
  ghost function Before(): (Part, Part) -> bool {
    (a: Part, b: Part) => a.amount > b.amount || (a.amount == b.amount && a.at < b.at)
  }

  lemma {:induction false} PartsRise(items: seq<Item>, trim: bool)
    ensures forall i, j :: 0 <= i < j < |Parts(items, trim)| ==> Parts(items, trim)[i].at < Parts(items, trim)[j].at
    decreases |items|
  {
    if items != [] {
      PartsRise(items[..|items| - 1], trim);
      PartsDue(items[..|items| - 1], trim);
    }
  }

  lemma BeforeOrders()
    ensures Orders(Before())
  {
  }

  lemma RankedSorted(items: seq<Item>, trim: bool)
    ensures Sorted(Before(), Ranked(items, trim))
  {
    hide Sort, Parts, Sorted;
    PartsRise(items, trim);
    SortAgrees(Larger(), Before(), Parts(items, trim));
    BeforeOrders();
    hide Larger, Before;
    SortSorts(Before(), Parts(items, trim));
  }

  lemma RankedApart(items: seq<Item>, trim: bool)
    ensures Apart(Ranked(items, trim))
  {
    hide Sort, Parts, Larger, Due;
    PartsRise(items, trim);
    DistinctPermuted(Parts(items, trim), Ranked(items, trim));
    RankedDue(items, trim);
    var r := Ranked(items, trim);
    forall i, j | 0 <= i < j < |r| ensures r[i].at != r[j].at {
      assert r[i] in r && r[j] in r;
    }
  }

  /** The parts are ranked by amount, those of one amount by position, and each position is listed once. */
  lemma RankedOrder(items: seq<Item>, trim: bool)
    ensures var r := Ranked(items, trim);
            forall i, j :: 0 <= i < j < |r| ==> Before()(r[i], r[j])
    ensures Apart(Ranked(items, trim))
  {
    hide Ranked;
    RankedSorted(items, trim);
    RankedApart(items, trim);
  }

  lemma TotalNone<T>(f: T -> real)
    ensures Total(f, []) == 0.0
  {
  }

  lemma RankedHold(items: seq<Item>, trim: bool, k: nat)
    ensures Total(Held(k), Ranked(items, trim))
         == if k < |items| && Due(items[k], trim) > CUT then Due(items[k], trim) else 0.0
  {
    hide Total, Held, Parts;
    PartsHold(items, trim, k);
    TotalPermuted(Held(k), Ranked(items, trim), Parts(items, trim));
  }

  ghost predicate Near(x: real, y: real, bound: real) { -bound <= x - y <= bound }

  /** The two lists differ by no more than what the cut-off left alone. */
  lemma {:induction false} PartsBalance(items: seq<Item>)
    ensures |Parts(items, true)| + |Parts(items, false)| <= |items|
    ensures Near(Total(Delta(), items),
                 Total(Amount(), Parts(items, false)) - Total(Amount(), Parts(items, true)),
                 CUT * (|items| - |Parts(items, true)| - |Parts(items, false)|) as real)
    decreases |items|
  {
    if items != [] {
      var n := |items| - 1;
      PartsBalance(items[..n]);
      hide Total, Near;
      PartsStep(items, true);
      PartsStep(items, false);
      DeltaStep(items);
      BalanceStep(Total(Delta(), items[..n]),
                  Total(Amount(), Parts(items[..n], false)) - Total(Amount(), Parts(items[..n], true)),
                  n - |Parts(items[..n], true)| - |Parts(items[..n], false)|, items[n]);
    }
  }

  lemma DeltaStep(items: seq<Item>)
    requires items != []
    ensures Total(Delta(), items) == Total(Delta(), items[..|items| - 1]) + Due(items[|items| - 1], false)
  {
  }

  lemma PartsStep(items: seq<Item>, trim: bool)
    requires items != []
    ensures var n := |items| - 1;
            var more := Due(items[n], trim) > CUT;
            && |Parts(items, trim)| == |Parts(items[..n], trim)| + (if more then 1 else 0)
            && Total(Amount(), Parts(items, trim))
            == Total(Amount(), Parts(items[..n], trim)) + (if more then Due(items[n], trim) else 0.0)
  {
    var n := |items| - 1;
    if Due(items[n], trim) > CUT {
      TotalConcat(Amount(), Parts(items[..n], trim), [Part(n, Due(items[n], trim))]);
      TotalOne(Amount(), Part(n, Due(items[n], trim)));
    } else {
      assert Parts(items[..n], trim) + [] == Parts(items[..n], trim);
    }
  }

  lemma BalanceStep(deltas: real, parts: real, small: int, i: Item)
    requires Near(deltas, parts, CUT * small as real)
    ensures var g, t := Due(i, false), Due(i, true);
            Near(deltas + g, parts + (if g > CUT then g else 0.0) - (if t > CUT then t else 0.0),
                 CUT * (small + 1 - (if g > CUT then 1 else 0) - (if t > CUT then 1 else 0)) as real)
  {
  }

  lemma RankedBalance(items: seq<Item>)
    requires Total(Delta(), items) == 0.0
    ensures |Ranked(items, true)| + |Ranked(items, false)| <= |items|
    ensures Near(Total(Amount(), Ranked(items, false)), Total(Amount(), Ranked(items, true)),
                 CUT * (|items| - |Ranked(items, true)| - |Ranked(items, false)|) as real)
  {
    hide Total, Parts;
    PartsBalance(items);
    TotalPermuted(Amount(), Ranked(items, true), Parts(items, true));
    TotalPermuted(Amount(), Ranked(items, false), Parts(items, false));
    assert |multiset(Ranked(items, true))| == |multiset(Parts(items, true))|;
    assert |multiset(Ranked(items, false))| == |multiset(Parts(items, false))|;
  }

  // ---------------------------------------------------------------- the transfer loop

  /** The two lists as the loop leaves them, the positions it has reached, and its transfers so far. */
  datatype State = State(trims: seq<Part>, grows: seq<Part>, ti: nat, gi: nat, transfers: seq<Transfer>)

  /** One side of the loop: finished parts are within the cut-off, the others still above it. */
  ghost predicate Side(now: seq<Part>, before: seq<Part>, at: nat) {
    && |now| == |before| && at <= |now|
    && (forall i :: 0 <= i < |now| ==> now[i].at == before[i].at)
    && (forall i :: 0 <= i < at ==> 0.0 <= now[i].amount <= CUT)
    && (forall i :: at <= i < |now| ==> now[i].amount > CUT)
  }

  ghost predicate Moved(s: State, trims: seq<Part>, grows: seq<Part>, k: nat) {
    Total(Net(k), s.transfers)
    == Total(Held(k), grows) - Total(Held(k), s.grows) + Total(Held(k), s.trims) - Total(Held(k), trims)
  }

  ghost predicate Level(s: State, trims: seq<Part>, grows: seq<Part>) {
    Total(Amount(), s.grows) - Total(Amount(), s.trims) == Total(Amount(), grows) - Total(Amount(), trims)
  }

  predicate At(parts: seq<Part>, k: nat) { exists i :: 0 <= i < |parts| && parts[i].at == k }

  ghost predicate Sides(t: Transfer, trims: seq<Part>, grows: seq<Part>) {
    At(trims, t.from) && At(grows, t.to) && t.amount > CUT
  }

  ghost predicate Running(s: State, trims: seq<Part>, grows: seq<Part>) {
    && Side(s.trims, trims, s.ti) && Side(s.grows, grows, s.gi)
    && Level(s, trims, grows)
    && (forall k: nat :: Moved(s, trims, grows, k))
    && (forall j :: 0 <= j < |s.transfers| ==> Sides(s.transfers[j], trims, grows))
    && |s.transfers| <= s.ti + s.gi
    && (s.ti == |trims| && s.gi == |grows| && s.ti + s.gi > 0 && |trims| > 0 && |grows| > 0 ==>
        |s.transfers| < s.ti + s.gi)
  }

  function Less(parts: seq<Part>, i: nat, amount: real): seq<Part>
    requires i < |parts|
  {
    parts[i := parts[i].(amount := parts[i].amount - amount)]
  }

  function Next(s: State): State
    requires s.ti < |s.trims| && s.gi < |s.grows|
  {
    var amount := Min(s.trims[s.ti].amount, s.grows[s.gi].amount);
    var trims, grows := Less(s.trims, s.ti, amount), Less(s.grows, s.gi, amount);
    State(trims, grows,
          if trims[s.ti].amount <= CUT then s.ti + 1 else s.ti,
          if grows[s.gi].amount <= CUT then s.gi + 1 else s.gi,
          s.transfers + [Transfer(s.trims[s.ti].at, s.grows[s.gi].at, amount)])
  }

  lemma TotalReplaced<T>(f: T -> real, s: seq<T>, i: nat, x: T)
    requires i < |s|
    ensures Total(f, s[i := x]) == Total(f, s) - f(s[i]) + f(x)
  {
    hide Total;
    TotalWithout(f, s, i);
    TotalWithout(f, s[i := x], i);
    assert Without(s, i) == Without(s[i := x], i);
  }

  lemma LessHeld(parts: seq<Part>, i: nat, amount: real, k: nat)
    requires i < |parts|
    ensures Total(Held(k), Less(parts, i, amount)) == Total(Held(k), parts) - (if parts[i].at == k then amount else 0.0)
    ensures Total(Amount(), Less(parts, i, amount)) == Total(Amount(), parts) - amount
  {
    hide Total;
    TotalReplaced(Held(k), parts, i, parts[i].(amount := parts[i].amount - amount));
    TotalReplaced(Amount(), parts, i, parts[i].(amount := parts[i].amount - amount));
  }

  lemma TotalPush<T>(f: T -> real, s: seq<T>, x: T)
    ensures Total(f, s + [x]) == Total(f, s) + f(x)
  {
    assert (s + [x])[..|s|] == s;
  }

  lemma NextMoved(s: State, trims: seq<Part>, grows: seq<Part>, k: nat)
    requires s.ti < |s.trims| && s.gi < |s.grows| && Moved(s, trims, grows, k)
    ensures Moved(Next(s), trims, grows, k)
  {
    hide Total, Less, Min;
    var amount := Min(s.trims[s.ti].amount, s.grows[s.gi].amount);
    LessHeld(s.trims, s.ti, amount, k);
    LessHeld(s.grows, s.gi, amount, k);
    TotalPush(Net(k), s.transfers, Transfer(s.trims[s.ti].at, s.grows[s.gi].at, amount));
  }

  lemma NextLevel(s: State, trims: seq<Part>, grows: seq<Part>)
    requires s.ti < |s.trims| && s.gi < |s.grows| && Level(s, trims, grows)
    ensures Level(Next(s), trims, grows)
  {
    hide Total, Less, Min;
    var amount := Min(s.trims[s.ti].amount, s.grows[s.gi].amount);
    LessHeld(s.trims, s.ti, amount, 0);
    LessHeld(s.grows, s.gi, amount, 0);
  }

  lemma NextSides(s: State, trims: seq<Part>, grows: seq<Part>)
    requires s.ti < |s.trims| && s.gi < |s.grows| && Side(s.trims, trims, s.ti) && Side(s.grows, grows, s.gi)
    ensures Side(Next(s).trims, trims, Next(s).ti) && Side(Next(s).grows, grows, Next(s).gi)
    ensures Next(s).ti + Next(s).gi > s.ti + s.gi
    ensures Next(s).ti == s.ti || Next(s).gi == s.gi || Next(s).ti + Next(s).gi == s.ti + s.gi + 2
    ensures Next(s).ti <= s.ti + 1 && Next(s).gi <= s.gi + 1
    ensures Sides(Next(s).transfers[|s.transfers|], trims, grows)
  {
    hide Total;
  }

  /** One step of the loop keeps all of it, and finishes at least one part. */
  lemma NextKeepsRunning(s: State, trims: seq<Part>, grows: seq<Part>)
    requires Running(s, trims, grows) && s.ti < |s.trims| && s.gi < |s.grows|
    ensures Running(Next(s), trims, grows) && Next(s).ti + Next(s).gi > s.ti + s.gi
  {
    NextSides(s, trims, grows);
    NextLevel(s, trims, grows);
    hide Total, Moved, Level, Side, Sides;
    forall k: nat ensures Moved(Next(s), trims, grows, k) {
      NextMoved(s, trims, grows, k);
    }
    assert forall j :: 0 <= j < |s.transfers| ==> Next(s).transfers[j] == s.transfers[j];
    assert |Next(s).transfers| == |s.transfers| + 1;
    hide Next;
  }

  lemma StartsRunning(s: State)
    requires s.ti == 0 && s.gi == 0 && s.transfers == []
    requires forall p :: p in s.trims ==> p.amount > CUT
    requires forall p :: p in s.grows ==> p.amount > CUT
    ensures Running(s, s.trims, s.grows)
  {
    forall k: nat ensures Moved(s, s.trims, s.grows, k) {
      TotalNone(Net(k));
    }
  }

  lemma Bounds(s: State, trims: seq<Part>, grows: seq<Part>)
    requires Running(s, trims, grows)
    ensures s.ti <= |s.trims| == |trims| && s.gi <= |s.grows| == |grows|
  {
  }

  lemma MovesPush(items: seq<Item>, rates: map<string, real>, transfers: seq<Transfer>, t: Transfer)
    ensures Moves(items, rates, Large(transfers + [t]))
         == Moves(items, rates, Large(transfers)) + if t.amount > WORTHWHILE then [MoveOf(items, rates, t)] else []
    ensures Total(GainOf(items, rates), Large(transfers + [t]))
         == Total(GainOf(items, rates), Large(transfers))
            + if t.amount > WORTHWHILE then GainOf(items, rates)(t) else 0.0
  {
    assert (transfers + [t])[..|transfers|] == transfers;
    if t.amount > WORTHWHILE {
      TotalPush(GainOf(items, rates), Large(transfers), t);
    } else {
      assert Large(transfers) + [] == Large(transfers);
    }
  }

  /** What transfers take from the item at a position, or bring to it. */
  ghost function Sent(transfers: seq<Transfer>, k: nat, trim: bool): real {
    if transfers == [] then 0.0
    else
      var t := transfers[|transfers| - 1];
      Sent(transfers[..|transfers| - 1], k, trim) + if (if trim then t.from else t.to) == k then t.amount else 0.0
  }

  ghost predicate Apart(parts: seq<Part>) {
    forall i, j :: 0 <= i < j < |parts| ==> parts[i].at != parts[j].at
  }

  /** Each part is what it was less what has been sent. */
  ghost predicate Left(now: seq<Part>, before: seq<Part>, transfers: seq<Transfer>, trim: bool) {
    && |now| == |before|
    && forall i :: 0 <= i < |now| ==>
         now[i].at == before[i].at && now[i].amount == before[i].amount - Sent(transfers, before[i].at, trim)
  }

  /** The first part of which more than the cut-off is left, and how much that is. */
  ghost predicate FirstLeft(parts: seq<Part>, earlier: seq<Transfer>, trim: bool, at: nat, left: real) {
    exists i :: 0 <= i < |parts| && FirstLeftAt(parts, earlier, trim, i, at, left)
  }

  ghost predicate FirstLeftAt(parts: seq<Part>, earlier: seq<Transfer>, trim: bool, i: nat, at: nat, left: real)
    requires i < |parts|
  {
    && parts[i].at == at && left == parts[i].amount - Sent(earlier, at, trim) && left > CUT
    && forall j :: 0 <= j < i ==> parts[j].amount - Sent(earlier, parts[j].at, trim) <= CUT
  }

  /** A transfer joins the first trim and the first growth of which enough is left, by the smaller of the two. */
  ghost predicate Greedy(trims: seq<Part>, grows: seq<Part>, earlier: seq<Transfer>, t: Transfer) {
    exists x, y ::
      FirstLeft(trims, earlier, true, t.from, x) && FirstLeft(grows, earlier, false, t.to, y) && t.amount == Min(x, y)
  }

  ghost predicate AllGreedy(trims: seq<Part>, grows: seq<Part>, transfers: seq<Transfer>) {
    forall n :: 0 <= n < |transfers| ==> Greedy(trims, grows, transfers[..n], transfers[n])
  }

  /** Where the loop stands, in terms of the transfers made so far. */
  ghost predicate Follows(s: State, trims: seq<Part>, grows: seq<Part>) {
    && Left(s.trims, trims, s.transfers, true) && Left(s.grows, grows, s.transfers, false)
    && AllGreedy(trims, grows, s.transfers)
  }

  lemma SentPush(transfers: seq<Transfer>, t: Transfer, k: nat, trim: bool)
    ensures Sent(transfers + [t], k, trim)
         == Sent(transfers, k, trim) + if (if trim then t.from else t.to) == k then t.amount else 0.0
  {
    assert (transfers + [t])[..|transfers|] == transfers;
  }

  lemma LeftStep(now: seq<Part>, before: seq<Part>, transfers: seq<Transfer>, trim: bool, i: nat, t: Transfer)
    requires Left(now, before, transfers, trim) && Apart(before) && i < |now|
    requires (if trim then t.from else t.to) == now[i].at
    ensures Left(Less(now, i, t.amount), before, transfers + [t], trim)
  {
    hide Sent;
    forall j | 0 <= j < |now|
      ensures Less(now, i, t.amount)[j].amount == before[j].amount - Sent(transfers + [t], before[j].at, trim)
    {
      SentPush(transfers, t, before[j].at, trim);
      assert j != i ==> before[j].at != before[i].at;
    }
  }

  lemma FirstOfSide(now: seq<Part>, before: seq<Part>, transfers: seq<Transfer>, trim: bool, i: nat)
    requires Left(now, before, transfers, trim) && Side(now, before, i) && i < |now|
    ensures FirstLeft(before, transfers, trim, now[i].at, now[i].amount)
  {
    hide Sent;
    assert FirstLeftAt(before, transfers, trim, i, now[i].at, now[i].amount);
  }

  lemma AllGreedyStep(trims: seq<Part>, grows: seq<Part>, transfers: seq<Transfer>, t: Transfer)
    requires AllGreedy(trims, grows, transfers) && Greedy(trims, grows, transfers, t)
    ensures AllGreedy(trims, grows, transfers + [t])
  {
    hide Greedy;
    forall n | 0 <= n <= |transfers| ensures Greedy(trims, grows, (transfers + [t])[..n], (transfers + [t])[n]) {
      assert (transfers + [t])[..n] == transfers[..n];
      assert transfers[..|transfers|] == transfers;
    }
  }

  /** One step of the loop makes the transfer that comes next, and leaves what is left. */
  lemma NextFollows(s: State, trims: seq<Part>, grows: seq<Part>)
    requires Follows(s, trims, grows) && Apart(trims) && Apart(grows)
    requires s.ti < |s.trims| && s.gi < |s.grows| && Side(s.trims, trims, s.ti) && Side(s.grows, grows, s.gi)
    ensures Follows(Next(s), trims, grows)
  {
    hide Left, Side, FirstLeft, Apart, Less, AllGreedy, Min;
    var amount := Min(s.trims[s.ti].amount, s.grows[s.gi].amount);
    var t := Transfer(s.trims[s.ti].at, s.grows[s.gi].at, amount);
    FirstOfSide(s.trims, trims, s.transfers, true, s.ti);
    FirstOfSide(s.grows, grows, s.transfers, false, s.gi);
    assert Greedy(trims, grows, s.transfers, t);
    AllGreedyStep(trims, grows, s.transfers, t);
    LeftStep(s.trims, trims, s.transfers, true, s.ti, t);
    LeftStep(s.grows, grows, s.transfers, false, s.gi, t);
  }

  lemma StartsFollowing(s: State)
    requires s.transfers == []
    ensures Follows(s, s.trims, s.grows)
  {
  }

  /** The loop's variables are a running state, and the moves told so far are its large transfers. */
  ghost predicate Stands(items: seq<Item>, rates: map<string, real>, trims: seq<Part>, grows: seq<Part>,
                         givers: seq<Part>, takers: seq<Part>, ti: nat, gi: nat, transfers: seq<Transfer>,
                         moves: seq<Move>) {
    && Running(State(givers, takers, ti, gi, transfers), trims, grows)
    && Follows(State(givers, takers, ti, gi, transfers), trims, grows)
    && ti <= |givers| == |trims| && gi <= |takers| == |grows|
    && moves == Moves(items, rates, Large(transfers))
  }

  /** One pass of the loop: take from the current trim, give to the current growth, and go on to the next
      trim or growth once this one is used up. */
  method PairOne(items: seq<Item>, rates: map<string, real>, ghost trims: seq<Part>, ghost grows: seq<Part>,
                 givers: seq<Part>, takers: seq<Part>, ti: nat, gi: nat, transfers: seq<Transfer>, moves: seq<Move>)
    returns (givers': seq<Part>, takers': seq<Part>, ti': nat, gi': nat, transfers': seq<Transfer>, moves': seq<Move>)
    requires Stands(items, rates, trims, grows, givers, takers, ti, gi, transfers, moves)
    requires ti < |givers| && gi < |takers| && Apart(trims) && Apart(grows)
    ensures Stands(items, rates, trims, grows, givers', takers', ti', gi', transfers', moves')
    ensures |givers'| == |givers| && |takers'| == |takers|
    ensures ti <= ti' <= ti + 1 && gi <= gi' <= gi + 1 && ti' + gi' > ti + gi
  {
    hide *;
    PairStep(items, rates, trims, grows, givers, takers, ti, gi, transfers, moves);
    var giver, taker := givers[ti], takers[gi];
    var amount := Min(giver.amount, taker.amount);
    var transfer := Transfer(giver.at, taker.at, amount);
    moves' := if amount > WORTHWHILE then moves + [MoveOf(items, rates, transfer)] else moves;
    transfers' := transfers + [transfer];
    giver := giver.(amount := giver.amount - amount);
    taker := taker.(amount := taker.amount - amount);
    givers', takers' := givers[ti := giver], takers[gi := taker];
    ti' := if giver.amount <= CUT then ti + 1 else ti;
    gi' := if taker.amount <= CUT then gi + 1 else gi;
  }

  /** The greedy pairing, until one list is used up; it tells only the transfers that are worth it. */
  method PairParts(items: seq<Item>, rates: map<string, real>, trims: seq<Part>, grows: seq<Part>)
    returns (moves: seq<Move>, end: State)
    requires forall p :: p in trims ==> p.amount > CUT
    requires forall p :: p in grows ==> p.amount > CUT
    requires Apart(trims) && Apart(grows)
    ensures Running(end, trims, grows) && Follows(end, trims, grows)
    ensures end.ti == |trims| || end.gi == |grows|
    ensures moves == Moves(items, rates, Large(end.transfers))
  {
    var givers, takers, transfers := trims, grows, [];
    var ti, gi := 0, 0;
    moves := [];
    StartsRunning(State(givers, takers, ti, gi, transfers));
    StartsFollowing(State(givers, takers, ti, gi, transfers));
    NoMoves(items, rates);
    hide *;
    StandsIs(items, rates, trims, grows, givers, takers, ti, gi, transfers, moves);
    while ti < |givers| && gi < |takers|
      invariant Stands(items, rates, trims, grows, givers, takers, ti, gi, transfers, moves)
      invariant 0 <= ti <= |givers| == |trims| && 0 <= gi <= |takers| == |grows|
      decreases |trims| + |grows| - ti - gi
    {
      givers, takers, ti, gi, transfers, moves :=
        PairOne(items, rates, trims, grows, givers, takers, ti, gi, transfers, moves);
    }
    end := State(givers, takers, ti, gi, transfers);
    StandsIs(items, rates, trims, grows, givers, takers, ti, gi, transfers, moves);
  }

  lemma StandsIs(items: seq<Item>, rates: map<string, real>, trims: seq<Part>, grows: seq<Part>,
                 givers: seq<Part>, takers: seq<Part>, ti: nat, gi: nat, transfers: seq<Transfer>, moves: seq<Move>)
    ensures Stands(items, rates, trims, grows, givers, takers, ti, gi, transfers, moves)
       <==> && Running(State(givers, takers, ti, gi, transfers), trims, grows)
            && Follows(State(givers, takers, ti, gi, transfers), trims, grows)
            && ti <= |givers| == |trims| && gi <= |takers| == |grows|
            && moves == Moves(items, rates, Large(transfers))
  {
  }

  lemma PairStep(items: seq<Item>, rates: map<string, real>, trims: seq<Part>, grows: seq<Part>,
                 givers: seq<Part>, takers: seq<Part>, ti: nat, gi: nat, transfers: seq<Transfer>, moves: seq<Move>)
    requires Stands(items, rates, trims, grows, givers, takers, ti, gi, transfers, moves)
    requires ti < |givers| && gi < |takers| && Apart(trims) && Apart(grows)
    ensures var amount := Min(givers[ti].amount, takers[gi].amount);
            var giver := givers[ti].(amount := givers[ti].amount - amount);
            var taker := takers[gi].(amount := takers[gi].amount - amount);
            var transfer := Transfer(givers[ti].at, takers[gi].at, amount);
            && (giver.amount <= CUT || taker.amount <= CUT)
            && Stands(items, rates, trims, grows, givers[ti := giver], takers[gi := taker],
                      if giver.amount <= CUT then ti + 1 else ti, if taker.amount <= CUT then gi + 1 else gi,
                      transfers + [transfer],
                      if amount > WORTHWHILE then moves + [MoveOf(items, rates, transfer)] else moves)
  {
    hide Running, Follows, Moves, Large, MoveOf;
    var s := State(givers, takers, ti, gi, transfers);
    NextKeepsRunning(s, trims, grows);
    SidesOf(s, trims, grows);
    NextFollows(s, trims, grows);
    Bounds(Next(s), trims, grows);
    var amount := Min(givers[ti].amount, takers[gi].amount);
    MovesPush(items, rates, transfers, Transfer(givers[ti].at, takers[gi].at, amount));
  }

  lemma SidesOf(s: State, trims: seq<Part>, grows: seq<Part>)
    requires Running(s, trims, grows)
    ensures Side(s.trims, trims, s.ti) && Side(s.grows, grows, s.gi)
  {
  }

  lemma NoMoves(items: seq<Item>, rates: map<string, real>)
    ensures Moves(items, rates, Large([])) == []
  {
  }

  // ---------------------------------------------------------------- what applying the moves gives

  function Apply(amounts: seq<real>, transfers: seq<Transfer>): (r: seq<real>)
    ensures |r| == |amounts|
  {
    if transfers == [] then amounts
    else
      var t := transfers[|transfers| - 1];
      var r := Apply(amounts, transfers[..|transfers| - 1]);
      if t.from < |r| && t.to < |r| then
        var taken := r[t.from := r[t.from] - t.amount];
        taken[t.to := taken[t.to] + t.amount]
      else r
  }

  ghost predicate InRange(transfers: seq<Transfer>, n: nat) {
    forall i :: 0 <= i < |transfers| ==> transfers[i].from < n && transfers[i].to < n
  }

  lemma {:induction false} AppliedIsNet(amounts: seq<real>, transfers: seq<Transfer>, k: nat)
    requires InRange(transfers, |amounts|) && k < |amounts|
    ensures Apply(amounts, transfers)[k] == amounts[k] + Total(Net(k), transfers)
    decreases |transfers|
  {
    if transfers != [] {
      AppliedIsNet(amounts, transfers[..|transfers| - 1], k);
    }
  }

  function Current(items: seq<Item>): (r: seq<real>)
    ensures |r| == |items|
  {
    seq(|items|, i requires 0 <= i < |items| => items[i].current)
  }

  function RealAmount(): real -> real { (x: real) => x }

  /** Moving money keeps the whole. */
  lemma {:induction false} ApplyKeepsTheWhole(amounts: seq<real>, transfers: seq<Transfer>)
    ensures Total(RealAmount(), Apply(amounts, transfers)) == Total(RealAmount(), amounts)
    decreases |transfers|
  {
    if transfers != [] {
      var t := transfers[|transfers| - 1];
      var r := Apply(amounts, transfers[..|transfers| - 1]);
      ApplyKeepsTheWhole(amounts, transfers[..|transfers| - 1]);
      hide Total;
      if t.from < |r| && t.to < |r| {
        var taken := r[t.from := r[t.from] - t.amount];
        TotalReplaced(RealAmount(), r, t.from, r[t.from] - t.amount);
        TotalReplaced(RealAmount(), taken, t.to, taken[t.to] + t.amount);
      }
    }
  }

  lemma {:induction false} SmallSum(parts: seq<Part>)
    requires forall i :: 0 <= i < |parts| ==> parts[i].amount <= CUT
    ensures Total(Amount(), parts) <= CUT * |parts| as real
  {
    if parts != [] {
      SmallSum(parts[..|parts| - 1]);
    }
  }

  lemma {:induction false} HeldWithin(parts: seq<Part>, k: nat)
    requires forall i :: 0 <= i < |parts| ==> parts[i].amount >= 0.0
    ensures 0.0 <= Total(Held(k), parts) <= Total(Amount(), parts)
  {
    if parts != [] {
      HeldWithin(parts[..|parts| - 1], k);
    }
  }

  lemma SideHolds(now: seq<Part>, before: seq<Part>, at: nat, k: nat)
    requires Side(now, before, at)
    ensures 0.0 <= Total(Held(k), now) <= Total(Amount(), now)
    ensures at == |before| ==> Total(Amount(), now) <= CUT * |before| as real
  {
    hide Total;
    HeldWithin(now, k);
    if at == |before| { SmallSum(now); }
  }

  lemma {:induction false} AvoidedIsStill(transfers: seq<Transfer>, k: nat)
    requires forall i :: 0 <= i < |transfers| ==> transfers[i].from != k && transfers[i].to != k
    ensures Total(Net(k), transfers) == 0.0
  {
    if transfers != [] {
      AvoidedIsStill(transfers[..|transfers| - 1], k);
    }
  }

  /** Every transfer leads from an item to be trimmed to an item to grow. */
  lemma TransfersJoin(items: seq<Item>, end: State, j: nat)
    requires Running(end, Ranked(items, true), Ranked(items, false)) && j < |end.transfers|
    ensures var t := end.transfers[j];
            t.from < |items| && t.to < |items| && Due(items[t.from], true) > CUT && Due(items[t.to], false) > CUT
  {
    hide Ranked, Side, Level, Moved, Due;
    assert Sides(end.transfers[j], Ranked(items, true), Ranked(items, false));
    RankedDue(items, true);
    RankedDue(items, false);
  }

  ghost predicate Finished(items: seq<Item>, end: State) {
    && Running(end, Ranked(items, true), Ranked(items, false))
    && (end.ti == |Ranked(items, true)| || end.gi == |Ranked(items, false)|)
  }

  /** All transfers together turn the current split into the recommended one, up to the cut-offs. */
  lemma PlanIsReached(items: seq<Item>, end: State, k: nat)
    requires Finished(items, end) && Total(Delta(), items) == 0.0 && k < |items|
    ensures Near(items[k].current + Total(Net(k), end.transfers), items[k].recommended, CUT * |items| as real)
    ensures -CUT <= items[k].recommended - items[k].current <= CUT ==> Total(Net(k), end.transfers) == 0.0
  {
    hide Ranked, Total, Side, Held, Sides;
    var trims, grows := Ranked(items, true), Ranked(items, false);
    SideHolds(end.trims, trims, end.ti, k);
    SideHolds(end.grows, grows, end.gi, k);
    RankedHold(items, true, k);
    RankedHold(items, false, k);
    RankedBalance(items);
    assert Moved(end, trims, grows, k) && Level(end, trims, grows);
    if -CUT <= items[k].recommended - items[k].current <= CUT {
      forall i | 0 <= i < |end.transfers| ensures end.transfers[i].from != k && end.transfers[i].to != k {
        TransfersJoin(items, end, i);
      }
      AvoidedIsStill(end.transfers, k);
    }
  }

  /** What the untold transfers amount to at one position. */
  lemma {:induction false} UntoldIsSmall(transfers: seq<Transfer>, k: nat)
    requires forall i :: 0 <= i < |transfers| ==> transfers[i].amount >= 0.0
    ensures Near(Total(Net(k), transfers), Total(Net(k), Large(transfers)), WORTHWHILE * |transfers| as real)
    decreases |transfers|
  {
    if transfers != [] {
      var n := |transfers| - 1;
      UntoldIsSmall(transfers[..n], k);
      var t := transfers[n];
      assert Large(transfers) == Large(transfers[..n]) + if t.amount > WORTHWHILE then [t] else [];
      if t.amount > WORTHWHILE {
        TotalPush(Net(k), Large(transfers[..n]), t);
      } else {
        assert Large(transfers) == Large(transfers[..n]);
      }
    }
  }

  lemma {:induction false} LargeInRange(transfers: seq<Transfer>, n: nat)
    requires InRange(transfers, n)
    ensures InRange(Large(transfers), n)
    decreases |transfers|
  {
    if transfers != [] {
      LargeInRange(transfers[..|transfers| - 1], n);
    }
  }

  /** The realized value of a split at the current rates. */
  ghost function Worth(rates: map<string, real>, items: seq<Item>, amounts: seq<real>): real
    requires |amounts| <= |items|
  {
    if amounts == [] then 0.0
    else
      var n := |amounts| - 1;
      Worth(rates, items, amounts[..n]) + Product(amounts[n], RateOf(rates, items[n].key))
  }

  lemma {:induction false} WorthReplaced(rates: map<string, real>, items: seq<Item>, amounts: seq<real>, k: nat,
                                         more: real)
    requires k < |amounts| <= |items|
    ensures Worth(rates, items, amounts[k := amounts[k] + more])
         == Worth(rates, items, amounts) + Product(more, RateOf(rates, items[k].key))
    decreases |amounts|
  {
    hide Product, RateOf;
    var n := |amounts| - 1;
    var changed := amounts[k := amounts[k] + more];
    if k < n {
      WorthReplaced(rates, items, amounts[..n], k, more);
      assert changed[..n] == amounts[..n][k := amounts[k] + more];
    } else {
      assert changed[..n] == amounts[..n];
      ProductAddsLeft(amounts[k], more, RateOf(rates, items[k].key));
    }
  }

  lemma ProductAddsLeft(x: real, y: real, z: real)
    ensures Product(x + y, z) == Product(x, z) + Product(y, z)
    ensures Product(-x, z) == -Product(x, z)
    ensures Product(x, y - z) == Product(x, y) - Product(x, z)
  {
  }

  /** The projected gain of a list of transfers is what applying them adds at the current rates. */
  lemma {:induction false} GainIsWorthAdded(rates: map<string, real>, items: seq<Item>, amounts: seq<real>,
                                            transfers: seq<Transfer>)
    requires |amounts| == |items| && InRange(transfers, |items|)
    ensures Worth(rates, items, Apply(amounts, transfers))
         == Worth(rates, items, amounts) + Total(GainOf(items, rates), transfers)
    decreases |transfers|
  {
    if transfers != [] {
      var n := |transfers| - 1;
      hide Worth, GainOf;
      GainIsWorthAdded(rates, items, amounts, transfers[..n]);
      WorthMoved(rates, items, Apply(amounts, transfers[..n]), transfers[n]);
    }
  }

  lemma WorthMoved(rates: map<string, real>, items: seq<Item>, amounts: seq<real>, t: Transfer)
    requires |amounts| == |items| && t.from < |items| && t.to < |items|
    ensures var taken := amounts[t.from := amounts[t.from] - t.amount];
            Worth(rates, items, taken[t.to := taken[t.to] + t.amount])
            == Worth(rates, items, amounts) + GainOf(items, rates)(t)
  {
    hide Worth, Product, RateOf;
    WorthReplaced(rates, items, amounts, t.from, -t.amount);
    WorthReplaced(rates, items, amounts[t.from := amounts[t.from] - t.amount], t.to, t.amount);
    ProductAddsLeft(t.amount, RateOf(rates, items[t.to].key), RateOf(rates, items[t.from].key));
    ProductAddsLeft(t.amount, 0.0, RateOf(rates, items[t.from].key));
  }

  // ---------------------------------------------------------------- the whole recommendation

  function MoveGain(): Move -> real { (m: Move) => m.gain }

  lemma {:induction false} GainsAreTold(items: seq<Item>, rates: map<string, real>, transfers: seq<Transfer>)
    ensures Total(MoveGain(), Moves(items, rates, transfers)) == Total(GainOf(items, rates), transfers)
    decreases |transfers|
  {
    if transfers != [] {
      var n := |transfers| - 1;
      GainsAreTold(items, rates, transfers[..n]);
      assert Moves(items, rates, transfers)[..n] == Moves(items, rates, transfers[..n]);
    }
  }

  /** Applying the told moves: the whole is kept, every item ends near its recommendation, and the value
      at current rates rises by the projected gain. */
  ghost predicate Delivers(items: seq<Item>, rates: map<string, real>, told: seq<Transfer>, gain: real) {
    var after := Apply(Current(items), told);
    && Total(RealAmount(), after) == Total(RealAmount(), Current(items))
    && (forall k :: 0 <= k < |items| ==> Near(after[k], items[k].recommended, (CUT + WORTHWHILE) * |items| as real))
    && gain == Worth(rates, items, after) - Worth(rates, items, Current(items))
  }

  lemma TransfersInRange(items: seq<Item>, end: State)
    requires Finished(items, end)
    ensures InRange(end.transfers, |items|)
    ensures forall i :: 0 <= i < |end.transfers| ==> end.transfers[i].amount >= 0.0
  {
    hide Due, Ranked, Side, Level, Moved;
    forall i | 0 <= i < |end.transfers|
      ensures end.transfers[i].from < |items| && end.transfers[i].to < |items| && end.transfers[i].amount >= 0.0
    {
      TransfersJoin(items, end, i);
      assert Sides(end.transfers[i], Ranked(items, true), Ranked(items, false));
    }
  }

  lemma FewTransfers(items: seq<Item>, end: State)
    requires Finished(items, end)
    ensures |end.transfers| <= |Ranked(items, true)| + |Ranked(items, false)| <= |items|
  {
    hide Ranked, Moved, Level, Sides;
    RankedCount(items);
  }

  lemma RankedCount(items: seq<Item>)
    ensures |Ranked(items, true)| + |Ranked(items, false)| <= |items|
  {
    PartsBalance(items);
    assert |multiset(Ranked(items, true))| == |multiset(Parts(items, true))|;
    assert |multiset(Ranked(items, false))| == |multiset(Parts(items, false))|;
  }

  lemma ToldIsNear(items: seq<Item>, end: State, k: nat)
    requires Finished(items, end) && Total(Delta(), items) == 0.0 && k < |items|
    ensures Near(Apply(Current(items), Large(end.transfers))[k], items[k].recommended,
            (CUT + WORTHWHILE) * |items| as real)
  {
    hide Total, Finished, Ranked, Apply, Large;
    TransfersInRange(items, end);
    FewTransfers(items, end);
    LargeInRange(end.transfers, |items|);
    AppliedIsNet(Current(items), Large(end.transfers), k);
    UntoldIsSmall(end.transfers, k);
    PlanIsReached(items, end, k);
  }

  lemma MovesDeliver(items: seq<Item>, rates: map<string, real>, end: State)
    requires Finished(items, end) && Total(Delta(), items) == 0.0
    ensures Delivers(items, rates, Large(end.transfers), Total(GainOf(items, rates), Large(end.transfers)))
  {
    hide Total, Finished, Near, Apply, Worth, Large;
    forall k | 0 <= k < |items|
      ensures Near(Apply(Current(items), Large(end.transfers))[k], items[k].recommended,
              (CUT + WORTHWHILE) * |items| as real)
    {
      ToldIsNear(items, end, k);
    }
    ApplyKeepsTheWhole(Current(items), Large(end.transfers));
    TransfersInRange(items, end);
    LargeInRange(end.transfers, |items|);
    GainIsWorthAdded(rates, items, Current(items), Large(end.transfers));
  }

  lemma {:induction false} LargeAreTransfers(transfers: seq<Transfer>)
    ensures forall t :: t in Large(transfers) ==> t in transfers && t.amount > WORTHWHILE
    decreases |transfers|
  {
    if transfers != [] {
      LargeAreTransfers(transfers[..|transfers| - 1]);
    }
  }

  /** A told transfer joins two scored cells, from the lower return to the higher, a positive one. */
  ghost predicate Upward(cells: seq<Cell>, t: Transfer) {
    && t.from < |cells| && t.to < |cells| && Scored(cells[t.from]) && Scored(cells[t.to])
    && cells[t.from].roi.value < cells[t.to].roi.value && cells[t.to].roi.value > 0.0
  }

  /** No move takes money to a cell of a lower, or equal, return. */
  lemma MovesLeadUpward(cells: seq<Cell>, floor: real, tilt: real, end: State)
    requires Finished(Items(cells, floor, tilt), end)
    ensures forall t :: t in Large(end.transfers) ==> Upward(cells, t)
  {
    hide Items, Finished, Large;
    var items := Items(cells, floor, tilt);
    LargeAreTransfers(end.transfers);
    forall t | t in Large(end.transfers) ensures Upward(cells, t) {
      var j :| 0 <= j < |end.transfers| && end.transfers[j] == t;
      RunningOf(items, end);
      TransfersJoin(items, end, j);
      TrimmedReturnsLess(cells, floor, tilt, t.from, t.to);
    }
  }

  lemma RunningOf(items: seq<Item>, end: State)
    requires Finished(items, end)
    ensures Running(end, Ranked(items, true), Ranked(items, false))
  {
  }

  // ---------------------------------------------------------------- the sign of a gain

  /** A transfer gains, or loses, exactly as the rates of its two cells say; returns play no part. */
  lemma GainSignExactly(items: seq<Item>, rates: map<string, real>, t: Transfer)
    requires t.amount > 0.0
    ensures GainOf(items, rates)(t) < 0.0 <==> RateOf(rates, Key(items, t.to)) < RateOf(rates, Key(items, t.from))
  {
    hide Product, RateOf, Key;
    var d := RateOf(rates, Key(items, t.to)) - RateOf(rates, Key(items, t.from));
    SignOfProduct(t.amount, d);
    SignOfProduct(t.amount, -d);
    ProductNegates(t.amount, d);
  }

  /** Of scored cells, a higher and positive return never comes with a lower realized rate. */
  ghost predicate RatesFollow(cells: seq<Cell>) {
    forall j, k :: 0 <= j < |cells| && 0 <= k < |cells| && Scored(cells[j]) && Scored(cells[k])
                   && cells[j].roi.value < cells[k].roi.value && cells[k].roi.value > 0.0 ==>
      RateOf(Rates(cells), cells[j].key) <= RateOf(Rates(cells), cells[k].key)
  }

  /** Where the rates follow the returns, no told move has a negative gain, and neither have all together. */
  lemma NoMoveLoses(cells: seq<Cell>, floor: real, tilt: real, end: State)
    requires Finished(Items(cells, floor, tilt), end) && RatesFollow(cells)
    ensures forall t :: t in Large(end.transfers) ==> GainOf(Items(cells, floor, tilt), Rates(cells))(t) >= 0.0
    ensures Total(GainOf(Items(cells, floor, tilt), Rates(cells)), Large(end.transfers)) >= 0.0
  {
    hide Finished, Large, RateOf, Rates, GainOf;
    var items, told := Items(cells, floor, tilt), Large(end.transfers);
    MovesLeadUpward(cells, floor, tilt, end);
    LargeIsPositive(end.transfers);
    forall t | t in told ensures GainOf(items, Rates(cells))(t) >= 0.0 {
      KeyOfCell(cells, floor, tilt, t.to);
      KeyOfCell(cells, floor, tilt, t.from);
      GainSignExactly(items, Rates(cells), t);
    }
    TotalNotNegative(GainOf(items, Rates(cells)), told);
  }

  lemma KeyOfCell(cells: seq<Cell>, floor: real, tilt: real, k: nat)
    requires k < |cells|
    ensures Key(Items(cells, floor, tilt), k) == cells[k].key
  {
  }

  lemma {:induction false} LargeIsPositive(transfers: seq<Transfer>)
    ensures forall t :: t in Large(transfers) ==> t.amount > 0.0
    decreases |transfers|
  {
    if transfers != [] {
      LargeIsPositive(transfers[..|transfers| - 1]);
    }
  }

  lemma {:induction false} TotalNotNegative<T>(f: T -> real, s: seq<T>)
    requires forall x :: x in s ==> f(x) >= 0.0
    ensures Total(f, s) >= 0.0
    decreases |s|
  {
    if s != [] {
      TotalNotNegative(f, s[..|s| - 1]);
    }
  }

  /** Of two cells, of which the first is trimmed by more than what is left untold: the whole plan loses
      exactly when the growing cell has the lower rate, whatever the returns say. */
  lemma TwoCellsLoseExactly(x: Cell, y: Cell, floor: real, tilt: real, told: seq<Transfer>, gain: real)
    requires x.key != y.key
    requires Delivers(Items([x, y], floor, tilt), Rates([x, y]), told, gain)
    requires x.cost - Items([x, y], floor, tilt)[0].recommended > (CUT + WORTHWHILE) * 2.0
    ensures gain < 0.0 <==> Rate(y) < Rate(x)
  {
    hide Apply, Product, Rate, Recommended, Near;
    var items, rates := Items([x, y], floor, tilt), Rates([x, y]);
    var after := Apply(Current(items), told);
    assert Near(after[0], items[0].recommended, (CUT + WORTHWHILE) * |items| as real);
    TrimIsReal(after[0], items[0].recommended, x.cost);
    RatesOfTwo(x, y);
    WorthOfTwo(rates, items, after);
    WorthOfTwo(rates, items, Current(items));
    TotalOfTwo(after);
    TotalOfTwo(Current(items));
    GainOfTwo(after[0], after[1], x.cost, y.cost, Rate(x), Rate(y));
    var moved, d := x.cost - after[0], Rate(y) - Rate(x);
    SignOfProduct(moved, d);
    SignOfProduct(moved, -d);
    ProductNegates(moved, d);
  }

  /** Such cells: equal spend, all of it realized at a return of 10 and none of it at a return of 90. */
  lemma LosingPlan(x: Cell, y: Cell, told: seq<Transfer>, gain: real)
    requires x == Cell("x", 100.0, Some(10.0), 100.0) && y == Cell("y", 100.0, Some(90.0), 0.0)
    requires Delivers(Items([x, y], 10.0, 1.0), Rates([x, y]), told, gain)
    ensures gain < 0.0
  {
    hide Delivers;
    TrimmedToTwenty(x, y);
    assert Rate(x) == 1.0 && Rate(y) == 0.0;
    TwoCellsLoseExactly(x, y, 10.0, 1.0, told, gain);
  }

  lemma TrimmedToTwenty(x: Cell, y: Cell)
    requires x == Cell("x", 100.0, Some(10.0), 100.0) && y == Cell("y", 100.0, Some(90.0), 0.0)
    ensures Items([x, y], 10.0, 1.0)[0].recommended == 20.0
  {
    assert [x, y][..1] == [x] && [x][..0] == [];
    assert Total(Spend(), [x]) == 100.0 && Total(Weight(10.0), [x]) == 1000.0;
    assert Total(Spend(), [x, y]) == 200.0 && Total(Weight(10.0), [x, y]) == 10000.0;
  }

  lemma TrimIsReal(after: real, recommended: real, current: real)
    requires Near(after, recommended, (CUT + WORTHWHILE) * 2.0) && current - recommended > (CUT + WORTHWHILE) * 2.0
    ensures current - after > 0.0
  {
  }

  lemma RatesOfTwo(x: Cell, y: Cell)
    requires x.key != y.key
    ensures RateOf(Rates([x, y]), x.key) == Rate(x) && RateOf(Rates([x, y]), y.key) == Rate(y)
  {
    hide Rate;
    assert [x, y][..1] == [x] && [x][..0] == [];
    assert Rates([x]) == map[x.key := Rate(x)];
  }

  lemma WorthOfTwo(rates: map<string, real>, items: seq<Item>, amounts: seq<real>)
    requires |items| == |amounts| == 2
    ensures Worth(rates, items, amounts)
         == Product(amounts[0], RateOf(rates, items[0].key)) + Product(amounts[1], RateOf(rates, items[1].key))
  {
    hide Product, RateOf;
    assert amounts[..1][..0] == [];
    assert Worth(rates, items, amounts[..1]) == Product(amounts[0], RateOf(rates, items[0].key));
  }

  lemma TotalOfTwo(amounts: seq<real>)
    requires |amounts| == 2
    ensures Total(RealAmount(), amounts) == amounts[0] + amounts[1]
  {
    assert amounts[..1][..0] == [];
    assert Total(RealAmount(), amounts[..1]) == amounts[0];
  }

  lemma GainOfTwo(a: real, b: real, x: real, y: real, p: real, q: real)
    requires a + b == x + y
    ensures Product(a, p) + Product(b, q) - (Product(x, p) + Product(y, q)) == Product(x - a, q - p)
  {
    assert b == x + y - a;
  }

  /** The recommendation with its moves; `end` is the state the pairing loop stopped in. */
  method RecommendAllocation(cells: seq<Cell>, floor: real, tilt: real)
    returns (items: seq<Item>, moves: seq<Move>, gain: real, end: State)
    ensures items == Items(cells, floor, tilt) && Total(Delta(), items) == 0.0
    ensures |moves| <= |end.transfers| <= |cells|
    ensures moves == Moves(items, Rates(cells), Large(end.transfers))
    ensures Delivers(items, Rates(cells), Large(end.transfers), gain)
    ensures forall t :: t in Large(end.transfers) ==> Upward(cells, t)
    ensures Finished(items, end) && Follows(end, Ranked(items, true), Ranked(items, false))
    ensures gain == Total(MoveGain(), moves)
  {
    hide *;
    items := Items(cells, floor, tilt);
    BudgetIsConserved(cells, floor, tilt);
    var rates := Rates(cells);
    var trims, grows := Ranked(items, true), Ranked(items, false);
    RankedAboveCut(items);
    RankedOrder(items, true);
    RankedOrder(items, false);
    moves, end := PairParts(items, rates, trims, grows);
    assert Finished(items, end) by { FinishedIs(items, end); }
    MovesDeliver(items, rates, end);
    MovesLeadUpward(cells, floor, tilt, end);
    FewTransfers(items, end);
    LargeIsFewer(end.transfers);
    gain := 0.0;
    TotalNone(MoveGain());
    for n := 0 to |moves|
      invariant gain == Total(MoveGain(), moves[..n])
    {
      assert moves[..n + 1] == moves[..n] + [moves[n]];
      TotalPush(MoveGain(), moves[..n], moves[n]);
      GainOfMove(moves[n]);
      gain := gain + moves[n].gain;
    }
    assert moves[..|moves|] == moves;
    GainsAreTold(items, rates, Large(end.transfers));
  }

  lemma GainOfMove(m: Move)
    ensures MoveGain()(m) == m.gain
  {
  }

  lemma RankedAboveCut(items: seq<Item>)
    ensures forall p :: p in Ranked(items, true) ==> p.amount > CUT
    ensures forall p :: p in Ranked(items, false) ==> p.amount > CUT
  {
    hide Ranked, Due;
    RankedDue(items, true);
    RankedDue(items, false);
  }

  lemma FinishedIs(items: seq<Item>, end: State)
    requires Running(end, Ranked(items, true), Ranked(items, false))
    requires end.ti == |Ranked(items, true)| || end.gi == |Ranked(items, false)|
    ensures Finished(items, end)
  {
  }

  lemma {:induction false} LargeIsFewer(transfers: seq<Transfer>)
    ensures |Large(transfers)| <= |transfers|
  {
    if transfers != [] {
      LargeIsFewer(transfers[..|transfers| - 1]);
    }
  }
}
