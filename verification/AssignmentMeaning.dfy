/** What a retained block must hold to be accepted, unit by unit. */
module AssignmentMeaning {
  // The shuffle is told as the exchanges it makes, and the decisions as what each of them carries.

  import opened StudyRecords
  import opened Assignment
  import opened QualificationMeaning

  // ---------------------------------------------------------------- the shuffle

  /** Of the positions 0..i, laid out over all 32-bit values in equal parts, the draw falls on j. */
  ghost predicate Falls(d: Draw, i: nat, j: nat) { j * 0x1_0000_0000 <= d * (i + 1) < (j + 1) * 0x1_0000_0000 }

  ghost predicate Exchanged<T(!new)>(s: seq<T>, t: seq<T>, i: nat, j: nat) {
    && |s| == |t| && i < |s| && j < |s| && t[i] == s[j] && t[j] == s[i]
    && forall k :: 0 <= k < |s| && k != i && k != j ==> t[k] == s[k]
  }

  /** From position i down to 1, each position is exchanged with the one its draw falls on. */
  ghost predicate Exchanges<T(!new)>(s: seq<T>, draws: seq<Draw>, i: nat, r: seq<T>)
    requires i <= |draws|
    decreases i
  {
    if i == 0 then r == s
    else exists j, t :: Falls(draws[0], i, j) && Exchanged(s, t, i, j) && Exchanges(t, draws[1..], i - 1, r)
  }

  lemma PickFalls(d: Draw, i: nat, j: nat)
    ensures Falls(d, i, j) <==> Pick(d, i) == j
  {
    QuotientIs(d * (i + 1), j);
  }

  lemma QuotientIs(x: nat, j: nat)
    ensures x / DRAWS == j <==> j * DRAWS <= x < (j + 1) * DRAWS
  {
  }

  lemma SwappedIsExchanged<T(!new)>(s: seq<T>, t: seq<T>, i: nat, j: nat)
    requires i < |s| && j < |s|
    ensures Exchanged(s, t, i, j) <==> t == Swapped(s, i, j)
  {
  }

  lemma ShuffleStep<T>(s: seq<T>, draws: seq<Draw>, i: nat)
    requires 0 < i < |s| && i <= |draws|
    ensures ShuffledFrom(s, draws, i) == ShuffledFrom(Swapped(s, i, Pick(draws[0], i)), draws[1..], i - 1)
  {
    hide Pick, Swapped;
  }

  lemma NoExchange<T(!new)>(s: seq<T>, draws: seq<Draw>)
    ensures Exchanges(s, draws, 0, ShuffledFrom(s, draws, 0))
  {
  }

  lemma {:induction false} ShuffledExchanges<T(!new)>(s: seq<T>, draws: seq<Draw>, i: nat)
    requires (i < |s| || s == []) && i <= |draws| && (s == [] ==> i == 0)
    ensures Exchanges(s, draws, i, ShuffledFrom(s, draws, i))
    decreases i
  {
    hide *;
    if i == 0 {
      NoExchange(s, draws);
    } else {
      var k := Pick(draws[0], i);
      var next := Swapped(s, i, k);
      PickFalls(draws[0], i, k);
      SwappedIsExchanged(s, next, i, k);
      ShuffledExchanges(next, draws[1..], i - 1);
      ShuffleStep(s, draws, i);
      ExchangeFirst(s, draws, i, k, next, ShuffledFrom(next, draws[1..], i - 1));
    }
  }

  lemma ExchangeFirst<T(!new)>(s: seq<T>, draws: seq<Draw>, i: nat, j: nat, t: seq<T>, r: seq<T>)
    requires 0 < i < |s| && i <= |draws|
    requires Falls(draws[0], i, j) && Exchanged(s, t, i, j) && Exchanges(t, draws[1..], i - 1, r)
    ensures Exchanges(s, draws, i, r)
  {
    hide Falls, Exchanged;
  }

  lemma {:induction false} ExchangesShuffle<T(!new)>(s: seq<T>, draws: seq<Draw>, i: nat, r: seq<T>)
    requires (i < |s| || s == []) && i <= |draws| && (s == [] ==> i == 0) && Exchanges(s, draws, i, r)
    ensures r == ShuffledFrom(s, draws, i)
    decreases i
  {
    if i > 0 {
      var j, t := FirstExchange(s, draws, i, r);
      hide Pick, Swapped, Falls, Exchanged, Exchanges;
      PickFalls(draws[0], i, j);
      SwappedIsExchanged(s, t, i, j);
      ExchangesShuffle(t, draws[1..], i - 1, r);
    }
  }

  lemma FirstExchange<T(!new)>(s: seq<T>, draws: seq<Draw>, i: nat, r: seq<T>) returns (j: nat, t: seq<T>)
    requires 0 < i < |s| && i <= |draws| && Exchanges(s, draws, i, r)
    ensures Falls(draws[0], i, j) && Exchanged(s, t, i, j) && Exchanges(t, draws[1..], i - 1, r)
    ensures j < |s| == |t|
  {
    hide Falls;
    j, t :| Falls(draws[0], i, j) && Exchanged(s, t, i, j) && Exchanges(t, draws[1..], i - 1, r);
  }

  // ---------------------------------------------------------------- the block

  /** The arms before shuffling: the first arm for the first half of the block, then the second. */
  ghost predicate HalfAndHalf(p: Protocol, arms: seq<string>)
    requires |p.arms| == 2
  {
    && |arms| == p.blockSize
    && forall k :: 0 <= k < |arms| ==> arms[k] == p.arms[if 2 * k < p.blockSize then 0 else 1].armId
  }

  /** The decision on the unit at n: for the arm at n, under the block's allocation and material, at the time
      of the plan, sealed, and linked to the decision before it. */
  ghost predicate Decides(h: Digests, p: Protocol, plan: Plan, arms: seq<string>, ds: seq<Decision>, n: nat)
    requires n < |ds| && n < |arms| && n < |plan.units|
  {
    var d := ds[n];
    && d.decisionId == h.decisionId(plan.blockId, n + 1) && d.studyId == p.studyId && d.protocolHash == p.protocolHash
    && d.unitIdHash == plan.units[n] && d.assignedAt == plan.createdAt && d.block == plan.blockId && d.arm == arms[n]
    && d.propensity == p.propensity && d.allocation == plan.allocation && d.material == plan.material && d.wellFormed
    && d.event == h.events.decision(d.(event := "")) && (n > 0 ==> d.previous == ds[n - 1].event)
  }

  ghost predicate DecidesAll(h: Digests, p: Protocol, plan: Plan, arms: seq<string>, ds: seq<Decision>) {
    && |ds| == |plan.units| == |arms|
    && forall n :: 0 <= n < |ds| ==> Decides(h, p, plan, arms, ds, n)
  }

  /** The block replays: its arms are half and half before the exchanges of its draws, the allocation is the
      digest of units, arms and material, and the decisions are those of these arms. */
  ghost predicate Replays(h: Digests, p: Protocol, plan: Plan, draws: seq<Draw>)
    requires |p.arms| == 2 && p.blockSize <= |draws| && p.blockSize > 0
  {
    exists start, arms ::
      && HalfAndHalf(p, start) && Exchanges(start, draws, p.blockSize - 1, arms)
      && plan.allocation == h.allocation(plan.blockId, plan.units, arms, plan.material)
      && DecidesAll(h, p, plan, arms, plan.decisions)
  }

  /** What an accepted block is. */
  ghost predicate BlockMeets(h: Digests, p: Protocol, plan: Plan, draws: seq<Draw>)
    requires p.blockSize <= |draws|
  {
    && ProtocolMeets(p) && plan.studyId == p.studyId && plan.protocolHash == p.protocolHash
    && plan.createdAt > 0 && p.committedAt <= plan.createdAt
    && |plan.units| == p.blockSize && (forall u :: u in plan.units ==> IsDigest(u))
    && (forall i, j :: 0 <= i < j < |plan.units| ==> plan.units[i] != plan.units[j])
    && plan.wellFormed && Replays(h, p, plan, draws)
  }

  lemma BalancedIsHalf(p: Protocol, start: seq<string>)
    requires ProtocolOk(p)
    ensures HalfAndHalf(p, start) <==> start == BalancedArms(p.arms, p.blockSize / 2)
  {
    var half := p.blockSize / 2;
    var one := p.arms[..|p.arms| - 1];
    assert one == [p.arms[0]] && one[..|one| - 1] == [];
    assert BalancedArms(one, half) == [] + Repeated(p.arms[0].armId, half) == Repeated(p.arms[0].armId, half);
    assert BalancedArms(p.arms, half) == Repeated(p.arms[0].armId, half) + Repeated(p.arms[1].armId, half);
    assert p.blockSize == 2 * half;
  }

  lemma DecidedDecides(h: Digests, p: Protocol, plan: Plan, arms: seq<string>, n: nat)
    requires n < |plan.decisions| && n < |arms| && n < |plan.units|
    ensures Decides(h, p, plan, arms, plan.decisions, n)
       <==> plan.decisions[n] == Decided(h, p, plan, arms[n], plan.allocation, n,
                                         LastEvent(plan.decisions[..n], FirstPrevious(p, plan)))
  {
    var x, previous := plan.decisions[n], LastEvent(plan.decisions[..n], FirstPrevious(p, plan));
    var d := Decided(h, p, plan, arms[n], plan.allocation, n, previous);
    assert d.previous == previous && d.event == h.events.decision(d.(event := ""));
    if Decides(h, p, plan, arms, plan.decisions, n) {
      assert x.(event := "") == d.(event := "");
    }
  }

  lemma {:induction false} ReplayedDecides(h: Digests, p: Protocol, plan: Plan, arms: seq<string>, n: nat)
    requires n <= |plan.decisions| && n <= |plan.units| && n <= |arms|
    ensures plan.decisions[..n] == Replayed(h, p, plan, arms, plan.allocation, FirstPrevious(p, plan), n)
       <==> forall k :: 0 <= k < n ==> Decides(h, p, plan, arms, plan.decisions, k)
  {
    if n > 0 {
      ReplayedDecides(h, p, plan, arms, n - 1);
      DecidedDecides(h, p, plan, arms, n - 1);
      LastReplayed(h, p, plan, arms, n);
      hide Decided, Decides, Replayed, FirstPrevious, LastEvent;
    }
  }

  lemma LastReplayed(h: Digests, p: Protocol, plan: Plan, arms: seq<string>, n: nat)
    requires 0 < n <= |plan.decisions| && n <= |plan.units| && n <= |arms|
    ensures plan.decisions[..n] == Replayed(h, p, plan, arms, plan.allocation, FirstPrevious(p, plan), n)
       <==> && plan.decisions[..n - 1] == Replayed(h, p, plan, arms, plan.allocation, FirstPrevious(p, plan), n - 1)
            && plan.decisions[n - 1] == Decided(h, p, plan, arms[n - 1], plan.allocation, n - 1,
                                                LastEvent(plan.decisions[..n - 1], FirstPrevious(p, plan)))
  {
    hide Decided, FirstPrevious;
    var before := Replayed(h, p, plan, arms, plan.allocation, FirstPrevious(p, plan), n - 1);
    var last := Decided(h, p, plan, arms[n - 1], plan.allocation, n - 1, LastEvent(before, FirstPrevious(p, plan)));
    assert plan.decisions[..n] == plan.decisions[..n - 1] + [plan.decisions[n - 1]];
    SameEnds(plan.decisions[..n - 1], before, plan.decisions[n - 1], last);
  }

  lemma SameEnds<T>(a: seq<T>, b: seq<T>, x: T, y: T)
    requires |a| == |b|
    ensures a + [x] == b + [y] <==> a == b && x == y
  {
    if a + [x] == b + [y] {
      assert a == (a + [x])[..|a|] == (b + [y])[..|b|] == b;
      assert (a + [x])[|a|] == x && (b + [y])[|b|] == y;
    }
  }

  lemma OnlyArms(p: Protocol, draws: seq<Draw>, start: seq<string>, arms: seq<string>)
    requires ProtocolOk(p) && p.blockSize <= |draws|
    requires HalfAndHalf(p, start) && Exchanges(start, draws, p.blockSize - 1, arms)
    ensures arms == ReplayedArms(p, draws)
  {
    BalancedIsHalf(p, start);
    ExchangesShuffle(start, draws, p.blockSize - 1, arms);
  }

  lemma ArmsAreShuffled(p: Protocol, draws: seq<Draw>)
    requires ProtocolOk(p) && p.blockSize <= |draws|
    ensures |p.arms| == 2 && p.blockSize > 0 && |BalancedArms(p.arms, p.blockSize / 2)| == p.blockSize
    ensures ReplayedArms(p, draws)
         == ShuffledFrom(BalancedArms(p.arms, p.blockSize / 2), draws, p.blockSize - 1)
  {
    ReplayIsDefined(p);
    hide BalancedArms, ShuffledFrom;
  }

  lemma ArmsReplay(p: Protocol, draws: seq<Draw>) returns (start: seq<string>)
    requires ProtocolOk(p) && p.blockSize <= |draws|
    ensures |p.arms| == 2 && p.blockSize > 0
    ensures HalfAndHalf(p, start) && Exchanges(start, draws, p.blockSize - 1, ReplayedArms(p, draws))
  {
    hide *;
    ArmsAreShuffled(p, draws);
    start := BalancedArms(p.arms, p.blockSize / 2);
    BalancedIsHalf(p, start);
    ShuffledExchanges(start, draws, p.blockSize - 1);
  }

  lemma BlockReplays(h: Digests, p: Protocol, plan: Plan, draws: seq<Draw>)
    requires ProtocolOk(p) && |plan.decisions| == |plan.units| == p.blockSize <= |draws|
    requires ReplaysExactly(h, p, plan, draws)
    ensures Replays(h, p, plan, draws)
  {
    var arms := ReplayedArms(p, draws);
    assert plan.decisions[..|plan.units|] == plan.decisions;
    hide HalfAndHalf, ReplayedArms, Exchanges, Decides, Replayed, FirstPrevious, ProtocolOk;
    var start := ArmsReplay(p, draws);
    ReplayedDecides(h, p, plan, arms, |plan.units|);
    assert DecidesAll(h, p, plan, arms, plan.decisions);
  }

  lemma ReplaysBlock(h: Digests, p: Protocol, plan: Plan, draws: seq<Draw>)
    requires ProtocolOk(p) && |p.arms| == 2 && p.blockSize > 0
    requires |plan.units| == p.blockSize <= |draws| && Replays(h, p, plan, draws)
    ensures |plan.decisions| == |plan.units| && ReplaysExactly(h, p, plan, draws)
  {
    hide HalfAndHalf, BalancedArms, Exchanges, ReplayedArms, Decides, Decided, Replayed, FirstPrevious, ProtocolOk;
    var s, arms :| && HalfAndHalf(p, s) && Exchanges(s, draws, p.blockSize - 1, arms)
                   && plan.allocation == h.allocation(plan.blockId, plan.units, arms, plan.material)
                   && DecidesAll(h, p, plan, arms, plan.decisions);
    OnlyArms(p, draws, s, arms);
    assert plan.decisions[..|plan.units|] == plan.decisions;
    ReplayedDecides(h, p, plan, arms, |plan.units|);
  }

  /** A retained block is accepted if and only if it is all of this. */
  lemma AcceptedExactly(h: Digests, p: Protocol, plan: Plan, draws: seq<Draw>)
    requires p.blockSize <= |draws|
    ensures Accepted(h, p, plan, draws) <==> BlockMeets(h, p, plan, draws)
  {
    ProtocolOkExactly(p);
    assert forall s: string :: IsSha256(s) <==> IsDigest(s);
    hide ProtocolOk, ReplaysExactly, Replays, IsSha256, IsDigest;
    if ProtocolOk(p) && |plan.units| == p.blockSize {
      if |plan.decisions| == |plan.units| && ReplaysExactly(h, p, plan, draws) {
        BlockReplays(h, p, plan, draws);
      }
      if Replays(h, p, plan, draws) {
        ReplaysBlock(h, p, plan, draws);
      }
    }
    forall i | 0 <= i < |plan.units| ensures plan.units[i] in plan.units {
    }
  }
}
