/** Blocked assignment replayed from its retained randomization material. */
module Assignment {
  import opened Tables
  import opened StudyRecords

  // ---------------------------------------------------------------- the shuffle

  /** One 32-bit draw of the hash stream. */
  type Draw = d: nat | d < 0x1_0000_0000

  const DRAWS: nat := 0x1_0000_0000

  /** The position a draw picks among 0..i. */
  function Pick(d: Draw, i: nat): (j: nat)
    ensures j <= i
  {
    PickInRange(d, i);
    d * (i + 1) / DRAWS
  }

  lemma PickInRange(d: Draw, i: nat)
    ensures d * (i + 1) / DRAWS <= i
  {
    assert d * (i + 1) <= (DRAWS - 1) * (i + 1) < DRAWS * (i + 1);
    DivideBelow(d * (i + 1), i + 1);
  }

  lemma DivideBelow(x: nat, n: nat)
    requires x < DRAWS * n
    ensures x / DRAWS < n
  {
  }

  function Swapped<T>(s: seq<T>, i: nat, j: nat): (r: seq<T>)
    requires i < |s| && j < |s|
    ensures |r| == |s| && multiset(r) == multiset(s)
  {
    s[i := s[j]][j := s[i]]
  }

  /** Positions i down to 1 are each exchanged with a position drawn at or below them; `draws` is
      what the hash stream yields, as far as it is read. */
  function ShuffledFrom<T>(s: seq<T>, draws: seq<Draw>, i: nat): (r: seq<T>)
    requires (i < |s| || s == []) && i <= |draws|
    ensures |r| == |s|
    decreases i
  {
    if s == [] || i == 0 then s
    else ShuffledFrom(Swapped(s, i, Pick(draws[0], i)), draws[1..], i - 1)
  }

  function LastIndex(n: nat): nat { if n == 0 then 0 else n - 1 }

  function Shuffled<T>(s: seq<T>, draws: seq<Draw>): (r: seq<T>)
    requires LastIndex(|s|) <= |draws|
    ensures |r| == |s|
  {
    ShuffledFrom(s, draws, LastIndex(|s|))
  }

  /** Whatever the hash stream, shuffling only rearranges. */
  lemma {:induction false} ShuffledRearranges<T>(s: seq<T>, draws: seq<Draw>, i: nat)
    requires (i < |s| || s == []) && i <= |draws|
    ensures multiset(ShuffledFrom(s, draws, i)) == multiset(s)
    decreases i
  {
    hide Pick, Swapped;
    if s != [] && i > 0 {
      ShuffledRearranges(Swapped(s, i, Pick(draws[0], i)), draws[1..], i - 1);
    }
  }

  lemma SwappedInPlace<T>(now: seq<T>, next: seq<T>, i: nat, j: nat)
    requires i < |now| == |next| && j < |now| && next[i] == now[j] && next[j] == now[i]
    requires forall k :: 0 <= k < |now| && k != i && k != j ==> next[k] == now[k]
    ensures next == Swapped(now, i, j)
  {
  }

  /** The in-place loop computes the shuffle. */
  method Shuffle<T>(a: array<T>, draws: seq<Draw>)
    requires LastIndex(a.Length) <= |draws|
    modifies a
    ensures a[..] == Shuffled(old(a[..]), draws)
    ensures multiset(a[..]) == multiset(old(a[..]))
  {
    hide Pick, Swapped, ShuffledFrom;
    ghost var before := a[..];
    var counter := 0;
    var i: nat := LastIndex(a.Length);
    while i > 0
      invariant i < a.Length || a.Length == 0
      invariant counter + i == LastIndex(a.Length)
      invariant ShuffledFrom(a[..], draws[counter..], i) == Shuffled(before, draws)
    {
      var j := Pick(draws[counter], i);
      ghost var now := a[..];
      a[i], a[j] := a[j], a[i];
      SwappedInPlace(now, a[..], i, j);
      OneExchange(now, draws, counter, i);
      counter := counter + 1;
      i := i - 1;
    }
    NothingToExchange(a[..], draws[counter..]);
    ShuffledRearranges(before, draws, LastIndex(|before|));
  }

  lemma NothingToExchange<T>(s: seq<T>, draws: seq<Draw>)
    ensures ShuffledFrom(s, draws, 0) == s
  {
  }

  lemma OneExchange<T>(s: seq<T>, draws: seq<Draw>, counter: nat, i: nat)
    requires 0 < i < |s| && counter + i <= |draws|
    ensures ShuffledFrom(s, draws[counter..], i)
         == ShuffledFrom(Swapped(s, i, Pick(draws[counter], i)), draws[counter + 1..], i - 1)
  {
    hide Pick, Swapped;
    assert draws[counter..][1..] == draws[counter + 1..];
  }

  /** A draw for any wanted position, as long as the list is no longer than the draws are many. */
  function DrawFor(i: nat, j: nat): (d: Draw)
    requires j <= i < DRAWS
    ensures Pick(d, i) == j
  {
    var d := (j * DRAWS + i) / (i + 1);
    DrawReaches(i, j, d);
    d
  }

  lemma DrawReaches(i: nat, j: nat, d: nat)
    requires j <= i < DRAWS && d == (j * DRAWS + i) / (i + 1)
    ensures d < DRAWS && d * (i + 1) / DRAWS == j
  {
    var n := i + 1;
    var rest := (j * DRAWS + i) % n;
    assert d * n == j * DRAWS + i - rest;
    assert j * DRAWS <= d * n < j * DRAWS + DRAWS;
    QuotientIs(d * n, j);
    Bounded(d, n, j);
  }

  lemma QuotientIs(x: nat, j: nat)
    requires j * DRAWS <= x < j * DRAWS + DRAWS
    ensures x / DRAWS == j
  {
  }

  lemma Bounded(d: nat, n: nat, j: nat)
    requires 0 < n && j < n && d * n < j * DRAWS + DRAWS
    ensures d < DRAWS
  {
    assert (j + 1) * DRAWS <= n * DRAWS;
    assert d >= DRAWS ==> d * n >= DRAWS * n;
  }

  /** No arrangement is out of reach: every rearrangement is the shuffle of some hash stream. */
  lemma EveryArrangementIsReached<T(!new)>(s: seq<T>, wanted: seq<T>) returns (draws: seq<Draw>)
    requires |s| <= DRAWS && multiset(s) == multiset(wanted)
    ensures |draws| == LastIndex(|s|) && Shuffled(s, draws) == wanted
  {
    if s == [] {
      NothingLeft(s, wanted);
      draws := [];
    } else {
      assert |wanted| == |multiset(wanted)| == |multiset(s)| == |s|;
      assert s[..|s|] == s && wanted[..|s|] == wanted;
      draws := ReachedFrom(s, wanted, |s| - 1);
    }
  }

  lemma {:induction false} ReachedFrom<T(!new)>(s: seq<T>, wanted: seq<T>, i: nat) returns (draws: seq<Draw>)
    requires Settled(s, wanted, i) && |s| <= DRAWS
    ensures |draws| == i < |s| && ShuffledFrom(s, draws, i) == wanted
    decreases i
  {
    if i == 0 {
      OneLeft(s, wanted);
      return [];
    }
    hide *;
    var j := NextSwap(s, wanted, i);
    var rest := ReachedFrom(Swapped(s, i, j), wanted, i - 1);
    draws := [DrawFor(i, j)] + rest;
    FirstDraw(s, i, j, rest);
  }

  /** Everything above position i is already in its wanted place, and the rest is still there. */
  ghost predicate Settled<T>(s: seq<T>, wanted: seq<T>, i: nat) {
    i < |s| == |wanted| && s[i + 1..] == wanted[i + 1..] && multiset(s[..i + 1]) == multiset(wanted[..i + 1])
  }

  lemma NextSwap<T(!new)>(s: seq<T>, wanted: seq<T>, i: nat) returns (j: nat)
    requires Settled(s, wanted, i) && i > 0
    ensures j <= i < |s| && Settled(Swapped(s, i, j), wanted, i - 1)
  {
    hide Swapped;
    j := Holds(s[..i + 1], wanted[..i + 1], i);
    SwapKeepsPrefix(s, i, j, wanted);
  }

  lemma FirstDraw<T>(s: seq<T>, i: nat, j: nat, rest: seq<Draw>)
    requires j <= i < |s| && 0 < i < DRAWS && |rest| == i - 1
    ensures ShuffledFrom(s, [DrawFor(i, j)] + rest, i) == ShuffledFrom(Swapped(s, i, j), rest, i - 1)
  {
    hide Pick, Swapped, DrawFor;
    assert ([DrawFor(i, j)] + rest)[1..] == rest;
  }

  lemma Holds<T>(s: seq<T>, wanted: seq<T>, i: nat) returns (j: nat)
    requires i < |wanted| && multiset(s) == multiset(wanted)
    ensures j < |s| && s[j] == wanted[i]
  {
    assert wanted[i] in multiset(wanted);
    assert wanted[i] in multiset(s);
    j :| j < |s| && s[j] == wanted[i];
  }

  lemma OneLeft<T(!new)>(s: seq<T>, wanted: seq<T>)
    requires Settled(s, wanted, 0)
    ensures s == wanted
  {
    assert s[..1] == [s[0]] && wanted[..1] == [wanted[0]];
    assert s[0] in multiset(wanted[..1]);
    assert s == s[..1] + s[1..] && wanted == wanted[..1] + wanted[1..];
  }

  lemma SwapKeepsPrefix<T(!new)>(s: seq<T>, i: nat, j: nat, wanted: seq<T>)
    requires j <= i < |s| == |wanted| && s[j] == wanted[i]
    requires s[i + 1..] == wanted[i + 1..] && multiset(s[..i + 1]) == multiset(wanted[..i + 1])
    ensures Swapped(s, i, j)[i..] == wanted[i..] && multiset(Swapped(s, i, j)[..i]) == multiset(wanted[..i])
  {
    var next := Swapped(s, i, j);
    assert next[..i + 1] == Swapped(s[..i + 1], i, j);
    assert next[i + 1..] == s[i + 1..] && next[i] == wanted[i];
    hide Swapped;
    DropLast(next[..i + 1], wanted[..i + 1]);
    assert next[..i + 1][..i] == next[..i] && wanted[..i + 1][..i] == wanted[..i];
    assert next[i..] == [next[i]] + next[i + 1..] && wanted[i..] == [wanted[i]] + wanted[i + 1..];
  }

  // ---------------------------------------------------------------- replaying a block

  datatype Plan = Plan(studyId: string, protocolHash: string, blockId: string, createdAt: int, units: seq<string>,
                       material: string, allocation: string, decisions: seq<Decision>, wellFormed: bool)

  /** The digests a replay recomputes, as arbitrary functions of what they cover. */
  datatype Digests = Digests(
    allocation: (string, seq<string>, seq<string>, string) -> string,
    decisionId: (string, nat) -> string,
    events: EventDigests)

  function Repeated<T>(x: T, n: nat): seq<T> { seq(n, i requires 0 <= i < n => x) }

  function BalancedArms(arms: seq<Arm>, n: nat): seq<string> {
    if arms == [] then [] else BalancedArms(arms[..|arms| - 1], n) + Repeated(arms[|arms| - 1].armId, n)
  }

  /** The decision for one unit, chained to the event before it. */
  function Decided(h: Digests, p: Protocol, plan: Plan, arm: string, allocation: string, n: nat,
                   previous: string): Decision
    requires n < |plan.units|
  {
    var d := Decision(h.decisionId(plan.blockId, n + 1), p.studyId, p.protocolHash, plan.units[n], plan.createdAt,
                      plan.blockId, arm, p.propensity, allocation, plan.material, previous, "", true);
    d.(event := h.events.decision(d))
  }

  function LastEvent(ds: seq<Decision>, first: string): string { if ds == [] then first else ds[|ds| - 1].event }

  function Replayed(h: Digests, p: Protocol, plan: Plan, arms: seq<string>, allocation: string, first: string, n: nat):
    (r: seq<Decision>)
    requires n <= |plan.units| && n <= |arms|
    ensures |r| == n
  {
    if n == 0 then []
    else
      var before := Replayed(h, p, plan, arms, allocation, first, n - 1);
      before + [Decided(h, p, plan, arms[n - 1], allocation, n - 1, LastEvent(before, first))]
  }

  function FirstPrevious(p: Protocol, plan: Plan): string {
    if plan.decisions == [] then p.protocolHash else plan.decisions[0].previous
  }

  lemma {:induction false} BalancedLength(arms: seq<Arm>, n: nat)
    ensures |BalancedArms(arms, n)| == |arms| * n
    decreases |arms|
  {
    if arms != [] {
      BalancedLength(arms[..|arms| - 1], n);
      assert |arms| * n == (|arms| - 1) * n + n;
    }
  }

  lemma {:induction false} RepeatedCount(x: string, n: nat, y: string)
    ensures multiset(Repeated(x, n))[y] == if x == y then n else 0
  {
    if n > 0 {
      RepeatedCount(x, n - 1, y);
      assert Repeated(x, n) == Repeated(x, n - 1) + [x];
    } else {
      assert Repeated(x, n) == [];
    }
  }

  /** The arms before shuffling: every arm equally often. */
  lemma TwoArmsEquallyOften(p: Protocol, n: nat, i: nat)
    requires ProtocolOk(p) && i < 2
    ensures multiset(BalancedArms(p.arms, n))[p.arms[i].armId] == n
    ensures |BalancedArms(p.arms, n)| == 2 * n
  {
    var a, b := p.arms[0].armId, p.arms[1].armId;
    var one := p.arms[..|p.arms| - 1];
    assert one == [p.arms[0]] && one[..|one| - 1] == [];
    assert BalancedArms(one, n) == [] + Repeated(a, n);
    assert BalancedArms(p.arms, n) == BalancedArms(one, n) + Repeated(b, n);
    RepeatedCount(a, n, p.arms[i].armId);
    RepeatedCount(b, n, p.arms[i].armId);
  }

  lemma ReplayIsDefined(p: Protocol)
    requires ProtocolOk(p)
    ensures |BalancedArms(p.arms, p.blockSize / 2)| == p.blockSize
  {
    BalancedLength(p.arms, p.blockSize / 2);
    PairOfHalves(p);
  }

  /** The arms of a block, in the order the recorded material puts them. */
  function ReplayedArms(p: Protocol, draws: seq<Draw>): (arms: seq<string>)
    requires ProtocolOk(p) && p.blockSize <= |draws|
    ensures |arms| == p.blockSize && multiset(arms) == multiset(BalancedArms(p.arms, p.blockSize / 2))
  {
    ReplayIsDefined(p);
    ShuffledIsRearranged(BalancedArms(p.arms, p.blockSize / 2), draws);
    Shuffled(BalancedArms(p.arms, p.blockSize / 2), draws)
  }

  method ReplayRetainedPlan(h: Digests, p: Protocol, plan: Plan, draws: seq<Draw>)
    returns (allocation: string, decisions: seq<Decision>)
    requires ProtocolOk(p) && |plan.units| == p.blockSize && p.blockSize <= |draws|
    ensures allocation == h.allocation(plan.blockId, plan.units, ReplayedArms(p, draws), plan.material)
    ensures decisions == Replayed(h, p, plan, ReplayedArms(p, draws), allocation, FirstPrevious(p, plan), |plan.units|)
  {
    hide Shuffled, Decided, ProtocolOk;
    var repetitions := p.blockSize / 2;
    BalancedLength(p.arms, repetitions);
    PairOfHalves(p);
    var balanced := BalancedArms(p.arms, repetitions);
    var a := new string[|balanced|](i requires 0 <= i < |balanced| => balanced[i]);
    assert a[..] == balanced;
    Shuffle(a, draws);
    var arms := a[..];
    allocation := h.allocation(plan.blockId, plan.units, arms, plan.material);
    decisions := [];
    var previous := FirstPrevious(p, plan);
    for n := 0 to |plan.units|
      invariant decisions == Replayed(h, p, plan, arms, allocation, FirstPrevious(p, plan), n)
      invariant previous == LastEvent(decisions, FirstPrevious(p, plan))
    {
      var decision := Decided(h, p, plan, arms[n], allocation, n, previous);
      decisions := decisions + [decision];
      previous := decision.event;
    }
  }

  lemma PairOfHalves(p: Protocol)
    requires ProtocolOk(p)
    ensures |p.arms| * (p.blockSize / 2) == p.blockSize
  {
  }

  /** A retained block is accepted when it is bound to the protocol and replays exactly. */
  predicate Accepted(h: Digests, p: Protocol, plan: Plan, draws: seq<Draw>)
    requires p.blockSize <= |draws|
  {
    && ProtocolOk(p)
    && SameStudy(p, plan.studyId, plan.protocolHash) && plan.createdAt > 0 && plan.createdAt >= p.committedAt
    && |plan.units| == p.blockSize && (forall i :: 0 <= i < |plan.units| ==> IsSha256(plan.units[i]))
    && (forall i, j :: 0 <= i < j < |plan.units| ==> plan.units[i] != plan.units[j])
    && |plan.decisions| == |plan.units| && plan.wellFormed
    && ReplaysExactly(h, p, plan, draws)
  }

  predicate ReplaysExactly(h: Digests, p: Protocol, plan: Plan, draws: seq<Draw>)
    requires ProtocolOk(p) && |plan.units| == p.blockSize <= |draws|
  {
    var arms := ReplayedArms(p, draws);
    && plan.allocation == h.allocation(plan.blockId, plan.units, arms, plan.material)
    && plan.decisions == Replayed(h, p, plan, arms, plan.allocation, FirstPrevious(p, plan), |plan.units|)
  }

  method VerifyBlockedAssignmentPlan(h: Digests, p: Protocol, plan: Plan, draws: seq<Draw>) returns (accepted: bool)
    requires p.blockSize <= |draws|
    ensures accepted <==> Accepted(h, p, plan, draws)
  {
    hide IsSha256, SameStudy, ProtocolOk, ReplayedArms, Replayed, BalancedArms;
    if !ProtocolOk(p) || !SameStudy(p, plan.studyId, plan.protocolHash) {
      return false;
    }
    var problems := 0;
    if plan.createdAt <= 0 || plan.createdAt < p.committedAt {
      problems := problems + 1;
    }
    if |plan.units| != p.blockSize || (exists i :: 0 <= i < |plan.units| && !IsSha256(plan.units[i]))
       || exists i, j :: 0 <= i < j < |plan.units| && plan.units[i] == plan.units[j] {
      problems := problems + 1;
    }
    if |plan.decisions| != |plan.units| || !plan.wellFormed {
      problems := problems + 1;
    }
    if problems > 0 {
      return false;
    }
    var allocation, decisions := ReplayRetainedPlan(h, p, plan, draws);
    accepted := allocation == plan.allocation && decisions == plan.decisions;
  }

  // ---------------------------------------------------------------- what acceptance is worth

  lemma ArmsPush(arms: seq<string>, n: nat, arm: string)
    requires n < |arms|
    ensures multiset(arms[..n + 1])[arm] == multiset(arms[..n])[arm] + if arms[n] == arm then 1 else 0
  {
    assert arms[..n + 1] == arms[..n] + [arms[n]];
  }

  lemma NoneInArm(block: string, arm: string)
    ensures InArm([], block, arm) == 0
  {
  }

  lemma DecidedArm(h: Digests, p: Protocol, plan: Plan, arm: string, allocation: string, n: nat, previous: string)
    requires n < |plan.units|
    ensures var d := Decided(h, p, plan, arm, allocation, n, previous); d.block == plan.blockId && d.arm == arm
  {
  }

  lemma {:induction false} ReplayedCount(h: Digests, p: Protocol, plan: Plan, arms: seq<string>, allocation: string,
                                         first: string, n: nat, arm: string)
    requires n <= |plan.units| && n <= |arms|
    ensures InArm(Replayed(h, p, plan, arms, allocation, first, n), plan.blockId, arm) == multiset(arms[..n])[arm]
    decreases n
  {
    hide InArm, LastEvent, Decided;
    if n == 0 {
      NoneInArm(plan.blockId, arm);
      assert multiset(arms[..0])[arm] == 0;
    } else {
      ReplayedCount(h, p, plan, arms, allocation, first, n - 1, arm);
      ArmsPush(arms, n - 1, arm);
      var before := Replayed(h, p, plan, arms, allocation, first, n - 1);
      DecidedArm(h, p, plan, arms[n - 1], allocation, n - 1, LastEvent(before, first));
      InArmPush(before, Decided(h, p, plan, arms[n - 1], allocation, n - 1, LastEvent(before, first)), plan.blockId,
                  arm);
    }
  }

  ghost predicate FromPlan(p: Protocol, plan: Plan, allocation: string, d: Decision) {
    && d.block == plan.blockId && d.allocation == allocation && d.material == plan.material
    && d.propensity == p.propensity && SameStudy(p, d.studyId, d.protocolHash)
  }

  ghost predicate AllFromPlan(p: Protocol, plan: Plan, allocation: string, ds: seq<Decision>) {
    forall i :: 0 <= i < |ds| ==> FromPlan(p, plan, allocation, ds[i])
  }

  /** One unbroken chain of events, starting at `first`. */
  ghost predicate Chained(ds: seq<Decision>, first: string) {
    forall i :: 0 <= i < |ds| ==> ds[i].previous == LastEvent(ds[..i], first)
  }

  lemma {:induction false} ReplayedIdentity(h: Digests, p: Protocol, plan: Plan, arms: seq<string>, allocation: string,
                                            first: string, n: nat)
    requires n <= |plan.units| && n <= |arms|
    ensures AllFromPlan(p, plan, allocation, Replayed(h, p, plan, arms, allocation, first, n))
    ensures Chained(Replayed(h, p, plan, arms, allocation, first, n), first)
    decreases n
  {
    if n > 0 {
      ReplayedIdentity(h, p, plan, arms, allocation, first, n - 1);
      var before := Replayed(h, p, plan, arms, allocation, first, n - 1);
      hide Chained, AllFromPlan;
      IdentityPush(p, plan, allocation, before, first,
                   Decided(h, p, plan, arms[n - 1], allocation, n - 1, LastEvent(before, first)));
    } else {
      assert Replayed(h, p, plan, arms, allocation, first, n) == [];
    }
  }

  lemma IdentityPush(p: Protocol, plan: Plan, allocation: string, ds: seq<Decision>, first: string, d: Decision)
    requires AllFromPlan(p, plan, allocation, ds) && Chained(ds, first)
    requires FromPlan(p, plan, allocation, d) && d.previous == LastEvent(ds, first)
    ensures AllFromPlan(p, plan, allocation, ds + [d]) && Chained(ds + [d], first)
  {
    hide FromPlan, LastEvent;
    assert forall i :: 0 <= i < |ds| ==> (ds + [d])[..i] == ds[..i];
    assert (ds + [d])[..|ds|] == ds;
  }

  lemma BlockHalves(h: Digests, p: Protocol, plan: Plan, draws: seq<Draw>, i: nat)
    requires p.blockSize <= |draws| && Accepted(h, p, plan, draws) && i < 2
    ensures InArm(plan.decisions, plan.blockId, p.arms[i].armId) == p.blockSize / 2
  {
    hide Replayed, BalancedArms, InArm;
    var arms := ReplayedArms(p, draws);
    assert arms[..|plan.units|] == arms;
    TwoArmsEquallyOften(p, p.blockSize / 2, i);
    hide ReplayedArms;
    ReplayedCount(h, p, plan, arms, plan.allocation, FirstPrevious(p, plan), |plan.units|, p.arms[i].armId);
  }

  /** Every accepted plan gives each arm exactly half of the block, under one allocation identity, in
      one unbroken chain of events: it passes the block gate of qualification. */
  lemma AcceptedPlanIsBalanced(h: Digests, p: Protocol, plan: Plan, draws: seq<Draw>)
    requires p.blockSize <= |draws| && Accepted(h, p, plan, draws)
    ensures FullBlock(p, plan.decisions, plan.blockId)
    ensures AllFromPlan(p, plan, plan.allocation, plan.decisions)
    ensures Chained(plan.decisions, FirstPrevious(p, plan))
  {
    hide Replayed, ReplayedArms, InArm, Chained;
    BlockHalves(h, p, plan, draws, 0);
    BlockHalves(h, p, plan, draws, 1);
    ReplayedIdentity(h, p, plan, ReplayedArms(p, draws), plan.allocation, FirstPrevious(p, plan), |plan.units|);
  }

  lemma ShuffledIsRearranged<T>(s: seq<T>, draws: seq<Draw>)
    requires LastIndex(|s|) <= |draws|
    ensures multiset(Shuffled(s, draws)) == multiset(s)
  {
    ShuffledRearranges(s, draws, LastIndex(|s|));
  }
}
