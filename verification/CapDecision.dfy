/** Spend that was both admitted under a cap and realized. */
module CapDecision {
  // Daily spend is replayed under a cap; of realized spend only the total may be known, so the part of it
  // that the cap admits is an interval.

  import opened Money
  import opened Reals

  datatype Interval = Interval(low: real, high: real)

  datatype Evaluation = Evaluation(admitted: real, blocked: real, realizedAdmitted: Interval, utility: Interval)

  function Kept(day: real, cap: Option<real>): real { if cap == None then day else Min(day, cap.value) }

  /** Days that carry spend; the others are skipped. */
  function Active(days: seq<real>): seq<real> {
    if days == [] then []
    else Active(days[..|days| - 1]) + if days[|days| - 1] > 0.0 then [days[|days| - 1]] else []
  }

  function Admitted(days: seq<real>, cap: Option<real>): seq<real> {
    seq(|days|, i requires 0 <= i < |days| => Kept(days[i], cap))
  }

  function Blocked(days: seq<real>, cap: Option<real>): seq<real> {
    seq(|days|, i requires 0 <= i < |days| => days[i] - Kept(days[i], cap))
  }

  lemma PushDay(days: seq<real>, day: real, cap: Option<real>)
    ensures Sum(Admitted(days + [day], cap)) == Sum(Admitted(days, cap)) + Kept(day, cap)
    ensures Sum(Blocked(days + [day], cap)) == Sum(Blocked(days, cap)) + day - Kept(day, cap)
  {
    hide Sum, Kept;
    assert Admitted(days + [day], cap) == Admitted(days, cap) + [Kept(day, cap)];
    assert Blocked(days + [day], cap) == Blocked(days, cap) + [day - Kept(day, cap)];
    SumPush(Admitted(days, cap), Kept(day, cap));
    SumPush(Blocked(days, cap), day - Kept(day, cap));
  }

  /** The loop over days adds up what a cap admits and what it blocks on the active days. */
  method Replay(days: seq<real>, cap: Option<real>) returns (admitted: real, blocked: real)
    ensures admitted == Sum(Admitted(Active(days), cap))
    ensures blocked == Sum(Blocked(Active(days), cap))
  {
    admitted, blocked := 0.0, 0.0;
    for n := 0 to |days|
      invariant admitted == Sum(Admitted(Active(days[..n]), cap))
      invariant blocked == Sum(Blocked(Active(days[..n]), cap))
    {
      hide Admitted, Blocked, Sum, Kept;
      assert days[..n + 1][..n] == days[..n];
      if days[n] > 0.0 {
        PushDay(Active(days[..n]), days[n], cap);
        var kept := Kept(days[n], cap);
        admitted := admitted + kept;
        blocked := blocked + (days[n] - kept);
      } else {
        assert Active(days[..n]) + [] == Active(days[..n]);
      }
    }
    assert days[..|days|] == days;
  }

  function Evaluate(admitted: real, blocked: real, realized: Interval): Evaluation {
    var low, high := Max(0.0, realized.low - blocked), Min(admitted, realized.high);
    Evaluation(admitted, blocked, Interval(low, high), Interval(2.0 * low - admitted, 2.0 * high - admitted))
  }

  /** The realized total: known as a share of the spend, or anything from nothing to all of it. */
  function RealizedTotal(total: real, share: Option<real>): Interval {
    if share == None then Interval(0.0, total) else Interval(Product(share.value, total), Product(share.value, total))
  }

  // ---------------------------------------------------------------- splits

  ghost predicate Within(parts: seq<real>, limits: seq<real>) {
    |parts| == |limits| && forall i :: 0 <= i < |parts| ==> 0.0 <= parts[i] <= limits[i]
  }

  /** One way the realized spend can lie: on each day some of what the cap admits and some of what it
      blocks, adding up over the days to a realized total that is possible. */
  ghost predicate Split(days: seq<real>, cap: Option<real>, realized: Interval, inside: seq<real>, outside: seq<real>) {
    && Within(inside, Admitted(days, cap)) && Within(outside, Blocked(days, cap))
    && realized.low <= Sum(inside) + Sum(outside) <= realized.high
  }

  lemma {:induction false} SumWithin(parts: seq<real>, limits: seq<real>)
    requires Within(parts, limits)
    ensures 0.0 <= Sum(parts) <= Sum(limits)
    decreases |parts|
  {
    if parts != [] {
      var n := |parts| - 1;
      SumWithin(parts[..n], limits[..n]);
    }
  }

  /** Any amount up to the limits can be spread over them. */
  lemma {:induction false} Spread(limits: seq<real>, amount: real) returns (parts: seq<real>)
    requires forall i :: 0 <= i < |limits| ==> limits[i] >= 0.0
    requires 0.0 <= amount <= Sum(limits)
    ensures Within(parts, limits) && Sum(parts) == amount
    decreases |limits|
  {
    if limits == [] {
      return [];
    }
    var n := |limits| - 1;
    assert Within(limits[..n], limits[..n]);
    SumWithin(limits[..n], limits[..n]);
    var last := Max(0.0, amount - Sum(limits[..n]));
    var rest := Spread(limits[..n], amount - last);
    parts := rest + [last];
    SumPush(rest, last);
  }

  ghost predicate CapOk(cap: Option<real>) { cap.Some? ==> cap.value > 0.0 }

  ghost predicate DaysOk(days: seq<real>) { forall i :: 0 <= i < |days| ==> days[i] > 0.0 }

  lemma LimitsAreSigned(days: seq<real>, cap: Option<real>)
    requires DaysOk(days) && CapOk(cap)
    ensures forall i :: 0 <= i < |days| ==> Admitted(days, cap)[i] >= 0.0 && Blocked(days, cap)[i] >= 0.0
  {
  }

  /** Admitted and blocked spend make up all spend. */
  lemma {:induction false} NothingLost(days: seq<real>, cap: Option<real>)
    ensures Sum(Admitted(days, cap)) + Sum(Blocked(days, cap)) == Sum(days)
    decreases |days|
  {
    if days != [] {
      var n := |days| - 1;
      NothingLost(days[..n], cap);
      assert days == days[..n] + [days[n]];
      hide Admitted, Blocked, Kept;
      PushDay(days[..n], days[n], cap);
    }
  }

  /** Sound: however the realized spend lies, the admitted part of it is inside the interval. */
  lemma IntervalIsSound(days: seq<real>, cap: Option<real>, realized: Interval, inside: seq<real>, outside: seq<real>)
    requires Split(days, cap, realized, inside, outside)
    ensures var e := Evaluate(Sum(Admitted(days, cap)), Sum(Blocked(days, cap)), realized);
            && e.realizedAdmitted.low <= Sum(inside) <= e.realizedAdmitted.high
            && e.utility.low <= 2.0 * Sum(inside) - e.admitted <= e.utility.high
  {
    hide Sum, Admitted, Blocked, Within;
    SumWithin(inside, Admitted(days, cap));
    SumWithin(outside, Blocked(days, cap));
  }

  /** Tight: every value inside the interval is the admitted part of some split. */
  lemma IntervalIsTight(days: seq<real>, cap: Option<real>, realized: Interval, value: real)
    returns (inside: seq<real>, outside: seq<real>)
    requires DaysOk(days) && CapOk(cap) && realized.low <= realized.high
    requires var e := Evaluate(Sum(Admitted(days, cap)), Sum(Blocked(days, cap)), realized);
             e.realizedAdmitted.low <= value <= e.realizedAdmitted.high
    ensures Split(days, cap, realized, inside, outside) && Sum(inside) == value
  {
    hide Sum, Admitted, Blocked, Within;
    LimitsAreSigned(days, cap);
    AsLong(days, cap);
    var elsewhere := Max(0.0, realized.low - value);
    NonNegativeSums(days, cap);
    inside := Spread(Admitted(days, cap), value);
    outside := Spread(Blocked(days, cap), elsewhere);
  }

  lemma AsLong(days: seq<real>, cap: Option<real>)
    ensures |Admitted(days, cap)| == |days| == |Blocked(days, cap)|
  {
  }

  lemma NonNegativeSums(days: seq<real>, cap: Option<real>)
    requires DaysOk(days) && CapOk(cap)
    ensures Sum(Blocked(days, cap)) >= 0.0 && Sum(Admitted(days, cap)) >= 0.0
  {
    LimitsAreSigned(days, cap);
    assert Within(Blocked(days, cap), Blocked(days, cap)) && Within(Admitted(days, cap), Admitted(days, cap));
    SumWithin(Blocked(days, cap), Blocked(days, cap));
    SumWithin(Admitted(days, cap), Admitted(days, cap));
  }

  /** The utility interval is the exact image: a utility is attained by some split if and only if it is
      in the interval. */
  lemma UtilityIsExactImage(days: seq<real>, cap: Option<real>, realized: Interval, utility: real)
    requires DaysOk(days) && CapOk(cap) && realized.low <= realized.high
    ensures Evaluate(Sum(Admitted(days, cap)), Sum(Blocked(days, cap)), realized).utility.low <= utility
            <= Evaluate(Sum(Admitted(days, cap)), Sum(Blocked(days, cap)), realized).utility.high
       <==> exists inside, outside :: Split(days, cap, realized, inside, outside)
                                      && 2.0 * Sum(inside) - Sum(Admitted(days, cap)) == utility
  {
    hide Sum, Admitted, Blocked, Split;
    var e := Evaluate(Sum(Admitted(days, cap)), Sum(Blocked(days, cap)), realized);
    if e.utility.low <= utility <= e.utility.high {
      var inside, outside := IntervalIsTight(days, cap, realized, (utility + e.admitted) / 2.0);
    }
    forall inside, outside | Split(days, cap, realized, inside, outside) && 2.0 * Sum(inside) - e.admitted == utility
      ensures e.utility.low <= utility <= e.utility.high
    {
      IntervalIsSound(days, cap, realized, inside, outside);
    }
  }

  /** Whatever the share, the interval is not empty: some split always exists. */
  lemma SomeSplitExists(days: seq<real>, cap: Option<real>, share: Option<real>)
    requires DaysOk(days) && CapOk(cap) && (share.Some? ==> 0.0 <= share.value <= 1.0)
    ensures var r := RealizedTotal(Sum(days), share);
            var e := Evaluate(Sum(Admitted(days, cap)), Sum(Blocked(days, cap)), r);
            r.low <= r.high && e.realizedAdmitted.low <= e.realizedAdmitted.high
  {
    hide Admitted, Blocked, Sum, Product;
    NothingLost(days, cap);
    NonNegativeSums(days, cap);
    if share.Some? {
      ShareOfTotal(share.value, Sum(days));
    }
  }

  lemma ShareOfTotal(share: real, total: real)
    requires 0.0 <= share <= 1.0 && total >= 0.0
    ensures 0.0 <= Product(share, total) <= total
  {
    ProductParts(share, total);
    hide Product;
    SignOfProduct(share, total);
    SignOfProduct(1.0 - share, total);
  }

  lemma ProductParts(share: real, total: real)
    ensures Product(share, total) + Product(1.0 - share, total) == total
  {
  }

  lemma {:induction false} ActiveIsPositive(days: seq<real>)
    ensures DaysOk(Active(days))
    decreases |days|
  {
    if days != [] {
      ActiveIsPositive(days[..|days| - 1]);
    }
  }

  lemma {:induction false} ActiveKeepsPositiveDays(days: seq<real>)
    requires DaysOk(days)
    ensures Active(days) == days
    decreases |days|
  {
    if days != [] {
      ActiveKeepsPositiveDays(days[..|days| - 1]);
    }
  }

  // ---------------------------------------------------------------- the decision's intervals

  /** What a cap admits of each day: the smaller of the day's spend and the cap. */
  ghost predicate Keeps(kept: seq<real>, days: seq<real>, cap: Option<real>) {
    && |kept| == |days|
    && forall i :: 0 <= i < |days| ==>
         && kept[i] <= days[i] && (cap.Some? ==> kept[i] <= cap.value)
         && (kept[i] == days[i] || cap == Some(kept[i]))
  }

  /** Realized spend on each day: inside, no more than the day's spend and the cap; outside, nothing but on
      a day over the cap, and there at most what exceeds it. Of a known share the total is that part of all
      spend. */
  ghost predicate Lies(days: seq<real>, cap: Option<real>, share: Option<real>, inside: seq<real>, outside: seq<real>) {
    && |inside| == |days| == |outside|
    && (forall i :: 0 <= i < |days| ==>
          && 0.0 <= inside[i] <= days[i] && (cap.Some? ==> inside[i] <= cap.value)
          && (outside[i] == 0.0 || (cap.Some? && 0.0 <= outside[i] <= days[i] - cap.value)))
    && (share.Some? ==> Sum(inside) + Sum(outside) == share.value * Sum(days))
  }

  /** Realized spend can lie such that a given amount of it is admitted. */
  ghost predicate Realizable(days: seq<real>, cap: Option<real>, share: Option<real>, amount: real) {
    exists inside, outside :: Lies(days, cap, share, inside, outside) && Sum(inside) == amount
  }

  /** An evaluation that says what a cap admits and blocks, and exactly how much admitted spend can have been
      realized; realized spend counts once for, and other admitted spend once against. */
  ghost predicate Exact(e: Evaluation, days: seq<real>, cap: Option<real>, share: Option<real>) {
    && (exists kept :: Keeps(kept, days, cap) && e.admitted == Sum(kept))
    && e.admitted + e.blocked == Sum(days)
    && (forall a: real :: e.realizedAdmitted.low <= a <= e.realizedAdmitted.high <==> Realizable(days, cap, share, a))
    && (exists a: real :: Realizable(days, cap, share, a))
    && e.utility.low == e.realizedAdmitted.low - (e.admitted - e.realizedAdmitted.low)
    && e.utility.high == e.realizedAdmitted.high - (e.admitted - e.realizedAdmitted.high)
  }

  lemma AdmittedKeeps(days: seq<real>, cap: Option<real>)
    ensures Keeps(Admitted(days, cap), days, cap)
  {
  }

  /** Of the days, a split is what lies within the days' spend and the cap. */
  lemma SplitLies(days: seq<real>, cap: Option<real>, share: Option<real>, inside: seq<real>, outside: seq<real>)
    requires DaysOk(days) && CapOk(cap)
    ensures Split(days, cap, RealizedTotal(Sum(days), share), inside, outside)
       <==> Lies(days, cap, share, inside, outside)
  {
    hide Sum;
    if Lies(days, cap, share, inside, outside) && share == None {
      hide Lies;
      LiesWithin(days, cap, share, inside, outside);
      SumWithin(inside, Admitted(days, cap));
      SumWithin(outside, Blocked(days, cap));
      NothingLost(days, cap);
    }
  }

  lemma LiesWithin(days: seq<real>, cap: Option<real>, share: Option<real>, inside: seq<real>, outside: seq<real>)
    requires DaysOk(days) && CapOk(cap) && Lies(days, cap, share, inside, outside)
    ensures Within(inside, Admitted(days, cap)) && Within(outside, Blocked(days, cap))
  {
    hide Sum;
  }

  /** An amount is in the interval if and only if realized spend can lie such that it is admitted. */
  lemma AmountsAreRealizable(days: seq<real>, cap: Option<real>, share: Option<real>, e: Evaluation, amount: real)
    requires DaysOk(days) && CapOk(cap) && (share.Some? ==> 0.0 <= share.value <= 1.0)
    requires e == Evaluate(Sum(Admitted(days, cap)), Sum(Blocked(days, cap)), RealizedTotal(Sum(days), share))
    ensures e.realizedAdmitted.low <= amount <= e.realizedAdmitted.high <==> Realizable(days, cap, share, amount)
  {
    hide *;
    var r := RealizedTotal(Sum(days), share);
    if e.realizedAdmitted.low <= amount <= e.realizedAdmitted.high {
      SomeSplitExists(days, cap, share);
      var inside, outside := IntervalIsTight(days, cap, r, amount);
      SplitLies(days, cap, share, inside, outside);
      RealizedSo(days, cap, share, inside, outside);
    }
    if Realizable(days, cap, share, amount) {
      var inside, outside := SomeLie(days, cap, share, amount);
      SplitLies(days, cap, share, inside, outside);
      IntervalIsSound(days, cap, r, inside, outside);
    }
  }

  lemma RealizedSo(days: seq<real>, cap: Option<real>, share: Option<real>, inside: seq<real>, outside: seq<real>)
    requires Lies(days, cap, share, inside, outside)
    ensures Realizable(days, cap, share, Sum(inside))
  {
    hide Lies, Sum;
  }

  lemma SomeLie(days: seq<real>, cap: Option<real>, share: Option<real>, amount: real)
    returns (inside: seq<real>, outside: seq<real>)
    requires Realizable(days, cap, share, amount)
    ensures Lies(days, cap, share, inside, outside) && Sum(inside) == amount
  {
    hide Lies, Sum;
    inside, outside :| Lies(days, cap, share, inside, outside) && Sum(inside) == amount;
  }

  lemma EvaluationIsExact(days: seq<real>, cap: Option<real>, share: Option<real>)
    requires DaysOk(days) && CapOk(cap) && (share.Some? ==> 0.0 <= share.value <= 1.0)
    ensures var r := RealizedTotal(Sum(days), share);
            Exact(Evaluate(Sum(Admitted(days, cap)), Sum(Blocked(days, cap)), r), days, cap, share)
  {
    hide Sum, Admitted, Blocked, Lies, Keeps, RealizedTotal, Realizable;
    var r := RealizedTotal(Sum(days), share);
    var e := Evaluate(Sum(Admitted(days, cap)), Sum(Blocked(days, cap)), r);
    AdmittedKeeps(days, cap);
    NothingLost(days, cap);
    SomeSplitExists(days, cap, share);
    forall a: real ensures e.realizedAdmitted.low <= a <= e.realizedAdmitted.high <==> Realizable(days, cap, share, a) {
      AmountsAreRealizable(days, cap, share, e, a);
    }
    assert Realizable(days, cap, share, e.realizedAdmitted.low);
  }

  method EvaluateAction(days: seq<real>, cap: Option<real>, share: Option<real>, total: real)
    returns (e: Evaluation)
    requires DaysOk(days) && CapOk(cap) && (share.Some? ==> 0.0 <= share.value <= 1.0)
    requires total == Sum(days)
    ensures Exact(e, days, cap, share)
  {
    hide *;
    ActiveKeepsPositiveDays(days);
    var admitted, blocked := Replay(days, cap);
    e := Evaluate(admitted, blocked, RealizedTotal(total, share));
    EvaluationIsExact(days, cap, share);
  }

  predicate Decidable(days: seq<real>, recommended: real, current: Option<real>, share: Option<real>) {
    && Active(days) != [] && recommended > 0.0 && (current.Some? ==> current.value > 0.0)
    && (share.Some? ==> 0.0 <= share.value <= 1.0)
  }

  lemma ActivePush(days: seq<real>, day: real)
    ensures Active(days + [day]) == Active(days) + if day > 0.0 then [day] else []
  {
    assert (days + [day])[..|days|] == days;
  }

  lemma CountPush(s: seq<real>, x: real, y: real)
    ensures multiset(s + [x])[y] == multiset(s)[y] + if x == y then 1 else 0
  {
  }

  lemma {:induction false} ActiveIsCounted(days: seq<real>, x: real)
    ensures multiset(Active(days))[x] == if x > 0.0 then multiset(days)[x] else 0
    decreases |days|
  {
    if days != [] {
      var n := |days| - 1;
      ActiveIsCounted(days[..n], x);
      assert days == days[..n] + [days[n]];
      ActivePush(days[..n], days[n]);
      CountPush(days[..n], days[n], x);
      CountPush(Active(days[..n]), days[n], x);
      assert Active(days[..n]) + [] == Active(days[..n]);
      hide Active;
    }
  }

  /** The days that count are those with spend, each as often as it is listed. */
  lemma ActiveHasSpend(days: seq<real>)
    ensures forall x: real :: multiset(Active(days))[x] == if x > 0.0 then multiset(days)[x] else 0
    ensures Active(days) != [] <==> exists i :: 0 <= i < |days| && days[i] > 0.0
  {
    hide Active;
    forall x: real ensures multiset(Active(days))[x] == if x > 0.0 then multiset(days)[x] else 0 {
      ActiveIsCounted(days, x);
    }
    var active := Active(days);
    if active != [] {
      assert active[0] in multiset(active);
      assert active[0] in multiset(days);
    }
    forall i | 0 <= i < |days| && days[i] > 0.0 ensures active != [] {
      assert days[i] in days;
      assert multiset(days)[days[i]] > 0;
      assert multiset(active)[days[i]] > 0;
    }
  }

  /** The two evaluations a cap decision rests on, or a refusal. */
  method EvaluateBothCaps(days: seq<real>, recommended: real, current: Option<real>, share: Option<real>)
    returns (r: Option<(Evaluation, Evaluation)>)
    ensures r.Some? <==> && (exists i :: 0 <= i < |days| && days[i] > 0.0)
                         && recommended > 0.0 && (current == None || current.value > 0.0)
                         && (share == None || 0.0 <= share.value <= 1.0)
    ensures r.Some? ==> Exact(r.value.0, Active(days), Some(recommended), share)
    ensures r.Some? ==> Exact(r.value.1, Active(days), current, share)
  {
    hide Sum, Active, Exact, RealizedTotal;
    ActiveHasSpend(days);
    if !Decidable(days, recommended, current, share) {
      return None;
    }
    ActiveIsPositive(days);
    var active := Active(days);
    var applied := EvaluateAction(active, Some(recommended), share, Sum(active));
    var kept := EvaluateAction(active, current, share, Sum(active));
    r := Some((applied, kept));
  }
}
