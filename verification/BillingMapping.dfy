/** Operator declarations that map charge lines to projects. */
module BillingMapping {
  // Which declaration holds for a record, and totals that lose no record and no amount.

  import opened Money
  import opened Tables
  import opened DecimalText

  // ---------------------------------------------------------------- the key

  datatype RecordKey = RecordKey(sourceSystem: string, provider: string, account: string, recordId: string)

  /** Each field prefixed with its length and a colon. */
  function Prefixed(fields: seq<string>): string {
    if fields == [] then [] else NatText(|fields[0]|) + (":" + fields[0]) + Prefixed(fields[1..])
  }

  function KeyFields(k: RecordKey): seq<string> { [k.sourceSystem, k.provider, k.account, k.recordId] }

  /** The text a key is a digest of, and the key, for any digest function. */
  function KeyText(k: RecordKey): string { Prefixed(KeyFields(k)) }

  type TextDigest = string -> string

  function MappingKey(h: TextDigest, k: RecordKey): string { h(KeyText(k)) }

  /** A run of digits followed by a colon can be read off in one way. */
  lemma DigitsThenColon(a: string, x: string, b: string, y: string)
    requires AllDigits(a) && AllDigits(b) && a + (":" + x) == b + (":" + y)
    ensures a == b && x == y
  {
    var s := a + (":" + x);
    assert s[|a|] == ':' && (b + (":" + y))[|b|] == ':';
    assert forall i :: 0 <= i < |a| ==> s[i] == a[i];
    assert forall i :: 0 <= i < |b| ==> s[i] == b[i];
    assert |a| == |b|;
    assert a == s[..|a|] && b == s[..|b|];
    assert x == s[|a| + 1..] && y == s[|b| + 1..];
  }

  /** Length prefixes make the text of a list of fields unambiguous, whatever the fields contain. */
  lemma {:induction false} PrefixedIsInjective(a: seq<string>, b: seq<string>)
    requires Prefixed(a) == Prefixed(b)
    ensures a == b
    decreases |a|
  {
    if a == [] || b == [] {
      assert |NatText(0)| > 0;
    } else {
      var x, y := a[0] + Prefixed(a[1..]), b[0] + Prefixed(b[1..]);
      assert Prefixed(a) == NatText(|a[0]|) + (":" + x);
      assert Prefixed(b) == NatText(|b[0]|) + (":" + y);
      DigitsThenColon(NatText(|a[0]|), x, NatText(|b[0]|), y);
      ParseNatText(|a[0]|);
      ParseNatText(|b[0]|);
      assert a[0] == x[..|a[0]|] && b[0] == y[..|b[0]|];
      assert Prefixed(a[1..]) == x[|a[0]|..] && Prefixed(b[1..]) == y[|b[0]|..];
      PrefixedIsInjective(a[1..], b[1..]);
      assert a == [a[0]] + a[1..] && b == [b[0]] + b[1..];
    }
  }

  /** Equal keys belong to equal records, or a collision of the digest has been exhibited. */
  lemma KeyIdentifiesRecord(h: TextDigest, a: RecordKey, b: RecordKey) returns (collision: Option<(string, string)>)
    requires MappingKey(h, a) == MappingKey(h, b)
    ensures collision == None ==> a == b
    ensures collision.Some? ==> collision.value.0 != collision.value.1 && h(collision.value.0) == h(collision.value.1)
  {
    if KeyText(a) != KeyText(b) {
      return Some((KeyText(a), KeyText(b)));
    }
    PrefixedIsInjective(KeyFields(a), KeyFields(b));
    assert KeyFields(a)[0] == KeyFields(b)[0] && KeyFields(a)[1] == KeyFields(b)[1];
    assert KeyFields(a)[2] == KeyFields(b)[2] && KeyFields(a)[3] == KeyFields(b)[3];
    collision := None;
  }

  // ---------------------------------------------------------------- selection

  datatype Record = Record(recordId: string, key: RecordKey, digest: string, importId: string, amount: int)

  datatype Target = Target(account: string, project: string)

  datatype Mapping = Mapping(id: string, key: string, version: nat, digest: string, importId: string, target: Target,
                             declaredAt: int)

  datatype Status = Mapped | Unmapped | Stale | Ambiguous

  datatype Selection = Selection(status: Status, mapping: Option<Mapping>)

  predicate Candidate(key: string, asOf: int, m: Mapping) { m.key == key && m.declaredAt <= asOf }

  function Filter(keep: Mapping -> bool, ms: seq<Mapping>): seq<Mapping> {
    if ms == [] then []
    else Filter(keep, ms[..|ms| - 1]) + if keep(ms[|ms| - 1]) then [ms[|ms| - 1]] else []
  }

  function IsCandidate(key: string, asOf: int): Mapping -> bool { (m: Mapping) => Candidate(key, asOf, m) }

  function HasVersion(version: nat): Mapping -> bool { (m: Mapping) => m.version == version }

  function NewestFirst(): (Mapping, Mapping) -> bool { (a: Mapping, b: Mapping) => a.version > b.version }

  function AsOfMapping(h: TextDigest, r: Record, ms: seq<Mapping>, asOf: int): Selection {
    var candidates := Sort(NewestFirst(), Filter(IsCandidate(MappingKey(h, r.key), asOf), ms));
    if candidates == [] then Selection(Unmapped, None)
    else
      var latest := Filter(HasVersion(candidates[0].version), candidates);
      if |latest| != 1 then Selection(Ambiguous, None)
      else if latest[0].digest != r.digest || latest[0].importId != r.importId then Selection(Stale, Some(latest[0]))
      else Selection(Mapped, Some(latest[0]))
  }

  lemma {:induction false} FilterMembers(keep: Mapping -> bool, ms: seq<Mapping>)
    ensures forall m :: multiset(Filter(keep, ms))[m] == if keep(m) then multiset(ms)[m] else 0
    decreases |ms|
  {
    if ms != [] {
      var n := |ms| - 1;
      FilterMembers(keep, ms[..n]);
      assert ms == ms[..n] + [ms[n]];
    }
  }

  lemma FilterPermuted(keep: Mapping -> bool, a: seq<Mapping>, b: seq<Mapping>)
    requires multiset(a) == multiset(b)
    ensures multiset(Filter(keep, a)) == multiset(Filter(keep, b))
  {
    FilterMembers(keep, a);
    FilterMembers(keep, b);
  }

  lemma NewestFirstOrders()
    ensures Orders(NewestFirst())
  {
  }

  /** The first of the sorted candidates has the highest version. */
  lemma FirstIsNewest(s: seq<Mapping>)
    requires Sort(NewestFirst(), s) != []
    ensures forall m :: m in s ==> m.version <= Sort(NewestFirst(), s)[0].version
    ensures Sort(NewestFirst(), s)[0] in s
  {
    var sorted := Sort(NewestFirst(), s);
    NewestFirstOrders();
    SortSorts(NewestFirst(), s);
    SameMembers(s, sorted);
    forall m | m in s ensures m.version <= sorted[0].version {
      var i :| 0 <= i < |sorted| && sorted[i] == m;
      assert i > 0 ==> !NewestFirst()(sorted[i], sorted[0]);
    }
  }

  /** The order declarations are supplied in does not change what is selected. */
  lemma SelectionForgetsOrder(h: TextDigest, r: Record, a: seq<Mapping>, b: seq<Mapping>, asOf: int)
    requires multiset(a) == multiset(b)
    ensures AsOfMapping(h, r, a, asOf) == AsOfMapping(h, r, b, asOf)
  {
    hide Filter, Sort, NewestFirst, IsCandidate, HasVersion, MappingKey;
    var keep := IsCandidate(MappingKey(h, r.key), asOf);
    var s, t := Filter(keep, a), Filter(keep, b);
    FilterPermuted(keep, a, b);
    var x, y := Sort(NewestFirst(), s), Sort(NewestFirst(), t);
    assert |x| == |multiset(x)| == |multiset(y)| == |y|;
    if x != [] {
      FirstIsNewest(s);
      FirstIsNewest(t);
      SameMembers(s, t);
      assert x[0].version == y[0].version;
      var version := HasVersion(x[0].version);
      FilterPermuted(version, x, y);
      SameSingleton(Filter(version, x), Filter(version, y));
    }
  }

  lemma SameSingleton(a: seq<Mapping>, b: seq<Mapping>)
    requires multiset(a) == multiset(b)
    ensures |a| == |b| && (|a| == 1 ==> a[0] == b[0])
  {
    assert |a| == |multiset(a)| == |multiset(b)| == |b|;
    if |a| == 1 {
      SameMembers(a, b);
      assert a[0] in b;
    }
  }

  /** A record is mapped to a declaration only if that declaration was made by then for this record,
      anchors it exactly, and no other declaration of the record is as recent. */
  lemma MappedMeansExact(h: TextDigest, r: Record, ms: seq<Mapping>, asOf: int)
    requires AsOfMapping(h, r, ms, asOf).status == Mapped
    ensures var m := AsOfMapping(h, r, ms, asOf).mapping;
            && m.Some? && m.value in ms && Candidate(MappingKey(h, r.key), asOf, m.value)
            && m.value.digest == r.digest && m.value.importId == r.importId
            && multiset(ms)[m.value] == 1
            && forall o :: o in ms && Candidate(MappingKey(h, r.key), asOf, o) && o != m.value ==>
                o.version < m.value.version
  {
    hide MappingKey, Sort, NewestFirst;
    var keep := IsCandidate(MappingKey(h, r.key), asOf);
    var s := Filter(keep, ms);
    var x := Sort(NewestFirst(), s);
    FilterMembers(keep, ms);
    FirstIsNewest(s);
    var version := HasVersion(x[0].version);
    FilterMembers(version, x);
    var latest := Filter(version, x);
    var m := AsOfMapping(h, r, ms, asOf).mapping.value;
    assert latest == [m];
    assert multiset(latest)[m] == 1;
    forall o | o in ms && Candidate(MappingKey(h, r.key), asOf, o) && o != m ensures o.version < m.version {
      assert multiset(ms)[o] > 0;
      assert multiset(s)[o] > 0;
      assert o in s && o.version <= x[0].version;
      assert multiset(latest)[o] == 0;
    }
    assert multiset(ms)[m] == 1;
  }

  // ---------------------------------------------------------------- evaluation

  datatype Item = Item(recordId: string, amount: int, status: Status, target: Option<Target>)

  datatype Tally = Tally(count: nat, amount: int)

  type Targets = Table<Target, Tally>

  datatype Coverage = Coverage(items: seq<Item>, byStatus: map<Status, Tally>, targets: Targets,
                               total: int, mapped: int, residual: int)

  function ItemOf(h: TextDigest, r: Record, ms: seq<Mapping>, asOf: int): Item {
    var s := AsOfMapping(h, r, ms, asOf);
    Item(r.recordId, r.amount, s.status,
         if s.status == Mapped && s.mapping.Some? then Some(s.mapping.value.target) else None)
  }

  function Amounts(items: seq<Item>): seq<int> { seq(|items|, i requires 0 <= i < |items| => items[i].amount) }

  function IntegerSum(s: seq<int>): int { if s == [] then 0 else IntegerSum(s[..|s| - 1]) + s[|s| - 1] }

  function WithStatus(items: seq<Item>, status: Status): seq<Item> {
    if items == [] then []
    else
      var last := items[|items| - 1];
      WithStatus(items[..|items| - 1], status) + if last.status == status then [last] else []
  }

  function WithTarget(items: seq<Item>, target: Target): seq<Item> {
    if items == [] then []
    else
      var last := items[|items| - 1];
      WithTarget(items[..|items| - 1], target) + if last.target == Some(target) then [last] else []
  }

  predicate InRange(x: int) { -MAX_SAFE <= x <= MAX_SAFE }

  /** Every running total of the amounts stays in the fixed-point range. */
  predicate Fits(s: seq<int>) { s == [] || (Fits(s[..|s| - 1]) && InRange(s[|s| - 1]) && InRange(IntegerSum(s))) }

  /** The checked sum: None where the source throws. */
  method SumSafe(s: seq<int>) returns (total: Option<int>)
    ensures total == if Fits(s) then Some(IntegerSum(s)) else None
  {
    var t := 0;
    for n := 0 to |s|
      invariant Fits(s[..n]) && t == IntegerSum(s[..n])
    {
      assert s[..n + 1][..n] == s[..n];
      if !InRange(s[n]) || !InRange(t + s[n]) {
        FitsPrefix(s, n + 1);
        return None;
      }
      t := t + s[n];
    }
    assert s[..|s|] == s;
    return Some(t);
  }

  lemma {:induction false} FitsPrefix(s: seq<int>, n: nat)
    requires n <= |s|
    ensures Fits(s) ==> Fits(s[..n])
    decreases |s|
  {
    if n < |s| {
      FitsPrefix(s[..|s| - 1], n);
      assert s[..|s| - 1][..n] == s[..n];
    } else {
      assert s[..n] == s;
    }
  }

  ghost predicate StatusTallied(items: seq<Item>, byStatus: map<Status, Tally>) {
    forall status :: status in byStatus
                     && byStatus[status]
                        == Tally(|WithStatus(items, status)|, IntegerSum(Amounts(WithStatus(items, status))))
  }

  ghost predicate TargetsTallied(items: seq<Item>, targets: Targets) {
    && Ok(targets)
    && (forall t :: t in targets.at <==> WithTarget(items, t) != [])
    && forall t :: t in targets.at ==>
         targets.at[t] == Tally(|WithTarget(items, t)|, IntegerSum(Amounts(WithTarget(items, t))))
  }

  /** Every running total an evaluation keeps stays in range. */
  ghost predicate AllFit(items: seq<Item>) {
    && (forall status :: Fits(Amounts(WithStatus(items, status))))
    && forall t :: Fits(Amounts(WithTarget(items, t)))
  }

  lemma AmountsPush(items: seq<Item>, i: Item)
    ensures Amounts(items + [i]) == Amounts(items) + [i.amount]
    ensures IntegerSum(Amounts(items + [i])) == IntegerSum(Amounts(items)) + i.amount
    ensures Fits(Amounts(items + [i]))
            <==> Fits(Amounts(items)) && InRange(i.amount) && InRange(IntegerSum(Amounts(items)) + i.amount)
  {
    assert Amounts(items + [i])[..|items|] == Amounts(items);
  }

  lemma StatusPush(items: seq<Item>, i: Item, status: Status)
    ensures WithStatus(items + [i], status) == WithStatus(items, status) + if i.status == status then [i] else []
  {
    assert (items + [i])[..|items|] == items;
  }

  lemma TargetPush(items: seq<Item>, i: Item, t: Target)
    ensures WithTarget(items + [i], t) == WithTarget(items, t) + if i.target == Some(t) then [i] else []
  {
    assert (items + [i])[..|items|] == items;
  }

  lemma StatusStep(items: seq<Item>, i: Item, byStatus: map<Status, Tally>)
    requires StatusTallied(items, byStatus)
    ensures var counted := Tally(byStatus[i.status].count + 1, byStatus[i.status].amount + i.amount);
            StatusTallied(items + [i], byStatus[i.status := counted])
  {
    hide WithStatus, IntegerSum, Amounts;
    var next := byStatus[i.status := Tally(byStatus[i.status].count + 1, byStatus[i.status].amount + i.amount)];
    forall status
      ensures status in next
      ensures next[status]
           == Tally(|WithStatus(items + [i], status)|, IntegerSum(Amounts(WithStatus(items + [i], status))))
    {
      assert status in byStatus;
      StatusPush(items, i, status);
      AmountsPush(WithStatus(items, status), i);
      assert WithStatus(items, status) + [] == WithStatus(items, status);
    }
  }

  function AddTarget(targets: Targets, t: Target, amount: int): Targets {
    var known := if t in targets.at then targets.at[t] else Tally(0, 0);
    Put(targets, t, Tally(known.count + 1, known.amount + amount))
  }

  lemma TargetStep(items: seq<Item>, i: Item, targets: Targets)
    requires TargetsTallied(items, targets)
    ensures TargetsTallied(items + [i],
                           if i.target.Some? then AddTarget(targets, i.target.value, i.amount) else targets)
  {
    hide WithTarget, Amounts, Ok;
    var next := if i.target.Some? then AddTarget(targets, i.target.value, i.amount) else targets;
    if i.target.Some? {
      PutKeepsOk(targets, i.target.value, next.at[i.target.value]);
      EmptySum();
    }
    hide IntegerSum;
    forall t
      ensures t in next.at <==> WithTarget(items + [i], t) != []
      ensures t in next.at ==>
                next.at[t] == Tally(|WithTarget(items + [i], t)|, IntegerSum(Amounts(WithTarget(items + [i], t))))
    {
      TargetPush(items, i, t);
      AmountsPush(WithTarget(items, t), i);
      assert WithTarget(items, t) + [] == WithTarget(items, t);
    }
  }

  lemma EmptySum()
    ensures IntegerSum(Amounts([])) == 0
  {
  }

  /** What one more item asks of the running totals. */
  lemma FitStep(items: seq<Item>, i: Item, byStatus: map<Status, Tally>, targets: Targets)
    requires AllFit(items) && StatusTallied(items, byStatus) && TargetsTallied(items, targets)
    ensures AllFit(items + [i])
       <==> && InRange(i.amount) && InRange(byStatus[i.status].amount + i.amount)
            && (i.target.Some? ==> InRange(AddTarget(targets, i.target.value, i.amount).at[i.target.value].amount))
  {
    hide WithStatus, WithTarget, Amounts, IntegerSum, Fits, InRange, Ok;
    assert i.status in byStatus;
    forall status ensures Fits(Amounts(WithStatus(items + [i], status)))
      <==> i.status != status || (InRange(i.amount) && InRange(byStatus[i.status].amount + i.amount))
    {
      StatusPush(items, i, status);
      AmountsPush(WithStatus(items, status), i);
      assert WithStatus(items, status) + [] == WithStatus(items, status);
      assert Fits(Amounts(WithStatus(items, status)));
    }
    EmptySum();
    forall t ensures Fits(Amounts(WithTarget(items + [i], t)))
      <==> i.target != Some(t) || (InRange(i.amount) && InRange(AddTarget(targets, t, i.amount).at[t].amount))
    {
      TargetPush(items, i, t);
      AmountsPush(WithTarget(items, t), i);
      assert WithTarget(items, t) + [] == WithTarget(items, t);
      assert Fits(Amounts(WithTarget(items, t)));
    }
    assert Fits(Amounts(WithStatus(items + [i], i.status)))
        <==> InRange(i.amount) && InRange(byStatus[i.status].amount + i.amount);
    if i.target.Some? {
      assert Fits(Amounts(WithTarget(items + [i], i.target.value)))
        <==> InRange(i.amount) && InRange(AddTarget(targets, i.target.value, i.amount).at[i.target.value].amount);
    }
  }

  lemma {:induction false} StaysUnfit(items: seq<Item>, n: nat)
    requires n <= |items| && AllFit(items)
    ensures AllFit(items[..n])
    decreases |items|
  {
    if n == |items| {
      assert items[..n] == items;
    } else {
      var init, last := items[..|items| - 1], items[|items| - 1];
      assert items == init + [last];
      hide WithStatus, WithTarget, Amounts, IntegerSum, Fits, InRange;
      forall status ensures Fits(Amounts(WithStatus(init, status))) {
        assert Fits(Amounts(WithStatus(items, status)));
        StatusPush(init, last, status);
        AmountsPush(WithStatus(init, status), last);
        assert WithStatus(init, status) + [] == WithStatus(init, status);
      }
      forall t ensures Fits(Amounts(WithTarget(init, t))) {
        assert Fits(Amounts(WithTarget(items, t)));
        TargetPush(init, last, t);
        AmountsPush(WithTarget(init, t), last);
        assert WithTarget(init, t) + [] == WithTarget(init, t);
      }
      StaysUnfit(init, n);
      assert init[..n] == items[..n];
    }
  }

  function ItemsOf(h: TextDigest, records: seq<Record>, ms: seq<Mapping>, asOf: int): seq<Item> {
    seq(|records|, i requires 0 <= i < |records| => ItemOf(h, records[i], ms, asOf))
  }

  predicate ResidualFits(items: seq<Item>) {
    var total, mapped := IntegerSum(Amounts(items)), IntegerSum(Amounts(WithStatus(items, Mapped)));
    Fits([total, -mapped])
  }

  /** Exactly when every running total stays in the fixed-point range does an evaluation succeed. */
  ghost predicate Evaluates(items: seq<Item>) { AllFit(items) && Fits(Amounts(items)) && ResidualFits(items) }

  method EvaluateBillingMapping(h: TextDigest, records: seq<Record>, ms: seq<Mapping>, asOf: int)
    returns (r: Option<Coverage>)
    ensures r == None <==> !Evaluates(ItemsOf(h, records, ms, asOf))
    ensures r.Some? ==>
              && r.value.items == ItemsOf(h, records, ms, asOf)
              && StatusTallied(r.value.items, r.value.byStatus) && TargetsTallied(r.value.items, r.value.targets)
              && r.value.total == IntegerSum(Amounts(r.value.items))
              && r.value.mapped == IntegerSum(Amounts(WithStatus(r.value.items, Mapped)))
              && r.value.residual == r.value.total - r.value.mapped
  {
    hide *;
    ghost var all := ItemsOf(h, records, ms, asOf);
    var items: seq<Item> := [];
    var byStatus := map[Mapped := Tally(0, 0), Unmapped := Tally(0, 0), Stale := Tally(0, 0), Ambiguous := Tally(0, 0)];
    var targets: Targets := Empty();
    NothingTallied();
    ItemsLength(h, records, ms, asOf);
    for n := 0 to |records|
      invariant items == all[..n]
      invariant StatusTallied(items, byStatus) && TargetsTallied(items, targets) && AllFit(items)
    {
      var item := ItemOf(h, records[n], ms, asOf);
      StatusKnown(items, byStatus, item.status);
      var next := if item.target.Some? then AddTarget(targets, item.target.value, item.amount) else targets;
      if item.target.Some? {
        AddedTarget(targets, item.target.value, item.amount);
      }
      FitStep(items, item, byStatus, targets);
      assert all[..n + 1] == items + [item];
      var fits := InRange(item.amount) && InRange(byStatus[item.status].amount + item.amount)
                  && (item.target.Some? ==> InRange(next.at[item.target.value].amount));
      if !fits {
        UnfitStays(all, n + 1);
        return None;
      }
      StatusStep(items, item, byStatus);
      TargetStep(items, item, targets);
      var before := byStatus[item.status];
      byStatus := byStatus[item.status := Tally(before.count + 1, before.amount + item.amount)];
      targets := next;
      items := items + [item];
    }
    assert all[..|records|] == all;
    var total := SumSafe(Amounts(items));
    EvaluatesMeans(items);
    StatusKnown(items, byStatus, Mapped);
    if total == None {
      return None;
    }
    var residual := SumSafe([total.value, -byStatus[Mapped].amount]);
    if residual == None {
      return None;
    }
    TwoTerms(total.value, -byStatus[Mapped].amount);
    r := Some(Coverage(items, byStatus, targets, total.value, byStatus[Mapped].amount, residual.value));
  }

  lemma NothingTallied()
    ensures var none := Tally(0, 0);
            StatusTallied([], map[Mapped := none, Unmapped := none, Stale := none, Ambiguous := none])
    ensures TargetsTallied([], Empty()) && AllFit([])
  {
    EmptySum();
    var none := map[Mapped := Tally(0, 0), Unmapped := Tally(0, 0), Stale := Tally(0, 0), Ambiguous := Tally(0, 0)];
    forall status ensures status in none && none[status] == Tally(0, 0) {
      match status
      case Mapped =>
      case Unmapped =>
      case Stale =>
      case Ambiguous =>
    }
  }

  lemma ItemsLength(h: TextDigest, records: seq<Record>, ms: seq<Mapping>, asOf: int)
    ensures |ItemsOf(h, records, ms, asOf)| == |records|
    ensures forall i :: 0 <= i < |records| ==> ItemsOf(h, records, ms, asOf)[i] == ItemOf(h, records[i], ms, asOf)
  {
    hide ItemOf;
  }

  lemma StatusKnown(items: seq<Item>, byStatus: map<Status, Tally>, status: Status)
    requires StatusTallied(items, byStatus)
    ensures status in byStatus && byStatus[status].amount == IntegerSum(Amounts(WithStatus(items, status)))
    ensures byStatus[status].count == |WithStatus(items, status)|
  {
  }

  lemma AddedTarget(targets: Targets, t: Target, amount: int)
    ensures t in AddTarget(targets, t, amount).at
  {
  }

  lemma UnfitStays(items: seq<Item>, n: nat)
    requires n <= |items| && !AllFit(items[..n])
    ensures !Evaluates(items)
  {
    hide AllFit;
    if AllFit(items) {
      StaysUnfit(items, n);
    }
  }

  lemma EvaluatesMeans(items: seq<Item>)
    requires AllFit(items)
    ensures Evaluates(items)
       <==> Fits(Amounts(items)) && Fits([IntegerSum(Amounts(items)), -IntegerSum(Amounts(WithStatus(items, Mapped)))])
  {
    hide AllFit, Fits, Amounts, WithStatus, IntegerSum;
  }

  lemma SumPush(s: seq<int>, x: int)
    ensures IntegerSum(s + [x]) == IntegerSum(s) + x
    ensures Fits(s + [x]) <==> Fits(s) && InRange(x) && InRange(IntegerSum(s) + x)
  {
    assert (s + [x])[..|s|] == s;
  }

  lemma TwoTerms(a: int, b: int)
    ensures IntegerSum([a, b]) == a + b
    ensures Fits([a, b]) <==> InRange(a) && InRange(b) && InRange(a + b)
  {
    SumPush([], a);
    SumPush([a], b);
    assert [] + [a] == [a] && [a] + [b] == [a, b];
  }

  // ---------------------------------------------------------------- nothing is lost

  lemma {:induction false} StatusesPartition(items: seq<Item>)
    ensures |items| == |WithStatus(items, Mapped)| + |WithStatus(items, Unmapped)|
                       + |WithStatus(items, Stale)| + |WithStatus(items, Ambiguous)|
    ensures IntegerSum(Amounts(items))
            == IntegerSum(Amounts(WithStatus(items, Mapped))) + IntegerSum(Amounts(WithStatus(items, Unmapped)))
               + IntegerSum(Amounts(WithStatus(items, Stale))) + IntegerSum(Amounts(WithStatus(items, Ambiguous)))
    decreases |items|
  {
    if items != [] {
      var n := |items| - 1;
      var init, i := items[..n], items[n];
      StatusesPartition(init);
      assert items == init + [i];
      hide WithStatus, IntegerSum, Amounts;
      AmountsPush(init, i);
      OneStatus(init, i, Mapped);
      OneStatus(init, i, Unmapped);
      OneStatus(init, i, Stale);
      OneStatus(init, i, Ambiguous);
      match i.status {
        case Mapped =>
        case Unmapped =>
        case Stale =>
        case Ambiguous =>
      }
    } else {
      EmptySum();
    }
  }

  lemma OneStatus(items: seq<Item>, i: Item, status: Status)
    ensures var after, mine := WithStatus(items + [i], status), i.status == status;
            && |after| == |WithStatus(items, status)| + (if mine then 1 else 0)
            && IntegerSum(Amounts(after))
                == IntegerSum(Amounts(WithStatus(items, status))) + (if mine then i.amount else 0)
  {
    hide WithStatus, IntegerSum, Amounts;
    StatusPush(items, i, status);
    AmountsPush(WithStatus(items, status), i);
    assert WithStatus(items, status) + [] == WithStatus(items, status);
  }

  /** The four statuses share out every record and every amount, and what is not mapped is exactly
      what is unmapped, stale or ambiguous. */
  lemma NothingIsLost(c: Coverage)
    requires StatusTallied(c.items, c.byStatus)
    requires c.total == IntegerSum(Amounts(c.items)) && c.mapped == IntegerSum(Amounts(WithStatus(c.items, Mapped)))
    requires c.residual == c.total - c.mapped
    ensures Mapped in c.byStatus && Unmapped in c.byStatus && Stale in c.byStatus && Ambiguous in c.byStatus
    ensures |c.items| == c.byStatus[Mapped].count + c.byStatus[Unmapped].count + c.byStatus[Stale].count
                         + c.byStatus[Ambiguous].count
    ensures c.residual == c.byStatus[Unmapped].amount + c.byStatus[Stale].amount + c.byStatus[Ambiguous].amount
  {
    hide WithStatus, IntegerSum, Amounts, StatusTallied;
    StatusesPartition(c.items);
    StatusKnown(c.items, c.byStatus, Mapped);
    StatusKnown(c.items, c.byStatus, Unmapped);
    StatusKnown(c.items, c.byStatus, Stale);
    StatusKnown(c.items, c.byStatus, Ambiguous);
  }

  /** Mapped items are the ones with a target. */
  ghost predicate TargetsGiven(items: seq<Item>) {
    forall i :: 0 <= i < |items| ==> (items[i].status == Mapped <==> items[i].target.Some?)
  }

  lemma ItemsHaveTargets(h: TextDigest, records: seq<Record>, ms: seq<Mapping>, asOf: int)
    ensures TargetsGiven(ItemsOf(h, records, ms, asOf))
  {
    hide Filter, Sort, NewestFirst, IsCandidate, HasVersion, MappingKey;
  }

  ghost function AmountAt(items: seq<Item>): Target -> real {
    (t: Target) => IntegerSum(Amounts(WithTarget(items, t))) as real
  }

  ghost function CountAt(items: seq<Item>): Target -> real { (t: Target) => |WithTarget(items, t)| as real }

  lemma OneTarget(items: seq<Item>, i: Item, t: Target)
    ensures var after, mine := WithTarget(items + [i], t), i.target == Some(t);
            && |after| == |WithTarget(items, t)| + (if mine then 1 else 0)
            && IntegerSum(Amounts(after)) == IntegerSum(Amounts(WithTarget(items, t))) + (if mine then i.amount else 0)
  {
    hide WithTarget, IntegerSum, Amounts;
    TargetPush(items, i, t);
    AmountsPush(WithTarget(items, t), i);
    assert WithTarget(items, t) + [] == WithTarget(items, t);
  }

  lemma {:induction false} AllZero(f: Target -> real, order: seq<Target>)
    requires forall t :: f(t) == 0.0
    ensures Total(f, order) == 0.0
    decreases |order|
  {
    if order != [] {
      AllZero(f, order[..|order| - 1]);
    }
  }

  /** Over its targets, the mapped amount and the mapped records are shared out exactly. */
  lemma {:induction false} TargetsAddUp(items: seq<Item>, order: seq<Target>)
    requires Distinct(order) && TargetsGiven(items)
    requires forall i :: 0 <= i < |items| && items[i].target.Some? ==> items[i].target.value in order
    ensures Total(AmountAt(items), order) == IntegerSum(Amounts(WithStatus(items, Mapped))) as real
    ensures Total(CountAt(items), order) == |WithStatus(items, Mapped)| as real
    decreases |items|
  {
    if items == [] {
      EmptySum();
      AllZero(AmountAt(items), order);
      AllZero(CountAt(items), order);
    } else {
      var n := |items| - 1;
      var init, i := items[..n], items[n];
      TargetsAddUp(init, order);
      assert items == init + [i];
      assert i.status == Mapped <==> i.target.Some?;
      hide WithStatus, WithTarget, IntegerSum, Amounts, Distinct;
      OneStatus(init, i, Mapped);
      forall t
        ensures AmountAt(items)(t) == AmountAt(init)(t) + (if i.target == Some(t) then i.amount as real else 0.0)
        ensures CountAt(items)(t) == CountAt(init)(t) + (if i.target == Some(t) then 1.0 else 0.0)
      {
        OneTarget(init, i, t);
      }
      if i.target.Some? {
        TotalChanged(AmountAt(init), AmountAt(items), order, i.target.value);
        TotalChanged(CountAt(init), CountAt(items), order, i.target.value);
      } else {
        TotalSame(AmountAt(init), AmountAt(items), order);
        TotalSame(CountAt(init), CountAt(items), order);
      }
    }
  }

  // ---------------------------------------------------------------- order of records

  /** What the positive terms add up to, and what the negative ones do without their signs. */
  function Gains(s: seq<int>): nat {
    if s == [] then 0 else Gains(s[..|s| - 1]) + if s[|s| - 1] > 0 then s[|s| - 1] else 0
  }

  function Losses(s: seq<int>): nat {
    if s == [] then 0 else Losses(s[..|s| - 1]) + if s[|s| - 1] < 0 then -s[|s| - 1] else 0
  }

  predicate Moderate(s: seq<int>) { Gains(s) <= MAX_SAFE && Losses(s) <= MAX_SAFE }

  lemma {:induction false} ModerateFits(s: seq<int>)
    ensures -(Losses(s) as int) <= IntegerSum(s) <= Gains(s)
    ensures Moderate(s) ==> Fits(s)
    decreases |s|
  {
    if s != [] {
      ModerateFits(s[..|s| - 1]);
    }
  }

  lemma GainsPush(items: seq<Item>, i: Item)
    ensures Gains(Amounts(items + [i])) == Gains(Amounts(items)) + if i.amount > 0 then i.amount else 0
    ensures Losses(Amounts(items + [i])) == Losses(Amounts(items)) + if i.amount < 0 then -i.amount else 0
  {
    assert Amounts(items + [i])[..|items|] == Amounts(items);
  }

  /** A status or a target gains and loses no more than all items, and so do the others together. */
  lemma {:induction false} PartsAreModerate(items: seq<Item>, status: Status, t: Target)
    ensures Gains(Amounts(WithStatus(items, status))) <= Gains(Amounts(items))
    ensures Losses(Amounts(WithStatus(items, status))) <= Losses(Amounts(items))
    ensures Gains(Amounts(WithTarget(items, t))) <= Gains(Amounts(items))
    ensures Losses(Amounts(WithTarget(items, t))) <= Losses(Amounts(items))
    ensures IntegerSum(Amounts(items)) - IntegerSum(Amounts(WithStatus(items, status)))
         <= Gains(Amounts(items)) - Gains(Amounts(WithStatus(items, status)))
    ensures IntegerSum(Amounts(WithStatus(items, status))) - IntegerSum(Amounts(items))
         <= Losses(Amounts(items)) - Losses(Amounts(WithStatus(items, status)))
    decreases |items|
  {
    if items == [] {
      EmptySum();
    } else {
      var n := |items| - 1;
      var init, i := items[..n], items[n];
      PartsAreModerate(init, status, t);
      assert items == init + [i];
      hide WithStatus, WithTarget, IntegerSum, Amounts, Gains, Losses;
      AmountsPush(init, i);
      GainsPush(init, i);
      OneStatus(init, i, status);
      StatusPush(init, i, status);
      TargetPush(init, i, t);
      GainsPush(WithStatus(init, status), i);
      GainsPush(WithTarget(init, t), i);
      assert WithStatus(init, status) + [] == WithStatus(init, status);
      assert WithTarget(init, t) + [] == WithTarget(init, t);
    }
  }

  lemma ModerateItemsEvaluate(items: seq<Item>)
    requires Moderate(Amounts(items))
    ensures Evaluates(items)
  {
    hide IntegerSum, Amounts, WithStatus, WithTarget, Fits, Gains, Losses;
    ModerateFits(Amounts(items));
    forall status ensures Fits(Amounts(WithStatus(items, status))) {
      PartsAreModerate(items, status, Target("", ""));
      ModerateFits(Amounts(WithStatus(items, status)));
    }
    forall t ensures Fits(Amounts(WithTarget(items, t))) {
      PartsAreModerate(items, Mapped, t);
      ModerateFits(Amounts(WithTarget(items, t)));
    }
    PartsAreModerate(items, Mapped, Target("", ""));
    ModerateFits(Amounts(WithStatus(items, Mapped)));
    TwoTerms(IntegerSum(Amounts(items)), -IntegerSum(Amounts(WithStatus(items, Mapped))));
  }

  function RecordAmounts(records: seq<Record>): seq<int> {
    seq(|records|, i requires 0 <= i < |records| => records[i].amount)
  }

  lemma AmountsOfItems(h: TextDigest, records: seq<Record>, ms: seq<Mapping>, asOf: int)
    ensures Amounts(ItemsOf(h, records, ms, asOf)) == RecordAmounts(records)
  {
    hide AsOfMapping;
  }

  ghost function Gain(): Record -> real { (r: Record) => if r.amount > 0 then r.amount as real else 0.0 }
  ghost function Loss(): Record -> real { (r: Record) => if r.amount < 0 then -r.amount as real else 0.0 }

  lemma {:induction false} GainsAreTotals(records: seq<Record>)
    ensures Gains(RecordAmounts(records)) as real == Total(Gain(), records)
    ensures Losses(RecordAmounts(records)) as real == Total(Loss(), records)
    decreases |records|
  {
    if records != [] {
      var n := |records| - 1;
      GainsAreTotals(records[..n]);
      assert RecordAmounts(records)[..n] == RecordAmounts(records[..n]);
    }
  }

  lemma ModerateForgetsOrder(a: seq<Record>, b: seq<Record>)
    requires multiset(a) == multiset(b)
    ensures Moderate(RecordAmounts(a)) <==> Moderate(RecordAmounts(b))
  {
    hide Gains, Losses, RecordAmounts, Total;
    GainsAreTotals(a);
    GainsAreTotals(b);
    TotalPermuted(Gain(), a, b);
    TotalPermuted(Loss(), a, b);
  }

  /** The records of one sign, in order. */
  function Signed(records: seq<Record>, positive: bool): seq<Record> {
    if records == [] then []
    else
      var r := records[|records| - 1];
      Signed(records[..|records| - 1], positive) + if (r.amount > 0) == positive then [r] else []
  }

  lemma {:induction false} SignedPartition(records: seq<Record>)
    ensures multiset(Signed(records, true)) + multiset(Signed(records, false)) == multiset(records)
    decreases |records|
  {
    if records == [] {
      assert Signed(records, true) == [] && Signed(records, false) == [];
    } else {
      var n := |records| - 1;
      SignedPartition(records[..n]);
      assert records == records[..n] + [records[n]];
      var gains, rest := Signed(records[..n], true), Signed(records[..n], false);
      if records[n].amount > 0 {
        assert Signed(records, true) == gains + [records[n]] && Signed(records, false) == rest + [] == rest;
      } else {
        assert Signed(records, false) == rest + [records[n]] && Signed(records, true) == gains + [] == gains;
      }
    }
  }

  lemma {:induction false} SumOfPositive(records: seq<Record>)
    ensures IntegerSum(RecordAmounts(Signed(records, true))) == Gains(RecordAmounts(records))
    ensures IntegerSum(RecordAmounts(Signed(records, false))) == -(Losses(RecordAmounts(records)) as int)
    decreases |records|
  {
    if records != [] {
      var n := |records| - 1;
      SumOfPositive(records[..n]);
      assert RecordAmounts(records)[..n] == RecordAmounts(records[..n]);
      hide RecordAmounts;
      PushRecord(Signed(records[..n], true), records[n]);
      PushRecord(Signed(records[..n], false), records[n]);
      assert Signed(records[..n], true) + [] == Signed(records[..n], true);
      assert Signed(records[..n], false) + [] == Signed(records[..n], false);
      AmountAtEnd(records);
    }
  }

  lemma AmountAtEnd(records: seq<Record>)
    requires records != []
    ensures RecordAmounts(records) != []
    ensures RecordAmounts(records)[|RecordAmounts(records)| - 1] == records[|records| - 1].amount
    ensures |RecordAmounts(records)| == |records|
  {
  }

  lemma PushRecord(records: seq<Record>, r: Record)
    ensures IntegerSum(RecordAmounts(records + [r])) == IntegerSum(RecordAmounts(records)) + r.amount
  {
    assert RecordAmounts(records + [r])[..|records|] == RecordAmounts(records);
  }

  /** Where one sign alone is out of range, listing that sign first is refused. */
  lemma OneSignFirst(h: TextDigest, records: seq<Record>, ms: seq<Mapping>, asOf: int) returns (order: seq<Record>)
    requires !Moderate(RecordAmounts(records))
    ensures multiset(order) == multiset(records) && !Evaluates(ItemsOf(h, order, ms, asOf))
  {
    hide IntegerSum, ItemsOf, AllFit, ResidualFits, Signed, Gains, Losses;
    var positive := Gains(RecordAmounts(records)) > MAX_SAFE;
    var first, rest := Signed(records, positive), Signed(records, !positive);
    SignedPartition(records);
    SumOfPositive(records);
    order := first + rest;
    AmountsOfItems(h, order, ms, asOf);
    assert RecordAmounts(order)[..|first|] == RecordAmounts(first);
    FitsPrefix(RecordAmounts(order), |first|);
    OutOfRange(RecordAmounts(first));
  }

  lemma OutOfRange(s: seq<int>)
    requires !InRange(IntegerSum(s))
    ensures !Fits(s)
  {
  }

  /** The exact condition: an evaluation succeeds in every order of its records if and only if their
      positive amounts, and their negative ones, each add up within the range. */
  lemma NoOrderIsRefused(h: TextDigest, records: seq<Record>, ms: seq<Mapping>, asOf: int)
    ensures Moderate(RecordAmounts(records))
       <==> forall order :: multiset(order) == multiset(records) ==> Evaluates(ItemsOf(h, order, ms, asOf))
  {
    hide Moderate, Evaluates, ItemsOf, RecordAmounts;
    if Moderate(RecordAmounts(records)) {
      forall order | multiset(order) == multiset(records) ensures Evaluates(ItemsOf(h, order, ms, asOf)) {
        ModerateForgetsOrder(order, records);
        AmountsOfItems(h, order, ms, asOf);
        ModerateItemsEvaluate(ItemsOf(h, order, ms, asOf));
      }
    } else {
      var order := OneSignFirst(h, records, ms, asOf);
    }
  }

  lemma ItemsPush(h: TextDigest, records: seq<Record>, r: Record, ms: seq<Mapping>, asOf: int)
    ensures ItemsOf(h, records + [r], ms, asOf) == ItemsOf(h, records, ms, asOf) + [ItemOf(h, r, ms, asOf)]
  {
    hide ItemOf;
  }

  lemma UndeclaredIsUnmapped(h: TextDigest, r: Record, asOf: int)
    ensures ItemOf(h, r, [], asOf) == Item(r.recordId, r.amount, Unmapped, None)
  {
  }

  lemma NoItems(h: TextDigest, asOf: int, status: Status, t: Target)
    ensures ItemsOf(h, [], [], asOf) == [] && WithStatus([], status) == [] && WithTarget([], t) == []
  {
  }

  lemma {:induction false} AllUnmapped(h: TextDigest, records: seq<Record>, asOf: int, status: Status, t: Target)
    ensures WithStatus(ItemsOf(h, records, [], asOf), status)
         == if status == Unmapped then ItemsOf(h, records, [], asOf) else []
    ensures WithTarget(ItemsOf(h, records, [], asOf), t) == []
    decreases |records|
  {
    hide ItemsOf, ItemOf, WithStatus, WithTarget;
    if records == [] {
      NoItems(h, asOf, status, t);
    } else {
      var n := |records| - 1;
      AllUnmapped(h, records[..n], asOf, status, t);
      var init, i := ItemsOf(h, records[..n], [], asOf), ItemOf(h, records[n], [], asOf);
      assert records == records[..n] + [records[n]];
      UndeclaredIsUnmapped(h, records[n], asOf);
      ItemsPush(h, records[..n], records[n], [], asOf);
      StatusPush(init, i, status);
      TargetPush(init, i, t);
    }
  }

  /** Without declarations every record is unmapped, so only the running sum over all of them can be refused. */
  lemma UnmappedEvaluates(h: TextDigest, records: seq<Record>, asOf: int)
    requires Fits(RecordAmounts(records)) && InRange(IntegerSum(RecordAmounts(records)))
    ensures Evaluates(ItemsOf(h, records, [], asOf))
  {
    var items := ItemsOf(h, records, [], asOf);
    hide ItemsOf, WithStatus, WithTarget, IntegerSum, Fits, RecordAmounts;
    AmountsOfItems(h, records, [], asOf);
    EmptyFits();
    forall status ensures Fits(Amounts(WithStatus(items, status))) {
      AllUnmapped(h, records, asOf, status, Target("", ""));
    }
    forall t ensures Fits(Amounts(WithTarget(items, t))) {
      AllUnmapped(h, records, asOf, Mapped, t);
    }
    AllUnmapped(h, records, asOf, Mapped, Target("", ""));
    TwoTerms(IntegerSum(Amounts(items)), -IntegerSum(Amounts(WithStatus(items, Mapped))));
  }

  /** Between the two lie records that are refused in one order and evaluated in another. */
  lemma RefusalDependsOnOrder(h: TextDigest, x: Record, y: Record, z: Record, asOf: int)
    requires x.amount == MAX_SAFE && y.amount == 1 && z.amount == -1
    ensures !Evaluates(ItemsOf(h, [x, y, z], [], asOf)) && Evaluates(ItemsOf(h, [y, z, x], [], asOf))
  {
    hide ItemsOf, AllFit, ResidualFits, IntegerSum, Fits;
    AmountsOfItems(h, [x, y, z], [], asOf);
    assert RecordAmounts([x, y, z]) == [MAX_SAFE, 1] + [-1];
    assert RecordAmounts([y, z, x]) == [1, -1] + [MAX_SAFE];
    TwoTerms(MAX_SAFE, 1);
    SumPush([MAX_SAFE, 1], -1);
    TwoTerms(1, -1);
    SumPush([1, -1], MAX_SAFE);
    UnmappedEvaluates(h, [y, z, x], asOf);
  }

  lemma EmptyFits()
    ensures IntegerSum(Amounts([])) == 0 && Fits(Amounts([]))
  {
  }
}
