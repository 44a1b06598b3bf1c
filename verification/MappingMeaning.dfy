/** What an evaluation of declarations says of each record, and when it is refused. */
module MappingMeaning {
  // Stated from records and declarations alone: positions in their lists, sums and counts over all items.

  import opened BillingMapping
  import opened DecimalText
  import opened Money
  import opened Tables

  // ---------------------------------------------------------------- one record

  /** A field behind its length and a colon. */
  ghost function Field(field: string): string { NatText(|field|) + (":" + field) }

  /** The key of a record is a digest of its four fields. */
  lemma KeyIsOfFields(h: TextDigest, k: RecordKey)
    ensures MappingKey(h, k)
         == h(Field(k.sourceSystem) + (Field(k.provider) + (Field(k.account) + Field(k.recordId))))
  {
    hide Field, Prefixed;
    OneField(k.recordId, []);
    OneField(k.account, [k.recordId]);
    OneField(k.provider, [k.account, k.recordId]);
    OneField(k.sourceSystem, [k.provider, k.account, k.recordId]);
    assert KeyFields(k) == [k.sourceSystem] + [k.provider, k.account, k.recordId];
    assert [k.provider] + [k.account, k.recordId] == [k.provider, k.account, k.recordId];
    assert [k.account] + [k.recordId] == [k.account, k.recordId] && [k.recordId] + [] == [k.recordId];
    assert Field(k.recordId) + [] == Field(k.recordId);
  }

  lemma OneField(field: string, rest: seq<string>)
    ensures Prefixed([field] + rest) == Field(field) + Prefixed(rest)
    ensures Prefixed([]) == []
  {
    hide NatText;
    assert ([field] + rest)[1..] == rest;
  }

  /** A declaration for the record's key that was made by then. */
  ghost predicate Declared(h: TextDigest, r: Record, m: Mapping, asOf: int) {
    m.key == MappingKey(h, r.key) && m.declaredAt <= asOf
  }

  /** The declaration at i is one for the record, and every other one for it is older. */
  ghost predicate SoleNewest(h: TextDigest, r: Record, ms: seq<Mapping>, asOf: int, i: int)
    requires 0 <= i < |ms|
  {
    && Declared(h, r, ms[i], asOf)
    && forall j :: 0 <= j < |ms| && j != i && Declared(h, r, ms[j], asOf) ==> ms[j].version < ms[i].version
  }

  lemma CountOfOne(ms: seq<Mapping>, i: nat)
    requires i < |ms| && forall j :: 0 <= j < |ms| && j != i ==> ms[j] != ms[i]
    ensures multiset(ms)[ms[i]] == 1
  {
    assert ms == ms[..i] + [ms[i]] + ms[i + 1..];
    assert ms[i] !in ms[..i] && ms[i] !in ms[i + 1..];
  }

  lemma CountOfTwo(ms: seq<Mapping>, i: nat, j: nat)
    requires i < j < |ms| && ms[i] == ms[j]
    ensures multiset(ms)[ms[i]] >= 2
  {
    assert ms == ms[..j] + [ms[j]] + ms[j + 1..];
    assert ms[i] in ms[..j];
  }

  lemma OneMember(s: seq<Mapping>, m: Mapping)
    requires multiset(s)[m] == 1 && forall o :: o in s ==> o == m
    ensures s == [m]
  {
    assert m in s;
    if |s| > 1 {
      assert s[0] in s && s[1] in s;
      CountOfTwo(s, 0, 1);
    }
  }

  lemma SomeCandidate(h: TextDigest, r: Record, ms: seq<Mapping>, asOf: int)
    ensures Filter(IsCandidate(MappingKey(h, r.key), asOf), ms) != []
       <==> exists i :: 0 <= i < |ms| && Declared(h, r, ms[i], asOf)
  {
    hide MappingKey, Filter;
    var keep := IsCandidate(MappingKey(h, r.key), asOf);
    var s := Filter(keep, ms);
    FilterMembers(keep, ms);
    if s != [] {
      assert multiset(s)[s[0]] > 0;
      assert s[0] in ms;
    }
    forall i | 0 <= i < |ms| && Declared(h, r, ms[i], asOf) ensures s != [] {
      assert multiset(s)[ms[i]] > 0;
    }
  }

  lemma SortKeepsSome(s: seq<Mapping>)
    ensures Sort(NewestFirst(), s) == [] <==> s == []
  {
    NewestFirstOrders();
    hide Sort, NewestFirst;
    SortSorts(NewestFirst(), s);
    assert |Sort(NewestFirst(), s)| == |multiset(Sort(NewestFirst(), s))| == |multiset(s)| == |s|;
  }

  lemma NoneDeclared(h: TextDigest, r: Record, ms: seq<Mapping>, asOf: int)
    ensures Sort(NewestFirst(), Filter(IsCandidate(MappingKey(h, r.key), asOf), ms)) != []
       <==> exists i :: 0 <= i < |ms| && Declared(h, r, ms[i], asOf)
  {
    hide *;
    SomeCandidate(h, r, ms, asOf);
    SortKeepsSome(Filter(IsCandidate(MappingKey(h, r.key), asOf), ms));
  }

  /** The newest declarations for a record, as the selection lists them. */
  ghost function Latest(h: TextDigest, r: Record, ms: seq<Mapping>, asOf: int): seq<Mapping> {
    var candidates := Sort(NewestFirst(), Filter(IsCandidate(MappingKey(h, r.key), asOf), ms));
    if candidates == [] then [] else Filter(HasVersion(candidates[0].version), candidates)
  }

  lemma LatestHas(h: TextDigest, r: Record, ms: seq<Mapping>, asOf: int, m: Mapping)
    ensures m in Latest(h, r, ms, asOf)
       <==> && m in ms && Declared(h, r, m, asOf)
            && forall o :: o in ms && Declared(h, r, o, asOf) ==> o.version <= m.version
    ensures multiset(Latest(h, r, ms, asOf))[m] == if m in Latest(h, r, ms, asOf) then multiset(ms)[m] else 0
  {
    hide MappingKey, Sort, NewestFirst;
    var keep := IsCandidate(MappingKey(h, r.key), asOf);
    var s := Filter(keep, ms);
    var x := Sort(NewestFirst(), s);
    FilterMembers(keep, ms);
    NewestFirstOrders();
    SortSorts(NewestFirst(), s);
    assert |x| == |multiset(x)| == |multiset(s)| == |s|;
    if x != [] {
      FirstIsNewest(s);
      FilterMembers(HasVersion(x[0].version), x);
      var latest := Filter(HasVersion(x[0].version), x);
      assert multiset(s)[x[0]] > 0;
      assert multiset(latest)[m] > 0 <==> m in latest;
      assert multiset(s)[m] > 0 <==> m in s;
      forall o | o in ms && Declared(h, r, o, asOf) ensures o.version <= x[0].version {
        assert multiset(s)[o] > 0;
      }
    } else {
      NoneDeclared(h, r, ms, asOf);
    }
  }

  lemma NewestIsLatest(h: TextDigest, r: Record, ms: seq<Mapping>, asOf: int, i: nat)
    requires i < |ms| && SoleNewest(h, r, ms, asOf, i)
    ensures Latest(h, r, ms, asOf) == [ms[i]]
  {
    hide Latest;
    var latest := Latest(h, r, ms, asOf);
    assert forall j :: 0 <= j < |ms| && j != i ==> ms[j] != ms[i];
    CountOfOne(ms, i);
    LatestHas(h, r, ms, asOf, ms[i]);
    forall o | o in latest ensures o == ms[i] {
      LatestHas(h, r, ms, asOf, o);
    }
    OneMember(latest, ms[i]);
  }

  lemma LatestIsNewest(h: TextDigest, r: Record, ms: seq<Mapping>, asOf: int) returns (i: nat)
    requires |Latest(h, r, ms, asOf)| == 1
    ensures i < |ms| && SoleNewest(h, r, ms, asOf, i)
  {
    hide Latest, Declared;
    var m := Latest(h, r, ms, asOf)[0];
    LatestHas(h, r, ms, asOf, m);
    assert multiset(Latest(h, r, ms, asOf)) == multiset{m} by { assert Latest(h, r, ms, asOf) == [m]; }
    i :| 0 <= i < |ms| && ms[i] == m;
    forall j | 0 <= j < |ms| && j != i && Declared(h, r, ms[j], asOf) ensures ms[j].version < m.version {
      if ms[j] == m {
        CountOfTwo(ms, if i < j then i else j, if i < j then j else i);
      } else {
        LatestHas(h, r, ms, asOf, ms[j]);
      }
    }
  }

  /** What is selected for a record: the one newest declaration for it, which maps the record if it was made
      for this very row of this import and is stale if not; nothing where there is none, or no single one. */
  ghost predicate Selects(h: TextDigest, r: Record, ms: seq<Mapping>, asOf: int, s: Selection) {
    && (forall i :: 0 <= i < |ms| && SoleNewest(h, r, ms, asOf, i) ==>
          && s.mapping == Some(ms[i])
          && s.status == if ms[i].digest == r.digest && ms[i].importId == r.importId then Mapped else Stale)
    && ((forall i :: 0 <= i < |ms| ==> !SoleNewest(h, r, ms, asOf, i)) ==>
          && s.mapping == None
          && s.status == if exists i :: 0 <= i < |ms| && Declared(h, r, ms[i], asOf) then Ambiguous else Unmapped)
  }

  lemma SelectedExactly(h: TextDigest, r: Record, ms: seq<Mapping>, asOf: int)
    ensures Selects(h, r, ms, asOf, AsOfMapping(h, r, ms, asOf))
  {
    hide MappingKey, Sort, NewestFirst, IsCandidate, HasVersion, SoleNewest, Declared;
    NoneDeclared(h, r, ms, asOf);
    if i :| 0 <= i < |ms| && SoleNewest(h, r, ms, asOf, i) {
      forall j | 0 <= j < |ms| && SoleNewest(h, r, ms, asOf, j)
        ensures Latest(h, r, ms, asOf) == [ms[j]]
      {
        NewestIsLatest(h, r, ms, asOf, j);
      }
      assert Latest(h, r, ms, asOf) == [ms[i]];
    } else if |Latest(h, r, ms, asOf)| == 1 {
      var k := LatestIsNewest(h, r, ms, asOf);
    }
  }

  // ---------------------------------------------------------------- all items

  ghost function OfStatus(status: Status): Item -> bool { (i: Item) => i.status == status }
  ghost function OfTarget(t: Target): Item -> bool { (i: Item) => i.target == Some(t) }
  ghost function Every(): Item -> bool { (i: Item) => true }

  /** What the amounts of some items add up to. */
  ghost function AmountOf(items: seq<Item>, some: Item -> bool): int {
    if items == [] then 0
    else AmountOf(items[..|items| - 1], some) + if some(items[|items| - 1]) then items[|items| - 1].amount else 0
  }

  ghost function CountOf(items: seq<Item>, some: Item -> bool): nat {
    |set i | 0 <= i < |items| && some(items[i])|
  }

  ghost predicate Counted(items: seq<Item>, some: Item -> bool, t: Tally) {
    t.count == CountOf(items, some) && t.amount == AmountOf(items, some)
  }

  lemma CountPush(items: seq<Item>, i: Item, some: Item -> bool)
    ensures CountOf(items + [i], some) == CountOf(items, some) + if some(i) then 1 else 0
  {
    var before := set k | 0 <= k < |items| && some(items[k]);
    var after := set k | 0 <= k < |items + [i]| && some((items + [i])[k]);
    assert after == before + if some(i) then {|items|} else {};
  }

  lemma {:induction false} StatusCounted(items: seq<Item>, status: Status)
    ensures |WithStatus(items, status)| == CountOf(items, OfStatus(status))
    ensures IntegerSum(Amounts(WithStatus(items, status))) == AmountOf(items, OfStatus(status))
    decreases |items|
  {
    if items == [] {
      EmptySum();
      assert WithStatus(items, status) == [];
    } else {
      var n := |items| - 1;
      StatusCounted(items[..n], status);
      assert items == items[..n] + [items[n]];
      OneStatus(items[..n], items[n], status);
      CountPush(items[..n], items[n], OfStatus(status));
    }
  }

  lemma {:induction false} TargetCounted(items: seq<Item>, t: Target)
    ensures |WithTarget(items, t)| == CountOf(items, OfTarget(t))
    ensures IntegerSum(Amounts(WithTarget(items, t))) == AmountOf(items, OfTarget(t))
    decreases |items|
  {
    if items == [] {
      EmptySum();
      assert WithTarget(items, t) == [];
    } else {
      var n := |items| - 1;
      TargetCounted(items[..n], t);
      assert items == items[..n] + [items[n]];
      OneTarget(items[..n], items[n], t);
      CountPush(items[..n], items[n], OfTarget(t));
    }
  }

  lemma {:induction false} AllCounted(items: seq<Item>)
    ensures IntegerSum(Amounts(items)) == AmountOf(items, Every())
    decreases |items|
  {
    if items == [] {
      EmptySum();
    } else {
      var n := |items| - 1;
      AllCounted(items[..n]);
      assert items == items[..n] + [items[n]];
      AmountsPush(items[..n], items[n]);
    }
  }

  // ---------------------------------------------------------------- what is refused

  ghost predicate Safe(x: int) { -9_007_199_254_740_991 <= x <= 9_007_199_254_740_991 }

  /** The amounts of some items are safe, and so is what they add up to after each item. */
  ghost predicate StaysSafe(items: seq<Item>, some: Item -> bool) {
    && (forall i :: 0 <= i < |items| && some(items[i]) ==> Safe(items[i].amount))
    && forall n :: 0 <= n <= |items| ==> Safe(AmountOf(items[..n], some))
  }

  lemma WholeIsSafe(items: seq<Item>, some: Item -> bool)
    requires StaysSafe(items, some)
    ensures Safe(AmountOf(items, some))
  {
    hide AmountOf, Safe;
    assert items[..|items|] == items;
    assert Safe(AmountOf(items[..|items|], some));
  }

  lemma PrefixesPush(items: seq<Item>, i: Item, some: Item -> bool)
    ensures forall n :: 0 <= n <= |items| ==> (items + [i])[..n] == items[..n]
    ensures (items + [i])[..|items| + 1] == items + [i]
    ensures AmountOf(items + [i], some) == AmountOf(items, some) + if some(i) then i.amount else 0
  {
    assert (items + [i])[..|items|] == items;
  }

  lemma StaysSafeBefore(items: seq<Item>, i: Item, some: Item -> bool)
    requires StaysSafe(items + [i], some)
    ensures StaysSafe(items, some) && (some(i) ==> Safe(i.amount)) && Safe(AmountOf(items + [i], some))
  {
    hide AmountOf, Safe;
    PrefixesPush(items, i, some);
    forall n | 0 <= n <= |items| ensures Safe(AmountOf(items[..n], some)) {
      assert Safe(AmountOf((items + [i])[..n], some));
    }
    forall k | 0 <= k < |items| && some(items[k]) ensures Safe(items[k].amount) {
      assert some((items + [i])[k]);
    }
    assert some(i) ==> some((items + [i])[|items|]);
    assert Safe(AmountOf((items + [i])[..|items| + 1], some));
  }

  lemma StaysSafeAfter(items: seq<Item>, i: Item, some: Item -> bool)
    requires StaysSafe(items, some) && (some(i) ==> Safe(i.amount)) && Safe(AmountOf(items + [i], some))
    ensures StaysSafe(items + [i], some)
  {
    hide AmountOf, Safe;
    PrefixesPush(items, i, some);
    forall n | 0 <= n <= |items| + 1 ensures Safe(AmountOf((items + [i])[..n], some)) {
      if n <= |items| {
        assert Safe(AmountOf(items[..n], some));
      }
    }
  }

  lemma StaysSafePush(items: seq<Item>, i: Item, some: Item -> bool)
    ensures StaysSafe(items + [i], some)
       <==> StaysSafe(items, some) && (some(i) ==> Safe(i.amount) && Safe(AmountOf(items, some) + i.amount))
  {
    hide AmountOf, Safe, StaysSafe;
    PrefixesPush(items, i, some);
    if StaysSafe(items + [i], some) {
      StaysSafeBefore(items, i, some);
    }
    if StaysSafe(items, some) {
      WholeIsSafe(items, some);
      if some(i) ==> Safe(i.amount) && Safe(AmountOf(items, some) + i.amount) {
        StaysSafeAfter(items, i, some);
      }
    }
  }

  lemma {:induction false} StatusIsSafe(items: seq<Item>, status: Status)
    ensures Fits(Amounts(WithStatus(items, status))) <==> StaysSafe(items, OfStatus(status))
    decreases |items|
  {
    if items == [] {
      assert WithStatus(items, status) == [];
      assert Amounts([]) == [];
    } else {
      var n := |items| - 1;
      var init, i := items[..n], items[n];
      StatusIsSafe(init, status);
      assert items == init + [i];
      hide Fits, WithStatus, WithTarget, Amounts, IntegerSum, StaysSafe, AmountOf;
      StatusPush(init, i, status);
      assert WithStatus(init, status) + [] == WithStatus(init, status);
      AmountsPush(WithStatus(init, status), i);
      StatusCounted(init, status);
      StaysSafePush(init, i, OfStatus(status));
    }
  }

  lemma {:induction false} TargetIsSafe(items: seq<Item>, t: Target)
    ensures Fits(Amounts(WithTarget(items, t))) <==> StaysSafe(items, OfTarget(t))
    decreases |items|
  {
    if items == [] {
      assert WithTarget(items, t) == [];
      assert Amounts([]) == [];
    } else {
      var n := |items| - 1;
      var init, i := items[..n], items[n];
      TargetIsSafe(init, t);
      assert items == init + [i];
      hide Fits, WithStatus, WithTarget, Amounts, IntegerSum, StaysSafe, AmountOf;
      TargetPush(init, i, t);
      assert WithTarget(init, t) + [] == WithTarget(init, t);
      AmountsPush(WithTarget(init, t), i);
      TargetCounted(init, t);
      StaysSafePush(init, i, OfTarget(t));
    }
  }

  lemma {:induction false} AllAreSafe(items: seq<Item>)
    ensures Fits(Amounts(items)) <==> StaysSafe(items, Every())
    decreases |items|
  {
    if items == [] {
      assert Amounts([]) == [];
    } else {
      var n := |items| - 1;
      var init, i := items[..n], items[n];
      AllAreSafe(init);
      assert items == init + [i];
      hide Fits, WithStatus, WithTarget, Amounts, IntegerSum, StaysSafe, AmountOf;
      AmountsPush(init, i);
      AllCounted(init);
      StaysSafePush(init, i, Every());
    }
  }

  /** An evaluation is not refused if and only if what the items of each status, of each target, and all
      items add up to stays safe after every item, and so is what is left of the whole without the mapped. */
  lemma EvaluatesExactly(items: seq<Item>)
    ensures Evaluates(items)
       <==> && (forall status: Status :: StaysSafe(items, OfStatus(status)))
            && (forall t: Target :: StaysSafe(items, OfTarget(t)))
            && StaysSafe(items, Every())
            && Safe(AmountOf(items, Every()) - AmountOf(items, OfStatus(Mapped)))
  {
    hide Fits, WithStatus, WithTarget, Amounts, IntegerSum, StaysSafe, AmountOf;
    forall status: Status ensures Fits(Amounts(WithStatus(items, status))) <==> StaysSafe(items, OfStatus(status)) {
      StatusIsSafe(items, status);
    }
    forall t: Target ensures Fits(Amounts(WithTarget(items, t))) <==> StaysSafe(items, OfTarget(t)) {
      TargetIsSafe(items, t);
    }
    AllAreSafe(items);
    AllCounted(items);
    StatusCounted(items, Mapped);
    TwoTerms(IntegerSum(Amounts(items)), -IntegerSum(Amounts(WithStatus(items, Mapped))));
    if StaysSafe(items, Every()) && StaysSafe(items, OfStatus(Mapped)) {
      WholeIsSafe(items, Every());
      WholeIsSafe(items, OfStatus(Mapped));
    }
  }

  // ---------------------------------------------------------------- the coverage

  /** An item is its record's, with the status and target that are selected for it. */
  ghost predicate Resolves(h: TextDigest, r: Record, ms: seq<Mapping>, asOf: int, i: Item) {
    && i.recordId == r.recordId && i.amount == r.amount
    && exists s: Selection ::
         && Selects(h, r, ms, asOf, s) && i.status == s.status
         && i.target == if s.status == Mapped && s.mapping.Some? then Some(s.mapping.value.target) else None
  }

  /** What a coverage says: each record's status and target, what each status and each target amounts to,
      and what is left of the whole without the mapped. */
  ghost predicate Says(h: TextDigest, records: seq<Record>, ms: seq<Mapping>, asOf: int, c: Coverage) {
    && |c.items| == |records|
    && (forall i :: 0 <= i < |records| ==> Resolves(h, records[i], ms, asOf, c.items[i]))
    && (forall status: Status :: status in c.byStatus && Counted(c.items, OfStatus(status), c.byStatus[status]))
    && (forall t: Target :: t in c.targets.at <==> exists i :: 0 <= i < |c.items| && c.items[i].target == Some(t))
    && (forall t: Target :: t in c.targets.at ==> Counted(c.items, OfTarget(t), c.targets.at[t]))
    && c.total == AmountOf(c.items, Every()) && c.mapped == AmountOf(c.items, OfStatus(Mapped))
    && c.residual == c.total - c.mapped
  }

  lemma {:induction false} SomeWithTarget(items: seq<Item>, t: Target)
    ensures WithTarget(items, t) != [] <==> exists i :: 0 <= i < |items| && items[i].target == Some(t)
    decreases |items|
  {
    if items != [] {
      var n := |items| - 1;
      SomeWithTarget(items[..n], t);
      assert items == items[..n] + [items[n]];
      assert items[n].target == Some(t) ==> WithTarget(items, t)[|WithTarget(items, t)| - 1] == items[n];
    }
  }

  lemma ItemResolves(h: TextDigest, r: Record, ms: seq<Mapping>, asOf: int)
    ensures Resolves(h, r, ms, asOf, ItemOf(h, r, ms, asOf))
  {
    hide AsOfMapping, Selects;
    SelectedExactly(h, r, ms, asOf);
  }

  /** Of the records and declarations, a coverage as the evaluation returns it says just this. */
  lemma CoverageSays(h: TextDigest, records: seq<Record>, ms: seq<Mapping>, asOf: int, c: Coverage)
    requires c.items == ItemsOf(h, records, ms, asOf)
    requires StatusTallied(c.items, c.byStatus) && TargetsTallied(c.items, c.targets)
    requires c.total == IntegerSum(Amounts(c.items)) && c.mapped == IntegerSum(Amounts(WithStatus(c.items, Mapped)))
    requires c.residual == c.total - c.mapped
    ensures Says(h, records, ms, asOf, c)
  {
    hide ItemOf, Resolves, WithStatus, WithTarget, Amounts, IntegerSum, AmountOf, CountOf, Ok;
    forall i | 0 <= i < |records| ensures Resolves(h, records[i], ms, asOf, c.items[i]) {
      ItemResolves(h, records[i], ms, asOf);
    }
    forall status: Status ensures Counted(c.items, OfStatus(status), c.byStatus[status]) {
      StatusCounted(c.items, status);
    }
    forall t: Target
      ensures t in c.targets.at <==> exists i :: 0 <= i < |c.items| && c.items[i].target == Some(t)
      ensures t in c.targets.at ==> Counted(c.items, OfTarget(t), c.targets.at[t])
    {
      SomeWithTarget(c.items, t);
      TargetCounted(c.items, t);
    }
    AllCounted(c.items);
    StatusCounted(c.items, Mapped);
  }
}
