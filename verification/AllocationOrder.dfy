/** The groups of a run do not depend on the order of its rows, unless two are in `Conflict`. */
module AllocationOrder {
  import opened Money
  import opened Tables
  import opened AllocationRules
  import opened AllocationGroups

  // ---------------------------------------------------------------- groups up to arrival order

  /** Two rules under which a group is split alike; a pool does not look at targets. */
  ghost predicate SplitAlike(r: Rule, s: Rule) {
    && r.ruleId == s.ruleId && r.version == s.version && r.way == s.way
    && (r.way != ProportionalToDirect ==> multiset(r.targets) == multiset(s.targets))
  }

  ghost predicate Alike(a: Option<Rule>, b: Option<Rule>) {
    && (a.Some? <==> b.Some?)
    && (a.Some? && b.Some? ==> SplitAlike(a.value, b.value))
  }

  ghost predicate SameBucket(a: Bucket, b: Bucket) {
    && Alike(a.rule, b.rule) && a.amount == b.amount && a.sources == b.sources
    && a.byProject.at == b.byProject.at
  }

  ghost predicate SameGroups(a: Groups, b: Groups) {
    a.at.Keys == b.at.Keys && forall k :: k in a.at ==> SameBucket(a.at[k], b.at[k])
  }

  /** Two rows meet in one claimed group, but the rules that claim them differ in method or targets. */
  ghost predicate Conflict(p: Policy, x: Row, y: Row) {
    && PlaceOf(p, x) == PlaceOf(p, y) && KindOf(p, x) == Claimed
    && RuleFor(p, x).Some? && RuleFor(p, y).Some?
    && (RuleFor(p, x).value.way != RuleFor(p, y).value.way
        || multiset(RuleFor(p, x).value.targets) != multiset(RuleFor(p, y).value.targets))
  }

  /** No two rows are in conflict. */
  ghost predicate ClaimsAgree(p: Policy, rows: seq<Row>) {
    forall x, y :: x in rows && y in rows ==> !Conflict(p, x, y)
  }

  lemma AddToSame(a: Bucket, b: Bucket, row: Row)
    requires SameBucket(a, b)
    ensures SameBucket(AddToBucket(a, row), AddToBucket(b, row))
  {
  }

  lemma AddCommutes(x: Decimal, y: Decimal, z: Decimal)
    ensures Add(Add(x, y), z) == Add(Add(x, z), y) && Add(y, z) == Add(z, y)
  {
    AddIsCommutativeAndAssociative(x, y, z);
    AddIsCommutativeAndAssociative(x, z, y);
    AddIsCommutativeAndAssociative(y, z, x);
  }

  lemma AddToBucketCommutes(b: Bucket, x: Row, y: Row)
    ensures SameBucket(AddToBucket(AddToBucket(b, x), y), AddToBucket(AddToBucket(b, y), x))
  {
    hide Add, SourceSet;
    AddCommutes(b.amount, x.amount, y.amount);
    if x.project == y.project && x.project in b.byProject.at {
      AddCommutes(b.byProject.at[x.project], x.amount, y.amount);
    }
  }

  lemma AddRowToSame(p: Policy, s: Groups, t: Groups, row: Row)
    requires SameGroups(s, t)
    ensures SameGroups(AddRow(p, s, row), AddRow(p, t, row))
  {
    hide AddToBucket, PlaceOf, RuleFor, SameBucket;
    var k := PlaceOf(p, row);
    SameItself(Created(RuleFor(p, row)));
    AddToSame(if k in s.at then s.at[k] else Created(RuleFor(p, row)),
              if k in t.at then t.at[k] else Created(RuleFor(p, row)), row);
  }

  lemma SameItself(b: Bucket)
    ensures SameBucket(b, b)
  {
  }

  lemma SamePlaceAlike(p: Policy, x: Row, y: Row)
    requires PlaceOf(p, x) == PlaceOf(p, y) && !Conflict(p, x, y)
    ensures Alike(RuleFor(p, x), RuleFor(p, y))
  {
    hide FirstMatch, NamesArchived;
  }

  lemma AddRowCommutes(p: Policy, t: Groups, x: Row, y: Row)
    requires !Conflict(p, x, y)
    ensures SameGroups(AddRow(p, AddRow(p, t, x), y), AddRow(p, AddRow(p, t, y), x))
  {
    hide AddToBucket, PlaceOf, RuleFor, SameBucket, Conflict, Alike;
    var k, m := PlaceOf(p, x), PlaceOf(p, y);
    var b := if k in t.at then t.at[k] else Created(RuleFor(p, x));
    var b' := if m in t.at then t.at[m] else Created(RuleFor(p, y));
    var xy, yx := AddRow(p, AddRow(p, t, x), y), AddRow(p, AddRow(p, t, y), x);
    if k == m {
      SamePlaceAlike(p, x, y);
      StartAlike(b, b', x, y);
    }
    forall n | n in xy.at ensures n in yx.at && SameBucket(xy.at[n], yx.at[n]) {
      SameItself(xy.at[n]);
    }
    assert xy.at.Keys == yx.at.Keys;
  }

  lemma StartAlike(a: Bucket, b: Bucket, x: Row, y: Row)
    requires a == b || (exists r, q :: a == Created(r) && b == Created(q) && Alike(r, q))
    ensures SameBucket(AddToBucket(AddToBucket(a, x), y), AddToBucket(AddToBucket(b, y), x))
  {
    hide AddToBucket, Alike;
    SameItself(a);
    assert SameBucket(a, b);
    AddToSame(a, b, y);
    AddToSame(AddToBucket(a, y), AddToBucket(b, y), x);
    AddToBucketCommutes(a, x, y);
    SameBucketTransitive(AddToBucket(AddToBucket(a, x), y), AddToBucket(AddToBucket(a, y), x),
                         AddToBucket(AddToBucket(b, y), x));
  }

  lemma SameBucketTransitive(a: Bucket, b: Bucket, c: Bucket)
    requires SameBucket(a, b) && SameBucket(b, c)
    ensures SameBucket(a, c)
  {
  }

  lemma SameTransitive(a: Groups, b: Groups, c: Groups)
    requires SameGroups(a, b) && SameGroups(b, c)
    ensures SameGroups(a, c)
  {
    assert forall k :: k in a.at <==> k in a.at.Keys;
    assert forall k :: k in b.at <==> k in b.at.Keys;
  }

  lemma SameSymmetric(a: Groups, b: Groups)
    requires SameGroups(a, b)
    ensures SameGroups(b, a)
  {
    assert forall k :: k in a.at.Keys <==> k in b.at.Keys;
  }

  lemma SameReflexive(a: Groups)
    ensures SameGroups(a, a)
  {
  }

  /** A row may be added last instead of in the middle. */
  lemma {:induction false} RowMayComeLast(p: Policy, before: seq<Row>, x: Row, after: seq<Row>)
    requires forall y :: y in after ==> !Conflict(p, x, y)
    ensures SameGroups(Group(p, before + [x] + after), AddRow(p, Group(p, before + after), x))
    decreases |after|
  {
    hide AddRow, SameGroups, Conflict;
    if after == [] {
      assert before + [x] + after == before + [x] && before + after == before;
      assert (before + [x])[..|before|] == before;
      SameReflexive(Group(p, before + [x]));
    } else {
      var n, y := |after| - 1, after[|after| - 1];
      RowMayComeLast(p, before, x, after[..n]);
      var with, without := before + [x] + after, before + after;
      assert with[..|with| - 1] == before + [x] + after[..n] && with[|with| - 1] == y;
      assert without[..|without| - 1] == before + after[..n] && without[|without| - 1] == y;
      var s := Group(p, before + after[..n]);
      AddRowToSame(p, Group(p, before + [x] + after[..n]), AddRow(p, s, x), y);
      AddRowCommutes(p, s, x, y);
      SameTransitive(Group(p, with), AddRow(p, AddRow(p, s, x), y), AddRow(p, AddRow(p, s, y), x));
    }
  }

  /** Rows in any order build the same groups, if no two of them are in conflict. */
  lemma {:induction false} GroupsForgetOrder(p: Policy, a: seq<Row>, b: seq<Row>)
    requires ClaimsAgree(p, a) && multiset(a) == multiset(b)
    ensures SameGroups(Group(p, a), Group(p, b))
    decreases |a|
  {
    hide AddRow, SameGroups, Conflict;
    if a == [] {
      NothingLeft(a, b);
      SameReflexive(Group(p, a));
    } else {
      var n := |a| - 1;
      var i := Locate(a, b);
      SameMembers(a, b);
      GroupsForgetOrder(p, a[..n], Without(b, i));
      AddRowToSame(p, Group(p, a[..n]), Group(p, Without(b, i)), a[n]);
      assert b == b[..i] + [b[i]] + b[i + 1..];
      RowMayComeLast(p, b[..i], b[i], b[i + 1..]);
      SameSymmetric(Group(p, b), AddRow(p, Group(p, Without(b, i)), b[i]));
      SameTransitive(Group(p, a), AddRow(p, Group(p, Without(b, i)), b[i]), Group(p, b));
    }
  }
}
