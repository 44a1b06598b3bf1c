/** The order of rows does not matter: permuted rows give the same result, if no two of them are in
    `Conflict` and no tie shows their order. */
module AllocationDeterminism {
  import opened Money
  import opened Tables
  import opened ArrivalOrder
  import opened Holdings
  import opened AllocationRules
  import opened AllocationGroups
  import opened AllocationLines
  import opened AllocationConserves
  import opened AllocationLineage
  import opened AllocationRun
  import opened AllocationEngine
  import opened AllocationValidation
  import opened AllocationAccepted
  import opened AllocationOrder
  import opened AllocationOrderLines
  import opened AllocationTies

  // ---------------------------------------------------------------- comparisons are orders

  lemma ItemOrders(c: Locale)
    ensures Orders(ItemOrder(c))
  {
  }

  lemma LineOrders(c: Locale)
    ensures Orders(LineOrder(c))
  {
    forall x, y, z ensures LineFirst(c, x, y) && LineFirst(c, y, z) ==> LineFirst(c, x, z) {
    }
    forall x, y, z ensures LineFirst(c, x, z) ==> LineFirst(c, x, y) || LineFirst(c, y, z) {
    }
  }

  lemma ListedOrders(c: Locale)
    ensures Orders(ListedOrder(c))
  {
    hide ReasonName;
    forall x, y, z ensures ListedFirst(c, x, y) && ListedFirst(c, y, z) ==> ListedFirst(c, x, z) {
    }
    forall x, y, z ensures ListedFirst(c, x, z) ==> ListedFirst(c, x, y) || ListedFirst(c, y, z) {
    }
  }

  lemma ProjectFirstMeans(c: Locale, a: Project, b: Project)
    ensures ProjectFirst(c, a, b)
       <==> Value(a.amount) > Value(b.amount) || (Value(a.amount) == Value(b.amount) && c.name(a.name) < c.name(b.name))
  {
    hide Compare, Value;
  }

  lemma ProjectOrders(c: Locale)
    ensures Orders(ProjectOrder(c))
  {
    hide ProjectFirst, Value;
    forall a, b ensures ProjectFirst(c, a, b)
       <==> Value(a.amount) > Value(b.amount) || (Value(a.amount) == Value(b.amount) && c.name(a.name) < c.name(b.name))
    {
      ProjectFirstMeans(c, a, b);
    }
    forall x, y, z ensures ProjectFirst(c, x, y) && ProjectFirst(c, y, z) ==> ProjectFirst(c, x, z) {
    }
    forall x, y, z ensures ProjectFirst(c, x, z) ==> ProjectFirst(c, x, y) || ProjectFirst(c, y, z) {
    }
  }

  // ---------------------------------------------------------------- unplaced entries

  function ProjectAt(id: Identity, m: map<string, Decimal>): string -> seq<Project> {
    (name: string) => [Project(name, if name in m then m[name] else ZERO, id)]
  }

  lemma {:induction false} ProjectsFlattened(id: Identity, m: map<string, Decimal>, keys: seq<string>)
    ensures |Flatten(ProjectAt(id, m), keys)| == |keys|
    ensures forall i :: 0 <= i < |keys| ==>
              Flatten(ProjectAt(id, m), keys)[i] == Project(keys[i], if keys[i] in m then m[keys[i]] else ZERO, id)
    decreases |keys|
  {
    if keys != [] {
      ProjectsFlattened(id, m, keys[..|keys| - 1]);
    }
  }

  lemma ProjectsPermuted(id: Identity, a: Table<string, Decimal>, b: Table<string, Decimal>)
    requires Ok(a) && Ok(b) && a.at == b.at
    ensures multiset(Projects(id, a)) == multiset(Projects(id, b))
  {
    hide Flatten;
    SameElements(a.order, b.order);
    ProjectsFlattened(id, a.at, a.order);
    ProjectsFlattened(id, b.at, b.order);
    FlattenPermuted(ProjectAt(id, a.at), ProjectAt(id, b.at), a.order, b.order);
    assert Projects(id, a) == Flatten(ProjectAt(id, a.at), a.order);
    assert Projects(id, b) == Flatten(ProjectAt(id, b.at), b.order);
  }

  lemma TopProjectsForgetOrder(c: Locale, id: Identity, a: Table<string, Decimal>, b: Table<string, Decimal>)
    requires Ok(a) && Ok(b) && a.at == b.at && !CloseTie(ProjectOrder(c), Projects(id, a), TOP)
    ensures TopProjects(c, id, a) == TopProjects(c, id, b)
  {
    hide ProjectFirst, Orders, CloseTie, Projects, Sort;
    ProjectsPermuted(id, a, b);
    ProjectOrders(c);
    FewForgetOrder(ProjectOrder(c), Projects(id, a), Projects(id, b), TOP);
  }

  /** A group that no line shares out. */
  predicate Unshared(t: Groups, k: Place) { k in t.at && !IsClaim(t, k) && !Driven(t, AllDrivers(t), k) }

  /** In no such group do two listed projects tie. */
  ghost predicate ProjectsSettled(c: Locale, t: Groups) {
    forall k :: Unshared(t, k) ==> !CloseTie(ProjectOrder(c), Projects(k.identity, t.at[k].byProject), TOP)
  }

  lemma ProjectsAreSettled(c: Locale, p: Policy, t: Groups)
    requires GroupsOk(p, t) && !ProjectsTie(c, t)
    ensures ProjectsSettled(c, t)
  {
    hide AllUnplaced, AllDrivers, CloseTie, Projects;
    forall k | Unshared(t, k) ensures !CloseTie(ProjectOrder(c), Projects(k.identity, t.at[k].byProject), TOP) {
      var u := UnsharedEntry(p, t, k);
    }
  }

  lemma UnsharedEntry(p: Policy, t: Groups, k: Place) returns (u: Unplaced)
    requires GroupsOk(p, t) && Unshared(t, k)
    ensures u in AllUnplaced(t) && u == UnplacedOf(t, k, u.reason)
  {
    hide AllUnplaced, AllDrivers;
    assert BucketOk(p, k, t.at[k]);
    u := UnplacedOf(t, k, if k.kind == Unmatched then NoMatchingRule
                          else if k.kind == ToArchived then TargetArchived else NoDriver);
    RestIsListed(t, k, u);
  }

  function KindListed(c: Locale, t: Groups, kind: Kind, reason: Reason): Place -> seq<Listed> {
    (k: Place) => Flatten(ToListed(c), UnplacedOfKind(t, kind, reason)(k))
  }

  function UndrivenListed(c: Locale, t: Groups, d: Drivers): Place -> seq<Listed> {
    (k: Place) => Flatten(ToListed(c), UndrivenPools(t, d)(k))
  }

  lemma EntryForgetsOrder(c: Locale, p: Policy, s: Groups, t: Groups, k: Place, reason: Reason)
    requires ProjectsSettled(c, s) && GroupsOk(p, s) && GroupsOk(p, t) && SameGroups(s, t)
    requires Unshared(s, k) && k in t.at
    ensures Listing(c, UnplacedOf(s, k, reason)) == Listing(c, UnplacedOf(t, k, reason))
  {
    hide TopProjects, CloseTie, Projects;
    assert BucketOk(p, k, s.at[k]) && BucketOk(p, k, t.at[k]);
    TopProjectsForgetOrder(c, k.identity, s.at[k].byProject, t.at[k].byProject);
  }

  lemma KindEntry(c: Locale, p: Policy, s: Groups, t: Groups, kind: Kind, reason: Reason, k: Place)
    requires ProjectsSettled(c, s) && GroupsOk(p, s) && GroupsOk(p, t) && SameGroups(s, t) && !Placed(kind)
    ensures KindListed(c, s, kind, reason)(k) == KindListed(c, t, kind, reason)(k)
  {
    hide ProjectsSettled, GroupsOk, UnplacedOf, Flatten;
    assert k in s.at <==> k in s.at.Keys;
    assert k in t.at <==> k in t.at.Keys;
    if k in s.at && k.kind == kind {
      SameEntryListed(c, p, s, t, k, reason);
      assert UnplacedOfKind(s, kind, reason)(k) == [UnplacedOf(s, k, reason)];
      assert UnplacedOfKind(t, kind, reason)(k) == [UnplacedOf(t, k, reason)];
    } else {
      assert UnplacedOfKind(s, kind, reason)(k) == [] == UnplacedOfKind(t, kind, reason)(k);
    }
  }

  lemma SameEntryListed(c: Locale, p: Policy, s: Groups, t: Groups, k: Place, reason: Reason)
    requires ProjectsSettled(c, s) && GroupsOk(p, s) && GroupsOk(p, t) && SameGroups(s, t)
    requires Unshared(s, k) && k in t.at
    ensures Flatten(ToListed(c), [UnplacedOf(s, k, reason)]) == Flatten(ToListed(c), [UnplacedOf(t, k, reason)])
  {
    hide ProjectsSettled, GroupsOk, SameGroups, UnplacedOf, Listing, Flatten;
    EntryForgetsOrder(c, p, s, t, k, reason);
    FlattenOne(ToListed(c), UnplacedOf(s, k, reason));
    FlattenOne(ToListed(c), UnplacedOf(t, k, reason));
  }

  lemma KindForgetsOrder(c: Locale, p: Policy, s: Groups, t: Groups, kind: Kind, reason: Reason)
    requires ProjectsSettled(c, s) && GroupsOk(p, s) && GroupsOk(p, t) && SameGroups(s, t) && !Placed(kind)
    requires multiset(s.order) == multiset(t.order)
    ensures multiset(Flatten(ToListed(c), Flatten(UnplacedOfKind(s, kind, reason), s.order)))
         == multiset(Flatten(ToListed(c), Flatten(UnplacedOfKind(t, kind, reason), t.order)))
  {
    hide ProjectsSettled, GroupsOk, SameGroups, Flatten, UnplacedOfKind, ToListed;
    FlattenFlatten(ToListed(c), UnplacedOfKind(s, kind, reason), KindListed(c, s, kind, reason), s.order);
    FlattenFlatten(ToListed(c), UnplacedOfKind(t, kind, reason), KindListed(c, t, kind, reason), t.order);
    forall k: Place ensures KindListed(c, s, kind, reason)(k) == KindListed(c, t, kind, reason)(k) {
      KindEntry(c, p, s, t, kind, reason, k);
    }
    FlattenPermuted(KindListed(c, s, kind, reason), KindListed(c, t, kind, reason), s.order, t.order);
  }

  lemma UndrivenEntry(c: Locale, p: Policy, s: Groups, t: Groups, d: Drivers, e: Drivers, k: Place)
    requires ProjectsSettled(c, s) && GroupsOk(p, s) && GroupsOk(p, t) && SameGroups(s, t) && SameDrivers(d, e)
    requires d == AllDrivers(s)
    ensures UndrivenListed(c, s, d)(k) == UndrivenListed(c, t, e)(k)
  {
    hide ProjectsSettled, GroupsOk, UnplacedOf, Flatten;
    assert k in s.at <==> k in s.at.Keys;
    assert k in t.at <==> k in t.at.Keys;
    if IsPool(s, k) && !Driven(s, d, k) {
      SameEntryListed(c, p, s, t, k, NoDriver);
      assert UndrivenPools(s, d)(k) == [UnplacedOf(s, k, NoDriver)];
      assert UndrivenPools(t, e)(k) == [UnplacedOf(t, k, NoDriver)];
    } else {
      assert UndrivenPools(s, d)(k) == [] == UndrivenPools(t, e)(k);
    }
  }

  lemma UndrivenForgetsOrder(c: Locale, p: Policy, s: Groups, t: Groups, d: Drivers, e: Drivers)
    requires ProjectsSettled(c, s) && GroupsOk(p, s) && GroupsOk(p, t) && SameGroups(s, t)
    requires multiset(s.order) == multiset(t.order) && SameDrivers(d, e) && d == AllDrivers(s)
    ensures multiset(Flatten(ToListed(c), Flatten(UndrivenPools(s, d), s.order)))
         == multiset(Flatten(ToListed(c), Flatten(UndrivenPools(t, e), t.order)))
  {
    hide ProjectsSettled, GroupsOk, SameGroups, SameDrivers, Flatten, UndrivenPools, ToListed;
    FlattenFlatten(ToListed(c), UndrivenPools(s, d), UndrivenListed(c, s, d), s.order);
    FlattenFlatten(ToListed(c), UndrivenPools(t, e), UndrivenListed(c, t, e), t.order);
    forall k: Place ensures UndrivenListed(c, s, d)(k) == UndrivenListed(c, t, e)(k) {
      UndrivenEntry(c, p, s, t, d, e, k);
    }
    FlattenPermuted(UndrivenListed(c, s, d), UndrivenListed(c, t, e), s.order, t.order);
  }

  lemma ListingForgetsOrder(c: Locale, p: Policy, s: Groups, t: Groups)
    requires ProjectsSettled(c, s) && GroupsOk(p, s) && GroupsOk(p, t) && SameGroups(s, t)
    requires multiset(s.order) == multiset(t.order) && SameDrivers(AllDrivers(s), AllDrivers(t))
    ensures multiset(Flatten(ToListed(c), AllUnplaced(s))) == multiset(Flatten(ToListed(c), AllUnplaced(t)))
  {
    hide ProjectsSettled, GroupsOk, SameGroups, SameDrivers, UnplacedOfKind, UndrivenPools, AllDrivers, ToListed,
         Flatten;
    KindForgetsOrder(c, p, s, t, Unmatched, NoMatchingRule);
    KindForgetsOrder(c, p, s, t, ToArchived, TargetArchived);
    UndrivenForgetsOrder(c, p, s, t, AllDrivers(s), AllDrivers(t));
    ListingSplits(c, s);
    ListingSplits(c, t);
  }

  lemma ListingSplits(c: Locale, t: Groups)
    ensures Flatten(ToListed(c), AllUnplaced(t))
         == Flatten(ToListed(c), Flatten(UnplacedOfKind(t, Unmatched, NoMatchingRule), t.order))
            + Flatten(ToListed(c), Flatten(UnplacedOfKind(t, ToArchived, TargetArchived), t.order))
            + Flatten(ToListed(c), Flatten(UndrivenPools(t, AllDrivers(t)), t.order))
  {
    hide UnplacedOfKind, UndrivenPools, AllDrivers, ToListed, Flatten;
    var a := Flatten(UnplacedOfKind(t, Unmatched, NoMatchingRule), t.order);
    var b := Flatten(UnplacedOfKind(t, ToArchived, TargetArchived), t.order);
    FlattenConcat(ToListed(c), a, b);
    FlattenConcat(ToListed(c), a + b, Flatten(UndrivenPools(t, AllDrivers(t)), t.order));
  }

  // ---------------------------------------------------------------- ties keep their order

  lemma RatiosInClaims(p: Policy, t: Groups)
    requires GroupsOk(p, t)
    ensures ClaimsHaveRatios(t)
  {
    forall k | IsClaim(t, k) ensures t.at[k].rule.value.way != ProportionalToDirect {
      assert BucketOk(p, k, t.at[k]);
    }
  }

  /** The same rows in another order make the same groups. */
  lemma RunsAgree(p: Policy, a: seq<Row>, b: seq<Row>)
    requires ClaimsAgree(p, a) && RowsCanonical(a) && multiset(a) == multiset(b)
    ensures RowsCanonical(b) && HasSources(a) && HasSources(b)
    ensures GroupsOk(p, Group(p, a)) && GroupsOk(p, Group(p, b))
    ensures ClaimsHaveRatios(Group(p, a)) && ClaimsHaveRatios(Group(p, b))
    ensures SameGroups(Group(p, a), Group(p, b)) && SameGroups(Group(p, b), Group(p, a))
  {
    hide Group, GroupsOk, SameGroups, ClaimsAgree, ClaimsHaveRatios;
    RowsPermuted(a, b);
    RowsHaveSources(a);
    RowsHaveSources(b);
    GroupIsOk(p, a);
    GroupIsOk(p, b);
    RatiosInClaims(p, Group(p, a));
    RatiosInClaims(p, Group(p, b));
    GroupsForgetOrder(p, a, b);
    SameSymmetric(Group(p, a), Group(p, b));
  }

  lemma LedSomewhere(p: Policy, t: Groups, rows: seq<Row>, q: Line -> bool, r: Line -> bool) returns (x: Row)
    requires SameGroups(t, Group(p, rows)) && Reaches(AllClaimLines(Group(p, rows)), q, r)
    ensures x in rows && Reaches(Led(p, t, x), q, r)
  {
    hide Group, ShareLines, SameGroups, Led, PlaceOf;
    var s := Group(p, rows);
    var k := ReachedInSome(ClaimLines(s), s.order, q, r);
    assert IsClaim(s, k);
    x := ClaimIsLed(p, rows, t, k);
  }

  /** Two claimed lines that tie and come in both orders show that claims tie. */
  lemma ClaimsTieFound(c: Locale, p: Policy, a: seq<Row>, b: seq<Row>, l: Line, m: Line)
    requires multiset(a) == multiset(b) && SameGroups(Group(p, a), Group(p, b)) && Tied(LineOrder(c), l, m)
    requires Ahead(AllClaimLines(Group(p, a)), l, m) && Ahead(AllClaimLines(Group(p, b)), m, l)
    ensures ClaimsTie(c, p, a)
  {
    hide Group, AllClaimLines, SameGroups, Led, Reaches, Tied;
    SameMembers(a, b);
    SameReflexive(Group(p, a));
    var x := LedSomewhere(p, Group(p, a), a, Is(l), Is(m));
    var y := LedSomewhere(p, Group(p, a), b, Is(m), Is(l));
    assert ClaimsTieAt(c, p, Group(p, a), x, y, l, m);
  }

  lemma ClaimTiesKept(c: Locale, p: Policy, a: seq<Row>, b: seq<Row>)
    requires !ClaimsTie(c, p, a) && multiset(a) == multiset(b) && SameGroups(Group(p, a), Group(p, b))
    requires multiset(AllClaimLines(Group(p, a))) == multiset(AllClaimLines(Group(p, b)))
    ensures TiesKept(LineOrder(c), AllClaimLines(Group(p, a)), AllClaimLines(Group(p, b)))
  {
    hide Group, AllClaimLines, SameGroups, Reaches, Tied, ClaimsTie;
    var s, t := Group(p, a), Group(p, b);
    SameMembers(AllClaimLines(s), AllClaimLines(t));
    forall l, m | l in AllClaimLines(s) && Tied(LineOrder(c), l, m) && Ahead(AllClaimLines(s), l, m)
      ensures Ahead(AllClaimLines(t), l, m)
    {
      AheadIsIn(AllClaimLines(s), l, m);
      OneIsAhead(AllClaimLines(t), l, m);
      if Ahead(AllClaimLines(t), m, l) {
        ClaimsTieFound(c, p, a, b, l, m);
      }
    }
  }

  /** Every line has the identity of some row. */
  lemma LineIdentity(p: Policy, rows: seq<Row>, l: Line) returns (x: Row)
    requires HasSources(rows) && l in AllLines(Group(p, rows))
    ensures x in rows && x.identity == l.item.identity
  {
    hide Group, AllLines, AllDrivers, ClaimLineOf, PoolLineOf;
    GroupIsOk(p, rows);
    var k := LineFrom(Group(p, rows), l);
    LinePlace(Group(p, rows), l, k);
    x := PlaceIdentity(p, rows, k);
  }

  lemma LinePlace(t: Groups, l: Line, k: Place)
    requires ClaimLineOf(t, k, l) || PoolLineOf(t, AllDrivers(t), k, l)
    ensures k in t.at && l.item.identity == k.identity
  {
    hide AllDrivers;
  }

  /** Lines that tie have one identity, as no two of the rows' do. */
  lemma TiedLines(c: Locale, p: Policy, rows: seq<Row>, l: Line, m: Line)
    requires !IdentitiesTie(c, rows) && HasSources(rows) && Tied(LineOrder(c), l, m)
    requires l in AllLines(Group(p, rows)) && m in AllLines(Group(p, rows))
    ensures l.item.identity == m.item.identity && l.version == m.version
  {
    hide Group, AllLines;
    var x := LineIdentity(p, rows, l);
    var y := LineIdentity(p, rows, m);
    TiedSpot(c, l, m);
    assert !Ties(c, x, y);
  }

  lemma TiedSpot(c: Locale, l: Line, m: Line)
    requires Tied(LineOrder(c), l, m)
    ensures c.name(l.item.identity.currency) == c.name(m.item.identity.currency)
    ensures c.name(l.item.identity.basis) == c.name(m.item.identity.basis) && l.version == m.version
  {
  }

  /** Where a pooled line and one of the same name and identity are listed. */
  lemma PoolOfBoth(p: Policy, t: Groups, l: Line, m: Line) returns (k: Place)
    requires GroupsOk(p, t) && l in PooledLines(t) && m in PooledLines(t)
    requires l.item.identity == m.item.identity && l.ruleId == m.ruleId && l.version == m.version
    ensures k in t.order && Driven(t, AllDrivers(t), k) && k.identity == l.item.identity
    ensures l in PoolLines(t, AllDrivers(t))(k) && m in PoolLines(t, AllDrivers(t))(k)
    ensures forall n :: n in t.order && (l in PoolLines(t, AllDrivers(t))(n) || m in PoolLines(t, AllDrivers(t))(n))
              ==> n == k
  {
    hide AllDrivers, PoolLines, GroupsOk;
    var f := PoolLines(t, AllDrivers(t));
    InFlatten(f, t.order, l);
    InFlatten(f, t.order, m);
    k :| k in t.order && l in f(k);
    var k' :| k' in t.order && m in f(k');
    PoolMadeAt(p, t, k, l);
    PoolMadeAt(p, t, k', m);
    forall n | n in t.order && (l in f(n) || m in f(n)) ensures n == k {
      if l in f(n) {
        PoolMadeAt(p, t, n, l);
      } else {
        PoolMadeAt(p, t, n, m);
      }
    }
  }

  /** Two lines of one pool come as claimed lines reach their centres. */
  lemma PooledAsReached(p: Policy, t: Groups, l: Line, m: Line)
    requires GroupsOk(p, t) && l in PooledLines(t) && m in PooledLines(t) && l != m
    requires l.item.identity == m.item.identity && l.ruleId == m.ruleId && l.version == m.version
    ensures Ahead(PooledLines(t), l, m)
       <==> Reaches(AllClaimLines(t), DrivesTo(l.item.identity, l.centre), DrivesTo(l.item.identity, m.centre))
  {
    hide AllDrivers, PoolLines, GroupsOk, Reaches, AllClaimLines;
    var k := PoolOfBoth(p, t, l, m);
    AheadAtHome(PoolLines(t, AllDrivers(t)), t.order, k, l, m);
    PoolAsDriven(t, k, l, m);
  }

  /** Two lines of one pool that tie and come in both orders show that drivers tie. */
  lemma DriversTieFound(c: Locale, p: Policy, a: seq<Row>, b: seq<Row>, l: Line, m: Line)
    requires GroupsOk(p, Group(p, a)) && GroupsOk(p, Group(p, b))
    requires multiset(a) == multiset(b) && SameGroups(Group(p, a), Group(p, b)) && Tied(LineOrder(c), l, m)
    requires l in PooledLines(Group(p, a)) && m in PooledLines(Group(p, a)) && m in PooledLines(Group(p, b))
    requires l.item.identity == m.item.identity && l.ruleId == m.ruleId && l.version == m.version
    requires l in PooledLines(Group(p, b))
    requires Ahead(PooledLines(Group(p, a)), l, m) && Ahead(PooledLines(Group(p, b)), m, l)
    ensures DriversTie(c, p, a)
  {
    hide Group, AllClaimLines, PooledLines, SameGroups, GroupsOk, Led, Reaches, Tied;
    var s, id := Group(p, a), l.item.identity;
    SameMembers(a, b);
    SameReflexive(s);
    AheadIsIn(PooledLines(s), l, m);
    PooledAsReached(p, s, l, m);
    PooledAsReached(p, Group(p, b), m, l);
    var x := LedSomewhere(p, s, a, DrivesTo(id, l.centre), DrivesTo(id, m.centre));
    var y := LedSomewhere(p, s, b, DrivesTo(id, m.centre), DrivesTo(id, l.centre));
    assert DriversTieAt(c, p, s, x, y, l, m);
  }

  lemma PoolTiesKept(c: Locale, p: Policy, a: seq<Row>, b: seq<Row>)
    requires !IdentitiesTie(c, a) && !PoolsTie(c, Group(p, a)) && !DriversTie(c, p, a) && HasSources(a)
    requires GroupsOk(p, Group(p, a)) && GroupsOk(p, Group(p, b))
    requires multiset(a) == multiset(b) && SameGroups(Group(p, a), Group(p, b))
    requires multiset(PooledLines(Group(p, a))) == multiset(PooledLines(Group(p, b)))
    ensures TiesKept(LineOrder(c), PooledLines(Group(p, a)), PooledLines(Group(p, b)))
  {
    hide Group, PooledLines, SameGroups, GroupsOk, Reaches, Tied, IdentitiesTie, DriversTie, HasSources;
    var s, t := Group(p, a), Group(p, b);
    SameMembers(PooledLines(s), PooledLines(t));
    forall l, m | l in PooledLines(s) && m in PooledLines(s) && Tied(LineOrder(c), l, m) && Ahead(PooledLines(s), l, m)
      ensures Ahead(PooledLines(t), l, m)
    {
      LinesInParts(s);
      TiedLines(c, p, a, l, m);
      assert l.ruleId == m.ruleId;
      AheadIsIn(PooledLines(s), l, m);
      OneIsAhead(PooledLines(t), l, m);
      if Ahead(PooledLines(t), m, l) {
        DriversTieFound(c, p, a, b, l, m);
      }
    }
  }

  /** The lines are sorted alike. */
  lemma LinesSortAlike(c: Locale, p: Policy, a: seq<Row>, b: seq<Row>)
    requires !TiesShow(c, p, a) && PolicyOk(p) && HasSources(a) && multiset(a) == multiset(b)
    requires GroupsOk(p, Group(p, a)) && GroupsOk(p, Group(p, b))
    requires ClaimsHaveRatios(Group(p, a)) && SameGroups(Group(p, a), Group(p, b))
    ensures Sort(LineOrder(c), AllLines(Group(p, a))) == Sort(LineOrder(c), AllLines(Group(p, b)))
  {
    hide Group, AllClaimLines, PooledLines, SameGroups, PolicyOk, ClaimsTie, PoolsTie, DriversTie, EntriesTie,
         ProjectsTie, IdentitiesTie, HasSources, TiesKept, Orders, Distinct, BucketOk, ClaimsHaveRatios;
    var s, t := Group(p, a), Group(p, b);
    LinesForgetOrder(s, t);
    ClaimTiesKept(c, p, a, b);
    PoolTiesKept(c, p, a, b);
    LinesDistinct(p, s);
    LinesInParts(s);
    LinesInParts(t);
    PartsKeepTies(LineOrder(c), AllClaimLines(s), PooledLines(s), AllClaimLines(t), PooledLines(t));
    LineOrders(c);
    SortsAlikeExactly(LineOrder(c), AllLines(s), AllLines(t));
  }

  // ---------------------------------------------------------------- buckets

  lemma TallyAtOne(a: seq<Item>, b: seq<Item>, id: Identity)
    requires multiset(a) == multiset(b) && CanonicalItems(a) && CanonicalItems(b) && id in Tally(a).at
    ensures id in Tally(b).at && Tally(a).at[id] == Tally(b).at[id]
  {
    hide Tally, Canonical, Value, Ok;
    TallyMeans(a, id);
    TallyMeans(b, id);
    TallyCanonical(a);
    TallyCanonical(b);
    SameMembers(a, b);
    TotalPermuted(AmountIn(id), a, b);
    SourcesPermuted(id, a, b);
    var k :| 0 <= k < |a| && a[k].identity == id;
    assert a[k] in b;
    CanonicalUnique(Tally(a).at[id].amount, Tally(b).at[id].amount);
  }

  lemma TallyForgetsOrder(a: seq<Item>, b: seq<Item>)
    requires multiset(a) == multiset(b) && CanonicalItems(a) && CanonicalItems(b)
    ensures Tally(a).at == Tally(b).at && Ok(Tally(a)) && Ok(Tally(b))
    ensures multiset(Tally(a).order) == multiset(Tally(b).order)
  {
    hide Tally, CanonicalItems, Value, SourcesIn;
    TallyMeans(a, Identity("", ""));
    TallyMeans(b, Identity("", ""));
    forall id | id in Tally(a).at ensures id in Tally(b).at && Tally(a).at[id] == Tally(b).at[id] {
      TallyAtOne(a, b, id);
    }
    forall id | id in Tally(b).at ensures id in Tally(a).at {
      TallyAtOne(b, a, id);
    }
    SameElements(Tally(a).order, Tally(b).order);
  }

  /** The collation ties no two identities of a listing. */
  ghost predicate IdentitiesApart(c: Locale, items: seq<Item>) {
    forall x, y :: x in items && y in items && SameSpot(c, x, y) ==> x.identity == y.identity
  }

  lemma BucketsForgetOrder(c: Locale, a: seq<Item>, b: seq<Item>)
    requires IdentitiesApart(c, a) && multiset(a) == multiset(b) && CanonicalItems(a) && CanonicalItems(b)
    ensures ByIdentity(c, Tally(a)) == ByIdentity(c, Tally(b))
  {
    hide Tally, CanonicalItems, Orders, IdentitiesApart, Ok, Flatten;
    var s, t := Tally(a), Tally(b);
    TallyForgetsOrder(a, b);
    FlattenPermuted(Entry(s), Entry(t), s.order, t.order);
    ItemOrders(c);
    EntriesDoNotTie(c, a);
    SortForgetsOrder(ItemOrder(c), Flatten(Entry(s), s.order), Flatten(Entry(t), t.order));
  }

  /** An entry is told by its identity, which some item has. */
  lemma EntryFrom(items: seq<Item>, x: Item) returns (y: Item)
    requires CanonicalItems(items) && x in Flatten(Entry(Tally(items)), Tally(items).order)
    ensures y in items && y.identity == x.identity
    ensures x == Item(y.identity, AmountAt(Tally(items), y.identity), SourcesAt(Tally(items), y.identity))
  {
    hide Flatten, Tally, CanonicalItems, AmountAt, SourcesAt;
    var t := Tally(items);
    TallyMeans(items, Identity("", ""));
    TallyCanonical(items);
    EntriesAt(t, t.order);
    var entries := Flatten(Entry(t), t.order);
    var i :| 0 <= i < |entries| && entries[i] == x;
    assert x.identity in t.at;
    var m :| 0 <= m < |items| && items[m].identity == x.identity;
    y := items[m];
  }

  lemma EntriesDoNotTie(c: Locale, items: seq<Item>)
    requires IdentitiesApart(c, items) && CanonicalItems(items)
    ensures NoTies(ItemOrder(c), Flatten(Entry(Tally(items)), Tally(items).order))
  {
    hide Flatten, Tally, CanonicalItems, AmountAt, SourcesAt;
    var entries := Flatten(Entry(Tally(items)), Tally(items).order);
    forall x, y | x in entries && y in entries && x != y ensures ItemOrder(c)(x, y) || ItemOrder(c)(y, x) {
      var a := EntryFrom(items, x);
      var b := EntryFrom(items, y);
    }
  }

  /** Every identity of a listing is one of the rows'. */
  ghost predicate OfRows(rows: seq<Row>, items: seq<Item>) {
    forall x :: x in items ==> exists r :: r in rows && r.identity == x.identity
  }

  lemma ApartAsRows(c: Locale, rows: seq<Row>, items: seq<Item>)
    requires !IdentitiesTie(c, rows) && OfRows(rows, items)
    ensures IdentitiesApart(c, items)
  {
    forall x, y | x in items && y in items && SameSpot(c, x, y) ensures x.identity == y.identity {
      var r :| r in rows && r.identity == x.identity;
      var q :| q in rows && q.identity == y.identity;
      assert !Ties(c, r, q);
    }
  }

  lemma RowItemsOfRows(rows: seq<Row>)
    ensures OfRows(rows, RowItems(rows))
  {
    RowItemsAt(rows);
    forall x | x in RowItems(rows) ensures exists r :: r in rows && r.identity == x.identity {
      var i :| 0 <= i < |RowItems(rows)| && RowItems(rows)[i] == x;
      assert rows[i] in rows;
    }
  }

  lemma LineItemsOfRows(p: Policy, rows: seq<Row>)
    requires HasSources(rows)
    ensures OfRows(rows, LineItems(AllLines(Group(p, rows))))
  {
    hide Group, AllLines, LineItems, HasSources;
    var lines := AllLines(Group(p, rows));
    forall x | x in LineItems(lines) ensures exists r :: r in rows && r.identity == x.identity {
      InFlattenOf(lines, x);
      var l :| l in lines && l.item == x;
      var r := LineIdentity(p, rows, l);
    }
  }

  lemma UnplacedItemsOfRows(p: Policy, rows: seq<Row>)
    ensures OfRows(rows, UnplacedInOrder(Group(p, rows)))
  {
    hide Group, AllUnplaced, UnplacedItems, UnplacedInOrder, AllDrivers;
    var t := Group(p, rows);
    UnplacedOrder(t);
    SameMembers(UnplacedInOrder(t), UnplacedItems(AllUnplaced(t)));
    forall x | x in UnplacedInOrder(t) ensures exists r :: r in rows && r.identity == x.identity {
      InUnplacedItems(AllUnplaced(t), x);
      var u :| u in AllUnplaced(t) && u.item == x;
      var k := UnplacedComesFrom(t, u);
      var r := PlaceIdentity(p, rows, k);
    }
  }

  lemma InFlattenOf(lines: seq<Line>, x: Item)
    ensures x in LineItems(lines) <==> exists l :: l in lines && l.item == x
  {
    InFlatten(LineItem(), lines, x);
    assert forall l: Line :: x in LineItem()(l) <==> l.item == x;
  }

  lemma InUnplacedItems(us: seq<Unplaced>, x: Item)
    ensures x in UnplacedItems(us) <==> exists u :: u in us && u.item == x
  {
    InFlatten(UnplacedItem(), us, x);
    assert forall u: Unplaced :: x in UnplacedItem()(u) <==> u.item == x;
  }

  // ---------------------------------------------------------------- the main result

  lemma UnplacedOrder(t: Groups)
    ensures multiset(UnplacedInOrder(t)) == multiset(UnplacedItems(AllUnplaced(t)))
  {
    hide UnplacedOfKind, UndrivenPools, AllDrivers, Flatten, UnplacedItem;
    var a := Flatten(UnplacedOfKind(t, Unmatched, NoMatchingRule), t.order);
    var b := Flatten(UnplacedOfKind(t, ToArchived, TargetArchived), t.order);
    var und := Flatten(UndrivenPools(t, AllDrivers(t)), t.order);
    assert multiset(und + a + b) == multiset(a + b + und);
    FlattenPermuted(UnplacedItem(), UnplacedItem(), und + a + b, a + b + und);
  }

  lemma UnplacedItemsForgetOrder(c: Locale, s: Groups, t: Groups)
    requires multiset(Flatten(ToListed(c), AllUnplaced(s))) == multiset(Flatten(ToListed(c), AllUnplaced(t)))
    ensures multiset(UnplacedItems(AllUnplaced(s))) == multiset(UnplacedItems(AllUnplaced(t)))
  {
    hide AllUnplaced, Flatten, ToListed, UnplacedItems, ListedItem;
    ListedItemsAre(c, AllUnplaced(s));
    ListedItemsAre(c, AllUnplaced(t));
    FlattenPermuted(ListedItem(), ListedItem(),
                    Flatten(ToListed(c), AllUnplaced(s)), Flatten(ToListed(c), AllUnplaced(t)));
  }

  lemma LineItemsCanonical(p: Policy, t: Groups)
    requires PolicyOk(p) && GroupsOk(p, t)
    ensures CanonicalItems(LineItems(AllLines(t))) && CanonicalItems(UnplacedItems(AllUnplaced(t)))
  {
    hide PolicyOk, GroupsOk, AllLines, AllUnplaced, LineItems, UnplacedItems, Canonical, SumsOk, UnplacedTally;
    LineSumsOk(p, t);
    assert forall i :: 0 <= i < |AllLines(t)| ==> LineOk(AllLines(t)[i]);
    ItemsOfLines(AllLines(t));
    UnplacedSumsOk(p, t);
    assert forall i :: 0 <= i < |AllUnplaced(t)| ==> ItemOk(AllUnplaced(t)[i].item);
    ItemsOfUnplaced(AllUnplaced(t));
  }

  lemma RowItemsCanonical(rows: seq<Row>)
    requires RowsCanonical(rows)
    ensures CanonicalItems(RowItems(rows))
  {
    hide RowItems, Canonical;
    RowItemsAt(rows);
  }

  /** The totals by identity are listed alike. */
  lemma BucketsOfRunsAgree(c: Locale, p: Policy, a: seq<Row>, b: seq<Row>)
    requires !IdentitiesTie(c, a) && PolicyOk(p) && RowsCanonical(a) && RowsCanonical(b) && multiset(a) == multiset(b)
    requires GroupsOk(p, Group(p, a)) && GroupsOk(p, Group(p, b))
    requires multiset(AllLines(Group(p, a))) == multiset(AllLines(Group(p, b)))
    requires multiset(UnplacedItems(AllUnplaced(Group(p, a)))) == multiset(UnplacedItems(AllUnplaced(Group(p, b))))
    ensures ByIdentity(c, Tally(RowItems(a))) == ByIdentity(c, Tally(RowItems(b)))
    ensures ByIdentity(c, Tally(LineItems(AllLines(Group(p, a)))))
            == ByIdentity(c, Tally(LineItems(AllLines(Group(p, b)))))
    ensures ByIdentity(c, UnplacedTally(Group(p, a))) == ByIdentity(c, UnplacedTally(Group(p, b)))
  {
    hide IdentitiesTie, IdentitiesApart, OfRows, PolicyOk, GroupsOk, RowsCanonical, AllLines, Group, Tally, ByIdentity,
         CanonicalItems, UnplacedInOrder, Flatten, RowItem, LineItem, UnplacedItems, AllUnplaced, HasSources;
    RowsHaveSources(a);
    FlattenPermuted(RowItem(), RowItem(), a, b);
    RowItemsCanonical(a);
    RowItemsCanonical(b);
    RowItemsOfRows(a);
    ApartAsRows(c, a, RowItems(a));
    BucketsForgetOrder(c, RowItems(a), RowItems(b));
    LineItemsCanonical(p, Group(p, a));
    LineItemsCanonical(p, Group(p, b));
    LineItemsOfRows(p, a);
    ApartAsRows(c, a, LineItems(AllLines(Group(p, a))));
    FlattenPermuted(LineItem(), LineItem(), AllLines(Group(p, a)), AllLines(Group(p, b)));
    BucketsForgetOrder(c, LineItems(AllLines(Group(p, a))), LineItems(AllLines(Group(p, b))));
    UnplacedOrder(Group(p, a));
    UnplacedOrder(Group(p, b));
    CanonicalPermuted(Group(p, a));
    CanonicalPermuted(Group(p, b));
    UnplacedItemsOfRows(p, a);
    ApartAsRows(c, a, UnplacedInOrder(Group(p, a)));
    BucketsForgetOrder(c, UnplacedInOrder(Group(p, a)), UnplacedInOrder(Group(p, b)));
  }

  lemma CanonicalPermuted(t: Groups)
    requires CanonicalItems(UnplacedItems(AllUnplaced(t)))
    ensures CanonicalItems(UnplacedInOrder(t))
  {
    hide UnplacedInOrder, UnplacedItems, AllUnplaced, Canonical;
    UnplacedOrder(t);
    SameMembers(UnplacedInOrder(t), UnplacedItems(AllUnplaced(t)));
    assert forall x :: x in UnplacedItems(AllUnplaced(t)) ==> Canonical(x.amount);
    assert forall i :: 0 <= i < |UnplacedInOrder(t)| ==> UnplacedInOrder(t)[i] in UnplacedItems(AllUnplaced(t));
  }

  /** Entries of one reason do not tie, so their part of the listing has no order to keep. */
  lemma PartKeepsTies(c: Locale, t: Groups, part: seq<Unplaced>, other: seq<Listed>)
    requires !EntriesTie(c, t) && (forall u :: u in part ==> u in AllUnplaced(t))
    requires forall u, v :: u in part && v in part ==> u.reason == v.reason
    ensures TiesKept(ListedOrder(c), Flatten(ToListed(c), part), other)
  {
    hide AllUnplaced, ListedFirst, TopProjects, Reaches;
    var listed := Flatten(ToListed(c), part);
    forall x, y | x in listed && y in listed && Tied(ListedOrder(c), x, y) ensures !Ahead(listed, x, y) {
      InFlatten(ToListed(c), part, x);
      InFlatten(ToListed(c), part, y);
      var u :| u in part && x in ToListed(c)(u);
      var v :| v in part && y in ToListed(c)(v);
      assert u == v;
      if Ahead(listed, x, y) {
        AheadIsIn(listed, x, y);
      }
    }
  }

  lemma ListedReasons(c: Locale, part: seq<Unplaced>, reason: Reason)
    requires forall u :: u in part ==> u.reason == reason
    ensures forall x :: x in Flatten(ToListed(c), part) ==> x.reason == reason
  {
    hide TopProjects;
    forall x | x in Flatten(ToListed(c), part) ensures x.reason == reason {
      InFlatten(ToListed(c), part, x);
    }
  }

  /** The unplaced entries are sorted alike. */
  lemma ListedSortAlike(c: Locale, p: Policy, a: seq<Row>, b: seq<Row>)
    requires !EntriesTie(c, Group(p, a)) && ProjectsSettled(c, Group(p, a)) && HasSources(a) && RowsDisjoint(a)
    requires GroupsOk(p, Group(p, a)) && GroupsOk(p, Group(p, b)) && SameGroups(Group(p, a), Group(p, b))
    requires multiset(Group(p, a).order) == multiset(Group(p, b).order)
    requires SameDrivers(AllDrivers(Group(p, a)), AllDrivers(Group(p, b)))
    ensures multiset(Flatten(ToListed(c), AllUnplaced(Group(p, a))))
         == multiset(Flatten(ToListed(c), AllUnplaced(Group(p, b))))
    ensures Sort(ListedOrder(c), Flatten(ToListed(c), AllUnplaced(Group(p, a))))
         == Sort(ListedOrder(c), Flatten(ToListed(c), AllUnplaced(Group(p, b))))
  {
    hide Group, GroupsOk, SameGroups, SameDrivers, ProjectsSettled, EntriesTie, HasSources, RowsDisjoint, AllDrivers,
         UnplacedOfKind, UndrivenPools, ToListed, Flatten, TiesKept, Orders, Distinct, Sort;
    var s, t := Group(p, a), Group(p, b);
    var f, g := ToListed(c), ListedOrder(c);
    var a1, b1 := Flatten(UnplacedOfKind(s, Unmatched, NoMatchingRule), s.order),
                  Flatten(UnplacedOfKind(t, Unmatched, NoMatchingRule), t.order);
    var a2, b2 := Flatten(UnplacedOfKind(s, ToArchived, TargetArchived), s.order),
                  Flatten(UnplacedOfKind(t, ToArchived, TargetArchived), t.order);
    var a3, b3 := Flatten(UndrivenPools(s, AllDrivers(s)), s.order), Flatten(UndrivenPools(t, AllDrivers(t)), t.order);
    KindForgetsOrder(c, p, s, t, Unmatched, NoMatchingRule);
    KindForgetsOrder(c, p, s, t, ToArchived, TargetArchived);
    UndrivenForgetsOrder(c, p, s, t, AllDrivers(s), AllDrivers(t));
    ReasonsOfParts(s);
    ListedReasons(c, a1, NoMatchingRule);
    ListedReasons(c, a2, TargetArchived);
    ListedReasons(c, a3, NoDriver);
    PartKeepsTies(c, s, a1, Flatten(f, b1));
    PartKeepsTies(c, s, a2, Flatten(f, b2));
    PartKeepsTies(c, s, a3, Flatten(f, b3));
    PartsKeepTies(g, Flatten(f, a1), Flatten(f, a2), Flatten(f, b1), Flatten(f, b2));
    PartsKeepTies(g, Flatten(f, a1) + Flatten(f, a2), Flatten(f, a3), Flatten(f, b1) + Flatten(f, b2), Flatten(f, b3));
    ListingSplits(c, s);
    ListingSplits(c, t);
    ListedDistinct(c, p, a);
    ListedOrders(c);
    SortsAlikeExactly(g, Flatten(f, AllUnplaced(s)), Flatten(f, AllUnplaced(t)));
  }

  /** Rows in any order are refused alike if no two of them are in conflict. */
  lemma RefusedAlike(p: Policy, a: seq<Row>, b: seq<Row>)
    requires ClaimsAgree(p, a) && RowsCanonical(a) && multiset(a) == multiset(b)
    ensures Refused(Group(p, a)) <==> Refused(Group(p, b))
  {
    hide *;
    var s, t := Group(p, a), Group(p, b);
    RunsAgree(p, a, b);
    GroupsAreTables(p, s);
    GroupsAreTables(p, t);
    if Refused(s) {
      RefusalForgetsOrder(s, t);
    }
    if Refused(t) {
      RefusalForgetsOrder(t, s);
    }
  }

  /** Rows in any order give the same lines, unplaced entries, buckets and top projects, if no two of them are
      in conflict and no tie shows their order. */
  lemma RowOrderDoesNotMatter(c: Locale, p: Policy, a: seq<Row>, b: seq<Row>)
    requires ClaimsAgree(p, a) && !TiesShow(c, p, a)
    requires PolicyOk(p) && RowsCanonical(a) && RowsDisjoint(a) && multiset(a) == multiset(b)
    ensures ResultOf(c, p, a) == ResultOf(c, p, b)
  {
    hide *;
    var s, t := Group(p, a), Group(p, b);
    RunsAgree(p, a, b);
    GroupsAreTables(p, s);
    GroupsAreTables(p, t);
    LinesForgetOrder(s, t);
    NoneShows(c, p, a);
    LinesSortAlike(c, p, a, b);
    ProjectsAreSettled(c, p, s);
    ListedSortAlike(c, p, a, b);
    UnplacedItemsForgetOrder(c, s, t);
    RowsPermuted(a, b);
    BucketsOfRunsAgree(c, p, a, b);
    ResultAssembled(c, p, a);
    ResultAssembled(c, p, b);
  }

  lemma NoneShows(c: Locale, p: Policy, rows: seq<Row>)
    requires !TiesShow(c, p, rows)
    ensures !IdentitiesTie(c, rows) && !EntriesTie(c, Group(p, rows)) && !ProjectsTie(c, Group(p, rows))
  {
  }

  lemma RowsPermuted(a: seq<Row>, b: seq<Row>)
    requires RowsCanonical(a) && multiset(a) == multiset(b)
    ensures RowsCanonical(b) && Bases(a) == Bases(b)
  {
    hide Canonical;
    SameMembers(a, b);
    assert forall i :: 0 <= i < |b| ==> b[i] in a;
    forall x ensures x in Bases(a) <==> x in Bases(b) {
      if i: nat :| i < |a| && a[i].identity.basis == x {
        assert a[i] in b;
      }
      if i: nat :| i < |b| && b[i].identity.basis == x {
        assert b[i] in a;
      }
    }
  }
}
