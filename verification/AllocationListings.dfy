/** How the listings of an allocation result are ordered, and what they list. */
module AllocationListings {
  import opened Money
  import opened Tables
  import opened ArrivalOrder
  import opened Holdings
  import opened AllocationRules
  import opened AllocationGroups
  import opened AllocationLines
  import opened AllocationRun
  import opened AllocationDeterminism

  /** Compared element by element, the first difference decides. */
  ghost predicate LexBefore(a: seq<real>, b: seq<real>) {
    a != [] && b != [] && (a[0] < b[0] || (a[0] == b[0] && LexBefore(a[1..], b[1..])))
  }

  ghost function SpotKey(c: Locale, id: Identity): seq<real> { [c.name(id.currency), c.name(id.basis)] }

  ghost function LineKey(c: Locale, l: Line): seq<real> {
    SpotKey(c, l.item.identity) + [c.name(l.ruleId), l.version as real, c.name(l.centre)]
  }

  ghost function ReasonText(r: Reason): string {
    if r == NoMatchingRule then "no_matching_rule"
    else if r == TargetArchived then "target_cost_centre_archived"
    else "no_driver_for_proportional_pool"
  }

  ghost function ListedKey(c: Locale, e: Listed): seq<real> {
    SpotKey(c, e.item.identity) + [c.name(ReasonText(e.reason)), c.lineage(e.item.sources)]
  }

  /** No entry is listed behind one it precedes. */
  ghost predicate InOrder<T(!new)>(key: T -> seq<real>, s: seq<T>) {
    forall i, j :: 0 <= i < j < |s| ==> !LexBefore(key(s[j]), key(s[i]))
  }

  lemma LexOne(a: real, x: real)
    ensures LexBefore([a], [x]) <==> a < x
  {
    assert !LexBefore([a][1..], [x][1..]);
  }

  lemma LexTwo(a: real, b: real, x: real, y: real)
    ensures LexBefore([a, b], [x, y]) <==> a < x || (a == x && b < y)
  {
    LexOne(b, y);
    assert [a, b][1..] == [b] && [x, y][1..] == [y];
  }

  lemma LexPrefix(p: seq<real>, q: seq<real>, a: seq<real>, b: seq<real>)
    requires |p| == |q| == 2
    ensures LexBefore(p + a, q + b) <==> LexBefore(p, q) || (p == q && LexBefore(a, b))
  {
    LexTwo(p[0], p[1], q[0], q[1]);
    assert p == [p[0], p[1]] && q == [q[0], q[1]];
    var s, t := p + a, q + b;
    assert s[1..][1..] == a && t[1..][1..] == b && s[1..][0] == p[1] && t[1..][0] == q[1];
  }

  lemma LexThree(a: real, b: real, d: real, x: real, y: real, z: real)
    ensures LexBefore([a, b, d], [x, y, z]) <==> a < x || (a == x && (b < y || (b == y && d < z)))
  {
    LexTwo(b, d, y, z);
    assert [a, b, d][1..] == [b, d] && [x, y, z][1..] == [y, z];
  }

  lemma ItemByKey(c: Locale, a: Item, b: Item)
    ensures ItemFirst(c, a, b) <==> LexBefore(SpotKey(c, a.identity), SpotKey(c, b.identity))
    ensures SameSpot(c, a, b) <==> SpotKey(c, a.identity) == SpotKey(c, b.identity)
  {
    LexTwo(c.name(a.identity.currency), c.name(a.identity.basis), c.name(b.identity.currency),
           c.name(b.identity.basis));
    assert SpotKey(c, a.identity) == SpotKey(c, b.identity)
      <==> && SpotKey(c, a.identity)[0] == SpotKey(c, b.identity)[0]
           && SpotKey(c, a.identity)[1] == SpotKey(c, b.identity)[1];
  }

  lemma LineByKey(c: Locale, l: Line, m: Line)
    ensures LineFirst(c, l, m) <==> LexBefore(LineKey(c, l), LineKey(c, m))
  {
    hide ItemFirst, SameSpot, SpotKey;
    ItemByKey(c, l.item, m.item);
    KeysAreTwo(c, l.item, m.item);
    LexPrefix(SpotKey(c, l.item.identity), SpotKey(c, m.item.identity),
              [c.name(l.ruleId), l.version as real, c.name(l.centre)],
              [c.name(m.ruleId), m.version as real, c.name(m.centre)]);
    LexThree(c.name(l.ruleId), l.version as real, c.name(l.centre),
             c.name(m.ruleId), m.version as real, c.name(m.centre));
  }

  lemma KeysAreTwo(c: Locale, a: Item, b: Item)
    ensures |SpotKey(c, a.identity)| == |SpotKey(c, b.identity)| == 2
  {
  }

  lemma ListedByKey(c: Locale, e: Listed, g: Listed)
    ensures ListedFirst(c, e, g) <==> LexBefore(ListedKey(c, e), ListedKey(c, g))
  {
    hide ItemFirst, SameSpot, SpotKey;
    ItemByKey(c, e.item, g.item);
    KeysAreTwo(c, e.item, g.item);
    LexPrefix(SpotKey(c, e.item.identity), SpotKey(c, g.item.identity),
              [c.name(ReasonText(e.reason)), c.lineage(e.item.sources)],
              [c.name(ReasonText(g.reason)), c.lineage(g.item.sources)]);
    LexTwo(c.name(ReasonText(e.reason)), c.lineage(e.item.sources), c.name(ReasonText(g.reason)),
           c.lineage(g.item.sources));
  }

  /** What the lists of a result hold: the lines and the entries of the groups, in order of their keys; and
      one bucket for each currency and basis that was added to, in order too. */
  lemma ResultIsListed(c: Locale, p: Policy, rows: seq<Row>)
    ensures var r, t := ResultOf(c, p, rows), Group(p, rows);
            && multiset(r.lines) == multiset(AllLines(t)) && InOrder((l: Line) => LineKey(c, l), r.lines)
            && multiset(r.unplaced) == multiset(Flatten(ToListed(c), AllUnplaced(t)))
            && InOrder((e: Listed) => ListedKey(c, e), r.unplaced)
            && InOrder((i: Item) => SpotKey(c, i.identity), r.totalBy)
            && InOrder((i: Item) => SpotKey(c, i.identity), r.allocatedBy)
            && InOrder((i: Item) => SpotKey(c, i.identity), r.unallocatedBy)
  {
    hide AllLines, Group, AllUnplaced, LineFirst, ListedFirst, ItemFirst, LexBefore, LineKey, ListedKey, SpotKey,
         ToListed, Flatten, Tally, RowItems, LineItems, UnplacedTally, Sort, Entry;
    var t := Group(p, rows);
    var lines, listed := AllLines(t), Flatten(ToListed(c), AllUnplaced(t));
    LineOrders(c);
    SortSorts(LineOrder(c), lines);
    forall l, m ensures LineFirst(c, l, m) <==> LexBefore(LineKey(c, l), LineKey(c, m)) { LineByKey(c, l, m); }
    ListedOrders(c);
    SortSorts(ListedOrder(c), listed);
    forall e, g ensures ListedFirst(c, e, g) <==> LexBefore(ListedKey(c, e), ListedKey(c, g)) { ListedByKey(c, e, g); }
    BucketsInOrder(c, Tally(RowItems(rows)));
    BucketsInOrder(c, Tally(LineItems(lines)));
    BucketsInOrder(c, UnplacedTally(t));
  }

  lemma BucketsInOrder(c: Locale, t: Sums)
    ensures InOrder((i: Item) => SpotKey(c, i.identity), ByIdentity(c, t))
  {
    hide ItemFirst, LexBefore, SpotKey, Flatten, Entry, Sort;
    ItemOrders(c);
    SortSorts(ItemOrder(c), Flatten(Entry(t), t.order));
    forall a, b ensures ItemFirst(c, a, b) <==> LexBefore(SpotKey(c, a.identity), SpotKey(c, b.identity)) {
      ItemByKey(c, a, b);
    }
  }

  // ---------------------------------------------------------------- top projects

  /** A project with a larger amount, or with the same amount and an earlier name. */
  ghost predicate Larger(c: Locale, x: Project, y: Project) {
    Value(x.amount) > Value(y.amount) || (Value(x.amount) == Value(y.amount) && c.name(x.name) < c.name(y.name))
  }

  /** The projects listed are projects of the group with their amounts, the larger ones first, at most five;
      and one that is left out is larger than none of them. */
  lemma TopProjectsLead(c: Locale, id: Identity, b: Table<string, Decimal>)
    requires Ok(b)
    ensures var top := TopProjects(c, id, b);
            && |top| == (if |b.at| <= 5 then |b.at| else 5)
            && (forall i :: 0 <= i < |top| ==>
                  top[i].name in b.at && top[i] == Project(top[i].name, b.at[top[i].name], id))
            && (forall i, j :: 0 <= i < j < |top| ==> top[i].name != top[j].name && !Larger(c, top[j], top[i]))
            && (forall name, i :: name in b.at && 0 <= i < |top|
                                  && (forall j :: 0 <= j < |top| ==> top[j].name != name) ==>
                  !Larger(c, Project(name, b.at[name], id), top[i]))
  {
    hide *;
    TopAreOf(c, id, b);
    TopInOrder(c, id, b);
    forall name, i | name in b.at && 0 <= i < |TopProjects(c, id, b)|
                     && forall j :: 0 <= j < |TopProjects(c, id, b)| ==> TopProjects(c, id, b)[j].name != name
      ensures !Larger(c, Project(name, b.at[name], id), TopProjects(c, id, b)[i])
    {
      TopLeavesSmaller(c, id, b, name, i);
    }
  }

  lemma TopAreOf(c: Locale, id: Identity, b: Table<string, Decimal>)
    requires Ok(b)
    ensures var top := TopProjects(c, id, b);
            && |top| == (if |b.at| <= 5 then |b.at| else 5)
            && forall i :: 0 <= i < |top| ==>
                 top[i].name in b.at && top[i] == Project(top[i].name, b.at[top[i].name], id)
  {
    hide *;
    TopIsFirst(c, id, b);
    RankedAre(c, id, b);
    var top := TopProjects(c, id, b);
    forall i | 0 <= i < |top|
      ensures top[i].name in b.at && top[i] == Project(top[i].name, b.at[top[i].name], id)
    {
      OfGroup(id, b, top[i]);
    }
  }

  lemma TopInOrder(c: Locale, id: Identity, b: Table<string, Decimal>)
    requires Ok(b)
    ensures var top := TopProjects(c, id, b);
            forall i, j :: 0 <= i < j < |top| ==> top[i].name != top[j].name && !Larger(c, top[j], top[i])
  {
    hide *;
    TopAreOf(c, id, b);
    TopIsFirst(c, id, b);
    RankedInOrder(c, id, b);
  }

  lemma TopLeavesSmaller(c: Locale, id: Identity, b: Table<string, Decimal>, name: string, i: nat)
    requires Ok(b) && name in b.at && i < |TopProjects(c, id, b)|
    requires forall j :: 0 <= j < |TopProjects(c, id, b)| ==> TopProjects(c, id, b)[j].name != name
    ensures !Larger(c, Project(name, b.at[name], id), TopProjects(c, id, b)[i])
  {
    hide *;
    var ranked, top := Sort(ProjectOrder(c), Projects(id, b)), TopProjects(c, id, b);
    TopIsFirst(c, id, b);
    RankedAre(c, id, b);
    RankedInOrder(c, id, b);
    assert forall j :: 0 <= j < |top| ==> top[j] == ranked[j];
    LeftOutIsSmaller(c, ranked, |top|, Project(name, b.at[name], id), i);
  }

  lemma LeftOutIsSmaller(c: Locale, ranked: seq<Project>, top: nat, x: Project, i: nat)
    requires i < top <= |ranked| && x in ranked && forall j :: 0 <= j < top ==> ranked[j].name != x.name
    requires forall j, k :: 0 <= j < k < |ranked| ==> !Larger(c, ranked[k], ranked[j])
    ensures !Larger(c, x, ranked[i])
  {
    hide Larger;
    var n :| 0 <= n < |ranked| && ranked[n] == x;
  }

  lemma TopIsFirst(c: Locale, id: Identity, b: Table<string, Decimal>)
    ensures var ranked := Sort(ProjectOrder(c), Projects(id, b));
            TopProjects(c, id, b) == ranked[..if |ranked| <= 5 then |ranked| else 5]
  {
    hide Sort, Projects;
  }

  /** A project of the group, with its amount. */
  ghost predicate IsOf(id: Identity, b: Table<string, Decimal>, x: Project) {
    x.name in b.at && x == Project(x.name, b.at[x.name], id)
  }

  lemma OfGroup(id: Identity, b: Table<string, Decimal>, x: Project)
    ensures IsOf(id, b, x) <==> x.name in b.at && x == Project(x.name, b.at[x.name], id)
  {
  }

  /** The ranking lists each project of the group. */
  lemma RankedAre(c: Locale, id: Identity, b: Table<string, Decimal>)
    requires Ok(b)
    ensures var ranked := Sort(ProjectOrder(c), Projects(id, b));
            && |ranked| == |b.at| && (forall i :: 0 <= i < |ranked| ==> IsOf(id, b, ranked[i]))
            && forall name :: name in b.at ==> Project(name, b.at[name], id) in ranked
  {
    MadeAre(id, b);
    var made := Projects(id, b);
    var ranked := Sort(ProjectOrder(c), made);
    hide Sort, Projects, Ok;
    SameMembers(made, ranked);
    assert |ranked| == |multiset(ranked)| == |multiset(made)| == |made|;
    forall i | 0 <= i < |ranked| ensures IsOf(id, b, ranked[i]) {
      assert ranked[i] in made;
    }
  }

  /** It lists none twice, and the larger ones first. */
  lemma RankedInOrder(c: Locale, id: Identity, b: Table<string, Decimal>)
    requires Ok(b)
    ensures var ranked := Sort(ProjectOrder(c), Projects(id, b));
            forall i, j :: 0 <= i < j < |ranked| ==> ranked[i] != ranked[j] && !Larger(c, ranked[j], ranked[i])
  {
    MadeAre(id, b);
    var ranked := Sort(ProjectOrder(c), Projects(id, b));
    hide ProjectFirst, Sort, Larger, Projects, Ok;
    ProjectOrders(c);
    SortSorts(ProjectOrder(c), Projects(id, b));
    DistinctPermuted(Projects(id, b), ranked);
    forall i, j | 0 <= i < j < |ranked| ensures !Larger(c, ranked[j], ranked[i]) {
      LargerIsFirst(c, ranked[j], ranked[i]);
      assert !ProjectOrder(c)(ranked[j], ranked[i]);
    }
  }

  lemma MadeAre(id: Identity, b: Table<string, Decimal>)
    requires Ok(b)
    ensures Distinct(Projects(id, b)) && |Projects(id, b)| == |b.at|
    ensures forall x: Project :: x in Projects(id, b) <==> x.name in b.at && x == Project(x.name, b.at[x.name], id)
  {
    MadeDistinct(id, b);
    KeysCounted(b);
    forall x: Project | x.name in b.at && x == Project(x.name, b.at[x.name], id) ensures x in Projects(id, b) {
      var k :| 0 <= k < |b.order| && b.order[k] == x.name;
      assert Projects(id, b)[k] == x;
    }
  }

  lemma LargerIsFirst(c: Locale, x: Project, y: Project)
    ensures ProjectFirst(c, x, y) <==> Larger(c, x, y)
  {
    ProjectFirstMeans(c, x, y);
  }

  lemma MadeDistinct(id: Identity, b: Table<string, Decimal>)
    requires Ok(b)
    ensures Distinct(Projects(id, b))
  {
  }

  lemma KeysCounted(b: Table<string, Decimal>)
    requires Ok(b)
    ensures |b.order| == |b.at|
  {
    ElementsAreAll(b.order);
    assert Elements(b.order) == b.at.Keys;
  }
}
