/** Exactly when the order of rows matters: when two are in conflict, or a tie shows which came first. */
module AllocationOrderShows {
  import opened Money
  import opened Tables
  import opened ArrivalOrder
  import opened Holdings
  import opened Shares
  import opened AllocationRules
  import opened AllocationGroups
  import opened AllocationLines
  import opened AllocationConserves
  import opened AllocationLineage
  import opened AllocationRun
  import opened AllocationAccepted
  import opened AllocationOrder
  import opened AllocationOrderLines
  import opened AllocationTies
  import opened AllocationDeterminism
  import opened AllocationConflicts

  // ---------------------------------------------------------------- the row that comes first

  lemma AddRowKeepsFirst(p: Policy, t: Groups, row: Row, k: Place)
    requires t.order != [] && t.order[0] == k && k in t.at && t.at[k].byProject.order != []
    ensures AddRow(p, t, row).order != [] && AddRow(p, t, row).order[0] == k && k in AddRow(p, t, row).at
    ensures AddRow(p, t, row).at[k].byProject.order != []
    ensures AddRow(p, t, row).at[k].byProject.order[0] == t.at[k].byProject.order[0]
  {
    hide PlaceOf, RuleFor;
  }

  /** The first row's group is listed first, and its project first in that group. */
  lemma {:induction false} FirstRowIsFirst(p: Policy, rows: seq<Row>)
    requires rows != []
    ensures Group(p, rows).order != [] && Group(p, rows).order[0] == PlaceOf(p, rows[0])
    ensures PlaceOf(p, rows[0]) in Group(p, rows).at
    ensures Group(p, rows).at[PlaceOf(p, rows[0])].byProject.order != []
    ensures Group(p, rows).at[PlaceOf(p, rows[0])].byProject.order[0] == rows[0].project
    decreases |rows|
  {
    hide PlaceOf, RuleFor;
    var n := |rows| - 1;
    if n == 0 {
      assert rows[..0] == [] && Group(p, []) == Empty();
    } else {
      hide AddRow;
      FirstRowIsFirst(p, rows[..n]);
      AddRowKeepsFirst(p, Group(p, rows[..n]), rows[n], PlaceOf(p, rows[0]));
    }
  }

  lemma IndexOf<T>(s: seq<T>, x: T) returns (i: nat)
    requires x in s
    ensures i < |s| && s[i] == x
  {
    i :| 0 <= i < |s| && s[i] == x;
  }

  /** What a row leads to is reached first if the row is brought to the front. */
  lemma LedFirst(p: Policy, rows: seq<Row>, i: nat, q: Line -> bool, r: Line -> bool)
    requires ClaimsAgree(p, rows) && i < |rows| && Reaches(Led(p, Group(p, rows), rows[i]), q, r)
    ensures Reaches(AllClaimLines(Group(p, ToFront(rows, i))), q, r)
  {
    hide Group, ShareLines, SameGroups, PlaceOf, Reaches, RuleFor, ClaimsAgree, Conflict;
    var first := ToFront(rows, i);
    var s, k := Group(p, first), PlaceOf(p, rows[i]);
    GroupsForgetOrder(p, rows, first);
    NothingReached(Led(p, Group(p, rows), rows[i]), q, r);
    FirstClaims(p, first);
    LedIsClaim(p, s, Group(p, rows), rows[i]);
    FirstRowIsFirst(p, first);
    ReachesWithFirst(ClaimLines(s), s.order, q, r);
  }

  /** Two lines that tie and come in both orders make the listings differ. */
  lemma LinesShow(c: Locale, p: Policy, rows: seq<Row>, a: seq<Row>, b: seq<Row>, l: Line, m: Line)
    requires ClaimsAgree(p, rows) && PolicyOk(p) && RowsCanonical(rows)
    requires multiset(a) == multiset(rows) && multiset(b) == multiset(rows) && Tied(LineOrder(c), l, m)
    requires Ahead(AllLines(Group(p, a)), l, m) && Ahead(AllLines(Group(p, b)), m, l)
    ensures ResultOf(c, p, a).lines != ResultOf(c, p, b).lines
  {
    hide Group, AllLines, SameGroups, GroupsOk, PolicyOk, ClaimsAgree, RowsCanonical, Reaches, Orders, Distinct,
         ClaimsHaveRatios, ByIdentity, Tally, UnplacedTally, AllUnplaced;
    var r, s, t := Group(p, rows), Group(p, a), Group(p, b);
    RunsAgree(p, rows, a);
    RunsAgree(p, rows, b);
    GroupsAreTables(p, r);
    GroupsAreTables(p, s);
    GroupsAreTables(p, t);
    LinesForgetOrder(s, r);
    LinesForgetOrder(t, r);
    LinesDistinct(p, s);
    LineOrders(c);
    SameMembers(AllLines(s), AllLines(t));
    AheadIsIn(AllLines(s), l, m);
    AheadIsIn(AllLines(t), m, l);
    NotBothAhead(AllLines(t), m, l);
    SortsAlikeExactly(LineOrder(c), AllLines(s), AllLines(t));
  }

  /** Some order of the rows gives another result. */
  ghost predicate OrderShows(c: Locale, p: Policy, rows: seq<Row>) {
    exists a, b :: multiset(a) == multiset(rows) && multiset(b) == multiset(rows)
                   && ResultOf(c, p, a) != ResultOf(c, p, b)
  }

  lemma Shown(c: Locale, p: Policy, rows: seq<Row>, a: seq<Row>, b: seq<Row>)
    requires multiset(a) == multiset(rows) && multiset(b) == multiset(rows) && ResultOf(c, p, a) != ResultOf(c, p, b)
    ensures OrderShows(c, p, rows)
  {
  }

  lemma IdentitiesTieShows(c: Locale, p: Policy, rows: seq<Row>)
    requires IdentitiesTie(c, rows)
    ensures OrderShows(c, p, rows)
  {
    hide ResultOf, Ties, OrderShows;
    var x, y :| x in rows && y in rows && Ties(c, x, y);
    var i := IndexOf(rows, x);
    var j := IndexOf(rows, y);
    TyingIdentitiesFollowArrival(c, p, rows, i, j);
    Shown(c, p, rows, ToFront(rows, i), ToFront(rows, j));
  }

  lemma ClaimsTieShows(c: Locale, p: Policy, rows: seq<Row>)
    requires ClaimsTie(c, p, rows) && ClaimsAgree(p, rows) && PolicyOk(p) && RowsCanonical(rows)
    ensures OrderShows(c, p, rows)
  {
    hide ResultOf, OrderShows, Group, Led, Reaches, Tied, PolicyOk, RowsCanonical, ClaimsAgree, AllClaimLines;
    var x, y, l, m :| x in rows && y in rows && ClaimsTieAt(c, p, Group(p, rows), x, y, l, m);
    var i := IndexOf(rows, x);
    var j := IndexOf(rows, y);
    var a, b := ToFront(rows, i), ToFront(rows, j);
    LedFirst(p, rows, i, Is(l), Is(m));
    LedFirst(p, rows, j, Is(m), Is(l));
    ClaimsComeFirst(Group(p, a), l, m);
    ClaimsComeFirst(Group(p, b), m, l);
    LinesShow(c, p, rows, a, b, l, m);
    Shown(c, p, rows, a, b);
  }

  lemma ClaimsComeFirst(t: Groups, l: Line, m: Line)
    requires Ahead(AllClaimLines(t), l, m)
    ensures Ahead(AllLines(t), l, m)
  {
    hide AllClaimLines, PooledLines, Reaches;
    LinesInParts(t);
    PartAhead(AllClaimLines(t), PooledLines(t), l, m);
  }

  lemma PooledAhead(p: Policy, t: Groups, l: Line, m: Line)
    requires GroupsOk(p, t) && Ahead(PooledLines(t), l, m) && m in PooledLines(t)
    ensures Ahead(AllLines(t), l, m)
  {
    hide AllClaimLines, PooledLines, Reaches, GroupsOk;
    if m in AllClaimLines(t) {
      PooledIsNotClaimed(p, t, m);
    }
    LinesInParts(t);
    PartAhead(AllClaimLines(t), PooledLines(t), l, m);
  }

  lemma SamePooled(p: Policy, rows: seq<Row>, a: seq<Row>)
    requires ClaimsAgree(p, rows) && RowsCanonical(rows) && multiset(a) == multiset(rows)
    ensures GroupsOk(p, Group(p, rows)) && GroupsOk(p, Group(p, a))
    ensures forall l :: l in PooledLines(Group(p, rows)) <==> l in PooledLines(Group(p, a))
  {
    hide Group, AllLines, PooledLines, SameGroups, GroupsOk, ClaimsAgree, RowsCanonical, ClaimsHaveRatios;
    RunsAgree(p, rows, a);
    GroupsAreTables(p, Group(p, rows));
    GroupsAreTables(p, Group(p, a));
    LinesForgetOrder(Group(p, rows), Group(p, a));
    SameMembers(PooledLines(Group(p, rows)), PooledLines(Group(p, a)));
  }

  /** The lines of a pool are listed ahead of another's if a row of the pool is brought to the front. */
  lemma PoolFirst(p: Policy, rows: seq<Row>, l: Line, m: Line) returns (i: nat)
    requires ClaimsAgree(p, rows) && RowsCanonical(rows) && l.ruleId != m.ruleId
    requires l in PooledLines(Group(p, rows)) && m in PooledLines(Group(p, rows))
    ensures i < |rows| && Ahead(AllLines(Group(p, ToFront(rows, i))), l, m)
  {
    hide Group, AllLines, PooledLines, PoolLines, AllDrivers, GroupsOk, ClaimsAgree, RowsCanonical, PlaceOf, KindOf,
         RuleFor, Reaches;
    SamePooled(p, rows, rows);
    var k := PooledPlace(p, Group(p, rows), l);
    var x := PlaceIdentity(p, rows, k);
    i := IndexOf(rows, x);
    var s := Group(p, ToFront(rows, i));
    SamePooled(p, rows, ToFront(rows, i));
    FirstRowIsFirst(p, ToFront(rows, i));
    PooledAtHome(p, s, k, l, m);
    ReachesWithFirst(PoolLines(s, AllDrivers(s)), s.order, Is(l), Is(m));
    FlattenedPools(s);
    PooledAhead(p, s, l, m);
  }

  lemma FlattenedPools(t: Groups)
    ensures PooledLines(t) == Flatten(PoolLines(t, AllDrivers(t)), t.order)
  {
  }

  lemma PooledAtHome(p: Policy, t: Groups, k: Place, l: Line, m: Line)
    requires GroupsOk(p, t) && k.kind == Pooled && MadeAt(k, l) && l in PooledLines(t) && l.ruleId != m.ruleId
    ensures Ahead(PoolLines(t, AllDrivers(t))(k), l, m)
  {
    hide PooledLines, PoolLines, AllDrivers, GroupsOk, Reaches;
    var n := PooledPlace(p, t, l);
    MadeAtOne(k, n, l);
    if m in PoolLines(t, AllDrivers(t))(k) {
      PoolMadeAt(p, t, k, m);
    }
    AheadOfAbsent(PoolLines(t, AllDrivers(t))(k), l, m);
  }

  lemma PoolsTieShows(c: Locale, p: Policy, rows: seq<Row>)
    requires PoolsTie(c, Group(p, rows)) && ClaimsAgree(p, rows) && PolicyOk(p) && RowsCanonical(rows)
    ensures OrderShows(c, p, rows)
  {
    hide ResultOf, OrderShows, Group, PooledLines, AllLines, Reaches, Tied, PolicyOk, RowsCanonical, ClaimsAgree;
    var t := Group(p, rows);
    var l, m :| l in PooledLines(t) && m in PooledLines(t) && Tied(LineOrder(c), l, m) && l.ruleId != m.ruleId;
    var i := PoolFirst(p, rows, l, m);
    var j := PoolFirst(p, rows, m, l);
    LinesShow(c, p, rows, ToFront(rows, i), ToFront(rows, j), l, m);
    Shown(c, p, rows, ToFront(rows, i), ToFront(rows, j));
  }

  lemma DriverFirst(p: Policy, rows: seq<Row>, i: nat, l: Line, m: Line)
    requires ClaimsAgree(p, rows) && RowsCanonical(rows) && i < |rows|
    requires l in PooledLines(Group(p, rows)) && m in PooledLines(Group(p, rows)) && l.centre != m.centre
    requires l.item.identity == m.item.identity && l.ruleId == m.ruleId && l.version == m.version
    requires Reaches(Led(p, Group(p, rows), rows[i]), DrivesTo(l.item.identity, l.centre),
                     DrivesTo(l.item.identity, m.centre))
    ensures Ahead(AllLines(Group(p, ToFront(rows, i))), l, m)
  {
    hide Group, AllLines, PooledLines, AllClaimLines, GroupsOk, ClaimsAgree, RowsCanonical, Reaches, Led, DrivesTo;
    var id := l.item.identity;
    var s := Group(p, ToFront(rows, i));
    SamePooled(p, rows, ToFront(rows, i));
    LedFirst(p, rows, i, DrivesTo(id, l.centre), DrivesTo(id, m.centre));
    PooledAsReached(p, s, l, m);
    PooledAhead(p, s, l, m);
  }

  lemma DriversTieShows(c: Locale, p: Policy, rows: seq<Row>)
    requires DriversTie(c, p, rows) && ClaimsAgree(p, rows) && PolicyOk(p) && RowsCanonical(rows)
    ensures OrderShows(c, p, rows)
  {
    hide ResultOf, OrderShows, Group, PooledLines, AllLines, Reaches, Tied, PolicyOk, RowsCanonical, ClaimsAgree, Led;
    var t := Group(p, rows);
    var x, y, l, m :| x in rows && y in rows && DriversTieAt(c, p, t, x, y, l, m);
    var i := IndexOf(rows, x);
    var j := IndexOf(rows, y);
    NotBoth(Led(p, t, x), DrivesTo(l.item.identity, l.centre), DrivesTo(l.item.identity, m.centre));
    TiedSpot(c, l, m);
    DriverFirst(p, rows, i, l, m);
    DriverFirst(p, rows, j, m, l);
    LinesShow(c, p, rows, ToFront(rows, i), ToFront(rows, j), l, m);
    Shown(c, p, rows, ToFront(rows, i), ToFront(rows, j));
  }

  // ---------------------------------------------------------------- unplaced entries that tie

  lemma DisjointPermuted(a: seq<Row>, b: seq<Row>)
    requires RowsDisjoint(a) && HasSources(a) && multiset(a) == multiset(b)
    ensures RowsDisjoint(b)
  {
    hide SourceSet;
    forall i, j | 0 <= i < j < |a| ensures a[i] != a[j] {
      SourcesNamed(a[i]);
    }
    DistinctPermuted(a, b);
    SameMembers(a, b);
    forall i, j | 0 <= i < j < |b| ensures SourceSet(b[i]) !! SourceSet(b[j]) {
      var m := IndexOf(a, b[i]);
      var n := IndexOf(a, b[j]);
      assert m < n || n < m;
    }
  }

  lemma SourcesNamed(x: Row)
    ensures x.sources != [] ==> SourceSet(x) != {}
  {
    if x.sources != [] {
      assert x.sources[0] in SourceSet(x);
    }
  }

  /** What the unplaced entries of two orders have in common. */
  lemma SameUnplaced(p: Policy, rows: seq<Row>, a: seq<Row>)
    requires ClaimsAgree(p, rows) && RowsCanonical(rows) && RowsDisjoint(rows) && multiset(a) == multiset(rows)
    ensures HasSources(a) && RowsDisjoint(a)
    ensures GroupsOk(p, Group(p, rows)) && GroupsOk(p, Group(p, a)) && SameGroups(Group(p, rows), Group(p, a))
    ensures multiset(Group(p, rows).order) == multiset(Group(p, a).order)
    ensures SameDrivers(AllDrivers(Group(p, rows)), AllDrivers(Group(p, a)))
  {
    hide Group, AllLines, PooledLines, SameGroups, GroupsOk, ClaimsAgree, RowsCanonical, ClaimsHaveRatios, SameDrivers,
         RowsDisjoint, AllDrivers;
    RunsAgree(p, rows, a);
    DisjointPermuted(rows, a);
    GroupsAreTables(p, Group(p, rows));
    GroupsAreTables(p, Group(p, a));
    LinesForgetOrder(Group(p, rows), Group(p, a));
  }

  lemma SameUnshared(s: Groups, t: Groups, k: Place)
    requires SameGroups(s, t) && SameDrivers(AllDrivers(s), AllDrivers(t))
    ensures Unshared(s, k) <==> Unshared(t, k)
  {
    hide AllDrivers;
    assert k in s.at <==> k in s.at.Keys;
    assert k in t.at <==> k in t.at.Keys;
    assert k in s.at && k in t.at ==> SameBucket(s.at[k], t.at[k]);
  }

  /** How the source gives a reason to a group that is not shared out. */
  function ReasonAt(k: Place): Reason {
    if k.kind == Unmatched then NoMatchingRule else if k.kind == ToArchived then TargetArchived else NoDriver
  }

  /** The part of the unplaced entries that gives this reason. */
  ghost function PartFor(t: Groups, reason: Reason): Place -> seq<Unplaced> {
    match reason
    case NoMatchingRule => UnplacedOfKind(t, Unmatched, NoMatchingRule)
    case TargetArchived => UnplacedOfKind(t, ToArchived, TargetArchived)
    case NoDriver => UndrivenPools(t, AllDrivers(t))
  }

  lemma EntryOfPart(p: Policy, t: Groups, k: Place)
    requires GroupsOk(p, t) && Unshared(t, k)
    ensures PartFor(t, ReasonAt(k))(k) == [UnplacedOf(t, k, ReasonAt(k))]
  {
    hide AllDrivers;
    assert BucketOk(p, k, t.at[k]);
  }

  lemma FirstOfPart(c: Locale, f: Place -> seq<Unplaced>, keys: seq<Place>, e: Listed, g: Listed)
    requires keys != [] && Flatten(ToListed(c), f(keys[0])) == [e] && e != g
    ensures Ahead(Flatten(ToListed(c), Flatten(f, keys)), e, g)
  {
    hide Flatten, ToListed, Reaches;
    assert keys == [keys[0]] + keys[1..];
    FlattenConcat(f, [keys[0]], keys[1..]);
    FlattenOne(f, keys[0]);
    FlattenConcat(ToListed(c), f(keys[0]), Flatten(f, keys[1..]));
    AheadOfAbsent([e], e, g);
    ReachesInFront([e], Flatten(ToListed(c), Flatten(f, keys[1..])), Is(e), Is(g));
  }

  /** What comes first among the entries of its reason comes ahead in the whole listing. */
  lemma PartInWhole(c: Locale, t: Groups, e: Listed, g: Listed)
    requires e.reason == g.reason && Ahead(Flatten(ToListed(c), Flatten(PartFor(t, g.reason), t.order)), e, g)
    ensures Ahead(Flatten(ToListed(c), AllUnplaced(t)), e, g)
  {
    hide Flatten, ToListed, Reaches, UnplacedOfKind, UndrivenPools, AllDrivers, AllUnplaced;
    var a := Flatten(UnplacedOfKind(t, Unmatched, NoMatchingRule), t.order);
    var b := Flatten(UnplacedOfKind(t, ToArchived, TargetArchived), t.order);
    var d := Flatten(UndrivenPools(t, AllDrivers(t)), t.order);
    ReasonsOfParts(t);
    ListedReasons(c, a, NoMatchingRule);
    ListedReasons(c, b, TargetArchived);
    ListedReasons(c, d, NoDriver);
    ListingSplits(c, t);
    var (x, y, z) := (Flatten(ToListed(c), a), Flatten(ToListed(c), b), Flatten(ToListed(c), d));
    PartAhead(x, y, e, g);
    PartAhead(x + y, z, e, g);
  }

  /** An entry is made ahead of another of its reason if a row of its group is brought to the front. */
  lemma EntryFirst(c: Locale, p: Policy, rows: seq<Row>, u: Unplaced, v: Unplaced) returns (i: nat)
    requires ClaimsAgree(p, rows) && RowsCanonical(rows) && RowsDisjoint(rows)
    requires ProjectsSettled(c, Group(p, rows)) && u in AllUnplaced(Group(p, rows)) && u.reason == v.reason
    requires Listing(c, u) != Listing(c, v)
    ensures i < |rows|
    ensures Ahead(Flatten(ToListed(c), AllUnplaced(Group(p, ToFront(rows, i)))), Listing(c, u), Listing(c, v))
  {
    hide Group, AllUnplaced, AllDrivers, GroupsOk, SameGroups, SameDrivers, ClaimsAgree, RowsCanonical, RowsDisjoint,
         ProjectsSettled, Reaches, PlaceOf, KindOf, RuleFor, TopProjects, Flatten, HasSources;
    var r := Group(p, rows);
    var k := UnplacedComesFrom(r, u);
    var x := PlaceIdentity(p, rows, k);
    i := IndexOf(rows, x);
    var s := Group(p, ToFront(rows, i));
    SameUnplaced(p, rows, ToFront(rows, i));
    FirstRowIsFirst(p, ToFront(rows, i));
    EntryShape(p, r, k, u);
    SameUnshared(r, s, k);
    EntryOfPart(p, s, k);
    SameEntryListed(c, p, r, s, k, u.reason);
    FlattenOne(ToListed(c), u);
    FirstOfPart(c, PartFor(s, u.reason), s.order, Listing(c, u), Listing(c, v));
    PartInWhole(c, s, Listing(c, u), Listing(c, v));
  }

  lemma EntryShape(p: Policy, t: Groups, k: Place, u: Unplaced)
    requires GroupsOk(p, t) && UnplacedFrom(t, AllDrivers(t), k, u)
    ensures Unshared(t, k) && u.reason == ReasonAt(k) && u == UnplacedOf(t, k, u.reason)
  {
    hide AllDrivers;
    assert BucketOk(p, k, t.at[k]);
  }

  /** Two entries that tie and come in both orders make the listings differ. */
  lemma EntriesShow(c: Locale, p: Policy, rows: seq<Row>, a: seq<Row>, b: seq<Row>, e: Listed, g: Listed)
    requires ClaimsAgree(p, rows) && RowsCanonical(rows) && RowsDisjoint(rows) && ProjectsSettled(c, Group(p, rows))
    requires multiset(a) == multiset(rows) && multiset(b) == multiset(rows) && Tied(ListedOrder(c), e, g)
    requires Ahead(Flatten(ToListed(c), AllUnplaced(Group(p, a))), e, g)
    requires Ahead(Flatten(ToListed(c), AllUnplaced(Group(p, b))), g, e)
    ensures ResultOf(c, p, a).unplaced != ResultOf(c, p, b).unplaced
  {
    hide Group, AllLines, AllUnplaced, SameGroups, SameDrivers, GroupsOk, ClaimsAgree, RowsCanonical, RowsDisjoint,
         HasSources, ProjectsSettled, Reaches, Orders, Distinct, ByIdentity, Tally, UnplacedTally, Flatten, Tied,
         AllDrivers;
    SameUnplaced(p, rows, a);
    SameUnplaced(p, rows, b);
    ListingForgetsOrder(c, p, Group(p, rows), Group(p, a));
    ListingForgetsOrder(c, p, Group(p, rows), Group(p, b));
    var s, t := Flatten(ToListed(c), AllUnplaced(Group(p, a))), Flatten(ToListed(c), AllUnplaced(Group(p, b)));
    ListedDistinct(c, p, a);
    ListedOrders(c);
    SameMembers(s, t);
    AheadIsIn(s, e, g);
    AheadIsIn(t, g, e);
    NotBothAhead(t, g, e);
    SortsAlikeExactly(ListedOrder(c), s, t);
  }

  lemma EntriesTieShows(c: Locale, p: Policy, rows: seq<Row>)
    requires EntriesTie(c, Group(p, rows)) && !ProjectsTie(c, Group(p, rows))
    requires ClaimsAgree(p, rows) && RowsCanonical(rows) && RowsDisjoint(rows)
    ensures OrderShows(c, p, rows)
  {
    hide ResultOf, OrderShows, Group, AllUnplaced, Reaches, Tied, RowsCanonical, ClaimsAgree, RowsDisjoint, GroupsOk,
         ProjectsTie, ProjectsSettled, TopProjects, SameGroups, SameDrivers, HasSources;
    var t := Group(p, rows);
    var u, v :| u in AllUnplaced(t) && v in AllUnplaced(t) && u != v && u.reason == v.reason
                && Tied(ListedOrder(c), Listing(c, u), Listing(c, v));
    SameUnplaced(p, rows, rows);
    ProjectsAreSettled(c, p, t);
    if u.item == v.item {
      UnplacedTold(p, rows, u, v);
    }
    var i := EntryFirst(c, p, rows, u, v);
    var j := EntryFirst(c, p, rows, v, u);
    var e, g := Listing(c, u), Listing(c, v);
    EntriesShow(c, p, rows, ToFront(rows, i), ToFront(rows, j), e, g);
    Shown(c, p, rows, ToFront(rows, i), ToFront(rows, j));
  }

  // ---------------------------------------------------------------- projects that tie

  /** Equal listings name the same projects for every group. */
  lemma ListingsNameProjects(c: Locale, p: Policy, rows: seq<Row>, a: seq<Row>, b: seq<Row>, k: Place)
    requires ClaimsAgree(p, rows) && RowsCanonical(rows) && RowsDisjoint(rows) && Unshared(Group(p, rows), k)
    requires multiset(a) == multiset(rows) && multiset(b) == multiset(rows)
    requires ResultOf(c, p, a).unplaced == ResultOf(c, p, b).unplaced
    requires k in Group(p, a).at && k in Group(p, b).at
    ensures TopProjects(c, k.identity, Group(p, a).at[k].byProject)
         == TopProjects(c, k.identity, Group(p, b).at[k].byProject)
  {
    hide Group, AllLines, AllUnplaced, AllDrivers, SameDrivers, GroupsOk, ClaimsAgree, RowsCanonical, RowsDisjoint,
         HasSources, ByIdentity, Tally, UnplacedTally, Flatten, TopProjects, ListedFirst;
    SameUnplaced(p, rows, a);
    SameUnplaced(p, rows, b);
    var s, t := Group(p, a), Group(p, b);
    SameUnshared(Group(p, rows), s, k);
    var u := UnsharedEntry(p, s, k);
    var x, y := Flatten(ToListed(c), AllUnplaced(s)), Flatten(ToListed(c), AllUnplaced(t));
    SameMembers(x, Sort(ListedOrder(c), x));
    SameMembers(y, Sort(ListedOrder(c), y));
    InFlatten(ToListed(c), AllUnplaced(s), Listing(c, u));
    assert Listing(c, u) in ToListed(c)(u);
    InFlatten(ToListed(c), AllUnplaced(t), Listing(c, u));
    var v :| v in AllUnplaced(t) && Listing(c, u) in ToListed(c)(v);
    var m := UnplacedComesFrom(t, v);
    assert k in Group(p, rows).at.Keys;
    EventsTellPlace(p, b, m, k);
  }

  /** With the row of a project at the front, the project is the first of its group. */
  lemma ProjectFirstInGroup(c: Locale, p: Policy, rows: seq<Row>, k: Place, x: Project) returns (i: nat)
    requires ClaimsAgree(p, rows) && RowsCanonical(rows) && RowsDisjoint(rows) && k in Group(p, rows).at
    requires x in Projects(k.identity, Group(p, rows).at[k].byProject)
    ensures i < |rows| && k in Group(p, ToFront(rows, i)).at
    ensures var made := Projects(k.identity, Group(p, ToFront(rows, i)).at[k].byProject);
            && made != [] && made[0] == x && Distinct(made)
            && multiset(made) == multiset(Projects(k.identity, Group(p, rows).at[k].byProject))
  {
    hide Group, SameDrivers, AllDrivers, ClaimsAgree, RowsCanonical, RowsDisjoint, HasSources, PlaceOf,
         RuleFor;
    var r := Group(p, rows);
    SameUnplaced(p, rows, rows);
    assert BucketOk(p, k, r.at[k]);
    assert x.name in r.at[k].byProject.at;
    GroupsFromRows(p, rows, k);
    var y :| y in rows && PlaceOf(p, y) == k && y.project == x.name;
    i := IndexOf(rows, y);
    var s := Group(p, ToFront(rows, i));
    SameUnplaced(p, rows, ToFront(rows, i));
    FirstRowIsFirst(p, ToFront(rows, i));
    assert BucketOk(p, k, s.at[k]) && k in r.at.Keys && SameBucket(r.at[k], s.at[k]);
    ProjectsPermuted(k.identity, r.at[k].byProject, s.at[k].byProject);
    ProjectsDistinct(k.identity, s.at[k].byProject);
  }

  lemma ProjectsDistinct(id: Identity, b: Table<string, Decimal>)
    requires Ok(b)
    ensures Distinct(Projects(id, b))
  {
  }

  lemma ProjectsTieShows(c: Locale, p: Policy, rows: seq<Row>)
    requires ProjectsTie(c, Group(p, rows)) && ClaimsAgree(p, rows) && RowsCanonical(rows) && RowsDisjoint(rows)
    ensures OrderShows(c, p, rows)
  {
    hide ResultOf, OrderShows, Group, AllUnplaced, AllDrivers, Projects, RowsCanonical, ClaimsAgree, RowsDisjoint,
         GroupsOk, Tied, Leaders, Orders, Distinct, ProjectFirst, SameGroups, SameDrivers, HasSources, Sort;
    var t, before := Group(p, rows), ProjectOrder(c);
    SameUnplaced(p, rows, rows);
    var u :| u in AllUnplaced(t) && CloseTie(before, Projects(u.item.identity, u.byProject), TOP);
    var k := UnplacedComesFrom(t, u);
    EntryShape(p, t, k, u);
    var made := Projects(k.identity, t.at[k].byProject);
    var x, y :| x in made && y in made && x != y && Tied(before, x, y) && |Leaders(before, made, x)| < TOP;
    var i := ProjectFirstInGroup(c, p, rows, k, x);
    var j := ProjectFirstInGroup(c, p, rows, k, y);
    var a, b := ToFront(rows, i), ToFront(rows, j);
    var s, q := Projects(k.identity, Group(p, a).at[k].byProject), Projects(k.identity, Group(p, b).at[k].byProject);
    ProjectOrders(c);
    SameLeaders(before, made, s, x);
    FewShowCloseTie(before, s, q, TOP);
    if ResultOf(c, p, a).unplaced == ResultOf(c, p, b).unplaced {
      ListingsNameProjects(c, p, rows, a, b, k);
    }
    Shown(c, p, rows, a, b);
  }

  lemma SameLeaders<T(!new)>(before: (T, T) -> bool, a: seq<T>, b: seq<T>, x: T)
    requires multiset(a) == multiset(b)
    ensures Leaders(before, a, x) == Leaders(before, b, x)
  {
    SameMembers(a, b);
  }

  // ---------------------------------------------------------------- the exact condition

  lemma ConflictShows(c: Locale, p: Policy, rows: seq<Row>)
    requires !ClaimsAgree(p, rows) && PolicyOk(p) && RowsCanonical(rows)
    ensures OrderShows(c, p, rows)
  {
    hide ResultOf, OrderShows, PolicyOk, RowsCanonical, Conflict;
    var x, y :| x in rows && y in rows && Conflict(p, x, y);
    var i := IndexOf(rows, x);
    var j := IndexOf(rows, y);
    ConflictMatters(c, p, rows, i, j);
    Shown(c, p, rows, ToFront(rows, i), ToFront(rows, j));
  }

  lemma TieShows(c: Locale, p: Policy, rows: seq<Row>)
    requires TiesShow(c, p, rows) && ClaimsAgree(p, rows)
    requires PolicyOk(p) && RowsCanonical(rows) && RowsDisjoint(rows)
    ensures OrderShows(c, p, rows)
  {
    hide OrderShows, Group, IdentitiesTie, ClaimsTie, PoolsTie, DriversTie, EntriesTie, ProjectsTie, PolicyOk,
         RowsCanonical, RowsDisjoint, ClaimsAgree;
    if IdentitiesTie(c, rows) {
      IdentitiesTieShows(c, p, rows);
    } else if ClaimsTie(c, p, rows) {
      ClaimsTieShows(c, p, rows);
    } else if PoolsTie(c, Group(p, rows)) {
      PoolsTieShows(c, p, rows);
    } else if DriversTie(c, p, rows) {
      DriversTieShows(c, p, rows);
    } else if ProjectsTie(c, Group(p, rows)) {
      ProjectsTieShows(c, p, rows);
    } else {
      EntriesTieShows(c, p, rows);
    }
  }

  /** The exact condition, for every collation: every order of the rows gives one result if and only if no
      two rows are in conflict and no tie shows which row came first. */
  lemma OrderMattersExactly(c: Locale, p: Policy, rows: seq<Row>)
    requires PolicyOk(p) && RowsCanonical(rows) && RowsDisjoint(rows)
    ensures ClaimsAgree(p, rows) && !TiesShow(c, p, rows)
       <==> forall b :: multiset(b) == multiset(rows) ==> ResultOf(c, p, b) == ResultOf(c, p, rows)
  {
    hide ResultOf, TiesShow, PolicyOk, RowsCanonical, RowsDisjoint, ClaimsAgree;
    if !ClaimsAgree(p, rows) {
      ConflictShows(c, p, rows);
    } else if TiesShow(c, p, rows) {
      TieShows(c, p, rows);
    } else {
      forall b | multiset(b) == multiset(rows) ensures ResultOf(c, p, b) == ResultOf(c, p, rows) {
        RowOrderDoesNotMatter(c, p, rows, b);
      }
    }
  }

  // ---------------------------------------------------------------- a collation that ties no names

  /** The collation ties no two names and no two lineages. */
  ghost predicate TellsApart(c: Locale) {
    && (forall a, b :: c.name(a) == c.name(b) ==> a == b)
    && (forall a, b :: c.lineage(a) == c.lineage(b) ==> a == b)
  }

  /** Currency, basis, rule name, rule version and centre identify a claimed line. */
  lemma ClaimedKey(p: Policy, t: Groups, l: Line, m: Line)
    requires PolicyOk(p) && GroupsOk(p, t) && l in AllClaimLines(t) && m in AllClaimLines(t)
    requires l.item.identity == m.item.identity && l.ruleId == m.ruleId && l.version == m.version
    requires l.centre == m.centre
    ensures l == m
  {
    hide Part, AllClaimLines, Denominator, ShareLines;
    var k := ClaimedPlace(p, t, l);
    var n := ClaimedPlace(p, t, m);
    assert k == n && BucketOk(p, k, t.at[k]);
    var i := ShareLineFrom(k, t.at[k], Denominator(ClaimWeights(t, k)), ClaimWeights(t, k), l);
    var j := ShareLineFrom(k, t.at[k], Denominator(ClaimWeights(t, k)), ClaimWeights(t, k), m);
    assert TargetsDistinct(t.at[k].rule.value.targets);
    assert i == j;
  }

  lemma TiedKey(c: Locale, l: Line, m: Line)
    requires TellsApart(c) && Tied(LineOrder(c), l, m)
    ensures l.item.identity == m.item.identity && l.ruleId == m.ruleId && l.version == m.version
    ensures l.centre == m.centre
  {
  }

  lemma ClaimsToldApart(c: Locale, p: Policy, rows: seq<Row>)
    requires TellsApart(c) && ClaimsAgree(p, rows) && PolicyOk(p) && RowsCanonical(rows)
    ensures !ClaimsTie(c, p, rows)
  {
    hide Group, Led, Reaches, Tied, PolicyOk, RowsCanonical, ClaimsAgree, AllClaimLines, GroupsOk, TellsApart,
         SameGroups, ClaimsHaveRatios;
    if x, y, l, m :| x in rows && y in rows && ClaimsTieAt(c, p, Group(p, rows), x, y, l, m) {
      var i := IndexOf(rows, x);
      var j := IndexOf(rows, y);
      LedFirst(p, rows, i, Is(l), Is(m));
      LedFirst(p, rows, j, Is(m), Is(l));
      SameClaimed(p, rows, ToFront(rows, i));
      SameClaimed(p, rows, ToFront(rows, j));
      AheadIsIn(AllClaimLines(Group(p, ToFront(rows, i))), l, m);
      AheadIsIn(AllClaimLines(Group(p, ToFront(rows, j))), m, l);
      TiedKey(c, l, m);
      ClaimedKey(p, Group(p, rows), l, m);
    }
  }

  lemma SameClaimed(p: Policy, rows: seq<Row>, a: seq<Row>)
    requires ClaimsAgree(p, rows) && RowsCanonical(rows) && multiset(a) == multiset(rows)
    ensures GroupsOk(p, Group(p, rows))
    ensures forall l :: l in AllClaimLines(Group(p, rows)) <==> l in AllClaimLines(Group(p, a))
  {
    hide Group, AllLines, AllClaimLines, SameGroups, GroupsOk, ClaimsAgree, RowsCanonical, ClaimsHaveRatios;
    RunsAgree(p, rows, a);
    GroupsAreTables(p, Group(p, rows));
    GroupsAreTables(p, Group(p, a));
    LinesForgetOrder(Group(p, rows), Group(p, a));
    SameMembers(AllClaimLines(Group(p, rows)), AllClaimLines(Group(p, a)));
  }

  lemma PoolsToldApart(c: Locale, p: Policy, rows: seq<Row>)
    requires TellsApart(c)
    ensures !PoolsTie(c, Group(p, rows)) && !DriversTie(c, p, rows) && !IdentitiesTie(c, rows)
  {
    hide Group, Led, Reaches, Tied, PooledLines, TellsApart;
    var t := Group(p, rows);
    if l, m :| l in PooledLines(t) && m in PooledLines(t) && Tied(LineOrder(c), l, m) && l.ruleId != m.ruleId {
      TiedKey(c, l, m);
    }
    if x, y, l, m :| x in rows && y in rows && DriversTieAt(c, p, t, x, y, l, m) {
      NotBoth(Led(p, t, x), DrivesTo(l.item.identity, l.centre), DrivesTo(l.item.identity, m.centre));
      TiedKey(c, l, m);
    }
    RowsToldApart(c, rows);
  }

  lemma RowsToldApart(c: Locale, rows: seq<Row>)
    requires TellsApart(c)
    ensures !IdentitiesTie(c, rows)
  {
  }

  lemma EntriesToldApart(c: Locale, p: Policy, rows: seq<Row>)
    requires TellsApart(c) && RowsDisjoint(rows) && HasSources(rows)
    ensures !EntriesTie(c, Group(p, rows)) && !ProjectsTie(c, Group(p, rows))
  {
    hide Group, AllUnplaced, AllDrivers, RowsDisjoint, HasSources, TopProjects, Value, ProjectFirst;
    var t := Group(p, rows);
    forall u, v | u in AllUnplaced(t) && v in AllUnplaced(t) && Tied(ListedOrder(c), Listing(c, u), Listing(c, v))
      ensures u.reason == v.reason ==> u == v
    {
      var k := UnplacedComesFrom(t, u);
      var m := UnplacedComesFrom(t, v);
      EventsTellPlace(p, rows, k, m);
    }
    forall u | u in AllUnplaced(t)
      ensures !CloseTie(ProjectOrder(c), Projects(u.item.identity, u.byProject), TOP)
    {
      var k := UnplacedComesFrom(t, u);
      GroupIsOk(p, rows);
      assert BucketOk(p, k, t.at[k]);
      NamesToldApart(c, u.item.identity, u.byProject);
    }
  }

  lemma NamesToldApart(c: Locale, id: Identity, b: Table<string, Decimal>)
    requires TellsApart(c)
    ensures !CloseTie(ProjectOrder(c), Projects(id, b), TOP)
  {
    hide Value, ProjectFirst, Leaders;
    forall x, y | x in Projects(id, b) && y in Projects(id, b) && Tied(ProjectOrder(c), x, y) ensures x == y {
      ProjectFirstMeans(c, x, y);
      ProjectFirstMeans(c, y, x);
      assert x.name == y.name;
    }
  }

  /** Where the collation ties no names, only conflicts make the order of rows matter. */
  lemma ConflictMattersExactly(c: Locale, p: Policy, rows: seq<Row>)
    requires TellsApart(c) && PolicyOk(p) && RowsCanonical(rows) && RowsDisjoint(rows)
    ensures ClaimsAgree(p, rows)
       <==> forall b :: multiset(b) == multiset(rows) ==> ResultOf(c, p, b) == ResultOf(c, p, rows)
  {
    hide *;
    OrderMattersExactly(c, p, rows);
    if ClaimsAgree(p, rows) {
      RowsHaveSources(rows);
      ClaimsToldApart(c, p, rows);
      PoolsToldApart(c, p, rows);
      EntriesToldApart(c, p, rows);
      NothingShows(c, p, rows);
    }
  }

  lemma NothingShows(c: Locale, p: Policy, rows: seq<Row>)
    requires !IdentitiesTie(c, rows) && !ClaimsTie(c, p, rows) && !PoolsTie(c, Group(p, rows))
    requires !DriversTie(c, p, rows) && !EntriesTie(c, Group(p, rows)) && !ProjectsTie(c, Group(p, rows))
    ensures !TiesShow(c, p, rows)
  {
  }
}
