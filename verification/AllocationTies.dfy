/** Where names that the collation ties let the order of rows show, and what the listings look like there. */
module AllocationTies {
  // Sorting is stable, so entries that tie stay as they came: lines follow the groups and the targets of the
  // rule that made them, pooled lines the drivers, unplaced entries the groups, and totals the rows.

  import opened Tables
  import opened ArrivalOrder
  import opened Holdings
  import opened Shares
  import opened AllocationRules
  import opened AllocationGroups
  import opened AllocationLines
  import opened AllocationConserves
  import opened AllocationLineage
  import opened AllocationRun
  import opened AllocationOrder
  import opened AllocationOrderLines

  /** The lines of a row's claimed group if the row comes first: they follow that row's rule. */
  ghost function Led(p: Policy, t: Groups, x: Row): seq<Line> {
    var k := PlaceOf(p, x);
    if KindOf(p, x) == Claimed && k in t.at then
      var ws := TargetWeights(RuleFor(p, x).value.targets);
      ShareLines(k, t.at[k].(rule := RuleFor(p, x)), Denominator(ws), ws)
    else []
  }

  ghost function DrivesTo(id: Identity, centre: string): Line -> bool { (l: Line) => Drives(l, id, centre) }

  // ---------------------------------------------------------------- ties that show

  /** Two rows of different identities whose currencies and bases the collation ties. */
  predicate Ties(c: Locale, x: Row, y: Row) {
    && x.identity != y.identity
    && c.name(x.identity.currency) == c.name(y.identity.currency)
    && c.name(x.identity.basis) == c.name(y.identity.basis)
  }

  ghost predicate IdentitiesTie(c: Locale, rows: seq<Row>) { exists x, y :: x in rows && y in rows && Ties(c, x, y) }

  /** Two claimed lines tie, and one row coming first lists the one ahead, another row the other. */
  ghost predicate ClaimsTie(c: Locale, p: Policy, rows: seq<Row>) {
    exists x, y, l, m :: x in rows && y in rows && ClaimsTieAt(c, p, Group(p, rows), x, y, l, m)
  }

  ghost predicate ClaimsTieAt(c: Locale, p: Policy, t: Groups, x: Row, y: Row, l: Line, m: Line) {
    Tied(LineOrder(c), l, m) && Ahead(Led(p, t, x), l, m) && Ahead(Led(p, t, y), m, l)
  }

  /** Two lines of differently named pools tie. */
  ghost predicate PoolsTie(c: Locale, t: Groups) {
    exists l, m :: l in PooledLines(t) && m in PooledLines(t) && Tied(LineOrder(c), l, m) && l.ruleId != m.ruleId
  }

  /** Two lines of one pool tie, and one row coming first drives the one centre ahead, another row the other. */
  ghost predicate DriversTie(c: Locale, p: Policy, rows: seq<Row>) {
    exists x, y, l, m :: x in rows && y in rows && DriversTieAt(c, p, Group(p, rows), x, y, l, m)
  }

  ghost predicate DriversTieAt(c: Locale, p: Policy, t: Groups, x: Row, y: Row, l: Line, m: Line) {
    var id := l.item.identity;
    && l in PooledLines(t) && m in PooledLines(t) && Tied(LineOrder(c), l, m)
    && m.item.identity == id && l.ruleId == m.ruleId
    && Reaches(Led(p, t, x), DrivesTo(id, l.centre), DrivesTo(id, m.centre))
    && Reaches(Led(p, t, y), DrivesTo(id, m.centre), DrivesTo(id, l.centre))
  }

  /** Two unplaced entries of one reason tie. */
  ghost predicate EntriesTie(c: Locale, t: Groups) {
    exists u, v :: u in AllUnplaced(t) && v in AllUnplaced(t) && u != v && u.reason == v.reason
                   && Tied(ListedOrder(c), Listing(c, u), Listing(c, v))
  }

  /** Of the projects of an unplaced entry two tie that are listed, with fewer than five ahead of them. */
  ghost predicate ProjectsTie(c: Locale, t: Groups) {
    exists u :: u in AllUnplaced(t) && CloseTie(ProjectOrder(c), Projects(u.item.identity, u.byProject), TOP)
  }

  /** Some tie is between two things that the order of rows can turn round. */
  ghost predicate TiesShow(c: Locale, p: Policy, rows: seq<Row>) {
    || IdentitiesTie(c, rows) || ClaimsTie(c, p, rows) || PoolsTie(c, Group(p, rows)) || DriversTie(c, p, rows)
    || EntriesTie(c, Group(p, rows)) || ProjectsTie(c, Group(p, rows))
  }

  // ---------------------------------------------------------------- groups and their rows

  /** A group's rule is that of one of its rows, and its projects are those of its rows. */
  ghost predicate FromRows(p: Policy, rows: seq<Row>, k: Place, b: Bucket) {
    && (exists x :: x in rows && PlaceOf(p, x) == k && RuleFor(p, x) == b.rule)
    && (forall name :: name in b.byProject.at ==>
          exists x :: x in rows && PlaceOf(p, x) == k && x.project == name)
  }

  lemma AddRowFromRows(p: Policy, rows: seq<Row>, row: Row, t: Groups, k: Place)
    requires k in t.at ==> FromRows(p, rows, k, t.at[k])
    requires k in AddRow(p, t, row).at
    ensures FromRows(p, rows + [row], k, AddRow(p, t, row).at[k])
  {
    hide PlaceOf, RuleFor;
    assert forall x :: x in rows ==> x in rows + [row];
    assert row in rows + [row];
  }

  lemma {:induction false} GroupsFromRows(p: Policy, rows: seq<Row>, k: Place)
    requires k in Group(p, rows).at
    ensures FromRows(p, rows, k, Group(p, rows).at[k])
    decreases |rows|
  {
    hide AddRow, FromRows;
    var n := |rows| - 1;
    if k in Group(p, rows[..n]).at {
      GroupsFromRows(p, rows[..n], k);
    }
    assert rows == rows[..n] + [rows[n]];
    AddRowFromRows(p, rows[..n], rows[n], Group(p, rows[..n]), k);
  }

  lemma PlacesAfterRow(p: Policy, t: Groups, row: Row)
    ensures AddRow(p, t, row).at.Keys == t.at.Keys + {PlaceOf(p, row)}
  {
    hide PlaceOf, RuleFor;
  }

  lemma {:induction false} RowHasPlace(p: Policy, rows: seq<Row>, x: Row)
    requires x in rows
    ensures PlaceOf(p, x) in Group(p, rows).at
    decreases |rows|
  {
    hide AddRow, PlaceOf;
    var n := |rows| - 1;
    PlacesAfterRow(p, Group(p, rows[..n]), rows[n]);
    if x in rows[..n] {
      RowHasPlace(p, rows[..n], x);
    } else {
      assert rows == rows[..n] + [rows[n]];
    }
    assert PlaceOf(p, x) in Group(p, rows).at.Keys;
  }

  lemma PlaceIdentity(p: Policy, rows: seq<Row>, k: Place) returns (x: Row)
    requires k in Group(p, rows).at
    ensures x in rows && PlaceOf(p, x) == k && x.identity == k.identity && KindOf(p, x) == k.kind
    ensures RuleFor(p, x) == Group(p, rows).at[k].rule
  {
    hide Group, FirstMatch, NamesArchived;
    GroupsFromRows(p, rows, k);
    x :| x in rows && PlaceOf(p, x) == k && RuleFor(p, x) == Group(p, rows).at[k].rule;
  }

  lemma {:induction false} ShareLinesRead(k: Place, a: Bucket, b: Bucket, den: nat, ws: seq<Weight>)
    requires a.rule.Some? && a.rule == b.rule && a.amount == b.amount && a.sources == b.sources
    ensures ShareLines(k, a, den, ws) == ShareLines(k, b, den, ws)
    decreases |ws|
  {
    hide Part;
    if ws != [] {
      ShareLinesRead(k, a, b, den, ws[..|ws| - 1]);
    }
  }

  /** In every order of the rows, a claimed group's lines are those that one of its rows leads to. */
  lemma ClaimIsLed(p: Policy, rows: seq<Row>, t: Groups, k: Place) returns (x: Row)
    requires IsClaim(Group(p, rows), k) && SameGroups(t, Group(p, rows))
    ensures x in rows && PlaceOf(p, x) == k && ClaimLines(Group(p, rows))(k) == Led(p, t, x)
  {
    hide Group, PlaceOf, KindOf, RuleFor, ShareLines, Denominator;
    x := PlaceIdentity(p, rows, k);
    LedIsClaim(p, Group(p, rows), t, x);
  }

  lemma LedIsClaim(p: Policy, s: Groups, t: Groups, x: Row)
    requires SameGroups(t, s) && IsClaim(s, PlaceOf(p, x)) && RuleFor(p, x) == s.at[PlaceOf(p, x)].rule
    ensures ClaimLines(s)(PlaceOf(p, x)) == Led(p, t, x)
  {
    hide RuleFor, KindOf, ShareLines, Denominator;
    var k := PlaceOf(p, x);
    PlaceKeepsIdentity(p, x);
    assert k in s.at.Keys;
    assert SameBucket(t.at[k], s.at[k]);
    ShareLinesRead(k, s.at[k], t.at[k].(rule := RuleFor(p, x)), Denominator(ClaimWeights(s, k)), ClaimWeights(s, k));
  }

  // ---------------------------------------------------------------- the order of drivers

  ghost function DriverOrder(d: Drivers, id: Identity): seq<string> { if id in d.at then d.at[id].order else [] }

  lemma AddDriverOrder(d: Drivers, l: Line, id: Identity)
    ensures DriverOrder(AddDriver(d, l), id)
         == DriverOrder(d, id) + if Drives(l, id, l.centre) && !HasDriver(d, id, l.centre) then [l.centre] else []
  {
    hide Part;
  }

  lemma DriverIsListed(lines: seq<Line>, id: Identity, centre: string)
    ensures centre in DriverOrder(DriversOf(lines), id) <==> HasDriver(DriversOf(lines), id, centre)
    ensures HasDriver(DriversOf(lines), id, centre) <==> exists l :: l in lines && Drives(l, id, centre)
  {
    hide DriversOf;
    DriversAreOk(lines);
    DriversMean(lines, id, centre);
  }

  lemma DriverIsDriven(lines: seq<Line>, id: Identity, centre: string)
    ensures Lacks(lines, DrivesTo(id, centre)) <==> !HasDriver(DriversOf(lines), id, centre)
    ensures Lacks(DriverOrder(DriversOf(lines), id), Is(centre)) <==> !HasDriver(DriversOf(lines), id, centre)
  {
    hide DriversOf, Drives;
    DriverIsListed(lines, id, centre);
    if l :| l in lines && Drives(l, id, centre) {
      var i :| 0 <= i < |lines| && lines[i] == l;
      assert DrivesTo(id, centre)(lines[i]);
    }
  }

  lemma OneMoreDriver(lines: seq<Line>, l: Line, id: Identity, u: string, v: string)
    requires u != v
    requires Ahead(DriverOrder(DriversOf(lines), id), u, v) <==> Reaches(lines, DrivesTo(id, u), DrivesTo(id, v))
    ensures Ahead(DriverOrder(AddDriver(DriversOf(lines), l), id), u, v)
       <==> Reaches(lines + [l], DrivesTo(id, u), DrivesTo(id, v))
  {
    hide AddDriver, DriverOrder, DriversOf, HasDriver, Reaches, Lacks;
    var order := DriverOrder(DriversOf(lines), id);
    AddDriverOrder(DriversOf(lines), l, id);
    assert order + [] == order;
    ReachesPush(lines, l, DrivesTo(id, u), DrivesTo(id, v));
    ReachesPush(order, l.centre, Is(u), Is(v));
    DriverIsDriven(lines, id, u);
    DriverIsDriven(lines, id, v);
    if !Lacks(lines, DrivesTo(id, u)) && Lacks(lines, DrivesTo(id, v)) {
      ReachesNoOther(lines, DrivesTo(id, u), DrivesTo(id, v));
    }
  }

  /** Drivers are listed in the order in which lines first reach them. */
  lemma {:induction false} DriversAsReached(lines: seq<Line>, id: Identity, u: string, v: string)
    requires u != v
    ensures Ahead(DriverOrder(DriversOf(lines), id), u, v) <==> Reaches(lines, DrivesTo(id, u), DrivesTo(id, v))
    decreases |lines|
  {
    if lines == [] {
    } else {
      hide AddDriver, DriverOrder, Ahead, Reaches, DrivesTo;
      var n := |lines| - 1;
      DriversAsReached(lines[..n], id, u, v);
      OneMoreDriver(lines[..n], lines[n], id, u, v);
      assert lines == lines[..n] + [lines[n]];
    }
  }

  // ---------------------------------------------------------------- lines and the places they are made at

  lemma {:induction false} ShareLinesAt(k: Place, b: Bucket, den: nat, ws: seq<Weight>)
    requires b.rule.Some?
    ensures |ShareLines(k, b, den, ws)| == |ws|
    ensures forall i :: 0 <= i < |ws| ==> ShareLines(k, b, den, ws)[i] == ShareLine(k, b, den, ws[i])
    decreases |ws|
  {
    hide ShareLine;
    if ws != [] {
      ShareLinesAt(k, b, den, ws[..|ws| - 1]);
    }
  }

  /** A claimed or pooled line carries the name of its place. */
  predicate MadeAt(k: Place, l: Line) {
    && l.item.identity == k.identity && l.ruleId == k.ruleId && l.version == k.version
    && (l.way == ProportionalToDirect <==> k.kind == Pooled)
  }

  lemma ClaimMadeAt(p: Policy, t: Groups, k: Place, l: Line)
    requires GroupsOk(p, t) && l in ClaimLines(t)(k)
    ensures IsClaim(t, k) && MadeAt(k, l)
  {
    hide Part, ShareLines, Denominator;
    assert BucketOk(p, k, t.at[k]);
    var i := ShareLineFrom(k, t.at[k], Denominator(ClaimWeights(t, k)), ClaimWeights(t, k), l);
  }

  lemma PoolMadeAt(p: Policy, t: Groups, k: Place, l: Line)
    requires GroupsOk(p, t) && l in PoolLines(t, AllDrivers(t))(k)
    ensures Driven(t, AllDrivers(t), k) && MadeAt(k, l)
  {
    hide Part, ShareLines, Denominator, PoolWeights, AllDrivers;
    assert BucketOk(p, k, t.at[k]);
    var ws := PoolWeights(AllDrivers(t), k.identity);
    var i := ShareLineFrom(k, t.at[k], Denominator(ws), ws, l);
  }

  lemma ClaimedPlace(p: Policy, t: Groups, l: Line) returns (k: Place)
    requires GroupsOk(p, t) && l in AllClaimLines(t)
    ensures IsClaim(t, k) && MadeAt(k, l) && l in ClaimLines(t)(k)
  {
    hide ClaimLines, GroupsOk;
    InFlatten(ClaimLines(t), t.order, l);
    k :| k in t.order && l in ClaimLines(t)(k);
    ClaimMadeAt(p, t, k, l);
  }

  lemma PooledPlace(p: Policy, t: Groups, l: Line) returns (k: Place)
    requires GroupsOk(p, t) && l in PooledLines(t)
    ensures Driven(t, AllDrivers(t), k) && MadeAt(k, l) && l in PoolLines(t, AllDrivers(t))(k)
  {
    hide PoolLines, GroupsOk, AllDrivers;
    InFlatten(PoolLines(t, AllDrivers(t)), t.order, l);
    k :| k in t.order && l in PoolLines(t, AllDrivers(t))(k);
    PoolMadeAt(p, t, k, l);
  }

  lemma MadeAtOne(k: Place, m: Place, l: Line)
    requires MadeAt(k, l) && MadeAt(m, l) && Placed(k.kind) && Placed(m.kind)
    ensures k == m
  {
  }

  lemma SharesDistinct(k: Place, b: Bucket, den: nat, ws: seq<Weight>)
    requires b.rule.Some? && Shares.CentresDistinct(ws)
    ensures Distinct(ShareLines(k, b, den, ws))
  {
    hide Part, ShareLines;
    ShareLinesAt(k, b, den, ws);
  }

  lemma ClaimLinesDistinct(p: Policy, t: Groups)
    requires PolicyOk(p) && GroupsOk(p, t)
    ensures Distinct(AllClaimLines(t))
  {
    hide Distinct, ShareLines, Denominator, PolicyOk, BucketOk, ClaimLines, MadeAt;
    forall k | k in t.order ensures Distinct(ClaimLines(t)(k)) {
      OneClaimDistinct(p, t, k);
    }
    forall k, m, l | k in t.order && m in t.order && l in ClaimLines(t)(k) && l in ClaimLines(t)(m) ensures k == m {
      ClaimMadeAt(p, t, k, l);
      ClaimMadeAt(p, t, m, l);
      MadeAtOne(k, m, l);
    }
    OrderDistinct(t);
    FlattenDistinct(ClaimLines(t), t.order);
  }

  lemma OrderDistinct(t: Groups)
    requires Ok(t)
    ensures Distinct(t.order)
  {
  }

  lemma OneClaimDistinct(p: Policy, t: Groups, k: Place)
    requires PolicyOk(p) && GroupsOk(p, t)
    ensures Distinct(ClaimLines(t)(k))
  {
    hide ShareLines, Denominator, Distinct;
    if IsClaim(t, k) {
      assert BucketOk(p, k, t.at[k]);
      assert RuleOk(t.at[k].rule.value);
      assert TargetsDistinct(t.at[k].rule.value.targets);
      SharesDistinct(k, t.at[k], Denominator(ClaimWeights(t, k)), ClaimWeights(t, k));
    } else {
      NothingRepeats<Line>();
    }
  }

  lemma NothingRepeats<T(!new)>()
    ensures Distinct<T>([])
  {
  }

  lemma OnePoolDistinct(t: Groups, k: Place)
    ensures Distinct(PoolLines(t, AllDrivers(t))(k))
  {
    hide ShareLines, Denominator, Distinct, PoolWeights, AllDrivers;
    var d := AllDrivers(t);
    DriversFound(t);
    if Driven(t, d, k) {
      PoolWeightsPositive(d, k.identity);
      SharesDistinct(k, t.at[k], Denominator(PoolWeights(d, k.identity)), PoolWeights(d, k.identity));
    } else {
      NothingRepeats<Line>();
    }
  }

  lemma DriversFound(t: Groups)
    ensures DriversOk(AllDrivers(t))
  {
    DriversAreOk(AllClaimLines(t));
  }

  lemma PooledLinesDistinct(p: Policy, t: Groups)
    requires GroupsOk(p, t)
    ensures Distinct(PooledLines(t))
  {
    hide Distinct, AllDrivers, PoolLines, MadeAt, BucketOk;
    var d := AllDrivers(t);
    forall k | k in t.order ensures Distinct(PoolLines(t, d)(k)) {
      OnePoolDistinct(t, k);
    }
    forall k, m, l | k in t.order && m in t.order && l in PoolLines(t, d)(k) && l in PoolLines(t, d)(m) ensures k == m {
      PoolMadeAt(p, t, k, l);
      PoolMadeAt(p, t, m, l);
      MadeAtOne(k, m, l);
    }
    OrderDistinct(t);
    FlattenDistinct(PoolLines(t, d), t.order);
  }

  lemma PooledIsNotClaimed(p: Policy, t: Groups, l: Line)
    requires GroupsOk(p, t) && l in AllClaimLines(t)
    ensures l !in PooledLines(t)
  {
    hide ClaimLines, PoolLines, AllDrivers, BucketOk;
    InFlatten(ClaimLines(t), t.order, l);
    var k :| k in t.order && l in ClaimLines(t)(k);
    ClaimMadeAt(p, t, k, l);
    if l in PooledLines(t) {
      InFlatten(PoolLines(t, AllDrivers(t)), t.order, l);
      var m :| m in t.order && l in PoolLines(t, AllDrivers(t))(m);
      PoolMadeAt(p, t, m, l);
    }
  }

  /** No line is listed twice. */
  lemma LinesDistinct(p: Policy, t: Groups)
    requires PolicyOk(p) && GroupsOk(p, t)
    ensures Distinct(AllLines(t)) && forall l :: l in AllClaimLines(t) ==> l !in PooledLines(t)
  {
    hide Distinct, AllClaimLines, PooledLines, GroupsOk, PolicyOk;
    ClaimLinesDistinct(p, t);
    PooledLinesDistinct(p, t);
    forall l | l in AllClaimLines(t) ensures l !in PooledLines(t) {
      PooledIsNotClaimed(p, t, l);
    }
    DistinctConcat(AllClaimLines(t), PooledLines(t));
    LinesInParts(t);
  }

  lemma LinesInParts(t: Groups)
    ensures AllLines(t) == AllClaimLines(t) + PooledLines(t)
  {
  }

  /** A pool's lines come in the order of its drivers, and so as claimed lines reach their centres. */
  lemma PoolAsDriven(t: Groups, k: Place, l: Line, m: Line)
    requires Driven(t, AllDrivers(t), k) && l != m
    requires l in PoolLines(t, AllDrivers(t))(k) && m in PoolLines(t, AllDrivers(t))(k)
    ensures Ahead(PoolLines(t, AllDrivers(t))(k), l, m)
       <==> Reaches(AllClaimLines(t), DrivesTo(k.identity, l.centre), DrivesTo(k.identity, m.centre))
  {
    hide Reaches, Part, Denominator, ShareLines, DriversOf, CommonScale;
    var d := AllDrivers(t);
    var order, lines := d.at[k.identity].order, PoolLines(t, d)(k);
    DriversFound(t);
    ShareLinesAt(k, t.at[k], Denominator(PoolWeights(d, k.identity)), PoolWeights(d, k.identity));
    assert forall i :: 0 <= i < |lines| ==> lines[i].centre == order[i];
    ByCentre(lines, order, l);
    ByCentre(lines, order, m);
    assert l.centre != m.centre;
    ReachesAlike(lines, Is(l), Is(m), order, Is(l.centre), Is(m.centre));
    DriversAsReached(AllClaimLines(t), k.identity, l.centre, m.centre);
  }

  lemma ByCentre(lines: seq<Line>, order: seq<string>, l: Line)
    requires Distinct(order) && |lines| == |order| && l in lines
    requires forall i :: 0 <= i < |lines| ==> lines[i].centre == order[i]
    ensures forall i :: 0 <= i < |lines| ==> (lines[i] == l <==> order[i] == l.centre)
  {
  }

  // ---------------------------------------------------------------- unplaced entries

  /** A group is told by the events it holds. */
  lemma EventsTellPlace(p: Policy, rows: seq<Row>, k: Place, m: Place)
    requires RowsDisjoint(rows) && HasSources(rows) && k in Group(p, rows).at && m in Group(p, rows).at
    requires Group(p, rows).at[k].sources == Group(p, rows).at[m].sources
    ensures k == m
  {
    hide Group, PlaceOf, SourceSet;
    GroupIsOk(p, rows);
    assert BucketOk(p, k, Group(p, rows).at[k]);
    var x :| x in Group(p, rows).at[k].sources;
    GroupMembers(p, rows, k, x);
    var i :| 0 <= i < |rows| && PlaceOf(p, rows[i]) == k && x in SourceSet(rows[i]);
    EventHasOnePlace(p, rows, i, x, m);
  }

  lemma UnplacedTold(p: Policy, rows: seq<Row>, u: Unplaced, v: Unplaced)
    requires RowsDisjoint(rows) && HasSources(rows)
    requires u in AllUnplaced(Group(p, rows)) && v in AllUnplaced(Group(p, rows)) && u.item == v.item
    ensures u == v
  {
    hide Group, AllUnplaced, AllDrivers;
    var k := UnplacedComesFrom(Group(p, rows), u);
    var m := UnplacedComesFrom(Group(p, rows), v);
    EventsTellPlace(p, rows, k, m);
  }

  /** Each place has one entry at most, and it holds the events of the place. */
  ghost predicate OneEach(t: Groups, f: Place -> seq<Unplaced>) {
    forall k :: f(k) == [] || (k in t.at && |f(k)| == 1 && f(k)[0].item.sources == t.at[k].sources)
  }

  lemma PartDistinct(p: Policy, rows: seq<Row>, f: Place -> seq<Unplaced>)
    requires RowsDisjoint(rows) && HasSources(rows) && OneEach(Group(p, rows), f)
    ensures Distinct(Flatten(f, Group(p, rows).order))
  {
    hide Group, Flatten, GroupsOk;
    var t := Group(p, rows);
    forall k, m, u | k in t.order && m in t.order && u in f(k) && u in f(m) ensures k == m {
      EventsTellPlace(p, rows, k, m);
    }
    GroupIsOk(p, rows);
    GroupsAreTables(p, t);
    FlattenDistinct(f, t.order);
  }

  lemma GroupsAreTables(p: Policy, t: Groups)
    requires GroupsOk(p, t)
    ensures Ok(t)
  {
  }

  lemma UnplacedDistinct(p: Policy, rows: seq<Row>)
    requires RowsDisjoint(rows) && HasSources(rows)
    ensures Distinct(AllUnplaced(Group(p, rows)))
  {
    hide Group, Distinct, AllDrivers, Flatten, RowsDisjoint, HasSources;
    var t := Group(p, rows);
    var a := Flatten(UnplacedOfKind(t, Unmatched, NoMatchingRule), t.order);
    var b := Flatten(UnplacedOfKind(t, ToArchived, TargetArchived), t.order);
    var d := Flatten(UndrivenPools(t, AllDrivers(t)), t.order);
    PartDistinct(p, rows, UnplacedOfKind(t, Unmatched, NoMatchingRule));
    PartDistinct(p, rows, UnplacedOfKind(t, ToArchived, TargetArchived));
    PartDistinct(p, rows, UndrivenPools(t, AllDrivers(t)));
    ReasonsOfParts(t);
    DistinctConcat(a, b);
    DistinctConcat(a + b, d);
  }

  /** Every entry made at a place gives one reason. */
  ghost predicate OneReason(f: Place -> seq<Unplaced>, reason: Reason) {
    forall k, u :: u in f(k) ==> u.reason == reason
  }

  lemma ReasonOfPart(f: Place -> seq<Unplaced>, reason: Reason, keys: seq<Place>)
    requires OneReason(f, reason)
    ensures forall u :: u in Flatten(f, keys) ==> u.reason == reason
  {
    forall u | u in Flatten(f, keys) ensures u.reason == reason {
      InFlatten(f, keys, u);
    }
  }

  lemma ReasonsOfParts(t: Groups)
    ensures forall u :: u in Flatten(UnplacedOfKind(t, Unmatched, NoMatchingRule), t.order) ==>
            u.reason == NoMatchingRule
    ensures forall u :: u in Flatten(UnplacedOfKind(t, ToArchived, TargetArchived), t.order) ==>
            u.reason == TargetArchived
    ensures forall u :: u in Flatten(UndrivenPools(t, AllDrivers(t)), t.order) ==> u.reason == NoDriver
  {
    hide AllDrivers, Flatten;
    ReasonOfPart(UnplacedOfKind(t, Unmatched, NoMatchingRule), NoMatchingRule, t.order);
    ReasonOfPart(UnplacedOfKind(t, ToArchived, TargetArchived), TargetArchived, t.order);
    ReasonOfPart(UndrivenPools(t, AllDrivers(t)), NoDriver, t.order);
  }

  /** No unplaced entry is listed twice. */
  lemma ListedDistinct(c: Locale, p: Policy, rows: seq<Row>)
    requires RowsDisjoint(rows) && HasSources(rows)
    ensures Distinct(Flatten(ToListed(c), AllUnplaced(Group(p, rows))))
  {
    hide Group, Distinct, AllUnplaced, TopProjects, Flatten, RowsDisjoint, HasSources;
    var us := AllUnplaced(Group(p, rows));
    UnplacedDistinct(p, rows);
    forall u ensures Distinct(ToListed(c)(u)) {
      OnlyOne(Listing(c, u));
    }
    forall u, v, x | u in us && v in us && x in ToListed(c)(u) && x in ToListed(c)(v) ensures u == v {
      UnplacedTold(p, rows, u, v);
    }
    FlattenDistinct(ToListed(c), us);
  }

  lemma OnlyOne<T(!new)>(x: T)
    ensures Distinct([x])
  {
  }
}
