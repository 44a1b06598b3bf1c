/** What each listing of an allocation says of the rows, told without the tables that were filled. */
module AllocationMeaning {
  import opened Money
  import opened Rate
  import opened Tables
  import opened Holdings
  import opened Shares
  import opened AllocationRules
  import opened AllocationGroups
  import opened AllocationLines
  import opened AllocationConserves
  import opened AllocationLineage
  import opened AllocationOrderLines
  import opened AllocationTies

  // ---------------------------------------------------------------- where a row is sent

  ghost predicate Wanted(want: Option<string>, actual: Option<string>) { want.Some? ==> want == actual }

  /** A rule covers a row from its start until it expires or is revoked, whichever is first, if the row is as
      the rule wants it on every axis the rule names. */
  ghost predicate Covers(r: Rule, row: Row) {
    && r.effectiveFrom <= row.at
    && (forall end :: r.effectiveTo == Some(end) || r.revokedAt == Some(end) ==> row.at < end)
    && Wanted(r.wants.project, Some(row.project)) && Wanted(r.wants.provider, Some(row.provider))
    && Wanted(r.wants.model, Some(row.model)) && Wanted(r.wants.source, row.source) && Wanted(r.wants.user, row.user)
  }

  lemma TakesCovered(r: Rule, row: Row)
    ensures Takes(r, row) <==> Covers(r, row)
  {
    assert r.effectiveTo.Some? ==> r.effectiveTo == Some(r.effectiveTo.value);
    assert r.revokedAt.Some? ==> r.revokedAt == Some(r.revokedAt.value);
  }

  /** The first rule in evaluation order that covers the row. */
  ghost predicate FirstCover(p: Policy, row: Row, r: Rule) {
    exists i :: 0 <= i < |p.ordered| && p.ordered[i] == r && Covers(r, row)
                && forall j :: 0 <= j < i ==> !Covers(p.ordered[j], row)
  }

  lemma {:induction false} FirstMatchCovers(ordered: seq<Rule>, row: Row) returns (i: nat)
    ensures match FirstMatch(ordered, row)
            case None => i == |ordered| && forall j :: 0 <= j < |ordered| ==> !Covers(ordered[j], row)
            case Some(r) => i < |ordered| && ordered[i] == r && Covers(r, row)
                            && forall j :: 0 <= j < i ==> !Covers(ordered[j], row)
    decreases |ordered|
  {
    hide Covers, Takes;
    if ordered == [] {
      return 0;
    }
    TakesCovered(ordered[0], row);
    if Takes(ordered[0], row) {
      return 0;
    }
    var k := FirstMatchCovers(ordered[1..], row);
    i := k + 1;
    assert forall j :: 0 < j < |ordered| ==> ordered[j] == ordered[1..][j - 1];
  }

  lemma FirstMatchIsFirst(p: Policy, row: Row)
    ensures forall r :: FirstCover(p, row, r) <==> FirstMatch(p.ordered, row) == Some(r)
  {
    hide Covers, FirstMatch;
    var i := FirstMatchCovers(p.ordered, row);
    forall r ensures FirstCover(p, row, r) <==> FirstMatch(p.ordered, row) == Some(r) {
      if FirstCover(p, row, r) {
        var k :| 0 <= k < |p.ordered| && p.ordered[k] == r && Covers(r, row)
                 && forall j :: 0 <= j < k ==> !Covers(p.ordered[j], row);
        assert !(k < i) && !(i < k);
      }
    }
  }

  /** Some centre the rule names takes no amounts any more. */
  ghost predicate Closed(p: Policy, r: Rule) { exists x :: x in r.targets && x.centre in p.archived }

  /** The row is accounted for here: with the other rows of its currency and basis that no rule covers, whose
      rule names an archived centre, that one rule splits by ratios, or that one rule pools. */
  ghost predicate SentTo(p: Policy, row: Row, k: Place) {
    k.identity == row.identity &&
    match k.kind
    case Unmatched => k.ruleId == "" && k.version == 0 && forall r :: !FirstCover(p, row, r)
    case ToArchived =>
      && k.ruleId == "" && k.version == 0
      && exists r :: FirstCover(p, row, r) && r.way != ProportionalToDirect && Closed(p, r)
    case Claimed =>
      exists r :: FirstCover(p, row, r) && r.way != ProportionalToDirect && !Closed(p, r)
                  && k.ruleId == r.ruleId && k.version == r.version
    case Pooled =>
      exists r :: FirstCover(p, row, r) && r.way == ProportionalToDirect
                  && k.ruleId == r.ruleId && k.version == r.version
  }

  lemma SentToItsPlace(p: Policy, row: Row, k: Place)
    ensures SentTo(p, row, k) <==> PlaceOf(p, row) == k
  {
    hide FirstCover, FirstMatch;
    FirstMatchIsFirst(p, row);
    var c := FirstMatch(p.ordered, row);
    if c.Some? {
      ClosedIsArchived(p, c.value);
      assert FirstCover(p, row, c.value);
    }
  }

  lemma ClosedIsArchived(p: Policy, r: Rule)
    ensures Closed(p, r) <==> NamesArchived(r, p.archived)
  {
    if NamesArchived(r, p.archived) {
      var i :| 0 <= i < |r.targets| && r.targets[i].centre in p.archived;
      assert r.targets[i] in r.targets;
    }
  }

  // ---------------------------------------------------------------- what a group holds

  ghost function RowsAt(p: Policy, k: Place): Row -> real {
    (row: Row) => if SentTo(p, row, k) then Value(row.amount) else 0.0
  }

  ghost function ProjectAt(p: Policy, k: Place, name: string): Row -> real {
    (row: Row) => if SentTo(p, row, k) && row.project == name then Value(row.amount) else 0.0
  }

  ghost function Held(t: Groups, k: Place): real { if k in t.at then Value(t.at[k].amount) else 0.0 }

  ghost function HeldOf(t: Groups, k: Place, name: string): real {
    if k in t.at && name in t.at[k].byProject.at then Value(t.at[k].byProject.at[name]) else 0.0
  }

  lemma AddRowHolds(p: Policy, t: Groups, row: Row, k: Place, name: string)
    ensures Held(AddRow(p, t, row), k) == Held(t, k) + RowsAt(p, k)(row)
    ensures HeldOf(AddRow(p, t, row), k, name) == HeldOf(t, k, name) + ProjectAt(p, k, name)(row)
  {
    hide Value, SentTo, PlaceOf, RuleFor;
    SentToItsPlace(p, row, k);
    ZeroIsWorthNothing();
  }

  /** A group holds the sum of the rows sent to it, and under each project the sum of that project's rows. */
  lemma {:induction false} GroupHolds(p: Policy, rows: seq<Row>, k: Place, name: string)
    ensures Held(Group(p, rows), k) == Total(RowsAt(p, k), rows)
    ensures HeldOf(Group(p, rows), k, name) == Total(ProjectAt(p, k, name), rows)
    decreases |rows|
  {
    hide AddRow, RowsAt, ProjectAt, Held, HeldOf;
    if rows == [] {
      NothingHeld(k, name);
    } else {
      var n := |rows| - 1;
      GroupHolds(p, rows[..n], k, name);
      AddRowHolds(p, Group(p, rows[..n]), rows[n], k, name);
    }
  }

  lemma NothingHeld(k: Place, name: string)
    ensures Held(Empty(), k) == 0.0 && HeldOf(Empty(), k, name) == 0.0
  {
  }

  /** The rule of a group: that of the first row sent to it. */
  ghost predicate Opens(p: Policy, rows: seq<Row>, k: Place, rule: Rule) {
    exists i :: 0 <= i < |rows| && SentTo(p, rows[i], k) && FirstCover(p, rows[i], rule)
                && forall j :: 0 <= j < i ==> !SentTo(p, rows[j], k)
  }

  lemma OpensPush(p: Policy, rows: seq<Row>, row: Row, k: Place, rule: Rule)
    ensures Opens(p, rows, k, rule) ==> Opens(p, rows + [row], k, rule)
    ensures SentTo(p, row, k) && FirstCover(p, row, rule) && (forall j :: 0 <= j < |rows| ==> !SentTo(p, rows[j], k))
            ==> Opens(p, rows + [row], k, rule)
  {
    hide SentTo, FirstCover;
    var longer := rows + [row];
    assert forall i :: 0 <= i < |rows| ==> longer[i] == rows[i];
    assert longer[|rows|] == row;
  }

  lemma RuleStays(p: Policy, t: Groups, row: Row, k: Place)
    requires k in AddRow(p, t, row).at
    ensures k in t.at || k == PlaceOf(p, row)
    ensures AddRow(p, t, row).at[k].rule == if k in t.at then t.at[k].rule else RuleFor(p, row)
  {
    hide PlaceOf, RuleFor;
  }

  lemma {:induction false} GroupHasRule(p: Policy, rows: seq<Row>, k: Place)
    requires k in Group(p, rows).at && Group(p, rows).at[k].rule.Some?
    ensures Opens(p, rows, k, Group(p, rows).at[k].rule.value)
    decreases |rows|
  {
    hide AddRow, SentTo, FirstCover, PlaceOf, RuleFor, Opens;
    var n := |rows| - 1;
    var t, row := Group(p, rows[..n]), rows[n];
    assert rows == rows[..n] + [row];
    RuleStays(p, t, row, k);
    var rule := Group(p, rows).at[k].rule.value;
    OpensPush(p, rows[..n], row, k, rule);
    if k in t.at {
      GroupHasRule(p, rows[..n], k);
    } else {
      SentToItsPlace(p, row, k);
      RuleForIsCover(p, row, rule);
      forall j | 0 <= j < n ensures !SentTo(p, rows[..n][j], k) {
        SentToItsPlace(p, rows[..n][j], k);
        RowHasPlace(p, rows[..n], rows[..n][j]);
      }
    }
  }

  lemma RuleForIsCover(p: Policy, row: Row, rule: Rule)
    requires RuleFor(p, row) == Some(rule)
    ensures FirstCover(p, row, rule)
  {
    hide FirstCover;
    FirstMatchIsFirst(p, row);
  }

  // ---------------------------------------------------------------- claimed lines

  /** The line is the target's share, by its parts, of all rows sent to the group. */
  ghost predicate ClaimedShare(p: Policy, rows: seq<Row>, k: Place, rule: Rule, x: Target, l: Line) {
    && k.kind == Claimed && Opens(p, rows, k, rule) && k.ruleId == rule.ruleId && k.version == rule.version
    && x in rule.targets
    && l.centre == x.centre && l.ruleId == rule.ruleId && l.version == rule.version && l.way == rule.way
    && l.ratioParts == x.parts && l.item.identity == k.identity
    && Value(l.item.amount) * RATIO_SCALE as real == Total(RowsAt(p, k), rows) * x.parts as real
    && forall e :: e in l.item.sources <==> InPlace(p, rows, k, e)
  }

  lemma WholeParts(parts: nat)
    ensures parts * RATIO_SCALE / RATIO_SCALE == parts
  {
  }

  lemma PartOfGroup(t: Groups, k: Place, ws: seq<Weight>, i: nat)
    requires k in t.at && i < |ws| && Denominator(ws) > 0 && !Refuses(t.at[k].amount, ws, Denominator(ws))
    ensures Value(Part(t.at[k].amount, ws[i].weight, Denominator(ws))) * Denominator(ws) as real
         == Value(t.at[k].amount) * ws[i].weight as real
  {
    hide ShareOf, Value, Denominator;
    PartMeans(t.at[k].amount, ws[i].weight, Denominator(ws));
  }

  lemma NotRefusedAt(t: Groups, k: Place)
    requires !Refused(t) && Ok(t) && k in t.at
    ensures !ClaimRefused(t, k) && !PoolRefused(t, AllDrivers(t), k)
  {
    hide ClaimRefused, PoolRefused, AllDrivers;
    assert k in t.order;
    var i :| 0 <= i < |t.order| && t.order[i] == k;
  }

  /** Every claimed line is a target's share of the rows that the rule's group gathers. */
  lemma ClaimedLineIsShare(p: Policy, rows: seq<Row>, l: Line) returns (k: Place, rule: Rule, x: Target)
    requires PolicyOk(p) && HasSources(rows) && !Refused(Group(p, rows)) && l in AllClaimLines(Group(p, rows))
    ensures ClaimedShare(p, rows, k, rule, x, l)
  {
    hide Opens, Group, Refused, ShareLines, Denominator, RuleOk, Part, Refuses, AllClaimLines, InPlace, Value;
    var t := Group(p, rows);
    GroupIsOk(p, rows);
    k := ClaimedPlace(p, t, l);
    assert BucketOk(p, k, t.at[k]);
    rule := t.at[k].rule.value;
    var ws := ClaimWeights(t, k);
    var i := ShareLineFrom(k, t.at[k], Denominator(ws), ws, l);
    x := rule.targets[i];
    ClaimIsWhole(rule);
    WholeParts(x.parts);
    NotRefusedAt(t, k);
    PartOfGroup(t, k, ws, i);
    GroupHolds(p, rows, k, "");
    GroupHasRule(p, rows, k);
    forall e ensures e in l.item.sources <==> InPlace(p, rows, k, e) {
      GroupMembers(p, rows, k, e);
    }
  }

  // ---------------------------------------------------------------- pooled lines

  /** What a claimed line drives: its amount, if positive, in its currency and basis. */
  ghost function Driving(id: Identity): Line -> real {
    (l: Line) => if l.item.identity == id && Value(l.item.amount) > 0.0 then Value(l.item.amount) else 0.0
  }

  ghost function DrivingAt(id: Identity, centre: string): Line -> real {
    (l: Line) => if l.centre == centre then Driving(id)(l) else 0.0
  }

  lemma OneDrives(id: Identity, centre: string, l: Line)
    ensures DrivingAt(id, centre)(l) == DriverIn(id, centre)(l)
    ensures Driving(id)(l) == if Drives(l, id, l.centre) then Value(l.item.amount) else 0.0
  {
    hide Value;
    PositiveMeansPositive(l.item.amount);
    assert Driving(id)(l) == if Drives(l, id, l.centre) then Value(l.item.amount) else 0.0;
    assert DriverIn(id, centre)(l) == if Drives(l, id, centre) then Value(l.item.amount) else 0.0;
  }

  lemma DrivingIsDriver(id: Identity, centre: string, lines: seq<Line>)
    ensures Total(DrivingAt(id, centre), lines) == Total(DriverIn(id, centre), lines)
  {
    hide Value;
    forall i | 0 <= i < |lines| ensures DrivingAt(id, centre)(lines[i]) == DriverIn(id, centre)(lines[i]) {
      OneDrives(id, centre, lines[i]);
    }
    TotalSame(DrivingAt(id, centre), DriverIn(id, centre), lines);
  }

  ghost function Sum(d: Drivers, id: Identity): real {
    if id in d.at then Total(DriverOf(d.at[id]), d.at[id].order) else 0.0
  }

  ghost function DriverOf(x: Table<string, Decimal>): string -> real {
    (centre: string) => if centre in x.at then Value(x.at[centre]) else 0.0
  }

  lemma PutSums(x: Table<string, Decimal>, centre: string, amount: Decimal)
    requires Ok(x)
    ensures var y := Put(x, centre, if centre in x.at then Add(x.at[centre], amount) else amount);
            Total(DriverOf(y), y.order) == Total(DriverOf(x), x.order) + Value(amount)
  {
    hide Value, Add;
    var y := Put(x, centre, if centre in x.at then Add(x.at[centre], amount) else amount);
    if centre in x.at {
      TotalChanged(DriverOf(x), DriverOf(y), x.order, centre);
    } else {
      assert y.order[..|x.order|] == x.order;
      TotalSame(DriverOf(x), DriverOf(y), x.order);
    }
  }

  lemma AddDriverSums(d: Drivers, l: Line, id: Identity)
    requires DriversOk(d)
    ensures Sum(AddDriver(d, l), id) == Sum(d, id) + Driving(id)(l)
  {
    hide Value, Add, DriverOf, Driving;
    OneDrives(id, l.centre, l);
    if Drives(l, id, l.centre) {
      var x := if id in d.at then d.at[id] else Empty();
      PutSums(x, l.centre, l.item.amount);
      NothingSummed();
    }
  }

  lemma NothingSummed()
    ensures Total(DriverOf(Empty()), Empty<string, Decimal>().order) == 0.0
  {
  }

  lemma {:induction false} DriversSum(lines: seq<Line>, id: Identity)
    ensures Sum(DriversOf(lines), id) == Total(Driving(id), lines)
    decreases |lines|
  {
    if lines != [] {
      hide AddDriver, Sum, Driving, DriversOk;
      DriversSum(lines[..|lines| - 1], id);
      DriversAreOk(lines[..|lines| - 1]);
      AddDriverSums(DriversOf(lines[..|lines| - 1]), lines[|lines| - 1], id);
    }
  }

  ghost function Unit(scale: nat): real { Value(Decimal(1, scale)) }

  lemma UnitPositive(scale: nat)
    ensures Unit(scale) > 0.0
  {
    PositiveMeansPositive(Decimal(1, scale));
  }

  lemma WholeValue(c: int)
    ensures Value(Decimal(c, 0)) == c as real
  {
  }

  lemma InUnits(c: int, scale: nat)
    ensures Value(Decimal(c, scale)) == c as real * Unit(scale)
  {
    hide Value;
    WholeValue(c);
    assert c * 1 == c && 0 + scale == scale;
    ValueProduct(c, 0, 1, scale, c as real, Unit(scale));
  }

  lemma WeightInUnits(x: Table<string, Decimal>, common: nat, centre: string)
    requires centre in x.at && x.at[centre].coefficient > 0 && x.at[centre].scale <= common
    ensures DriverWeight(x, common, centre).weight as real * Unit(common) == DriverOf(x)(centre)
  {
    hide Value, Unit;
    var a := x.at[centre];
    assert a == Decimal(a.coefficient, a.scale);
    ValueShift(a.coefficient, a.scale, common - a.scale);
    InUnits(Shift(a.coefficient, common - a.scale), common);
  }

  lemma {:induction false} WeightsInUnits(x: Table<string, Decimal>, common: nat, keys: seq<string>, ws: seq<Weight>)
    requires forall i :: 0 <= i < |keys| ==> keys[i] in x.at && x.at[keys[i]].coefficient > 0
                                             && x.at[keys[i]].scale <= common
    requires |ws| == |keys| && forall i :: 0 <= i < |keys| ==> ws[i] == DriverWeight(x, common, keys[i])
    ensures Denominator(ws) as real * Unit(common) == Total(DriverOf(x), keys)
    decreases |keys|
  {
    hide Unit, DriverWeight, DriverOf;
    if keys != [] {
      var n := |keys| - 1;
      WeightsInUnits(x, common, keys[..n], ws[..n]);
      WeightInUnits(x, common, keys[n]);
      Distributes(Denominator(ws[..n]) as real, ws[n].weight as real, Unit(common));
    }
  }

  lemma Distributes(a: real, b: real, u: real)
    ensures (a + b) * u == a * u + b * u
  {
  }

  /** The line is the centre's share of the pool, by what claimed lines gave that centre. */
  ghost predicate PooledShare(p: Policy, rows: seq<Row>, claimed: seq<Line>, k: Place, rule: Rule, l: Line) {
    var all, own := Total(Driving(k.identity), claimed), Total(DrivingAt(k.identity, l.centre), claimed);
    && k.kind == Pooled && Opens(p, rows, k, rule) && k.ruleId == rule.ruleId && k.version == rule.version
    && l.ruleId == rule.ruleId && l.version == rule.version && l.way == rule.way && l.item.identity == k.identity
    && all > 0.0 && own > 0.0
    && Value(l.item.amount) * all == Total(RowsAt(p, k), rows) * own
    && l.ratioParts as real * all <= own * RATIO_SCALE as real < (l.ratioParts + 1) as real * all
    && forall e :: e in l.item.sources <==> InPlace(p, rows, k, e)
  }

  lemma QuotientBounds(a: nat, den: nat)
    requires den > 0
    ensures a / den * den <= a < (a / den + 1) * den
  {
  }

  lemma RatioBounds(w: nat, den: nat, parts: nat, u: real, own: real, all: real)
    requires den > 0 && u > 0.0 && own == w as real * u && all == den as real * u && parts == w * RATIO_SCALE / den
    ensures parts as real * all <= own * RATIO_SCALE as real < (parts + 1) as real * all
  {
    QuotientBounds(w * RATIO_SCALE, den);
    InReals(w, den, parts);
    var p, q, d, n, scale := parts as real, (parts + 1) as real, den as real, w as real, RATIO_SCALE as real;
    ScaleThree(p * d, scale * n, q * d, u);
    Regroup(p, d, u);
    Regroup(q, d, u);
    Regroup(scale, n, u);
  }

  lemma InReals(w: nat, den: nat, parts: nat)
    requires parts * den <= w * RATIO_SCALE < (parts + 1) * den
    ensures parts as real * den as real <= RATIO_SCALE as real * w as real < (parts + 1) as real * den as real
  {
    assert (parts * den) as real <= (w * RATIO_SCALE) as real < ((parts + 1) * den) as real;
    ProductInReals(parts, den);
    ProductInReals(parts + 1, den);
    ProductInReals(RATIO_SCALE, w);
  }

  lemma ProductInReals(a: nat, b: nat)
    ensures (a * b) as real == a as real * b as real
  {
  }

  lemma ScaleThree(a: real, b: real, c: real, u: real)
    requires a <= b < c && u > 0.0
    ensures a * u <= b * u < c * u
  {
  }

  lemma Regroup(a: real, b: real, u: real)
    ensures a * (b * u) == (a * b) * u
  {
  }

  lemma ShareInUnits(x: real, y: real, den: real, w: real, u: real)
    requires x * den == y * w
    ensures x * (den * u) == y * (w * u)
  {
    Regroup(x, den, u);
    Regroup(y, w, u);
  }

  lemma DriversCovered(d: Drivers, id: Identity)
    requires DriversOk(d) && id in d.at
    ensures var x := d.at[id];
            forall j :: 0 <= j < |x.order| ==> x.order[j] in x.at && x.at[x.order[j]].coefficient > 0
                                               && x.at[x.order[j]].scale <= CommonScale(x, x.order)
  {
    hide CommonScale;
    var x := d.at[id];
    forall j | 0 <= j < |x.order|
      ensures x.order[j] in x.at && x.at[x.order[j]].coefficient > 0
              && x.at[x.order[j]].scale <= CommonScale(x, x.order)
    {
      assert x.order[j] in x.order;
      CommonScaleCovers(x, x.order, j);
    }
  }

  lemma DriverAtCentre(lines: seq<Line>, id: Identity, centre: string)
    requires id in DriversOf(lines).at && centre in DriversOf(lines).at[id].at
    ensures DriverOf(DriversOf(lines).at[id])(centre) == Total(DrivingAt(id, centre), lines)
  {
    hide DriversOf, Value;
    DriversMean(lines, id, centre);
    DrivingIsDriver(id, centre, lines);
  }

  lemma WeightNames(x: Table<string, Decimal>, common: nat, centre: string)
    ensures DriverWeight(x, common, centre).centre == centre
  {
  }

  /** What a pool's weights stand for, in units of their common scale. */
  lemma PoolInUnits(lines: seq<Line>, id: Identity, i: nat) returns (u: real)
    requires id in DriversOf(lines).at && i < |PoolWeights(DriversOf(lines), id)|
    ensures var ws := PoolWeights(DriversOf(lines), id);
            && u > 0.0 && Denominator(ws) > 0 && ws[i].weight > 0
            && Denominator(ws) as real * u == Total(Driving(id), lines)
            && ws[i].weight as real * u == Total(DrivingAt(id, ws[i].centre), lines)
  {
    hide DriversOf, DriverWeight, Value, CommonScale, Unit, Denominator, DriversOk, DriverOf, Total, Driving, DrivingAt;
    var d := DriversOf(lines);
    var x := d.at[id];
    var common := CommonScale(x, x.order);
    u := Unit(common);
    UnitPositive(common);
    DriversAreOk(lines);
    PoolWeightsPositive(d, id);
    DriversCovered(d, id);
    WeightsInUnits(x, common, x.order, PoolWeights(d, id));
    DriversSum(lines, id);
    WeightInUnits(x, common, x.order[i]);
    WeightNames(x, common, x.order[i]);
    DriverAtCentre(lines, id, x.order[i]);
  }

  /** Every pooled line is its centre's share of the rows that the pool gathers. */
  lemma PooledLineIsShare(p: Policy, rows: seq<Row>, l: Line) returns (k: Place, rule: Rule)
    requires PolicyOk(p) && HasSources(rows) && !Refused(Group(p, rows)) && l in PooledLines(Group(p, rows))
    ensures PooledShare(p, rows, AllClaimLines(Group(p, rows)), k, rule, l)
  {
    hide Opens, Group, Refused, ShareLines, Denominator, Part, Refuses, AllClaimLines, InPlace, Value, PoolWeights,
         PooledLines, DriversOf, Total, RowsAt;
    var t := Group(p, rows);
    GroupIsOk(p, rows);
    k := PooledPlace(p, t, l);
    assert BucketOk(p, k, t.at[k]);
    rule := t.at[k].rule.value;
    var ws := PoolWeights(AllDrivers(t), k.identity);
    var i := ShareLineFrom(k, t.at[k], Denominator(ws), ws, l);
    var u := PoolInUnits(AllClaimLines(t), k.identity, i);
    NotRefusedAt(t, k);
    PartOfGroup(t, k, ws, i);
    GroupHolds(p, rows, k, "");
    GroupHasRule(p, rows, k);
    ShareInUnits(Value(l.item.amount), Value(t.at[k].amount), Denominator(ws) as real, ws[i].weight as real, u);
    RatioBounds(ws[i].weight, Denominator(ws), l.ratioParts, u, ws[i].weight as real * u, Denominator(ws) as real * u);
    UnitsPositive(ws[i].weight, Denominator(ws), u);
    forall e ensures e in l.item.sources <==> InPlace(p, rows, k, e) {
      GroupMembers(p, rows, k, e);
    }
  }

  lemma UnitsPositive(w: nat, den: nat, u: real)
    requires w > 0 && den > 0 && u > 0.0
    ensures w as real * u > 0.0 && den as real * u > 0.0
  {
  }

  // ---------------------------------------------------------------- every share is listed

  lemma OneOpens(p: Policy, rows: seq<Row>, k: Place, r: Rule, q: Rule)
    requires Opens(p, rows, k, r) && Opens(p, rows, k, q)
    ensures r == q
  {
    hide SentTo, FirstCover;
    var i :| 0 <= i < |rows| && SentTo(p, rows[i], k) && FirstCover(p, rows[i], r)
             && forall j :: 0 <= j < i ==> !SentTo(p, rows[j], k);
    var m :| 0 <= m < |rows| && SentTo(p, rows[m], k) && FirstCover(p, rows[m], q)
             && forall j :: 0 <= j < m ==> !SentTo(p, rows[j], k);
    assert !(i < m) && !(m < i);
    FirstMatchIsFirst(p, rows[i]);
  }

  /** A place some row is sent to holds a group, and its rule is the one of its first row. */
  lemma OpenedGroup(p: Policy, rows: seq<Row>, k: Place, rule: Rule)
    requires HasSources(rows) && Opens(p, rows, k, rule) && Placed(k.kind)
    ensures k in Group(p, rows).at && Group(p, rows).at[k].rule == Some(rule)
  {
    hide SentTo, FirstCover, Group;
    var i :| 0 <= i < |rows| && SentTo(p, rows[i], k) && FirstCover(p, rows[i], rule)
             && forall j :: 0 <= j < i ==> !SentTo(p, rows[j], k);
    SentToItsPlace(p, rows[i], k);
    RowHasPlace(p, rows, rows[i]);
    GroupIsOk(p, rows);
    assert BucketOk(p, k, Group(p, rows).at[k]);
    GroupHasRule(p, rows, k);
    OneOpens(p, rows, k, rule, Group(p, rows).at[k].rule.value);
  }

  /** Every target of a rule that gathers rows receives its share. */
  lemma EveryTargetIsListed(p: Policy, rows: seq<Row>, k: Place, rule: Rule, x: Target) returns (l: Line)
    requires PolicyOk(p) && HasSources(rows) && !Refused(Group(p, rows))
    requires k.kind == Claimed && Opens(p, rows, k, rule) && x in rule.targets
    ensures l in AllClaimLines(Group(p, rows)) && ClaimedShare(p, rows, k, rule, x, l)
  {
    hide Group, Refused, ShareLines, Denominator, Part, Refuses, InPlace, Value, Opens;
    var t := Group(p, rows);
    GroupIsOk(p, rows);
    OpenedGroup(p, rows, k, rule);
    assert BucketOk(p, k, t.at[k]);
    var ws := ClaimWeights(t, k);
    var i :| 0 <= i < |rule.targets| && rule.targets[i] == x;
    ShareLinesAt(k, t.at[k], Denominator(ws), ws);
    l := ShareLines(k, t.at[k], Denominator(ws), ws)[i];
    InFlatten(ClaimLines(t), t.order, l);
    assert l in ClaimLines(t)(k);
    var k', rule', x' := ClaimedLineIsShare(p, rows, l);
    MadeAtOne(k, k', l);
    OneOpens(p, rows, k, rule, rule');
    OneTarget(rule, x, x');
  }

  lemma OneTarget(rule: Rule, x: Target, y: Target)
    requires RuleOk(rule) && x in rule.targets && y in rule.targets && x.centre == y.centre
    ensures x == y
  {
    var i :| 0 <= i < |rule.targets| && rule.targets[i] == x;
    var j :| 0 <= j < |rule.targets| && rule.targets[j] == y;
    assert TargetsDistinct(rule.targets);
    assert i == j;
  }

  lemma {:induction false} TotalNotNegative<T>(f: T -> real, s: seq<T>, i: nat)
    requires i < |s| && forall j :: 0 <= j < |s| ==> f(s[j]) >= 0.0
    ensures Total(f, s) >= f(s[i])
    decreases |s|
  {
    var n := |s| - 1;
    if i < n {
      TotalNotNegative(f, s[..n], i);
    } else if n > 0 {
      TotalNotNegative(f, s[..n], 0);
    }
  }

  /** A pool is driven exactly when some claimed line of its currency and basis is positive. */
  lemma DrivenExactly(lines: seq<Line>, id: Identity)
    ensures id in DriversOf(lines).at <==> Total(Driving(id), lines) > 0.0
  {
    hide DriversOf, Value;
    DriversSum(lines, id);
    DriversAreOk(lines);
    if id in DriversOf(lines).at {
      var x := DriversOf(lines).at[id];
      forall j | 0 <= j < |x.order| ensures DriverOf(x)(x.order[j]) > 0.0 {
        assert x.order[j] in x.order;
        PositiveMeansPositive(x.at[x.order[j]]);
      }
      TotalNotNegative(DriverOf(x), x.order, 0);
    }
  }

  lemma DriverHasLine(p: Policy, t: Groups, k: Place, centre: string) returns (l: Line)
    requires GroupsOk(p, t) && Driven(t, AllDrivers(t), k) && centre in DriverOrder(AllDrivers(t), k.identity)
    ensures l in PooledLines(t) && l.centre == centre && MadeAt(k, l)
  {
    hide ShareLines, Denominator, Part, DriversOf, AllClaimLines, CommonScale, DriverWeight, MadeAt;
    var d := AllDrivers(t);
    var x := d.at[k.identity];
    var i :| 0 <= i < |x.order| && x.order[i] == centre;
    var ws := PoolWeights(d, k.identity);
    ShareLinesAt(k, t.at[k], Denominator(ws), ws);
    WeightNames(x, CommonScale(x, x.order), centre);
    l := ShareLines(k, t.at[k], Denominator(ws), ws)[i];
    InFlatten(PoolLines(t, d), t.order, l);
    assert l in PoolLines(t, d)(k);
    PoolMadeAt(p, t, k, l);
  }

  /** Every centre that claimed lines drive receives its share of every pool of that currency and basis. */
  lemma EveryDriverIsListed(p: Policy, rows: seq<Row>, k: Place, rule: Rule, centre: string) returns (l: Line)
    requires PolicyOk(p) && HasSources(rows) && !Refused(Group(p, rows)) && k.kind == Pooled && Opens(p, rows, k, rule)
    requires Total(DrivingAt(k.identity, centre), AllClaimLines(Group(p, rows))) > 0.0
    ensures l in PooledLines(Group(p, rows)) && l.centre == centre
    ensures PooledShare(p, rows, AllClaimLines(Group(p, rows)), k, rule, l)
  {
    hide Group, Refused, InPlace, Value, Opens, DriversOf, AllClaimLines, PooledLines, DriverOrder, DrivingAt, Driving,
         Total, RowsAt;
    var t := Group(p, rows);
    var claimed := AllClaimLines(t);
    GroupIsOk(p, rows);
    OpenedGroup(p, rows, k, rule);
    DrivingIsDriver(k.identity, centre, claimed);
    DriversMean(claimed, k.identity, centre);
    DriverIsListed(claimed, k.identity, centre);
    l := DriverHasLine(p, t, k, centre);
    var k', rule' := PooledLineIsShare(p, rows, l);
    MadeAtOne(k, k', l);
    OneOpens(p, rows, k, rule, rule');
  }

  // ---------------------------------------------------------------- unplaced entries

  /** Some row is sent here, and no line shares the group out: no rule covers it, its rule names an archived
      centre, or it is a pool and no claimed line of its currency and basis is positive. */
  ghost predicate LeftOver(p: Policy, rows: seq<Row>, claimed: seq<Line>, k: Place) {
    && (exists x :: x in rows && SentTo(p, x, k))
    && k.kind != Claimed && (k.kind == Pooled ==> Total(Driving(k.identity), claimed) == 0.0)
  }

  /** The whole group, with why it is left over. */
  ghost predicate WholeGroup(p: Policy, rows: seq<Row>, k: Place, u: Unplaced) {
    && u.item.identity == k.identity
    && Value(u.item.amount) == Total(RowsAt(p, k), rows)
    && (forall e :: e in u.item.sources <==> InPlace(p, rows, k, e))
    && (forall name :: name in u.byProject.at <==> HasProject(p, rows, k, name))
    && (forall name :: name in u.byProject.at ==>
          Value(u.byProject.at[name]) == Total(ProjectAt(p, k, name), rows))
    && u.reason == match k.kind
                   case Unmatched => NoMatchingRule
                   case ToArchived => TargetArchived
                   case _ => NoDriver
  }

  lemma NoneNegative(lines: seq<Line>, id: Identity)
    ensures Total(Driving(id), lines) >= 0.0
  {
    hide Value;
    if lines != [] {
      TotalNotNegative(Driving(id), lines, 0);
    }
  }

  ghost predicate HasProject(p: Policy, rows: seq<Row>, k: Place, name: string) {
    exists x :: x in rows && SentTo(p, x, k) && x.project == name
  }

  lemma HasProjectPush(p: Policy, rows: seq<Row>, row: Row, k: Place, name: string)
    ensures HasProject(p, rows + [row], k, name)
       <==> HasProject(p, rows, k, name) || (SentTo(p, row, k) && row.project == name)
  {
    hide SentTo;
    assert forall x :: x in rows + [row] <==> x in rows || x == row;
  }

  lemma GroupPush(p: Policy, rows: seq<Row>)
    requires rows != []
    ensures Group(p, rows) == AddRow(p, Group(p, rows[..|rows| - 1]), rows[|rows| - 1])
  {
    hide AddRow;
  }

  lemma NoProjects(p: Policy, k: Place, name: string)
    ensures k !in Group(p, []).at && !HasProject(p, [], k, name)
  {
  }

  lemma {:induction false} ProjectsOfGroup(p: Policy, rows: seq<Row>, k: Place, name: string)
    ensures k in Group(p, rows).at && name in Group(p, rows).at[k].byProject.at <==> HasProject(p, rows, k, name)
    decreases |rows|
  {
    hide *;
    if rows == [] {
      NoProjects(p, k, name);
    } else {
      var n := |rows| - 1;
      ProjectsOfGroup(p, rows[..n], k, name);
      assert rows == rows[..n] + [rows[n]];
      GroupPush(p, rows);
      HasProjectPush(p, rows[..n], rows[n], k, name);
      AddRowProjects(p, Group(p, rows[..n]), rows[n], k, name);
    }
  }

  lemma AddRowProjects(p: Policy, t: Groups, row: Row, k: Place, name: string)
    ensures k in AddRow(p, t, row).at && name in AddRow(p, t, row).at[k].byProject.at
       <==> (k in t.at && name in t.at[k].byProject.at) || (SentTo(p, row, k) && row.project == name)
  {
    hide SentTo, PlaceOf, RuleFor;
    SentToItsPlace(p, row, k);
  }

  lemma LeftOverExactly(p: Policy, rows: seq<Row>, k: Place)
    requires HasSources(rows)
    ensures LeftOver(p, rows, AllClaimLines(Group(p, rows)), k)
       <==> exists u :: UnplacedFrom(Group(p, rows), AllDrivers(Group(p, rows)), k, u)
  {
    hide Group, DriversOf, AllClaimLines, SentTo, Value;
    var t := Group(p, rows);
    GroupIsOk(p, rows);
    DrivenExactly(AllClaimLines(t), k.identity);
    NoneNegative(AllClaimLines(t), k.identity);
    if k in t.at {
      assert BucketOk(p, k, t.at[k]);
      var x := PlaceIdentity(p, rows, k);
      SentToItsPlace(p, x, k);
      assert LeftOver(p, rows, AllClaimLines(t), k) ==>
          UnplacedFrom(t, AllDrivers(t), k, UnplacedOf(t, k, if k.kind == Unmatched then NoMatchingRule
                                                             else if k.kind == ToArchived then TargetArchived
                                                             else NoDriver));
    } else if x :| x in rows && SentTo(p, x, k) {
      SentToItsPlace(p, x, k);
      RowHasPlace(p, rows, x);
    }
  }

  lemma UnplacedIsWhole(p: Policy, rows: seq<Row>, k: Place, u: Unplaced)
    requires HasSources(rows) && UnplacedFrom(Group(p, rows), AllDrivers(Group(p, rows)), k, u)
    ensures WholeGroup(p, rows, k, u)
  {
    hide Group, AllDrivers, SentTo, Value, InPlace, RowsAt, ProjectAt, HasProject;
    var t := Group(p, rows);
    GroupHolds(p, rows, k, "");
    forall e ensures e in u.item.sources <==> InPlace(p, rows, k, e) {
      GroupMembers(p, rows, k, e);
    }
    forall name ensures name in u.byProject.at <==> HasProject(p, rows, k, name) {
      ProjectsOfGroup(p, rows, k, name);
    }
    forall name | name in u.byProject.at ensures Value(u.byProject.at[name]) == Total(ProjectAt(p, k, name), rows) {
      GroupHolds(p, rows, k, name);
    }
  }

  /** The unplaced entries are the groups left over, each whole. */
  lemma UnplacedAreLeftOver(p: Policy, rows: seq<Row>)
    requires HasSources(rows)
    ensures var t := Group(p, rows);
            && (forall u :: u in AllUnplaced(t) ==>
                  exists k :: LeftOver(p, rows, AllClaimLines(t), k) && WholeGroup(p, rows, k, u))
            && (forall k :: LeftOver(p, rows, AllClaimLines(t), k) ==>
                  exists u :: u in AllUnplaced(t) && WholeGroup(p, rows, k, u))
  {
    hide Group, AllUnplaced, AllDrivers, LeftOver, WholeGroup, UnplacedFrom, GroupsOk;
    var t := Group(p, rows);
    GroupIsOk(p, rows);
    GroupsAreTables(p, t);
    forall u | u in AllUnplaced(t)
      ensures exists k :: LeftOver(p, rows, AllClaimLines(t), k) && WholeGroup(p, rows, k, u)
    {
      var k := UnplacedComesFrom(t, u);
      LeftOverExactly(p, rows, k);
      UnplacedIsWhole(p, rows, k, u);
    }
    forall k | LeftOver(p, rows, AllClaimLines(t), k)
      ensures exists u :: u in AllUnplaced(t) && WholeGroup(p, rows, k, u)
    {
      LeftOverExactly(p, rows, k);
      var u :| UnplacedFrom(t, AllDrivers(t), k, u);
      RestIsListed(t, k, u);
      UnplacedIsWhole(p, rows, k, u);
    }
  }
}
