/** Routing every row to the one place that will account for it. */
module AllocationGroups {
  // The four maps the engine fills are one table here, keyed by which map and by the map's key.

  import opened Money
  import opened Tables
  import opened Holdings
  import opened AllocationRules

  datatype Kind = Unmatched | ToArchived | Claimed | Pooled

  /** `ruleId` and `version` are blank for rows that no rule places. */
  datatype Place = Place(kind: Kind, ruleId: string, version: nat, identity: Identity)

  datatype Bucket = Bucket(rule: Option<Rule>, amount: Decimal, sources: set<string>,
                           byProject: Table<string, Decimal>)

  type Groups = Table<Place, Bucket>

  /** Rules in evaluation order, and the centres that no longer take amounts. */
  datatype Policy = Policy(ordered: seq<Rule>, archived: set<string>)

  predicate NamesArchived(r: Rule, archived: set<string>) {
    exists i :: 0 <= i < |r.targets| && r.targets[i].centre in archived
  }

  function KindOf(p: Policy, row: Row): Kind {
    match FirstMatch(p.ordered, row)
    case None => Unmatched
    case Some(rule) =>
      if rule.way == ProportionalToDirect then Pooled
      else if NamesArchived(rule, p.archived) then ToArchived
      else Claimed
  }

  predicate Placed(k: Kind) { k == Claimed || k == Pooled }

  function RuleFor(p: Policy, row: Row): Option<Rule> {
    if Placed(KindOf(p, row)) then FirstMatch(p.ordered, row) else None
  }

  function PlaceOf(p: Policy, row: Row): Place {
    match RuleFor(p, row)
    case None => Place(KindOf(p, row), "", 0, row.identity)
    case Some(rule) => Place(KindOf(p, row), rule.ruleId, rule.version, row.identity)
  }

  function SourceSet(row: Row): set<string> { set i | 0 <= i < |row.sources| :: row.sources[i] }

  function ItemOf(row: Row): Item { Item(row.identity, row.amount, SourceSet(row)) }

  function RowItem(): Row -> seq<Item> { (row: Row) => [ItemOf(row)] }

  function RowItems(rows: seq<Row>): seq<Item> { Flatten(RowItem(), rows) }

  function Created(rule: Option<Rule>): Bucket { Bucket(rule, ZERO, {}, Empty()) }

  function AddToBucket(b: Bucket, row: Row): Bucket {
    var known := row.project in b.byProject.at;
    Bucket(b.rule, Add(b.amount, row.amount), b.sources + SourceSet(row),
           Put(b.byProject, row.project,
               if known then Add(b.byProject.at[row.project], row.amount) else row.amount))
  }

  function AddRow(p: Policy, t: Groups, row: Row): Groups {
    var place := PlaceOf(p, row);
    Put(t, place, AddToBucket(if place in t.at then t.at[place] else Created(RuleFor(p, row)), row))
  }

  function Group(p: Policy, rows: seq<Row>): Groups {
    if rows == [] then Empty() else AddRow(p, Group(p, rows[..|rows| - 1]), rows[|rows| - 1])
  }

  // ---------------------------------------------------------------- what a group is

  ghost predicate BucketOk(p: Policy, place: Place, b: Bucket) {
    && Canonical(b.amount) && Ok(b.byProject) && b.sources != {}
    && (Placed(place.kind) <==> b.rule.Some?)
    && (b.rule == None ==> place.ruleId == "" && place.version == 0)
    && (b.rule.Some? ==>
          && b.rule.value in p.ordered
          && b.rule.value.ruleId == place.ruleId && b.rule.value.version == place.version
          && (b.rule.value.way == ProportionalToDirect <==> place.kind == Pooled)
          && (place.kind == Claimed ==> !NamesArchived(b.rule.value, p.archived)))
  }

  ghost predicate GroupsOk(p: Policy, t: Groups) {
    Ok(t) && forall place :: place in t.at ==> BucketOk(p, place, t.at[place])
  }

  lemma {:induction false} MatchIsARule(ordered: seq<Rule>, row: Row)
    ensures FirstMatch(ordered, row).Some? ==> FirstMatch(ordered, row).value in ordered
    decreases |ordered|
  {
    if ordered != [] {
      MatchIsARule(ordered[1..], row);
    }
  }

  lemma AddedBucketOk(p: Policy, t: Groups, row: Row)
    requires GroupsOk(p, t) && row.sources != []
    ensures BucketOk(p, PlaceOf(p, row), AddRow(p, t, row).at[PlaceOf(p, row)])
  {
    hide FirstMatch, NamesArchived;
    MatchIsARule(p.ordered, row);
    var place := PlaceOf(p, row);
    var b := if place in t.at then t.at[place] else Created(RuleFor(p, row));
    assert row.sources[0] in SourceSet(row);
    PutKeepsOk(b.byProject, row.project, AddToBucket(b, row).byProject.at[row.project]);
  }

  ghost predicate HasSources(rows: seq<Row>) {
    forall i :: 0 <= i < |rows| ==> rows[i].sources != []
  }

  lemma {:induction false} GroupIsOk(p: Policy, rows: seq<Row>)
    requires HasSources(rows)
    ensures GroupsOk(p, Group(p, rows))
    decreases |rows|
  {
    if rows != [] {
      hide BucketOk, AddToBucket, PlaceOf;
      var t, row := Group(p, rows[..|rows| - 1]), rows[|rows| - 1];
      GroupIsOk(p, rows[..|rows| - 1]);
      AddedBucketOk(p, t, row);
      PutKeepsOk(t, PlaceOf(p, row), AddRow(p, t, row).at[PlaceOf(p, row)]);
    }
  }

  ghost function BucketIn(t: Groups, id: Identity): Place -> real {
    (k: Place) => if k in t.at && k.identity == id then Value(t.at[k].amount) else 0.0
  }

  ghost function GroupSources(t: Groups, id: Identity): set<string> {
    set k, x | k in t.at && k.identity == id && x in t.at[k].sources :: x
  }

  lemma AddRowMoves(p: Policy, t: Groups, row: Row, id: Identity)
    requires Ok(t)
    ensures var t' := AddRow(p, t, row);
            && Total(BucketIn(t', id), t'.order)
               == Total(BucketIn(t, id), t.order) + (if row.identity == id then Value(row.amount) else 0.0)
            && GroupSources(t', id) == GroupSources(t, id) + (if row.identity == id then SourceSet(row) else {})
  {
    hide RuleFor, KindOf, SourceSet, Value;
    var place, t' := PlaceOf(p, row), AddRow(p, t, row);
    PlaceKeepsIdentity(p, row);
    ZeroIsWorthNothing();
    if place in t.at {
      TotalChanged(BucketIn(t, id), BucketIn(t', id), t.order, place);
    } else {
      assert t'.order[..|t.order|] == t.order;
      TotalSame(BucketIn(t, id), BucketIn(t', id), t.order);
    }
    SourcesMove(p, t, row, id);
  }

  lemma SourcesMove(p: Policy, t: Groups, row: Row, id: Identity)
    ensures GroupSources(AddRow(p, t, row), id)
            == GroupSources(t, id) + (if row.identity == id then SourceSet(row) else {})
  {
    hide RuleFor, KindOf, SourceSet;
    PlaceKeepsIdentity(p, row);
    var place, t' := PlaceOf(p, row), AddRow(p, t, row);
    forall x | x in GroupSources(t, id) ensures x in GroupSources(t', id) {
      var k :| k in t.at && k.identity == id && x in t.at[k].sources;
      assert k in t'.at && x in t'.at[k].sources;
    }
    assert place in t'.at;
  }

  lemma PlaceKeepsIdentity(p: Policy, row: Row)
    ensures PlaceOf(p, row).identity == row.identity
    ensures PlaceOf(p, row).kind == KindOf(p, row)
  {
  }

  /** Per currency and basis, the groups hold exactly the amounts and the events of the rows. */
  lemma {:induction false} GroupConserves(p: Policy, rows: seq<Row>, id: Identity)
    requires HasSources(rows)
    ensures Total(BucketIn(Group(p, rows), id), Group(p, rows).order) == Total(AmountIn(id), RowItems(rows))
    ensures GroupSources(Group(p, rows), id) == SourcesIn(id, RowItems(rows))
    decreases |rows|
  {
    if rows != [] {
      hide AddRow, SourceSet, Ok, BucketIn, GroupSources, SourcesIn, BucketOk;
      var n := |rows| - 1;
      GroupConserves(p, rows[..n], id);
      GroupIsOk(p, rows[..n]);
      AddRowMoves(p, Group(p, rows[..n]), rows[n], id);
      SourcesWithLast(id, RowItems(rows[..n]), ItemOf(rows[n]));
      TotalConcat(AmountIn(id), RowItems(rows[..n]), [ItemOf(rows[n])]);
      TotalOne(AmountIn(id), ItemOf(rows[n]));
    }
  }
}
