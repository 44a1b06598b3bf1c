/** One allocation run: the passes over rows, claimed groups and pools, and the sorted result. */
module AllocationRun {
  import opened Money
  import opened Tables
  import opened Holdings
  import opened Text
  import opened AllocationRules
  import opened AllocationGroups
  import opened AllocationLines
  import opened AllocationLineage

  /** How many projects an unplaced entry lists at most. */
  const TOP: nat := 5

  /** What one project contributes to an unplaced amount, in that amount's currency and basis. */
  datatype Project = Project(name: string, amount: Decimal, identity: Identity)

  datatype Listed = Listed(reason: Reason, item: Item, top: seq<Project>)

  datatype Centre = Centre(id: string, archived: bool)

  datatype Result = Result(
    totalBy: seq<Item>, allocatedBy: seq<Item>, unallocatedBy: seq<Item>,
    lines: seq<Line>, unplaced: seq<Listed>, bases: set<string>, conserves: bool)

  datatype Outcome = Done(result: Result) | InvalidInput | EndlessShare

  /** Where localeCompare puts names, and where it puts the joined source ids of an unplaced entry. */
  datatype Locale = Locale(name: Collation, lineage: set<string> -> real)

  // ---------------------------------------------------------------- listings in order

  predicate ItemFirst(c: Locale, a: Item, b: Item) {
    var (a1, b1) := (c.name(a.identity.currency), c.name(b.identity.currency));
    a1 < b1 || (a1 == b1 && c.name(a.identity.basis) < c.name(b.identity.basis))
  }

  predicate SameSpot(c: Locale, a: Item, b: Item) {
    c.name(a.identity.currency) == c.name(b.identity.currency) && c.name(a.identity.basis) == c.name(b.identity.basis)
  }

  predicate LineFirst(c: Locale, a: Line, b: Line) {
    || ItemFirst(c, a.item, b.item)
    || (SameSpot(c, a.item, b.item)
        && (|| c.name(a.ruleId) < c.name(b.ruleId)
            || (c.name(a.ruleId) == c.name(b.ruleId)
                && (a.version < b.version || (a.version == b.version && c.name(a.centre) < c.name(b.centre))))))
  }

  function ReasonName(r: Reason): string {
    match r
    case NoMatchingRule => "no_matching_rule"
    case NoDriver => "no_driver_for_proportional_pool"
    case TargetArchived => "target_cost_centre_archived"
  }

  predicate ListedFirst(c: Locale, a: Listed, b: Listed) {
    var (a3, b3) := (c.name(ReasonName(a.reason)), c.name(ReasonName(b.reason)));
    || ItemFirst(c, a.item, b.item)
    || (SameSpot(c, a.item, b.item)
        && (a3 < b3 || (a3 == b3 && c.lineage(a.item.sources) < c.lineage(b.item.sources))))
  }

  /** Larger amounts first, then by name. */
  predicate ProjectFirst(c: Locale, a: Project, b: Project) {
    Compare(b.amount, a.amount) < 0 || (Compare(b.amount, a.amount) == 0 && c.name(a.name) < c.name(b.name))
  }

  function ItemOrder(c: Locale): (Item, Item) -> bool { (a, b) => ItemFirst(c, a, b) }
  function LineOrder(c: Locale): (Line, Line) -> bool { (a, b) => LineFirst(c, a, b) }
  function ListedOrder(c: Locale): (Listed, Listed) -> bool { (a, b) => ListedFirst(c, a, b) }
  function ProjectOrder(c: Locale): (Project, Project) -> bool { (a, b) => ProjectFirst(c, a, b) }

  function Projects(id: Identity, byProject: Table<string, Decimal>): seq<Project> {
    var amount := (name: string) => if name in byProject.at then byProject.at[name] else ZERO;
    seq(|byProject.order|, i requires 0 <= i < |byProject.order| =>
      Project(byProject.order[i], amount(byProject.order[i]), id))
  }

  function TopProjects(c: Locale, id: Identity, byProject: Table<string, Decimal>): seq<Project> {
    var ranked := Sort(ProjectOrder(c), Projects(id, byProject));
    if |ranked| <= TOP then ranked else ranked[..TOP]
  }

  function Listing(c: Locale, u: Unplaced): Listed {
    Listed(u.reason, u.item, TopProjects(c, u.item.identity, u.byProject))
  }

  function ToListed(c: Locale): Unplaced -> seq<Listed> { (u: Unplaced) => [Listing(c, u)] }

  function Entry(t: Sums): Identity -> seq<Item> {
    (id: Identity) => [Item(id, AmountAt(t, id), SourcesAt(t, id))]
  }

  function ByIdentity(c: Locale, t: Sums): seq<Item> { Sort(ItemOrder(c), Flatten(Entry(t), t.order)) }

  // ---------------------------------------------------------------- the result of a run

  /** Unplaced amounts in the order they are added up: pools without drivers come first. */
  function UnplacedInOrder(t: Groups): seq<Item> {
    UnplacedItems(Flatten(UndrivenPools(t, AllDrivers(t)), t.order)
                  + Flatten(UnplacedOfKind(t, Unmatched, NoMatchingRule), t.order)
                  + Flatten(UnplacedOfKind(t, ToArchived, TargetArchived), t.order))
  }

  function UnplacedTally(t: Groups): Sums { Tally(UnplacedInOrder(t)) }

  function Bases(rows: seq<Row>): set<string> { set i | 0 <= i < |rows| :: rows[i].identity.basis }

  function ResultOf(c: Locale, p: Policy, rows: seq<Row>): Result {
    var t := Group(p, rows);
    Result(ByIdentity(c, Tally(RowItems(rows))), ByIdentity(c, Tally(LineItems(AllLines(t)))),
           ByIdentity(c, UnplacedTally(t)),
           Sort(LineOrder(c), AllLines(t)), Sort(ListedOrder(c), Flatten(ToListed(c), AllUnplaced(t))),
           Bases(rows), true)
  }

  // ---------------------------------------------------------------- input checks

  function RowSources(): Row -> seq<string> { (row: Row) => row.sources }

  predicate RowOk(row: Row, start: int, end: int) {
    && row.sources != [] && (forall i :: 0 <= i < |row.sources| ==> !Blank(row.sources[i]))
    && start <= row.at < end
    && !Blank(row.project) && !Blank(row.provider) && !Blank(row.model)
    && Canonical(row.amount)
  }

  ghost predicate RowsOk(rows: seq<Row>, start: int, end: int) {
    && (forall i :: 0 <= i < |rows| ==> RowOk(rows[i], start, end))
    && Distinct(Flatten(RowSources(), rows))
  }

  /** Names are kept without the white space around them. */
  function Trimmed(row: Row): Row {
    row.(project := Trim(row.project), provider := Trim(row.provider), model := Trim(row.model))
  }

  function TrimmedRows(rows: seq<Row>): (r: seq<Row>)
    ensures |r| == |rows|
  {
    seq(|rows|, i requires 0 <= i < |rows| => Trimmed(rows[i]))
  }

  /** The rows as they are kept, or None where the source throws. */
  method CanonicalRows(rows: seq<Row>, start: int, end: int) returns (r: Option<seq<Row>>)
    ensures r == if RowsOk(rows, start, end) then Some(TrimmedRows(rows)) else None
  {
    var kept: seq<Row> := [];
    var seen: set<string> := {};
    ghost var all: seq<string> := [];
    for n := 0 to |rows|
      invariant all == Flatten(RowSources(), rows[..n]) && Noted(seen, all)
      invariant forall i :: 0 <= i < n ==> RowOk(rows[i], start, end)
      invariant kept == TrimmedRows(rows[..n])
    {
      hide *;
      FlattenSplits(rows, n);
      TrimmedPush(rows, n);
      ghost var before := all;
      for m := 0 to |rows[n].sources|
        invariant all == before + rows[n].sources[..m] && Noted(seen, all)
      {
        var id := rows[n].sources[m];
        OneMoreName(seen, all, id);
        if id in seen {
          Repeated(before, rows[n].sources, m, Flatten(RowSources(), rows[n + 1..]));
          TwiceRefuses(rows, start, end);
          return None;
        }
        seen := seen + {id};
        assert rows[n].sources[..m + 1] == rows[n].sources[..m] + [id];
        all := all + [id];
      }
      assert rows[n].sources[..|rows[n].sources|] == rows[n].sources;
      if !RowOk(rows[n], start, end) {
        BadRowRefuses(rows, n, start, end);
        return None;
      }
      kept := kept + [Trimmed(rows[n])];
    }
    assert rows[..|rows|] == rows;
    return Some(kept);
  }

  lemma TrimmedPush(rows: seq<Row>, n: nat)
    requires n < |rows|
    ensures TrimmedRows(rows[..n + 1]) == TrimmedRows(rows[..n]) + [Trimmed(rows[n])]
    ensures RowSources()(rows[n]) == rows[n].sources
  {
    hide Trimmed;
  }

  lemma TwiceRefuses(rows: seq<Row>, start: int, end: int)
    requires !Distinct(Flatten(RowSources(), rows))
    ensures !RowsOk(rows, start, end)
  {
  }

  lemma BadRowRefuses(rows: seq<Row>, n: nat, start: int, end: int)
    requires n < |rows| && !RowOk(rows[n], start, end)
    ensures !RowsOk(rows, start, end)
  {
  }

  /** The events seen are those of the list, which names none twice. */
  ghost predicate Noted(seen: set<string>, all: seq<string>) { Distinct(all) && forall x :: x in seen <==> x in all }

  lemma OneMoreName(seen: set<string>, all: seq<string>, name: string)
    requires Noted(seen, all)
    ensures name in seen <==> name in all
    ensures name !in seen ==> Noted(seen + {name}, all + [name])
  {
  }

  lemma FlattenSplits(rows: seq<Row>, n: nat)
    requires n < |rows|
    ensures Flatten(RowSources(), rows[..n + 1]) == Flatten(RowSources(), rows[..n]) + rows[n].sources
    ensures Flatten(RowSources(), rows)
         == Flatten(RowSources(), rows[..n]) + rows[n].sources + Flatten(RowSources(), rows[n + 1..])
  {
    hide Flatten;
    FlattenAt(RowSources(), rows, n);
  }

  lemma Repeated(before: seq<string>, s: seq<string>, m: nat, after: seq<string>)
    requires m < |s| && s[m] in before + s[..m]
    ensures !Distinct(before + s + after)
  {
    var all := before + s + after;
    var i :| 0 <= i < |before + s[..m]| && (before + s[..m])[i] == s[m];
    assert all[i] == all[|before| + m];
  }

  /** What the passes over the rows rely on. */
  ghost predicate RowsCanonical(rows: seq<Row>) {
    forall i :: 0 <= i < |rows| ==> Canonical(rows[i].amount) && rows[i].sources != [] && !Blank(rows[i].project)
  }

  lemma KeptRowsAreCanonical(rows: seq<Row>, start: int, end: int)
    requires RowsOk(rows, start, end)
    ensures RowsDisjoint(TrimmedRows(rows)) && HasSources(TrimmedRows(rows)) && RowsCanonical(TrimmedRows(rows))
  {
    hide Canonical, Trim, Blank, Distinct;
    forall i, j | 0 <= i < j < |rows| ensures SourceSet(rows[i]) !! SourceSet(rows[j]) {
      TwoRows(rows, i, j);
    }
    forall i | 0 <= i < |rows| ensures !Blank(Trim(rows[i].project)) {
      TrimKeeps(rows[i].project);
    }
  }

  lemma TwoRows(rows: seq<Row>, i: nat, j: nat)
    requires i < j < |rows| && Distinct(Flatten(RowSources(), rows))
    ensures SourceSet(rows[i]) !! SourceSet(rows[j])
  {
    hide Distinct, Flatten;
    FlattenSplits(rows, j);
    FlattenSplits(rows[..j], i);
    assert rows[..j][i] == rows[i];
    SeparateParts(Flatten(RowSources(), rows[..j][..i]), rows[i].sources, Flatten(RowSources(), rows[..j][i + 1..]),
                  rows[j].sources, Flatten(RowSources(), rows[j + 1..]));
    assert forall x :: x in SourceSet(rows[i]) ==> x in rows[i].sources;
    assert forall x :: x in SourceSet(rows[j]) ==> x in rows[j].sources;
  }

  lemma SeparateParts(a: seq<string>, s: seq<string>, b: seq<string>, t: seq<string>, c: seq<string>)
    requires Distinct(a + s + b + t + c)
    ensures forall x :: x in s ==> x !in t
  {
    var all := a + s + b + t + c;
    forall u, v | 0 <= u < |s| && 0 <= v < |t| ensures s[u] != t[v] {
      assert all[|a| + u] == s[u] && all[|a| + |s| + |b| + v] == t[v];
    }
  }
}
