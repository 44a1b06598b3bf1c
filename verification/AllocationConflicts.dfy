/** Of two rows in conflict the first decides how their group is split, and of two identities that tie the
    first is listed first. */
module AllocationConflicts {
  // A claimed group keeps the rule of the first row that reaches it and splits every later row by that
  // rule's targets; listings that tie under the collation keep the order they were made in.

  import opened Money
  import opened Tables
  import opened Holdings
  import opened Shares
  import opened AllocationRules
  import opened AllocationGroups
  import opened AllocationLines
  import opened AllocationConserves
  import opened AllocationLineage
  import opened AllocationRun
  import opened AllocationAccepted
  import opened AllocationOrder
  import opened AllocationOrderLines
  import opened AllocationTies
  import opened AllocationDeterminism

  // ---------------------------------------------------------------- rows in conflict

  lemma AddRowKeepsRule(p: Policy, t: Groups, row: Row, k: Place)
    requires k in t.at
    ensures k in AddRow(p, t, row).at && AddRow(p, t, row).at[k].rule == t.at[k].rule
  {
    hide PlaceOf, RuleFor;
  }

  /** A group keeps the rule of the row that comes first. */
  lemma {:induction false} FirstRuleStays(p: Policy, rows: seq<Row>)
    requires rows != []
    ensures PlaceOf(p, rows[0]) in Group(p, rows).at
    ensures Group(p, rows).at[PlaceOf(p, rows[0])].rule == RuleFor(p, rows[0])
    decreases |rows|
  {
    hide PlaceOf, RuleFor;
    var n := |rows| - 1;
    if n == 0 {
      assert rows[..0] == [] && Group(p, []) == Empty();
    } else {
      hide AddRow;
      FirstRuleStays(p, rows[..n]);
      AddRowKeepsRule(p, Group(p, rows[..n]), rows[n], PlaceOf(p, rows[0]));
    }
  }

  /** A line of the claimed group at a place. */
  predicate OwnLine(k: Place, l: Line) {
    && l.item.identity == k.identity && l.ruleId == k.ruleId && l.version == k.version
    && l.way != ProportionalToDirect
  }

  lemma TargetIsListed(p: Policy, t: Groups, k: Place, i: nat) returns (l: Line)
    requires PolicyOk(p) && GroupsOk(p, t) && IsClaim(t, k) && i < |t.at[k].rule.value.targets|
    ensures l in AllLines(t) && OwnLine(k, l) && l.way == t.at[k].rule.value.way
    ensures Target(l.centre, l.ratioParts) == t.at[k].rule.value.targets[i]
  {
    hide RuleOk, Part, ShareLines, Denominator;
    var rule := t.at[k].rule.value;
    assert BucketOk(p, k, t.at[k]);
    ClaimIsWhole(rule);
    var ws := ClaimWeights(t, k);
    l := ShareLine(k, t.at[k], Denominator(ws), ws[i]);
    ShareLinesAt(k, t.at[k], Denominator(ws), ws);
    InFlatten(ClaimLines(t), t.order, l);
    assert l in ClaimLines(t)(k);
    WholeRatio(ws[i].weight);
  }

  lemma WholeRatio(parts: nat)
    ensures parts * RATIO_SCALE / RATIO_SCALE == parts
  {
  }

  lemma OwnLineIsTarget(p: Policy, t: Groups, k: Place, l: Line)
    requires PolicyOk(p) && GroupsOk(p, t) && k in t.at && k.kind == Claimed && l in AllLines(t) && OwnLine(k, l)
    ensures t.at[k].rule.Some? && l.way == t.at[k].rule.value.way
    ensures Target(l.centre, l.ratioParts) in t.at[k].rule.value.targets
  {
    hide RuleOk, Part, AllClaimLines, PooledLines, Denominator, ShareLines;
    LinesInParts(t);
    if l in PooledLines(t) {
      var m := PooledPlace(p, t, l);
      assert false;
    } else {
      var m := ClaimedPlace(p, t, l);
      assert m == k;
      var i := ShareLineFrom(k, t.at[k], Denominator(ClaimWeights(t, k)), ClaimWeights(t, k), l);
      assert BucketOk(p, k, t.at[k]);
      ClaimIsWhole(t.at[k].rule.value);
      WholeRatio(ClaimWeights(t, k)[i].weight);
      assert t.at[k].rule.value.targets[i] == Target(l.centre, l.ratioParts);
    }
  }

  /** The lines of a claimed group tell its rule's method and targets. */
  lemma LinesTellTargets(p: Policy, s: Groups, t: Groups, k: Place)
    requires PolicyOk(p) && GroupsOk(p, s) && GroupsOk(p, t) && IsClaim(s, k) && IsClaim(t, k)
    requires multiset(AllLines(s)) == multiset(AllLines(t))
    ensures s.at[k].rule.value.way == t.at[k].rule.value.way
    ensures multiset(s.at[k].rule.value.targets) == multiset(t.at[k].rule.value.targets)
  {
    hide AllLines, OwnLine;
    SameMembers(AllLines(s), AllLines(t));
    var a, b := s.at[k].rule.value.targets, t.at[k].rule.value.targets;
    forall x | x in a ensures x in b && s.at[k].rule.value.way == t.at[k].rule.value.way {
      var i :| 0 <= i < |a| && a[i] == x;
      var l := TargetIsListed(p, s, k, i);
      OwnLineIsTarget(p, t, k, l);
    }
    forall x | x in b ensures x in a {
      var i :| 0 <= i < |b| && b[i] == x;
      var l := TargetIsListed(p, t, k, i);
      OwnLineIsTarget(p, s, k, l);
    }
    RuleAt(p, s, k);
    RuleAt(p, t, k);
    assert a[0] in a;
    SameElements(a, b);
  }

  lemma RuleAt(p: Policy, t: Groups, k: Place)
    requires PolicyOk(p) && GroupsOk(p, t) && IsClaim(t, k)
    ensures t.at[k].rule.value.targets != [] && Distinct(t.at[k].rule.value.targets)
  {
    assert BucketOk(p, k, t.at[k]);
    assert RuleOk(t.at[k].rule.value);
  }

  lemma RunIsOk(p: Policy, rows: seq<Row>, other: seq<Row>)
    requires RowsCanonical(rows) && multiset(rows) == multiset(other)
    ensures GroupsOk(p, Group(p, other))
  {
    hide Group, GroupsOk;
    RowsPermuted(rows, other);
    RowsHaveSources(other);
    GroupIsOk(p, other);
  }

  lemma FirstClaims(p: Policy, rows: seq<Row>)
    requires rows != [] && KindOf(p, rows[0]) == Claimed
    ensures IsClaim(Group(p, rows), PlaceOf(p, rows[0]))
    ensures Group(p, rows).at[PlaceOf(p, rows[0])].rule == RuleFor(p, rows[0])
  {
    hide Group, NamesArchived;
    FirstRuleStays(p, rows);
  }

  /** Of two rows in conflict, whichever comes first decides the lines of their group. */
  lemma ConflictMatters(c: Locale, p: Policy, rows: seq<Row>, i: nat, j: nat)
    requires PolicyOk(p) && RowsCanonical(rows) && i < |rows| && j < |rows| && Conflict(p, rows[i], rows[j])
    ensures ResultOf(c, p, ToFront(rows, i)).lines != ResultOf(c, p, ToFront(rows, j)).lines
  {
    hide PlaceOf, KindOf, RuleFor, GroupsOk, Group, PolicyOk, AllLines, Sort;
    var a, b := ToFront(rows, i), ToFront(rows, j);
    var s, t := Group(p, a), Group(p, b);
    RunIsOk(p, rows, a);
    RunIsOk(p, rows, b);
    SameKind(p, rows[i], rows[j]);
    FirstClaims(p, a);
    FirstClaims(p, b);
    if multiset(AllLines(s)) == multiset(AllLines(t)) {
      LinesTellTargets(p, s, t, PlaceOf(p, rows[i]));
    }
    LinesOfResult(c, p, a);
    LinesOfResult(c, p, b);
  }

  lemma SameKind(p: Policy, x: Row, y: Row)
    requires PlaceOf(p, x) == PlaceOf(p, y)
    ensures KindOf(p, x) == KindOf(p, y)
  {
    hide KindOf, RuleFor;
  }

  lemma LinesOfResult(c: Locale, p: Policy, rows: seq<Row>)
    ensures multiset(ResultOf(c, p, rows).lines) == multiset(AllLines(Group(p, rows)))
  {
    hide AllLines, Group, ByIdentity, UnplacedTally, AllUnplaced;
  }

  // ---------------------------------------------------------------- identities that tie

  /** Running sums list identities in the order they came in. */
  lemma {:induction false} FirstComesFirst(items: seq<Item>)
    requires items != []
    ensures Ok(Tally(items)) && Tally(items).order != [] && Tally(items).order[0] == items[0].identity
    decreases |items|
  {
    TallyMeans(items, items[0].identity);
    hide Add;
    var n := |items| - 1;
    if n == 0 {
      assert items[..0] == [];
    } else {
      FirstComesFirst(items[..n]);
    }
  }

  lemma {:induction false} EveryItemIsTallied(items: seq<Item>, k: nat)
    requires k < |items|
    ensures items[k].identity in Tally(items).at
    decreases |items|
  {
    hide Add;
    var n := |items| - 1;
    if k < n {
      EveryItemIsTallied(items[..n], k);
    }
  }

  lemma ItemOfRow(rows: seq<Row>, k: nat)
    requires k < |rows|
    ensures |RowItems(rows)| == |rows| && RowItems(rows)[k] == ItemOf(rows[k])
  {
    RowItemsAt(rows);
  }

  /** One entry of a listing by identity stands before the one of another identity. */
  ghost predicate ListsFirst(listing: seq<Item>, x: Identity, y: Identity) {
    exists i, j :: 0 <= i < j < |listing| && listing[i].identity == x && listing[j].identity == y
  }

  ghost predicate OncePerIdentity(listing: seq<Item>) {
    forall i, j :: 0 <= i < j < |listing| ==> listing[i].identity != listing[j].identity
  }

  /** Identities that tie are listed as they came, the one of the first row before any other. */
  lemma FirstRowIsListedFirst(c: Locale, rows: seq<Row>, y: Row)
    requires rows != [] && y in rows && Ties(c, rows[0], y)
    ensures ListsFirst(ByIdentity(c, Tally(RowItems(rows))), rows[0].identity, y.identity)
  {
    hide Tally, RowItems, Sort, Entry, Flatten, ItemFirst;
    var items := RowItems(rows);
    var k :| 0 <= k < |rows| && rows[k] == y;
    ItemOfRow(rows, 0);
    ItemOfRow(rows, k);
    FirstComesFirst(items);
    EveryItemIsTallied(items, k);
    var t := Tally(items);
    EntriesAt(t, t.order);
    var entries := Flatten(Entry(t), t.order);
    assert y.identity in t.order;
    var m :| 0 <= m < |t.order| && t.order[m] == y.identity;
    TiesMeans(c, entries[0], entries[m]);
    assert StandsBefore(entries, entries[0], entries[m]);
    SortIsStable(ItemOrder(c), entries, entries[0], entries[m]);
    var listing := ByIdentity(c, t);
    var a, b :| 0 <= a < b < |listing| && listing[a] == entries[0] && listing[b] == entries[m];
  }

  lemma TiesMeans(c: Locale, a: Item, b: Item)
    requires c.name(a.identity.currency) == c.name(b.identity.currency)
    requires c.name(a.identity.basis) == c.name(b.identity.basis)
    ensures !ItemOrder(c)(b, a)
  {
  }

  lemma ListedOncePerIdentity(c: Locale, rows: seq<Row>)
    ensures OncePerIdentity(ByIdentity(c, Tally(RowItems(rows))))
  {
    hide Tally, RowItems, Sort, Entry, Flatten, ItemFirst;
    var t := Tally(RowItems(rows));
    TallyMeans(RowItems(rows), Identity("", ""));
    EntriesAt(t, t.order);
    var entries, listing := Flatten(Entry(t), t.order), ByIdentity(c, t);
    DistinctPermuted(entries, listing);
    SameMembers(entries, listing);
    forall i, j | 0 <= i < j < |listing| ensures listing[i].identity != listing[j].identity {
      assert listing[i] in entries && listing[j] in entries;
      var a :| 0 <= a < |entries| && entries[a] == listing[i];
      var b :| 0 <= b < |entries| && entries[b] == listing[j];
    }
  }

  /** Whatever the rows: of two identities that the collation ties, the one whose row comes first is
      listed first, so bringing one row or the other to the front gives different totals. */
  lemma TyingIdentitiesFollowArrival(c: Locale, p: Policy, rows: seq<Row>, i: nat, j: nat)
    requires i < |rows| && j < |rows| && Ties(c, rows[i], rows[j])
    ensures ResultOf(c, p, ToFront(rows, i)).totalBy != ResultOf(c, p, ToFront(rows, j)).totalBy
  {
    hide Tally, RowItems, ByIdentity, Group, AllLines, AllUnplaced, UnplacedTally;
    var a, b := ToFront(rows, i), ToFront(rows, j);
    assert rows[i] in multiset(b) && rows[j] in multiset(a);
    FirstRowIsListedFirst(c, a, rows[j]);
    FirstRowIsListedFirst(c, b, rows[i]);
    ListedOncePerIdentity(c, a);
    ListedOncePerIdentity(c, b);
  }
}
