/** Which inputs a run accepts, and which results its validator, told field by field. */
module AllocationInputs {
  import opened Money
  import opened Tables
  import opened Holdings
  import opened Text
  import opened AllocationRules
  import opened AllocationLines
  import opened AllocationConserves
  import opened AllocationRun
  import opened AllocationEngine
  import opened AllocationValidation

  // ---------------------------------------------------------------- text

  /** White space, as JavaScript trims it, by code point. */
  ghost predicate IsWhite(c: char) {
    || 9 <= c as int <= 13
    || c as int in {32, 160, 0x1680, 0x2028, 0x2029, 0x202F, 0x205F, 0x3000, 0xFEFF}
    || 0x2000 <= c as int <= 0x200A
  }

  ghost predicate AllWhite(s: string) { forall i :: 0 <= i < |s| ==> IsWhite(s[i]) }

  /** What is left of s between the white space around it. */
  ghost predicate IsTrimmed(s: string, t: string) {
    && (t != [] ==> !IsWhite(t[0]) && !IsWhite(t[|t| - 1]))
    && exists i, j :: 0 <= i <= j <= |s| && t == s[i..j] && AllWhite(s[..i]) && AllWhite(s[j..])
  }

  lemma SpaceIsWhite(c: char)
    ensures IsSpace(c) <==> IsWhite(c)
  {
  }

  lemma BlankIsWhite(s: string)
    ensures Blank(s) <==> AllWhite(s)
  {
    hide IsSpace, IsWhite;
    forall c: char ensures IsSpace(c) <==> IsWhite(c) {
      SpaceIsWhite(c);
    }
  }

  lemma {:induction false} StartTrimmed(s: string) returns (i: nat)
    ensures i <= |s| && TrimStart(s) == s[i..] && AllWhite(s[..i])
    ensures i < |s| ==> !IsWhite(s[i])
    decreases |s|
  {
    hide IsWhite, IsSpace;
    if s != [] {
      SpaceIsWhite(s[0]);
    }
    if s != [] && IsSpace(s[0]) {
      var k := StartTrimmed(s[1..]);
      i := k + 1;
      assert s[..i] == [s[0]] + s[1..][..k];
    } else {
      i := 0;
    }
  }

  lemma {:induction false} EndTrimmed(s: string) returns (j: nat)
    ensures j <= |s| && TrimEnd(s) == s[..j] && AllWhite(s[j..])
    ensures j > 0 ==> !IsWhite(s[j - 1])
    decreases |s|
  {
    hide IsWhite, IsSpace;
    if s != [] {
      SpaceIsWhite(s[|s| - 1]);
    }
    if s != [] && IsSpace(s[|s| - 1]) {
      var n := |s| - 1;
      j := EndTrimmed(s[..n]);
      assert s[j..] == s[..n][j..] + [s[n]];
    } else {
      j := |s|;
    }
  }

  lemma TrimExactly(s: string)
    ensures IsTrimmed(s, Trim(s))
  {
    hide IsWhite;
    var i := StartTrimmed(s);
    var j := EndTrimmed(s[i..]);
    assert s[i..][..j] == s[i..i + j] && s[i..][j..] == s[i + j..];
  }

  // ---------------------------------------------------------------- inputs

  ghost predicate RowMeets(row: Row, start: int, end: int) {
    && |row.sources| >= 1 && (forall x :: x in row.sources ==> !AllWhite(x))
    && start <= row.at && row.at < end && Canonical(row.amount)
    && !AllWhite(row.project) && !AllWhite(row.provider) && !AllWhite(row.model)
  }

  /** No event is named at two places. */
  ghost predicate EventsApart(rows: seq<Row>) {
    forall i, j, k, l ::
      0 <= i < |rows| && 0 <= j < |rows| && 0 <= k < |rows[i].sources| && 0 <= l < |rows[j].sources| ==>
      rows[i].sources[k] == rows[j].sources[l] ==> i == j && k == l
  }

  ghost function PartsOf(): Target -> real { (t: Target) => t.parts as real }

  /** A rule with a version, a span of time and different targets: all of a group to one of them, parts that
      make up the whole, or no parts at all. */
  ghost predicate RuleMeets(r: Rule) {
    && 1 <= r.version && (forall end :: r.effectiveTo == Some(end) ==> r.effectiveFrom < end)
    && |r.targets| >= 1
    && (forall i, j :: 0 <= i < j < |r.targets| ==> r.targets[i].centre != r.targets[j].centre)
    && (r.way == Direct ==> |r.targets| == 1 && r.targets[0].parts == 1_000_000)
    && (r.way == FixedSplit ==> Total(PartsOf(), r.targets) == 1_000_000.0)
    && (r.way == ProportionalToDirect ==> forall t :: t in r.targets ==> t.parts == 0)
  }

  ghost predicate HasCentre(centres: seq<Centre>, id: string) { exists c :: c in centres && c.id == id }

  /** Everything a run asks of its inputs. */
  ghost predicate Meets(rows: seq<Row>, rules: seq<Rule>, centres: seq<Centre>, start: int, end: int) {
    && start < end && (forall row :: row in rows ==> RowMeets(row, start, end)) && EventsApart(rows)
    && (forall r :: r in rules ==> RuleMeets(r))
    && forall r, t :: r in rules && t in r.targets ==> HasCentre(centres, t.centre)
  }

  lemma RowOkExactly(row: Row, start: int, end: int)
    ensures RowOk(row, start, end) <==> RowMeets(row, start, end)
  {
    hide Blank, AllWhite, Canonical;
    forall s: string ensures Blank(s) <==> AllWhite(s) {
      BlankIsWhite(s);
    }
  }

  lemma {:induction false} PartsAddUp(targets: seq<Target>)
    ensures TotalParts(targets) as real == Total(PartsOf(), targets)
    decreases |targets|
  {
    if targets != [] {
      PartsAddUp(targets[..|targets| - 1]);
    }
  }

  lemma RuleOkExactly(r: Rule)
    ensures RuleOk(r) <==> RuleMeets(r)
  {
    PartsAddUp(r.targets);
    hide Total, TotalParts;
    assert r.effectiveTo.Some? ==> r.effectiveTo == Some(r.effectiveTo.value);
    if r.way == ProportionalToDirect && forall t :: t in r.targets ==> t.parts == 0 {
      forall i | 0 <= i < |r.targets| ensures r.targets[i].parts == 0 {
        assert r.targets[i] in r.targets;
      }
    }
  }

  lemma DistinctParts(a: seq<string>, b: seq<string>)
    ensures Distinct(a + b) <==> Distinct(a) && Distinct(b) && forall x :: x in a ==> x !in b
  {
    var all := a + b;
    assert forall i :: 0 <= i < |a| ==> all[i] == a[i];
    assert forall j :: 0 <= j < |b| ==> all[|a| + j] == b[j];
    if Distinct(all) {
      forall i, j | 0 <= i < j < |a| ensures a[i] != a[j] {
        assert all[i] != all[j];
      }
      forall i, j | 0 <= i < j < |b| ensures b[i] != b[j] {
        assert all[|a| + i] != all[|a| + j];
      }
      forall i, j | 0 <= i < |a| && 0 <= j < |b| ensures a[i] != b[j] {
        assert all[i] != all[|a| + j];
      }
    } else if Distinct(a) && Distinct(b) && forall x :: x in a ==> x !in b {
      DistinctConcat(a, b);
    }
  }

  /** One more row names no event that is named already, and none twice. */
  ghost predicate LastApart(rows: seq<Row>)
    requires rows != []
  {
    var n := |rows| - 1;
    Distinct(rows[n].sources) && forall i, k :: 0 <= i < n && 0 <= k < |rows[i].sources| ==>
      rows[i].sources[k] !in rows[n].sources
  }

  lemma ApartPush(rows: seq<Row>)
    requires rows != []
    ensures EventsApart(rows) <==> EventsApart(rows[..|rows| - 1]) && LastApart(rows)
  {
    var n := |rows| - 1;
    if EventsApart(rows) {
      forall i, k | 0 <= i < n && 0 <= k < |rows[i].sources| ensures rows[i].sources[k] !in rows[n].sources {
        forall l | 0 <= l < |rows[n].sources| ensures rows[i].sources[k] != rows[n].sources[l] {
        }
      }
    }
  }

  lemma {:induction false} ApartExactly(rows: seq<Row>)
    ensures EventsApart(rows) <==> Distinct(Flatten(RowSources(), rows))
    decreases |rows|
  {
    if rows != [] {
      var n := |rows| - 1;
      ApartExactly(rows[..n]);
      ApartPush(rows);
      DistinctParts(Flatten(RowSources(), rows[..n]), rows[n].sources);
      hide EventsApart, Distinct;
      forall x ensures x in Flatten(RowSources(), rows[..n])
                  <==> exists i, k :: 0 <= i < n && 0 <= k < |rows[i].sources| && rows[i].sources[k] == x
      {
        NamedBefore(rows, n, x);
      }
    }
  }

  lemma NamedBefore(rows: seq<Row>, n: nat, x: string)
    requires n <= |rows|
    ensures x in Flatten(RowSources(), rows[..n])
       <==> exists i, k :: 0 <= i < n && 0 <= k < |rows[i].sources| && rows[i].sources[k] == x
  {
    hide Flatten;
    InFlatten(RowSources(), rows[..n], x);
    if row :| row in rows[..n] && x in RowSources()(row) {
      var i :| 0 <= i < n && rows[i] == row;
      var k :| 0 <= k < |rows[i].sources| && rows[i].sources[k] == x;
    }
    forall i, k | 0 <= i < n && 0 <= k < |rows[i].sources| && rows[i].sources[k] == x
      ensures x in Flatten(RowSources(), rows[..n])
    {
      assert rows[..n][i] == rows[i] && rows[i] in rows[..n] && x in RowSources()(rows[i]);
    }
  }

  lemma RowsExactly(rows: seq<Row>, start: int, end: int)
    ensures RowsOk(rows, start, end) <==> (forall row :: row in rows ==> RowMeets(row, start, end)) && EventsApart(rows)
  {
    ApartExactly(rows);
    hide EventsApart, Distinct, Flatten, RowOk, RowMeets;
    forall row: Row ensures RowOk(row, start, end) <==> RowMeets(row, start, end) {
      RowOkExactly(row, start, end);
    }
  }

  lemma CentresExactly(rules: seq<Rule>, centres: seq<Centre>)
    ensures CentresKnown(rules, centres)
       <==> forall r, t :: r in rules && t in r.targets ==> HasCentre(centres, t.centre)
  {
    if CentresKnown(rules, centres) {
      forall r, t | r in rules && t in r.targets ensures HasCentre(centres, t.centre) {
        var i :| 0 <= i < |rules| && rules[i] == r;
        var j :| 0 <= j < |rules[i].targets| && rules[i].targets[j] == t;
        var n :| 0 <= n < |centres| && centres[n].id == rules[i].targets[j].centre;
        assert centres[n] in centres;
      }
    }
    if forall r, t :: r in rules && t in r.targets ==> HasCentre(centres, t.centre) {
      forall i, j | 0 <= i < |rules| && 0 <= j < |rules[i].targets|
        ensures exists n :: 0 <= n < |centres| && centres[n].id == rules[i].targets[j].centre
      {
        assert rules[i] in rules && rules[i].targets[j] in rules[i].targets;
        var c :| c in centres && c.id == rules[i].targets[j].centre;
        var n :| 0 <= n < |centres| && centres[n] == c;
      }
    }
  }

  /** A run accepts exactly the inputs that meet all of this. */
  lemma InputsOkExactly(rows: seq<Row>, rules: seq<Rule>, centres: seq<Centre>, start: int, end: int)
    ensures InputsOk(rows, rules, centres, start, end) <==> Meets(rows, rules, centres, start, end)
  {
    RowsExactly(rows, start, end);
    CentresExactly(rules, centres);
    RulesExactly(rules);
    hide RowsOk, RowMeets, EventsApart, CentresKnown, RulesOk, RuleMeets;
  }

  lemma RulesExactly(rules: seq<Rule>)
    ensures RulesOk(rules) <==> forall r :: r in rules ==> RuleMeets(r)
  {
    hide RuleOk, RuleMeets;
    forall r: Rule ensures RuleOk(r) <==> RuleMeets(r) {
      RuleOkExactly(r);
    }
    if forall r :: r in rules ==> RuleMeets(r) {
      forall i | 0 <= i < |rules| ensures RuleOk(rules[i]) {
        assert rules[i] in rules;
      }
    }
  }

  /** The rules a run tries, in this order: the supplied ones, by priority, then by name, and as they were
      supplied where neither tells two apart; and the centres that are closed. */
  lemma PolicyIsOrdered(c: Locale, rules: seq<Rule>, centres: seq<Centre>)
    ensures var p := PolicyFor(c, rules, centres);
            && multiset(p.ordered) == multiset(rules)
            && (forall i, j :: 0 <= i < j < |p.ordered| ==>
                  || p.ordered[i].priority < p.ordered[j].priority
                  || (p.ordered[i].priority == p.ordered[j].priority
                      && c.name(p.ordered[i].ruleId) <= c.name(p.ordered[j].ruleId)))
            && (forall r, s :: StandsBefore(rules, r, s) ==>
                  r.priority == s.priority && c.name(r.ruleId) == c.name(s.ruleId) ==> StandsBefore(p.ordered, r, s))
            && forall x :: x in p.archived <==> exists k :: k in centres && k.id == x && k.archived
  {
    PrecedenceOrders(c.name);
    SortSorts(Precedence(c.name), rules);
    forall r, s | StandsBefore(rules, r, s) && r.priority == s.priority && c.name(r.ruleId) == c.name(s.ruleId)
      ensures StandsBefore(OrderRules(c.name, rules), r, s)
    {
      SortIsStable(Precedence(c.name), rules, r, s);
    }
    hide Sort, StandsBefore;
    var ordered := OrderRules(c.name, rules);
    forall i, j | 0 <= i < j < |ordered| ensures !Precedes(c.name, ordered[j], ordered[i]) {
      assert !Precedence(c.name)(ordered[j], ordered[i]);
    }
  }

  /** A row is kept as it is but for the white space around its names. */
  lemma KeptRowsSay(rows: seq<Row>, i: nat)
    requires i < |rows|
    ensures var kept := TrimmedRows(rows)[i];
            && kept == rows[i].(project := kept.project, provider := kept.provider, model := kept.model)
            && IsTrimmed(rows[i].project, kept.project) && IsTrimmed(rows[i].provider, kept.provider)
            && IsTrimmed(rows[i].model, kept.model)
  {
    hide Trim, IsTrimmed;
    TrimExactly(rows[i].project);
    TrimExactly(rows[i].provider);
    TrimExactly(rows[i].model);
  }

  // ---------------------------------------------------------------- results

  ghost predicate BucketsMeet(items: seq<Item>) {
    && (forall b :: b in items ==> Canonical(b.amount) && b.sources != {})
    && forall i, j :: 0 <= i < j < |items| ==> items[i].identity != items[j].identity
  }

  ghost function EntryIn(id: Identity): Listed -> real {
    (u: Listed) => if u.item.identity == id then Value(u.item.amount) else 0.0
  }

  ghost predicate FromLines(ls: seq<Line>, id: Identity, x: string) {
    exists l :: l in ls && l.item.identity == id && x in l.item.sources
  }

  ghost predicate FromEntries(us: seq<Listed>, id: Identity, x: string) {
    exists u :: u in us && u.item.identity == id && x in u.item.sources
  }

  ghost predicate FromBuckets(items: seq<Item>, id: Identity, x: string) {
    exists b :: b in items && b.identity == id && x in b.sources
  }

  /** In one currency and basis buckets hold what lines and entries add up to, both together make the total,
      and each is of the events of what it adds up. */
  ghost predicate AddsUp(r: Result, id: Identity) {
    && Total(AmountIn(id), r.allocatedBy) == Total(LineIn(id), r.lines)
    && Total(AmountIn(id), r.unallocatedBy) == Total(EntryIn(id), r.unplaced)
    && Total(AmountIn(id), r.totalBy) == Total(LineIn(id), r.lines) + Total(EntryIn(id), r.unplaced)
    && forall x :: && (FromBuckets(r.allocatedBy, id, x) <==> FromLines(r.lines, id, x))
                   && (FromBuckets(r.unallocatedBy, id, x) <==> FromEntries(r.unplaced, id, x))
                   && (FromBuckets(r.totalBy, id, x) <==> FromLines(r.lines, id, x) || FromEntries(r.unplaced, id, x))
  }

  /** A result whose entries are well formed and add up. */
  ghost predicate Checks(r: Result) {
    && r.conserves && BucketsMeet(r.totalBy) && BucketsMeet(r.allocatedBy) && BucketsMeet(r.unallocatedBy)
    && (forall l :: l in r.lines ==> && Canonical(l.item.amount) && l.item.sources != {}
                                     && 1 <= l.version && l.ratioParts <= 1_000_000)
    && (forall u :: u in r.unplaced ==> && Canonical(u.item.amount) && u.item.sources != {}
                                        && forall x :: x in u.top ==> && !AllWhite(x.name) && Canonical(x.amount)
                                                                      && x.identity == u.item.identity)
    && (forall b :: b in r.bases <==> exists i :: i in r.totalBy && i.identity.basis == b)
    && forall id :: AddsUp(r, id)
  }

  lemma BucketsExactly(items: seq<Item>)
    ensures BucketsOk(items) <==> BucketsMeet(items)
  {
    hide Canonical;
  }

  lemma SourcesAreFrom(id: Identity, items: seq<Item>, x: string)
    ensures x in SourcesIn(id, items) <==> FromBuckets(items, id, x)
  {
    if b :| b in items && b.identity == id && x in b.sources {
      var k :| 0 <= k < |items| && items[k] == b;
    }
  }

  lemma LinesAreFrom(id: Identity, ls: seq<Line>, x: string)
    ensures x in SourcesIn(id, LineItems(ls)) <==> FromLines(ls, id, x)
  {
    hide Flatten, SourcesIn;
    SourcesAreFrom(id, LineItems(ls), x);
    if b :| b in LineItems(ls) && b.identity == id && x in b.sources {
      InFlatten(LineItem(), ls, b);
    }
    if l :| l in ls && l.item.identity == id && x in l.item.sources {
      InFlatten(LineItem(), ls, l.item);
      assert l.item in LineItem()(l);
    }
  }

  lemma EntriesAreFrom(id: Identity, us: seq<Listed>, x: string)
    ensures x in SourcesIn(id, ListedItems(us)) <==> FromEntries(us, id, x)
  {
    hide Flatten, SourcesIn;
    SourcesAreFrom(id, ListedItems(us), x);
    if b :| b in ListedItems(us) && b.identity == id && x in b.sources {
      InFlatten(ListedItem(), us, b);
    }
    if u :| u in us && u.item.identity == id && x in u.item.sources {
      InFlatten(ListedItem(), us, u.item);
      assert u.item in ListedItem()(u);
    }
  }

  lemma EntriesTotal(id: Identity, us: seq<Listed>)
    ensures Total(AmountIn(id), ListedItems(us)) == Total(EntryIn(id), us)
  {
    forall u: Listed ensures Total(AmountIn(id), ListedItem()(u)) == EntryIn(id)(u) {
      TotalOne(AmountIn(id), u.item);
    }
    TotalFlatten(AmountIn(id), ListedItem(), EntryIn(id), us);
  }

  lemma AgreesExactly(r: Result, id: Identity)
    ensures Agrees(r, id) <==> AddsUp(r, id)
  {
    LineItemsTotal(id, r.lines);
    EntriesTotal(id, r.unplaced);
    hide Total, SourcesIn, LineItems, ListedItems, FromBuckets, FromLines, FromEntries;
    forall x: string
      ensures x in SourcesIn(id, r.allocatedBy) <==> FromBuckets(r.allocatedBy, id, x)
      ensures x in SourcesIn(id, r.unallocatedBy) <==> FromBuckets(r.unallocatedBy, id, x)
      ensures x in SourcesIn(id, r.totalBy) <==> FromBuckets(r.totalBy, id, x)
      ensures x in SourcesIn(id, LineItems(r.lines)) <==> FromLines(r.lines, id, x)
      ensures x in SourcesIn(id, ListedItems(r.unplaced)) <==> FromEntries(r.unplaced, id, x)
    {
      SourcesAreFrom(id, r.allocatedBy, x);
      SourcesAreFrom(id, r.unallocatedBy, x);
      SourcesAreFrom(id, r.totalBy, x);
      LinesAreFrom(id, r.lines, x);
      EntriesAreFrom(id, r.unplaced, x);
    }
  }

  lemma EntryExactly(u: Listed)
    ensures UnplacedOk(u) <==> && Canonical(u.item.amount) && u.item.sources != {}
                               && forall x :: x in u.top ==> && !AllWhite(x.name) && Canonical(x.amount)
                                                             && x.identity == u.item.identity
  {
    hide Blank, AllWhite, Canonical;
    forall s: string ensures Blank(s) <==> AllWhite(s) {
      BlankIsWhite(s);
    }
  }

  lemma BasesExactly(r: Result)
    ensures r.bases == (set i | 0 <= i < |r.totalBy| :: r.totalBy[i].identity.basis)
       <==> forall b :: b in r.bases <==> exists i :: i in r.totalBy && i.identity.basis == b
  {
    var all := set i | 0 <= i < |r.totalBy| :: r.totalBy[i].identity.basis;
    forall b ensures b in all <==> exists i :: i in r.totalBy && i.identity.basis == b {
      if i :| i in r.totalBy && i.identity.basis == b {
        var k :| 0 <= k < |r.totalBy| && r.totalBy[k] == i;
      }
    }
  }

  /** The validator accepts exactly the results that check. */
  lemma ValidExactly(r: Result)
    ensures Valid(r) <==> Checks(r)
  {
    BucketsExactly(r.totalBy);
    BucketsExactly(r.allocatedBy);
    BucketsExactly(r.unallocatedBy);
    BasesExactly(r);
    hide BucketsOk, BucketsMeet, Agrees, AddsUp, UnplacedOk, Canonical, AllWhite;
    forall id: Identity ensures Agrees(r, id) <==> AddsUp(r, id) {
      AgreesExactly(r, id);
    }
    forall u: Listed
      ensures UnplacedOk(u) <==> && Canonical(u.item.amount) && u.item.sources != {}
                                 && forall x :: x in u.top ==> && !AllWhite(x.name) && Canonical(x.amount)
                                                               && x.identity == u.item.identity
    {
      EntryExactly(u);
    }
  }
}
