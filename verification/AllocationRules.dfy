/** Which rows a rule claims, and the order rules are tried in. Ratios are in parts per million. */
module AllocationRules {
  import opened Money
  import opened Tables
  import opened Holdings

  const RATIO_SCALE: nat := 1_000_000

  datatype Method = Direct | FixedSplit | ProportionalToDirect

  datatype Match = Match(project: Option<string>, provider: Option<string>, model: Option<string>,
                         source: Option<string>, user: Option<string>)

  datatype Target = Target(centre: string, parts: nat)

  datatype Rule = Rule(ruleId: string, version: nat, way: Method, wants: Match, targets: seq<Target>,
                       priority: int, effectiveFrom: int, effectiveTo: Option<int>, revokedAt: Option<int>)

  datatype Row = Row(sources: seq<string>, amount: Decimal, identity: Identity, project: string, provider: string,
                     model: string, source: Option<string>, user: Option<string>, at: int)

  /** Where localeCompare puts a string: names compare by position, and different names may tie. */
  type Collation = string -> real

  function TotalParts(targets: seq<Target>): nat {
    if targets == [] then 0 else TotalParts(targets[..|targets| - 1]) + targets[|targets| - 1].parts
  }

  predicate TargetsDistinct(targets: seq<Target>) {
    forall i, j :: 0 <= i < j < |targets| ==> targets[i].centre != targets[j].centre
  }

  predicate RuleOk(r: Rule) {
    && r.version >= 1
    && (r.effectiveTo.Some? ==> r.effectiveFrom < r.effectiveTo.value)
    && r.targets != [] && TargetsDistinct(r.targets)
    && match r.way
       case Direct => |r.targets| == 1 && r.targets[0].parts == RATIO_SCALE
       case FixedSplit => TotalParts(r.targets) == RATIO_SCALE
       case ProportionalToDirect => forall i :: 0 <= i < |r.targets| ==> r.targets[i].parts == 0
  }

  predicate AppliesAt(r: Rule, at: int) {
    && !(r.revokedAt.Some? && r.revokedAt.value <= at)
    && r.effectiveFrom <= at
    && (r.effectiveTo == None || at < r.effectiveTo.value)
  }

  predicate Accepts(want: Option<string>, actual: Option<string>) { want == None || actual == want }

  predicate MatchesRow(r: Rule, row: Row) {
    && Accepts(r.wants.project, Some(row.project)) && Accepts(r.wants.provider, Some(row.provider))
    && Accepts(r.wants.model, Some(row.model)) && Accepts(r.wants.source, row.source) && Accepts(r.wants.user, row.user)
  }

  predicate Takes(r: Rule, row: Row) { AppliesAt(r, row.at) && MatchesRow(r, row) }

  // ---------------------------------------------------------------- order of evaluation

  predicate Precedes(rank: Collation, a: Rule, b: Rule) {
    a.priority < b.priority || (a.priority == b.priority && rank(a.ruleId) < rank(b.ruleId))
  }

  function Precedence(rank: Collation): (Rule, Rule) -> bool {
    (a, b) => Precedes(rank, a, b)
  }

  function OrderRules(rank: Collation, rules: seq<Rule>): seq<Rule> {
    Sort(Precedence(rank), rules)
  }

  function FirstMatch(ordered: seq<Rule>, row: Row): Option<Rule> {
    if ordered == [] then None
    else if Takes(ordered[0], row) then Some(ordered[0])
    else FirstMatch(ordered[1..], row)
  }

  /** The chosen rule takes the row and no other rule that takes it comes before it; None only if
      no rule takes it. */
  ghost predicate Leads(rank: Collation, rules: seq<Rule>, row: Row, chosen: Option<Rule>) {
    match chosen
    case None => forall r :: r in rules ==> !Takes(r, row)
    case Some(c) => c in rules && Takes(c, row) && forall r :: r in rules && Takes(r, row) ==> !Precedes(rank, r, c)
  }

  lemma NeverBeforeItself(rank: Collation, r: Rule)
    ensures !Precedes(rank, r, r)
  {
  }

  lemma {:induction false} FirstMatchLeads(rank: Collation, ordered: seq<Rule>, row: Row)
    requires Sorted(Precedence(rank), ordered)
    ensures Leads(rank, ordered, row, FirstMatch(ordered, row))
    decreases |ordered|
  {
    hide Takes, Precedes;
    if ordered != [] {
      FirstMatchLeads(rank, ordered[1..], row);
      assert ordered == [ordered[0]] + ordered[1..];
      assert forall i :: 0 < i < |ordered| ==> !Precedence(rank)(ordered[i], ordered[0]);
      NeverBeforeItself(rank, ordered[0]);
    }
  }

  /** Whatever order the rules are supplied in, a row goes to a rule of least priority among those
      that take it, and of first name among these. */
  lemma RulesLead(rank: Collation, rules: seq<Rule>, row: Row)
    ensures Leads(rank, rules, row, FirstMatch(OrderRules(rank, rules), row))
  {
    var ordered := OrderRules(rank, rules);
    PrecedenceOrders(rank);
    SortSorts(Precedence(rank), rules);
    FirstMatchLeads(rank, ordered, row);
    SameMembers(rules, ordered);
  }

  lemma PrecedenceOrders(rank: Collation)
    ensures Orders(Precedence(rank))
  {
  }

  // ---------------------------------------------------------------- when the order of rules matters

  /** No two different rules that take the row tie for the lead. */
  ghost predicate OneLeads(rank: Collation, rules: seq<Rule>, row: Row) {
    forall r, s :: Leads(rank, rules, row, Some(r)) && Leads(rank, rules, row, Some(s)) ==> r == s
  }

  lemma LeadsForgetsOrder(rank: Collation, a: seq<Rule>, b: seq<Rule>, row: Row, chosen: Option<Rule>)
    requires multiset(a) == multiset(b)
    ensures Leads(rank, a, row, chosen) <==> Leads(rank, b, row, chosen)
  {
    hide Takes, Precedes;
    SameMembers(a, b);
  }

  lemma {:induction false} HeadIsMatched(rank: Collation, ordered: seq<Rule>, row: Row, r: Rule)
    requires Heads(Precedence(rank), ordered, r) && Leads(rank, ordered, row, Some(r))
    ensures FirstMatch(ordered, row) == Some(r)
    decreases |ordered|
  {
    hide Takes, Precedes;
    var i :| 0 <= i < |ordered| && ordered[i] == r && forall j :: 0 <= j < i ==> Precedence(rank)(ordered[j], r);
    if i > 0 {
      assert ordered[0] in ordered && Precedence(rank)(ordered[0], r);
      var rest := ordered[1..];
      assert rest[i - 1] == r && forall j :: 0 <= j < i - 1 ==> Precedence(rank)(rest[j], r);
      HeadIsMatched(rank, rest, row, r);
    }
  }

  /** Supplied first, a rule that leads is chosen. */
  lemma SuppliedFirstIsChosen(rank: Collation, rules: seq<Rule>, row: Row, i: nat)
    requires i < |rules| && Leads(rank, rules, row, Some(rules[i]))
    ensures FirstMatch(OrderRules(rank, ToFront(rules, i)), row) == Some(rules[i])
  {
    hide Leads, Sort;
    var first := ToFront(rules, i);
    SortKeepsHead(Precedence(rank), first);
    LeadsForgetsOrder(rank, rules, OrderRules(rank, first), row, Some(rules[i]));
    HeadIsMatched(rank, OrderRules(rank, first), row, rules[i]);
  }

  /** The exact condition: a row goes to one rule in whatever order the rules are supplied, if and only if
      no two different rules tie for the lead. */
  lemma RuleOrderMattersExactly(rank: Collation, rules: seq<Rule>, row: Row)
    ensures OneLeads(rank, rules, row)
       <==> forall other :: multiset(other) == multiset(rules) ==>
              FirstMatch(OrderRules(rank, other), row) == FirstMatch(OrderRules(rank, rules), row)
  {
    hide OrderRules, FirstMatch, Takes, Precedes;
    RulesLead(rank, rules, row);
    if OneLeads(rank, rules, row) {
      forall other | multiset(other) == multiset(rules)
        ensures FirstMatch(OrderRules(rank, other), row) == FirstMatch(OrderRules(rank, rules), row)
      {
        RulesLead(rank, other, row);
        LeadsForgetsOrder(rank, other, rules, row, FirstMatch(OrderRules(rank, other), row));
      }
    } else {
      var r, s :| Leads(rank, rules, row, Some(r)) && Leads(rank, rules, row, Some(s)) && r != s;
      var i :| 0 <= i < |rules| && rules[i] == r;
      var j :| 0 <= j < |rules| && rules[j] == s;
      SuppliedFirstIsChosen(rank, rules, row, i);
      SuppliedFirstIsChosen(rank, rules, row, j);
      assert multiset(ToFront(rules, i)) == multiset(rules) && multiset(ToFront(rules, j)) == multiset(rules);
    }
  }
}
