/** A provider's cost report against the local ledger. */
module Reconciliation {
  // The comparison is by project-day, and pruning the ledger must not make its verdicts wrong. Amounts
  // are whole microdollars.

  import opened Money
  import opened Tables

  const DAY: int := 86_400_000
  const SETTLEMENT_LAG: int := 172_800_000

  /** `Exact` is None when the stored amount is not a whole number of microdollars. */
  datatype LocalAmount = Exact(currency: string, micros: Option<int>) | RateCard(estimate: int)

  datatype Row = Row(provider: string, via: string, capture: string, scope: Option<string>, at: int,
                     amount: LocalAmount)

  datatype Line = Line(day: int, micros: int, currency: string, item: string)

  datatype Run = Run(succeeded: bool, paginationComplete: bool, periodStart: int, periodEnd: int, scope: string)

  datatype Refusal =
    | NoProviderObservation | MayStillAccrue | MultipleCurrencies | CurrencyNotUsd
    | LocalNotUsd | LocalNeedsQuantization

  datatype Bound = UpperBoundConditional | NoneLocalExceeds | UnknownTruncated

  datatype Reason = ExactMatch | ProviderExceeds | LocalExceeds | NoLocal | NoProvider

  datatype DayLine = DayLine(day: int, provider: int, local: int, requests: nat, reason: Reason, material: bool,
                             items: set<string>)

  datatype Coverage = Coverage(providerDays: nat, localDays: nat, both: nat, providerOnly: nat, localOnly: nat,
                               material: nat)

  datatype Result =
    | Refused(refusal: Refusal)
    | Reconciled(providerTotal: int, localTotal: int, bound: Bound, coverage: Coverage, days: seq<DayLine>)

  // ---------------------------------------------------------------- rows and days

  predicate OnDeclaredRoute(row: Row, scope: string) {
    row.provider == "openai" && row.via == "proxy" && row.capture == "declared_unverified" && row.scope == Some(scope)
  }

  predicate Counts(run: Run, row: Row) {
    OnDeclaredRoute(row, run.scope) && run.periodStart <= row.at < run.periodEnd
  }

  function Counted(run: Run, rows: seq<Row>): seq<Row> {
    if rows == [] then []
    else Counted(run, rows[..|rows| - 1]) + if Counts(run, rows[|rows| - 1]) then [rows[|rows| - 1]] else []
  }

  function DayStart(at: int): int { at / DAY * DAY }

  function Problem(row: Row): Option<Refusal> {
    match row.amount
    case Exact(currency, micros) =>
      if currency != "USD" then Some(LocalNotUsd) else if micros == None then Some(LocalNeedsQuantization) else None
    case RateCard(_) => None
  }

  function FirstProblem(rows: seq<Row>): Option<Refusal> {
    if rows == [] then None
    else
      var earlier := FirstProblem(rows[..|rows| - 1]);
      if earlier.Some? then earlier else Problem(rows[|rows| - 1])
  }

  function Captured(row: Row): int {
    match row.amount
    case Exact(_, Some(m)) => m
    case Exact(_, None) => 0
    case RateCard(m) => m
  }

  function LocalOn(rows: seq<Row>, day: int): int {
    if rows == [] then 0
    else
      var row := rows[|rows| - 1];
      LocalOn(rows[..|rows| - 1], day) + if DayStart(row.at) == day then Captured(row) else 0
  }

  function RequestsOn(rows: seq<Row>, day: int): nat {
    if rows == [] then 0
    else RequestsOn(rows[..|rows| - 1], day) + if DayStart(rows[|rows| - 1].at) == day then 1 else 0
  }

  function LocalTotal(rows: seq<Row>): int {
    if rows == [] then 0 else LocalTotal(rows[..|rows| - 1]) + Captured(rows[|rows| - 1])
  }

  function LinesOn(lines: seq<Line>, day: int): seq<Line> {
    if lines == [] then []
    else LinesOn(lines[..|lines| - 1], day) + if lines[|lines| - 1].day == day then [lines[|lines| - 1]] else []
  }

  function SumLines(lines: seq<Line>): int {
    if lines == [] then 0 else SumLines(lines[..|lines| - 1]) + lines[|lines| - 1].micros
  }

  // ---------------------------------------------------------------- verdicts

  function OffPathBound(provider: int, local: int, truncated: bool): Bound {
    if provider - local < 0 then NoneLocalExceeds
    else if truncated then UnknownTruncated
    else UpperBoundConditional
  }

  function ResidualReason(provider: int, local: int, hasProvider: bool, hasLocal: bool): Reason {
    if !hasLocal then NoLocal
    else if !hasProvider then NoProvider
    else if provider == local then ExactMatch
    else if provider > local then ProviderExceeds
    else LocalExceeds
  }

  function Items(lines: seq<Line>): set<string> { set k | 0 <= k < |lines| :: lines[k].item }

  function DayLineOf(lines: seq<Line>, rows: seq<Row>, materiality: int, day: int): DayLine {
    var onDay := LinesOn(lines, day);
    var provider, local := SumLines(onDay), LocalOn(rows, day);
    var gap := provider - local;
    DayLine(day, provider, local, RequestsOn(rows, day),
            ResidualReason(provider, local, onDay != [], RequestsOn(rows, day) > 0),
            gap > materiality || -gap > materiality, Items(onDay))
  }

  /** The recorded boundary falls strictly inside or after the start of the period. */
  predicate Truncated(run: Run, prunedBefore: Option<int>) {
    prunedBefore.Some? && run.periodStart < prunedBefore.value
  }

  function Currencies(lines: seq<Line>): set<string> { set k | 0 <= k < |lines| :: lines[k].currency }

  /** The refusals decided before any local row is looked at. */
  function EarlyRefusal(run: Run, lines: seq<Line>, now: int): Option<Refusal> {
    if !run.succeeded || !run.paginationComplete then Some(NoProviderObservation)
    else if run.periodEnd > now - SETTLEMENT_LAG then Some(MayStillAccrue)
    else if |Currencies(lines)| > 1 then Some(MultipleCurrencies)
    else if |Currencies(lines)| == 1 && Currencies(lines) != {"USD"} then Some(CurrencyNotUsd)
    else None
  }

  ghost predicate Active(lines: seq<Line>, rows: seq<Row>, day: int) {
    LinesOn(lines, day) != [] || RequestsOn(rows, day) > 0
  }

  predicate Both(lines: seq<Line>, rows: seq<Row>, day: int, hasProvider: bool, hasLocal: bool) {
    (LinesOn(lines, day) != []) == hasProvider && (RequestsOn(rows, day) > 0) == hasLocal
  }

  function Count(lines: seq<Line>, rows: seq<Row>, days: seq<int>, hasProvider: bool, hasLocal: bool): nat {
    if days == [] then 0
    else
      Count(lines, rows, days[..|days| - 1], hasProvider, hasLocal)
      + if Both(lines, rows, days[|days| - 1], hasProvider, hasLocal) then 1 else 0
  }

  function DaysOf(days: seq<DayLine>): seq<int> { seq(|days|, k requires 0 <= k < |days| => days[k].day) }

  function Material(days: seq<DayLine>): nat {
    if days == [] then 0 else Material(days[..|days| - 1]) + if days[|days| - 1].material then 1 else 0
  }

  /** Everything a report says about a snapshot and the counted rows: each active day once and in
      order, each with its own two totals, and totals and counts over all of them. */
  ghost predicate Reports(lines: seq<Line>, rows: seq<Row>, truncated: bool, materiality: int, r: Result) {
    && r.Reconciled?
    && (forall j, k :: 0 <= j < k < |r.days| ==> r.days[j].day < r.days[k].day)
    && (forall k :: 0 <= k < |r.days| ==> r.days[k] == DayLineOf(lines, rows, materiality, r.days[k].day))
    && (forall day :: Active(lines, rows, day) <==> exists k :: 0 <= k < |r.days| && r.days[k].day == day)
    && r.providerTotal == SumLines(lines) && r.localTotal == LocalTotal(rows)
    && r.bound == OffPathBound(r.providerTotal, r.localTotal, truncated)
    && r.coverage.both == Count(lines, rows, DaysOf(r.days), true, true)
    && r.coverage.providerOnly == Count(lines, rows, DaysOf(r.days), true, false)
    && r.coverage.localOnly == Count(lines, rows, DaysOf(r.days), false, true)
    && r.coverage.providerDays == r.coverage.both + r.coverage.providerOnly
    && r.coverage.localDays == r.coverage.both + r.coverage.localOnly
    && |r.days| == r.coverage.both + r.coverage.providerOnly + r.coverage.localOnly
    && r.coverage.material == Material(r.days)
  }

  // ---------------------------------------------------------------- the per-day maps

  type ByDay = Table<int, seq<Line>>

  datatype Bucket = Bucket(micros: int, requests: nat)

  ghost predicate LinesGrouped(lines: seq<Line>, t: ByDay) {
    && Ok(t)
    && (forall day :: day in t.at <==> LinesOn(lines, day) != [])
    && forall day :: day in t.at ==> t.at[day] == LinesOn(lines, day)
  }

  method GroupLines(lines: seq<Line>) returns (t: ByDay)
    ensures LinesGrouped(lines, t)
  {
    t := Empty();
    for n := 0 to |lines|
      invariant LinesGrouped(lines[..n], t)
    {
      var day := lines[n].day;
      LinesStep(lines, n);
      PutKeepsOk(t, day, (if day in t.at then t.at[day] else []) + [lines[n]]);
      hide LinesOn, Ok;
      t := Put(t, day, (if day in t.at then t.at[day] else []) + [lines[n]]);
    }
    assert lines[..|lines|] == lines;
  }

  lemma LinesStep(lines: seq<Line>, n: nat)
    requires n < |lines|
    ensures forall day ::
              LinesOn(lines[..n + 1], day) == LinesOn(lines[..n], day) + if lines[n].day == day then [lines[n]] else []
  {
    assert lines[..n + 1][..n] == lines[..n];
  }

  ghost predicate RowsGrouped(rows: seq<Row>, t: Table<int, Bucket>) {
    && Ok(t)
    && (forall day :: day in t.at <==> RequestsOn(rows, day) > 0)
    && forall day :: (day in t.at ==> t.at[day] == Bucket(LocalOn(rows, day), RequestsOn(rows, day)))
                     && (day !in t.at ==> LocalOn(rows, day) == 0)
  }

  function PushRow(t: Table<int, Bucket>, row: Row): Table<int, Bucket> {
    var day := DayStart(row.at);
    var bucket := if day in t.at then t.at[day] else Bucket(0, 0);
    Put(t, day, Bucket(bucket.micros + Captured(row), bucket.requests + 1))
  }

  lemma RowPushed(rows: seq<Row>, row: Row, t: Table<int, Bucket>)
    requires RowsGrouped(rows, t)
    ensures RowsGrouped(rows + [row], PushRow(t, row))
  {
    assert (rows + [row])[..|rows|] == rows;
    PutKeepsOk(t, DayStart(row.at), PushRow(t, row).at[DayStart(row.at)]);
    hide Captured, DayStart, Ok;
  }

  lemma NothingGrouped(run: Run)
    ensures Counted(run, []) == [] && FirstProblem([]) == None && RowsGrouped([], Empty())
  {
  }

  lemma {:induction false} ProblemStays(run: Run, rows: seq<Row>, n: nat)
    requires n <= |rows| && FirstProblem(Counted(run, rows[..n])).Some?
    ensures FirstProblem(Counted(run, rows)) == FirstProblem(Counted(run, rows[..n]))
    decreases |rows|
  {
    if n == |rows| {
      assert rows[..n] == rows;
    } else {
      var init := rows[..|rows| - 1];
      assert init[..n] == rows[..n];
      ProblemStays(run, init, n);
      hide Problem, Counts;
      if Counts(run, rows[|rows| - 1]) {
        assert Counted(run, rows)[..|Counted(run, rows)| - 1] == Counted(run, init);
      } else {
        assert Counted(run, rows) == Counted(run, init);
      }
    }
  }

  method GroupRows(run: Run, rows: seq<Row>) returns (problem: Option<Refusal>, t: Table<int, Bucket>)
    ensures problem == FirstProblem(Counted(run, rows))
    ensures problem == None ==> RowsGrouped(Counted(run, rows), t)
  {
    hide *;
    t := Empty();
    NothingGrouped(run);
    assert rows[..0] == [];
    for n := 0 to |rows|
      invariant FirstProblem(Counted(run, rows[..n])) == None
      invariant RowsGrouped(Counted(run, rows[..n]), t)
    {
      var row := rows[n];
      CountedStep(run, rows, n);
      if Counts(run, row) {
        if Problem(row).Some? {
          ProblemStays(run, rows, n + 1);
          return Problem(row), t;
        }
        RowPushed(Counted(run, rows[..n]), row, t);
        t := PushRow(t, row);
      } else {
        assert Counted(run, rows[..n]) + [] == Counted(run, rows[..n]);
      }
    }
    assert rows[..|rows|] == rows;
    return None, t;
  }

  lemma CountedStep(run: Run, rows: seq<Row>, n: nat)
    requires n < |rows|
    ensures Counted(run, rows[..n + 1]) == Counted(run, rows[..n]) + if Counts(run, rows[n]) then [rows[n]] else []
    ensures FirstProblem(Counted(run, rows[..n])) == None ==>
              FirstProblem(Counted(run, rows[..n + 1])) == if Counts(run, rows[n]) then Problem(rows[n]) else None
  {
    hide Problem, Counts;
    assert rows[..n + 1][..n] == rows[..n];
    var before := Counted(run, rows[..n]);
    assert (before + [rows[n]])[..|before|] == before;
    assert before + [] == before;
  }

  // ---------------------------------------------------------------- the listing of days

  function Earlier(): (int, int) -> bool { (a, b) => a < b }

  /** Every active day once, in order. */
  ghost predicate DaysListed(lines: seq<Line>, rows: seq<Row>, days: seq<int>) {
    && (forall j, k :: 0 <= j < k < |days| ==> days[j] < days[k])
    && forall day :: day in days <==> Active(lines, rows, day)
  }

  function KeysNotIn(keys: seq<int>, t: ByDay): seq<int> {
    if keys == [] then []
    else
      var k := keys[|keys| - 1];
      KeysNotIn(keys[..|keys| - 1], t) + if k in t.at then [] else [k]
  }

  lemma {:induction false} KeysNotInMeans(keys: seq<int>, t: ByDay)
    requires Distinct(keys)
    ensures Distinct(KeysNotIn(keys, t))
    ensures forall k :: k in KeysNotIn(keys, t) <==> k in keys && k !in t.at
    decreases |keys|
  {
    if keys != [] {
      var n := |keys| - 1;
      KeysNotInMeans(keys[..n], t);
      assert keys == keys[..n] + [keys[n]];
    }
  }

  lemma SortedDays(keys: seq<int>)
    requires Distinct(keys)
    ensures var days := Sort(Earlier(), keys);
            && (forall j, k :: 0 <= j < k < |days| ==> days[j] < days[k])
            && forall day :: day in days <==> day in keys
  {
    var days := Sort(Earlier(), keys);
    SortSorts(Earlier(), keys);
    SameMembers(keys, days);
    DistinctPermuted(keys, days);
    forall j, k | 0 <= j < k < |days| ensures days[j] < days[k] {
      assert !Earlier()(days[k], days[j]);
    }
  }

  lemma UnionListed(lines: seq<Line>, rows: seq<Row>, t: ByDay, u: Table<int, Bucket>)
    requires LinesGrouped(lines, t) && RowsGrouped(rows, u)
    ensures Distinct(t.order + KeysNotIn(u.order, t))
    ensures DaysListed(lines, rows, Sort(Earlier(), t.order + KeysNotIn(u.order, t)))
    ensures |t.order + KeysNotIn(u.order, t)| == |Sort(Earlier(), t.order + KeysNotIn(u.order, t))|
  {
    hide LinesOn, RequestsOn, KeysNotIn, Earlier, LocalOn;
    KeysNotInMeans(u.order, t);
    var keys := t.order + KeysNotIn(u.order, t);
    forall day | day in t.order ensures day !in KeysNotIn(u.order, t) {
      assert day in t.at;
    }
    DistinctConcat(t.order, KeysNotIn(u.order, t));
    SortedDays(keys);
    assert |Sort(Earlier(), keys)| == |multiset(Sort(Earlier(), keys))| == |multiset(keys)| == |keys|;
  }

  // ---------------------------------------------------------------- totals over days

  ghost function LocalReal(rows: seq<Row>): int -> real { (day: int) => LocalOn(rows, day) as real }

  ghost function ProviderReal(lines: seq<Line>): int -> real { (day: int) => SumLines(LinesOn(lines, day)) as real }

  lemma {:induction false} ZeroTotal(f: int -> real, days: seq<int>)
    requires forall day :: f(day) == 0.0
    ensures Total(f, days) == 0.0
    decreases |days|
  {
    if days != [] {
      ZeroTotal(f, days[..|days| - 1]);
    }
  }

  /** Summed over the days that have any, local amounts make up the local total. */
  lemma {:induction false} LocalAddsUp(rows: seq<Row>, days: seq<int>)
    requires Distinct(days) && forall k :: 0 <= k < |rows| ==> DayStart(rows[k].at) in days
    ensures Total(LocalReal(rows), days) == LocalTotal(rows) as real
    decreases |rows|
  {
    if rows == [] {
      ZeroTotal(LocalReal(rows), days);
    } else {
      hide DayStart, Captured;
      var n := |rows| - 1;
      LocalAddsUp(rows[..n], days);
      TotalChanged(LocalReal(rows[..n]), LocalReal(rows), days, DayStart(rows[n].at));
    }
  }

  lemma {:induction false} ProviderAddsUp(lines: seq<Line>, days: seq<int>)
    requires Distinct(days) && forall k :: 0 <= k < |lines| ==> lines[k].day in days
    ensures Total(ProviderReal(lines), days) == SumLines(lines) as real
    decreases |lines|
  {
    if lines == [] {
      ZeroTotal(ProviderReal(lines), days);
    } else {
      var n := |lines| - 1;
      ProviderAddsUp(lines[..n], days);
      forall day ensures SumLines(LinesOn(lines, day))
                      == SumLines(LinesOn(lines[..n], day)) + if lines[n].day == day then lines[n].micros else 0
      {
        var before := LinesOn(lines[..n], day);
        assert (before + [lines[n]])[..|before|] == before;
        assert before + [] == before;
      }
      TotalChanged(ProviderReal(lines[..n]), ProviderReal(lines), days, lines[n].day);
    }
  }

  lemma {:induction false} RowIsActive(rows: seq<Row>, k: nat)
    requires k < |rows|
    ensures RequestsOn(rows, DayStart(rows[k].at)) > 0
    decreases |rows|
  {
    if k < |rows| - 1 {
      RowIsActive(rows[..|rows| - 1], k);
    }
  }

  lemma {:induction false} LineIsActive(lines: seq<Line>, k: nat)
    requires k < |lines|
    ensures LinesOn(lines, lines[k].day) != []
    decreases |lines|
  {
    if k < |lines| - 1 {
      LineIsActive(lines[..|lines| - 1], k);
    }
  }

  lemma DaysCoverEverything(lines: seq<Line>, rows: seq<Row>, days: seq<int>)
    requires DaysListed(lines, rows, days)
    ensures Distinct(days)
    ensures forall k :: 0 <= k < |rows| ==> DayStart(rows[k].at) in days
    ensures forall k :: 0 <= k < |lines| ==> lines[k].day in days
  {
    hide LinesOn, RequestsOn, DayStart;
    forall k | 0 <= k < |rows| ensures DayStart(rows[k].at) in days {
      RowIsActive(rows, k);
    }
    forall k | 0 <= k < |lines| ensures lines[k].day in days {
      LineIsActive(lines, k);
    }
  }

  lemma {:induction false} EveryDayIsOneKind(lines: seq<Line>, rows: seq<Row>, days: seq<int>)
    requires forall k :: 0 <= k < |days| ==> Active(lines, rows, days[k])
    ensures |days| == Count(lines, rows, days, true, true) + Count(lines, rows, days, true, false)
                      + Count(lines, rows, days, false, true)
    decreases |days|
  {
    if days != [] {
      hide LinesOn, RequestsOn;
      EveryDayIsOneKind(lines, rows, days[..|days| - 1]);
    }
  }

  // ---------------------------------------------------------------- counting days

  function Common(days: seq<int>, keys: set<int>): seq<int> {
    if days == [] then []
    else Common(days[..|days| - 1], keys) + if days[|days| - 1] in keys then [days[|days| - 1]] else []
  }

  lemma {:induction false} CommonMeans(days: seq<int>, keys: set<int>)
    requires Distinct(days)
    ensures Distinct(Common(days, keys)) && forall d :: d in Common(days, keys) <==> d in days && d in keys
    decreases |days|
  {
    if days != [] {
      var n := |days| - 1;
      CommonMeans(days[..n], keys);
      assert days == days[..n] + [days[n]];
    }
  }

  /** Listing days once each, the days that are keys of a map are as many as its keys. */
  lemma CommonIsAll(days: seq<int>, order: seq<int>, keys: set<int>)
    requires Distinct(days) && Distinct(order)
    requires forall d :: d in order <==> d in keys
    requires forall d :: d in order ==> d in days
    ensures |Common(days, keys)| == |order|
  {
    hide Common;
    CommonMeans(days, keys);
    forall d ensures d in Common(days, keys) <==> d in order {
      assert d in order ==> d in days && d in keys;
    }
    SameElements(Common(days, keys), order);
    assert |Common(days, keys)| == |multiset(Common(days, keys))| == |multiset(order)| == |order|;
  }

  lemma {:induction false} ProviderDaysCounted(lines: seq<Line>, rows: seq<Row>, days: seq<int>, keys: set<int>)
    requires forall d :: d in keys <==> LinesOn(lines, d) != []
    ensures |Common(days, keys)| == Count(lines, rows, days, true, true) + Count(lines, rows, days, true, false)
    decreases |days|
  {
    if days != [] {
      hide LinesOn, RequestsOn;
      ProviderDaysCounted(lines, rows, days[..|days| - 1], keys);
    }
  }

  lemma {:induction false} LocalDaysCounted(lines: seq<Line>, rows: seq<Row>, days: seq<int>, keys: set<int>)
    requires forall d :: d in keys <==> RequestsOn(rows, d) > 0
    ensures |Common(days, keys)| == Count(lines, rows, days, true, true) + Count(lines, rows, days, false, true)
    decreases |days|
  {
    if days != [] {
      hide LinesOn, RequestsOn;
      LocalDaysCounted(lines, rows, days[..|days| - 1], keys);
    }
  }

  lemma MapSizes(lines: seq<Line>, rows: seq<Row>, days: seq<int>, t: ByDay, u: Table<int, Bucket>)
    requires LinesGrouped(lines, t) && RowsGrouped(rows, u) && DaysListed(lines, rows, days)
    ensures |t.order| == Count(lines, rows, days, true, true) + Count(lines, rows, days, true, false)
    ensures |u.order| == Count(lines, rows, days, true, true) + Count(lines, rows, days, false, true)
  {
    hide LinesOn, RequestsOn, Count, Common, LocalOn;
    ProviderDaysCounted(lines, rows, days, t.at.Keys);
    LocalDaysCounted(lines, rows, days, u.at.Keys);
    CommonIsAll(days, t.order, t.at.Keys);
    CommonIsAll(days, u.order, u.at.Keys);
  }

  // ---------------------------------------------------------------- the comparison

  /** The loop over days, n days in. */
  ghost predicate Compared(lines: seq<Line>, rows: seq<Row>, materiality: int, keys: seq<int>, n: nat,
                           days: seq<DayLine>,
                           provider: int, local: int, both: nat, providerOnly: nat, localOnly: nat, material: nat)
    requires n <= |keys|
  {
    && |days| == n && DaysOf(days) == keys[..n]
    && (forall k :: 0 <= k < n ==> days[k] == DayLineOf(lines, rows, materiality, keys[k]))
    && provider as real == Total(ProviderReal(lines), keys[..n]) && local as real == Total(LocalReal(rows), keys[..n])
    && both == Count(lines, rows, keys[..n], true, true) && providerOnly == Count(lines, rows, keys[..n], true, false)
    && localOnly == Count(lines, rows, keys[..n], false, true) && material == Material(days)
  }

  lemma ComparedStep(lines: seq<Line>, rows: seq<Row>, materiality: int, keys: seq<int>, n: nat, days: seq<DayLine>,
                     provider: int, local: int, both: nat, providerOnly: nat, localOnly: nat, material: nat, d: DayLine)
    requires n < |keys| && Active(lines, rows, keys[n])
    requires Compared(lines, rows, materiality, keys, n, days, provider, local, both, providerOnly, localOnly, material)
    requires d == DayLineOf(lines, rows, materiality, keys[n])
    ensures var p, l := LinesOn(lines, keys[n]) != [], RequestsOn(rows, keys[n]) > 0;
            Compared(lines, rows, materiality, keys, n + 1, days + [d], provider + d.provider, local + d.local,
                     both + (if p && l then 1 else 0), providerOnly + (if p && !l then 1 else 0),
                     localOnly + (if !p then 1 else 0), material + (if d.material then 1 else 0))
  {
    hide LinesOn, RequestsOn, LocalOn, SumLines, ResidualReason, Items;
    assert keys[..n + 1][..n] == keys[..n];
    assert (days + [d])[..n] == days;
  }

  method CompareDays(lines: seq<Line>, rows: seq<Row>, materiality: int, keys: seq<int>, t: ByDay,
                     u: Table<int, Bucket>)
    returns (days: seq<DayLine>, provider: int, local: int, both: nat, providerOnly: nat, localOnly: nat, material: nat)
    requires LinesGrouped(lines, t) && RowsGrouped(rows, u) && DaysListed(lines, rows, keys)
    ensures Compared(lines, rows, materiality, keys, |keys|, days, provider, local, both, providerOnly, localOnly,
                     material)
  {
    hide *;
    days, provider, local, both, providerOnly, localOnly, material := [], 0, 0, 0, 0, 0, 0;
    NothingCompared(lines, rows, materiality, keys);
    for n := 0 to |keys|
      invariant Compared(lines, rows, materiality, keys, n, days, provider, local, both, providerOnly, localOnly,
                         material)
    {
      var day := keys[n];
      LookUpDay(lines, rows, keys, t, u, n);
      var onDay := if day in t.at then t.at[day] else [];
      var bucket := if day in u.at then u.at[day] else Bucket(0, 0);
      var hasProvider, hasLocal := onDay != [], bucket.requests > 0;
      var reported := SumLines(onDay);
      var gap := reported - bucket.micros;
      var line := DayLine(day, reported, bucket.micros, bucket.requests,
                          ResidualReason(reported, bucket.micros, hasProvider, hasLocal),
                          gap > materiality || -gap > materiality, Items(onDay));
      LineIsDayLine(lines, rows, materiality, day, onDay, bucket);
      ComparedStep(lines, rows, materiality, keys, n, days, provider, local, both, providerOnly, localOnly, material,
                   line);
      provider, local := provider + reported, local + bucket.micros;
      if hasProvider && hasLocal {
        both := both + 1;
      } else if hasProvider {
        providerOnly := providerOnly + 1;
      } else {
        localOnly := localOnly + 1;
      }
      if line.material {
        material := material + 1;
      }
      days := days + [line];
    }
  }

  lemma NothingCompared(lines: seq<Line>, rows: seq<Row>, materiality: int, keys: seq<int>)
    ensures Compared(lines, rows, materiality, keys, 0, [], 0, 0, 0, 0, 0, 0)
  {
  }

  lemma LookUpDay(lines: seq<Line>, rows: seq<Row>, keys: seq<int>, t: ByDay, u: Table<int, Bucket>, n: nat)
    requires LinesGrouped(lines, t) && RowsGrouped(rows, u) && DaysListed(lines, rows, keys) && n < |keys|
    ensures Active(lines, rows, keys[n])
    ensures (if keys[n] in t.at then t.at[keys[n]] else []) == LinesOn(lines, keys[n])
    ensures (if keys[n] in u.at then u.at[keys[n]] else Bucket(0, 0))
            == Bucket(LocalOn(rows, keys[n]), RequestsOn(rows, keys[n]))
  {
    hide LinesOn, RequestsOn, LocalOn, Ok;
    assert keys[n] in keys;
  }

  lemma LineIsDayLine(lines: seq<Line>, rows: seq<Row>, materiality: int, day: int, onDay: seq<Line>, bucket: Bucket)
    requires onDay == LinesOn(lines, day) && bucket == Bucket(LocalOn(rows, day), RequestsOn(rows, day))
    ensures var gap := SumLines(onDay) - bucket.micros;
            DayLineOf(lines, rows, materiality, day)
            == DayLine(day, SumLines(onDay), bucket.micros, bucket.requests,
                       ResidualReason(SumLines(onDay), bucket.micros, onDay != [], bucket.requests > 0),
                       gap > materiality || -gap > materiality, Items(onDay))
  {
    hide LinesOn, RequestsOn, LocalOn, SumLines, ResidualReason, Items;
  }

  /** Refused before the rows are looked at, or for the first counted row that cannot be compared, or reported. */
  ghost predicate Concludes(run: Run, lines: seq<Line>, rows: seq<Row>, prunedBefore: Option<int>, materiality: int,
                            now: int, r: Result) {
    var early, problem := EarlyRefusal(run, lines, now), FirstProblem(Counted(run, rows));
    && (early.Some? ==> r == Refused(early.value))
    && (early == None && problem.Some? ==> r == Refused(problem.value))
    && (early == None && problem == None ==>
          Reports(lines, Counted(run, rows), Truncated(run, prunedBefore), materiality, r))
  }

  /** Compares one completed snapshot with the ledger rows it was handed. */
  method ReconcileOpenAiCosts(run: Run, lines: seq<Line>, rows: seq<Row>, prunedBefore: Option<int>, materiality: int,
                              now: int) returns (r: Result)
    ensures Concludes(run, lines, rows, prunedBefore, materiality, now, r)
  {
    hide *;
    var early := EarlyRefusal(run, lines, now);
    ConcludedBy(run, lines, rows, prunedBefore, materiality, now);
    if early.Some? {
      return Refused(early.value);
    }
    var t := GroupLines(lines);
    var problem, u := GroupRows(run, rows);
    if problem.Some? {
      return Refused(problem.value);
    }
    UnionListed(lines, Counted(run, rows), t, u);
    var keys := Sort(Earlier(), t.order + KeysNotIn(u.order, t));
    var days, provider, local, both, providerOnly, localOnly, material :=
      CompareDays(lines, Counted(run, rows), materiality, keys, t, u);
    r := Reconciled(provider, local, OffPathBound(provider, local, Truncated(run, prunedBefore)),
                    Coverage(|t.order|, |u.order|, both, providerOnly, localOnly, material), days);
    MapSizes(lines, Counted(run, rows), keys, t, u);
    Assembled(lines, Counted(run, rows), Truncated(run, prunedBefore), materiality, keys, r);
  }

  lemma ConcludedBy(run: Run, lines: seq<Line>, rows: seq<Row>, prunedBefore: Option<int>, materiality: int, now: int)
    ensures var early, problem := EarlyRefusal(run, lines, now), FirstProblem(Counted(run, rows));
            && (early.Some? ==> Concludes(run, lines, rows, prunedBefore, materiality, now, Refused(early.value)))
            && (early == None && problem.Some? ==>
                  Concludes(run, lines, rows, prunedBefore, materiality, now, Refused(problem.value)))
            && forall r :: early == None && problem == None
                           && Reports(lines, Counted(run, rows), Truncated(run, prunedBefore), materiality, r) ==>
                           Concludes(run, lines, rows, prunedBefore, materiality, now, r)
  {
    hide EarlyRefusal, FirstProblem, Counted, Reports;
  }

  lemma Assembled(lines: seq<Line>, rows: seq<Row>, truncated: bool, materiality: int, keys: seq<int>, r: Result)
    requires r.Reconciled? && DaysListed(lines, rows, keys)
    requires Compared(lines, rows, materiality, keys, |keys|, r.days, r.providerTotal, r.localTotal, r.coverage.both,
                      r.coverage.providerOnly, r.coverage.localOnly, r.coverage.material)
    requires r.bound == OffPathBound(r.providerTotal, r.localTotal, truncated)
    requires r.coverage.providerDays == Count(lines, rows, keys, true, true) + Count(lines, rows, keys, true, false)
    requires r.coverage.localDays == Count(lines, rows, keys, true, true) + Count(lines, rows, keys, false, true)
    ensures Reports(lines, rows, truncated, materiality, r)
  {
    hide Count, Material, LocalReal, ProviderReal, Total, LinesOn, RequestsOn, OffPathBound, DayLineOf, SumLines,
         LocalTotal;
    assert keys[..|keys|] == keys;
    DaysCoverEverything(lines, rows, keys);
    ProviderAddsUp(lines, keys);
    LocalAddsUp(rows, keys);
    EveryDayIsOneKind(lines, rows, keys);
    DaysInLines(lines, rows, materiality, keys, r.days);
  }

  lemma DaysInLines(lines: seq<Line>, rows: seq<Row>, materiality: int, keys: seq<int>, days: seq<DayLine>)
    requires DaysListed(lines, rows, keys) && |days| == |keys|
    requires forall k :: 0 <= k < |days| ==> days[k] == DayLineOf(lines, rows, materiality, keys[k])
    ensures forall k :: 0 <= k < |days| ==> days[k].day == keys[k]
    ensures forall day :: Active(lines, rows, day) <==> exists k :: 0 <= k < |days| && days[k].day == day
  {
    hide LinesOn, RequestsOn, SumLines, LocalOn, Active, ResidualReason, Items;
    forall day ensures Active(lines, rows, day) <==> exists k :: 0 <= k < |days| && days[k].day == day {
      if Active(lines, rows, day) {
        var k :| 0 <= k < |keys| && keys[k] == day;
        assert days[k].day == day;
      }
      if k: nat :| k < |days| && days[k].day == day {
        assert keys[k] in keys;
      }
    }
  }

  // ---------------------------------------------------------------- a report is determined

  lemma DaysAreListed(lines: seq<Line>, rows: seq<Row>, truncated: bool, materiality: int, r: Result)
    requires Reports(lines, rows, truncated, materiality, r)
    ensures DaysListed(lines, rows, DaysOf(r.days))
  {
    hide LinesOn, RequestsOn, DayLineOf, Count, Material;
    var days := DaysOf(r.days);
    forall day ensures day in days <==> Active(lines, rows, day) {
      if day in days {
        var k :| 0 <= k < |days| && days[k] == day;
        assert r.days[k].day == day;
      }
      if k: nat :| k < |r.days| && r.days[k].day == day {
        assert days[k] == day;
      }
    }
  }

  lemma SameListing(a: seq<int>, b: seq<int>)
    requires forall j, k :: 0 <= j < k < |a| ==> a[j] < a[k]
    requires forall j, k :: 0 <= j < k < |b| ==> b[j] < b[k]
    requires forall x :: x in a <==> x in b
    ensures a == b
  {
    forall x ensures x in a <==> x in b {
    }
    SameElements(a, b);
    assert Sorted(Earlier(), a) && Sorted(Earlier(), b) && NoTies(Earlier(), a);
    SortedUnique(Earlier(), a, b);
  }

  /** A snapshot, a set of rows and a truncation flag have one report. */
  lemma ReportIsDetermined(lines: seq<Line>, rows: seq<Row>, truncated: bool, materiality: int, r: Result, s: Result)
    requires Reports(lines, rows, truncated, materiality, r) && Reports(lines, rows, truncated, materiality, s)
    ensures r == s
  {
    hide LinesOn, RequestsOn, DayLineOf, Count, Material, Active, OffPathBound, SumLines, LocalTotal;
    DaysAreListed(lines, rows, truncated, materiality, r);
    DaysAreListed(lines, rows, truncated, materiality, s);
    SameListing(DaysOf(r.days), DaysOf(s.days));
    assert |r.days| == |DaysOf(r.days)| == |DaysOf(s.days)| == |s.days|;
    forall k | 0 <= k < |r.days| ensures r.days[k] == s.days[k] {
      assert DaysOf(r.days)[k] == DaysOf(s.days)[k];
    }
    assert r.days == s.days;
  }

  // ---------------------------------------------------------------- pruning

  /** What is left after deleting every row before the boundary. */
  function Survivors(rows: seq<Row>, before: int): seq<Row> {
    if rows == [] then []
    else Survivors(rows[..|rows| - 1], before) + if rows[|rows| - 1].at >= before then [rows[|rows| - 1]] else []
  }

  ghost predicate NonNegative(rows: seq<Row>) {
    forall k :: 0 <= k < |rows| ==> Captured(rows[k]) >= 0
  }

  lemma CountedPush(run: Run, rows: seq<Row>, row: Row)
    ensures Counted(run, rows + [row]) == Counted(run, rows) + if Counts(run, row) then [row] else []
  {
    assert (rows + [row])[..|rows|] == rows;
  }

  lemma LocalPush(rows: seq<Row>, row: Row)
    ensures LocalTotal(rows + [row]) == LocalTotal(rows) + Captured(row)
    ensures forall day ::
              LocalOn(rows + [row], day) == LocalOn(rows, day) + if DayStart(row.at) == day then Captured(row) else 0
    ensures forall day ::
              RequestsOn(rows + [row], day) == RequestsOn(rows, day) + if DayStart(row.at) == day then 1 else 0
  {
    assert (rows + [row])[..|rows|] == rows;
  }

  /** The rows a prune deletes. */
  function Deleted(rows: seq<Row>, before: int): seq<Row> {
    if rows == [] then []
    else Deleted(rows[..|rows| - 1], before) + if rows[|rows| - 1].at >= before then [] else [rows[|rows| - 1]]
  }

  /** The rows kept and the rows gone make up all rows, altogether and on a day. */
  ghost predicate SplitUp(kept: seq<Row>, gone: seq<Row>, all: seq<Row>, day: int) {
    && LocalTotal(all) == LocalTotal(kept) + LocalTotal(gone)
    && LocalOn(all, day) == LocalOn(kept, day) + LocalOn(gone, day)
    && RequestsOn(all, day) == RequestsOn(kept, day) + RequestsOn(gone, day)
  }

  lemma SplitUpPush(kept: seq<Row>, gone: seq<Row>, all: seq<Row>, day: int, row: Row)
    requires SplitUp(kept, gone, all, day)
    ensures SplitUp(kept + [row], gone, all + [row], day) && SplitUp(kept, gone + [row], all + [row], day)
  {
    LocalPush(kept, row);
    LocalPush(gone, row);
    LocalPush(all, row);
    hide LocalTotal, LocalOn, RequestsOn, Captured, DayStart;
  }

  lemma SurvivorsPush(rows: seq<Row>, row: Row, before: int)
    ensures Survivors(rows + [row], before) == Survivors(rows, before) + if row.at >= before then [row] else []
  {
    assert (rows + [row])[..|rows|] == rows;
  }

  lemma DeletedPush(rows: seq<Row>, row: Row, before: int)
    ensures Deleted(rows + [row], before) == Deleted(rows, before) + if row.at >= before then [] else [row]
  {
    assert (rows + [row])[..|rows|] == rows;
  }

  function Kept(run: Run, rows: seq<Row>, before: int): seq<Row> { Counted(run, Survivors(rows, before)) }

  function Gone(run: Run, rows: seq<Row>, before: int): seq<Row> { Counted(run, Deleted(rows, before)) }

  lemma KeptPush(run: Run, rows: seq<Row>, row: Row, before: int)
    ensures Kept(run, rows + [row], before)
         == Kept(run, rows, before) + if Counts(run, row) && row.at >= before then [row] else []
    ensures Gone(run, rows + [row], before)
         == Gone(run, rows, before) + if Counts(run, row) && row.at < before then [row] else []
  {
    hide Counted, Survivors, Deleted, Counts;
    SurvivorsPush(rows, row, before);
    DeletedPush(rows, row, before);
    CountedPush(run, Survivors(rows, before), row);
    CountedPush(run, Deleted(rows, before), row);
    assert Survivors(rows, before) + [] == Survivors(rows, before);
    assert Deleted(rows, before) + [] == Deleted(rows, before);
    assert Kept(run, rows, before) + [] == Kept(run, rows, before);
    assert Gone(run, rows, before) + [] == Gone(run, rows, before);
  }

  lemma NothingKept(run: Run, before: int, day: int)
    ensures Kept(run, [], before) == [] && Gone(run, [], before) == [] && Counted(run, []) == []
    ensures SplitUp([], [], [], day) && LocalTotal([]) == 0 && LocalOn([], day) == 0 && FirstProblem([]) == None
  {
  }

  /** What a prune takes from a total, and from a day, is what the deleted counted rows add up to. */
  lemma {:induction false} PruningSplitsTotals(run: Run, rows: seq<Row>, before: int, day: int)
    ensures SplitUp(Kept(run, rows, before), Gone(run, rows, before), Counted(run, rows), day)
    decreases |rows|
  {
    hide *;
    if rows == [] {
      NothingKept(run, before, day);
    } else {
      var n := |rows| - 1;
      var init, row := rows[..n], rows[n];
      var kept, gone := Kept(run, init, before), Gone(run, init, before);
      assert rows == init + [row];
      PruningSplitsTotals(run, init, before, day);
      KeptPush(run, init, row, before);
      CountedPush(run, init, row);
      SplitUpPush(kept, gone, Counted(run, init), day, row);
      assert kept + [] == kept && gone + [] == gone && Counted(run, init) + [] == Counted(run, init);
    }
  }

  lemma NonNegativeParts(rows: seq<Row>)
    requires rows != [] && NonNegative(rows)
    ensures NonNegative(rows[..|rows| - 1]) && Captured(rows[|rows| - 1]) >= 0
  {
    hide Captured;
  }

  lemma {:induction false} NothingNegative(run: Run, rows: seq<Row>, before: int, day: int)
    requires NonNegative(rows)
    ensures LocalTotal(Gone(run, rows, before)) >= 0 && LocalOn(Gone(run, rows, before), day) >= 0
    decreases |rows|
  {
    hide *;
    if rows == [] {
      NothingKept(run, before, day);
    } else {
      var n := |rows| - 1;
      var init, row := rows[..n], rows[n];
      NonNegativeParts(rows);
      assert rows == init + [row];
      NothingNegative(run, init, before, day);
      KeptPush(run, init, row, before);
      LocalPush(Gone(run, init, before), row);
      assert Gone(run, init, before) + [] == Gone(run, init, before);
    }
  }

  /** Deleting rows that are not negative can only lower a total, on any day and altogether. */
  lemma PruningLowersTotals(run: Run, rows: seq<Row>, before: int, day: int)
    requires NonNegative(rows)
    ensures LocalTotal(Kept(run, rows, before)) <= LocalTotal(Counted(run, rows))
    ensures LocalOn(Kept(run, rows, before), day) <= LocalOn(Counted(run, rows), day)
  {
    hide Kept, Gone, Counted, LocalTotal, LocalOn, RequestsOn;
    PruningSplitsTotals(run, rows, before, day);
    NothingNegative(run, rows, before, day);
  }

  /** A boundary at or before the period start deletes nothing that counts. */
  lemma {:induction false} EarlyBoundaryDeletesNothing(run: Run, rows: seq<Row>, before: int)
    requires before <= run.periodStart
    ensures Kept(run, rows, before) == Counted(run, rows)
    decreases |rows|
  {
    if rows != [] {
      var n := |rows| - 1;
      EarlyBoundaryDeletesNothing(run, rows[..n], before);
      assert rows == rows[..n] + [rows[n]];
      CountedPush(run, rows[..n], rows[n]);
      CountedPush(run, Survivors(rows[..n], before), rows[n]);
      assert Survivors(rows[..n], before) + [] == Survivors(rows[..n], before);
      hide Survivors, Counted;
    }
  }

  ghost predicate Lists(days: seq<DayLine>, day: int) { exists k :: 0 <= k < |days| && days[k].day == day }

  /** Pruning can hide a refutation but not make one, as long as it does not delete more credit than
      charge: if the surviving rows exceed what the provider reported, so does the full ledger. */
  lemma RefutationSurvivesPruning(run: Run, lines: seq<Line>, rows: seq<Row>, before: int, materiality: int,
                                  pruned: Result, full: Result, flags: (bool, bool))
    requires Reports(lines, Kept(run, rows, before), flags.0, materiality, pruned)
    requires Reports(lines, Counted(run, rows), flags.1, materiality, full)
    ensures LocalTotal(Gone(run, rows, before)) >= 0 && pruned.bound == NoneLocalExceeds ==>
              full.bound == NoneLocalExceeds
    ensures forall j, k :: 0 <= j < |pruned.days| && 0 <= k < |full.days| && pruned.days[j].day == full.days[k].day ==>
              LocalOn(Gone(run, rows, before), full.days[k].day) >= 0 && pruned.days[j].reason == LocalExceeds ==>
                full.days[k].reason == LocalExceeds
    ensures forall j :: 0 <= j < |pruned.days| ==> Lists(full.days, pruned.days[j].day)
  {
    hide Counted, Kept, Gone, LocalOn, LocalTotal, LinesOn, RequestsOn, SumLines, Items, Count, Material;
    PruningSplitsTotals(run, rows, before, 0);
    forall j, k | 0 <= j < |pruned.days| && 0 <= k < |full.days| && pruned.days[j].day == full.days[k].day
                  && LocalOn(Gone(run, rows, before), full.days[k].day) >= 0 && pruned.days[j].reason == LocalExceeds
      ensures full.days[k].reason == LocalExceeds
    {
      PruningSplitsTotals(run, rows, before, full.days[k].day);
    }
    forall j | 0 <= j < |pruned.days| ensures Lists(full.days, pruned.days[j].day) {
      PruningSplitsTotals(run, rows, before, pruned.days[j].day);
      assert Active(lines, Kept(run, rows, before), pruned.days[j].day);
      assert Active(lines, Counted(run, rows), pruned.days[j].day);
    }
  }

  /** The verdict that more was captured than the provider reported, altogether. */
  predicate TotalRefuted(lines: seq<Line>, rows: seq<Row>, truncated: bool) {
    OffPathBound(SumLines(lines), LocalTotal(rows), truncated) == NoneLocalExceeds
  }

  predicate DayRefuted(lines: seq<Line>, rows: seq<Row>, materiality: int, day: int) {
    DayLineOf(lines, rows, materiality, day).reason == LocalExceeds
  }

  lemma OneLine(day: int, micros: int)
    ensures var lines := [Line(day, micros, "USD", "")];
            LinesOn(lines, day) == lines && SumLines(lines) == micros
  {
    var lines := [Line(day, micros, "USD", "")];
    assert lines[..0] == [];
  }

  /** The exact condition: for every provider snapshot the pruned verdict implies the full one if and
      only if the deleted counted rows do not add up to a credit. */
  lemma TotalVerdictSurvivesExactly(run: Run, rows: seq<Row>, before: int, flags: (bool, bool))
    ensures LocalTotal(Gone(run, rows, before)) >= 0
       <==> forall lines :: TotalRefuted(lines, Kept(run, rows, before), flags.0) ==>
                              TotalRefuted(lines, Counted(run, rows), flags.1)
  {
    hide Counted, Kept, Gone, LocalTotal, SumLines, LinesOn, LocalOn, RequestsOn;
    PruningSplitsTotals(run, rows, before, 0);
    var tight := LocalTotal(Kept(run, rows, before)) - 1;
    OneLine(0, tight);
    assert TotalRefuted([Line(0, tight, "USD", "")], Kept(run, rows, before), flags.0);
  }

  /** And on a day that keeps a row, if and only if those of that day do not. */
  lemma DayVerdictSurvivesExactly(run: Run, rows: seq<Row>, before: int, materiality: int, day: int)
    requires RequestsOn(Kept(run, rows, before), day) > 0
    ensures LocalOn(Gone(run, rows, before), day) >= 0
       <==> forall lines :: DayRefuted(lines, Kept(run, rows, before), materiality, day) ==>
                              DayRefuted(lines, Counted(run, rows), materiality, day)
  {
    hide Counted, Kept, Gone, LocalTotal, SumLines, LinesOn, LocalOn, RequestsOn, Items;
    PruningSplitsTotals(run, rows, before, day);
    var tight := LocalOn(Kept(run, rows, before), day) - 1;
    OneLine(day, tight);
    assert DayRefuted([Line(day, tight, "USD", "")], Kept(run, rows, before), materiality, day);
  }

  /** An upper bound is reported only when no counted row can have been deleted. */
  lemma UpperBoundMeansUntouched(run: Run, lines: seq<Line>, rows: seq<Row>, before: int, materiality: int, r: Result)
    requires Reports(lines, Kept(run, rows, before), Truncated(run, Some(before)), materiality, r)
    requires r.bound == UpperBoundConditional
    ensures before <= run.periodStart && Kept(run, rows, before) == Counted(run, rows)
  {
    hide Counted, Survivors, Active, DayLineOf, Count, Material;
    EarlyBoundaryDeletesNothing(run, rows, before);
  }

  /** A boundary at or before the period start changes nothing: the pruned ledger with that boundary
      on record gives the report of the full ledger with no prune on record. */
  lemma EarlyBoundaryChangesNothing(run: Run, lines: seq<Line>, rows: seq<Row>, before: int, materiality: int,
                                    pruned: Result, full: Result)
    requires before <= run.periodStart
    requires Reports(lines, Kept(run, rows, before), Truncated(run, Some(before)), materiality, pruned)
    requires Reports(lines, Counted(run, rows), Truncated(run, None), materiality, full)
    ensures pruned == full
    ensures FirstProblem(Kept(run, rows, before)) == FirstProblem(Counted(run, rows))
  {
    hide Counted, Survivors, Reports, FirstProblem;
    EarlyBoundaryDeletesNothing(run, rows, before);
    ReportIsDetermined(lines, Counted(run, rows), false, materiality, pruned, full);
  }

  // ---------------------------------------------------------------- refusals and pruning

  /** A counted row that refuses the run. */
  predicate Refuses(run: Run, row: Row) { Counts(run, row) && Problem(row).Some? }

  lemma ProblemPush(rows: seq<Row>, row: Row, added: bool)
    ensures FirstProblem(rows + if added then [row] else []).Some?
       <==> FirstProblem(rows).Some? || (added && Problem(row).Some?)
  {
    assert (rows + [row])[..|rows|] == rows;
    assert rows + [] == rows;
  }

  ghost predicate SomeRefuses(run: Run, rows: seq<Row>) {
    exists k :: 0 <= k < |rows| && Refuses(run, rows[k])
  }

  ghost predicate SomeLeftRefuses(run: Run, rows: seq<Row>, before: int) {
    exists k :: 0 <= k < |rows| && Refuses(run, rows[k]) && rows[k].at >= before
  }

  lemma SomePush(run: Run, rows: seq<Row>, row: Row, before: int)
    ensures SomeRefuses(run, rows + [row]) <==> SomeRefuses(run, rows) || Refuses(run, row)
    ensures SomeLeftRefuses(run, rows + [row], before)
       <==> SomeLeftRefuses(run, rows, before) || (Refuses(run, row) && row.at >= before)
  {
    hide Refuses;
    var longer := rows + [row];
    assert longer[|rows|] == row;
    assert forall k :: 0 <= k < |rows| ==> longer[k] == rows[k];
  }

  /** The refusals of the rows and of those left are told by the rows themselves. */
  ghost predicate Told(run: Run, rows: seq<Row>, before: int) {
    && (FirstProblem(Counted(run, rows)).Some? <==> SomeRefuses(run, rows))
    && (FirstProblem(Kept(run, rows, before)).Some? <==> SomeLeftRefuses(run, rows, before))
  }

  lemma ToldPush(run: Run, rows: seq<Row>, row: Row, before: int)
    requires Told(run, rows, before)
    ensures Told(run, rows + [row], before)
  {
    hide FirstProblem, Counted, Kept, Counts, Problem, SomeRefuses, SomeLeftRefuses;
    SomePush(run, rows, row, before);
    CountedPush(run, rows, row);
    KeptPush(run, rows, row, before);
    ProblemPush(Counted(run, rows), row, Counts(run, row));
    ProblemPush(Kept(run, rows, before), row, Counts(run, row) && row.at >= before);
  }

  lemma NoneRefuses(run: Run, before: int)
    ensures !SomeRefuses(run, []) && !SomeLeftRefuses(run, [], before)
    ensures FirstProblem(Counted(run, [])) == None && FirstProblem(Kept(run, [], before)) == None
  {
  }

  lemma NothingTold(run: Run, before: int)
    ensures Told(run, [], before)
  {
    hide FirstProblem, Counted, Kept, SomeRefuses, SomeLeftRefuses;
    NoneRefuses(run, before);
  }

  lemma {:induction false} RefusedMeans(run: Run, rows: seq<Row>, before: int)
    ensures Told(run, rows, before)
    decreases |rows|
  {
    hide *;
    if rows == [] {
      NothingTold(run, before);
    } else {
      var n := |rows| - 1;
      RefusedMeans(run, rows[..n], before);
      assert rows == rows[..n] + [rows[n]];
      ToldPush(run, rows[..n], rows[n], before);
    }
  }

  /** The full ledger must reconcile at all. Pruning never refuses a run that was not refused, and it
      lifts a refusal exactly when every row that refuses the run is deleted. */
  lemma PruningLiftsExactly(run: Run, rows: seq<Row>, before: int)
    ensures FirstProblem(Counted(run, rows)) == None ==> FirstProblem(Kept(run, rows, before)) == None
    ensures FirstProblem(Counted(run, rows)).Some? ==>
              (FirstProblem(Kept(run, rows, before)) == None
               <==> forall k :: 0 <= k < |rows| && Refuses(run, rows[k]) ==> rows[k].at < before)
  {
    hide FirstProblem, Counted, Kept, Refuses;
    RefusedMeans(run, rows, before);
  }
}
