/** Reports of a study through its inference ledger. */
module StudyReports {
  // Every report is recorded before the claim is allowed or withheld. What a committed protocol fixes is
  // a `Study`.

  import opened Money
  import opened DigestChain
  import opened InferenceLedger
  import opened Text

  const DEFAULT_SLICE := "slice:registered_population"
  const ALPHA_TOLERANCE := 0.000000001

  /** `overallAlpha` is the error rate the registered joint rule pays for in one look. */
  datatype Study = Study(studyId: string, protocolHash: string, estimandId: Option<string>, family: Family,
                         overallAlpha: real)

  /** Everything the evidence digest covers; `qualified` is the qualification state. */
  datatype Evidence = Evidence(qualified: bool, contents: string)

  type EvidenceDigest = Evidence -> string

  /** One call of the reporting function. `supported` is the single-look conclusion. */
  datatype Report = Report(evidence: Evidence, slice: Option<string>, includedUnits: nat, supported: bool,
                           reportedAtMs: int)

  function FamilyEndpoints(f: Family): seq<Endpoint> {
    match f
    case CostQuality => [Cost, Quality]
    case NetBenefitFamily => [NetBenefit]
  }

  function EndpointAlpha(s: Study): real { s.overallAlpha / |FamilyEndpoints(s.family)| as real }

  /** The estimator supports a claim only on a qualified study (estimate.ts:179). */
  predicate ReportOk(r: Report) { r.supported ==> r.evidence.qualified }

  function RequestFor(s: Study, e: EvidenceDigest, r: Report, endpoint: Endpoint): Request {
    Request(endpoint, if r.slice.Some? then r.slice.value else DEFAULT_SLICE, e(r.evidence), s.estimandId,
            r.includedUnits, if r.evidence.qualified then IntervalReport else NonEstimatingRead,
            EndpointAlpha(s), r.reportedAtMs)
  }

  function Requests(s: Study, e: EvidenceDigest, r: Report): seq<Request> {
    seq(|FamilyEndpoints(s.family)|,
        i requires 0 <= i < |FamilyEndpoints(s.family)| => RequestFor(s, e, r, FamilyEndpoints(s.family)[i]))
  }

  /** The ledger a report leaves; a blank slice name is refused and records nothing. */
  function Reported(h: Digest<ActBody>, e: EvidenceDigest, s: Study, l: Ledger, r: Report): Ledger {
    var requests := Requests(s, e, r);
    if SlicesNamed(requests) then RecordAll(h, l, LastLook(l.acts) + 1, requests) else l
  }

  function AfterReports(h: Digest<ActBody>, e: EvidenceDigest, s: Study, l: Ledger, reports: seq<Report>): Ledger
    decreases |reports|
  {
    if reports == [] then l
    else Reported(h, e, s, AfterReports(h, e, s, l, reports[..|reports| - 1]), reports[|reports| - 1])
  }

  // ---------------------------------------------------------------- the summary

  function PlannedActs(p: Plan): nat { p.maxLooks * p.endpointsPerLook * |p.sliceIds| }

  /** The nominal error of the most recent act that reported an interval. */
  function LatestAlpha(acts: seq<Act>): Option<real> {
    if acts == [] then None
    else
      var last := acts[|acts| - 1].body.request;
      if last.kind == IntervalReport then Some(last.actAlpha) else LatestAlpha(acts[..|acts| - 1])
  }

  function TotalAlpha(acts: seq<Act>): real {
    if acts == [] then 0.0 else TotalAlpha(acts[..|acts| - 1]) + acts[|acts| - 1].body.request.actAlpha
  }

  predicate SlicesRegistered(acts: seq<Act>, p: Plan) {
    forall i :: 0 <= i < |acts| ==> acts[i].body.request.sliceId in p.sliceIds
  }

  predicate ActsExceedPlan(acts: seq<Act>, p: Plan) {
    || |Budgeted(acts)| > PlannedActs(p)
    || LastLook(acts) > p.maxLooks
    || !SlicesRegistered(acts, p)
  }

  /** The error a plan leaves for each of its acts, with the declared tolerance. */
  function ActShare(p: Plan): real
    requires PlannedActs(p) > 0
  {
    p.target / PlannedActs(p) as real * (1.0 + ALPHA_TOLERANCE)
  }

  predicate AlphaMeetsPlan(acts: seq<Act>, p: Plan)
    requires PlannedActs(p) > 0
  {
    var alpha := LatestAlpha(acts);
    alpha.Some? && alpha.value <= ActShare(p)
  }

  predicate CoveredByPlan(l: Ledger) {
    l.plan.Some? && PlannedActs(l.plan.value) > 0
    && !ActsExceedPlan(l.acts, l.plan.value) && AlphaMeetsPlan(l.acts, l.plan.value)
  }

  /** A supported single-look claim survives the looks taken so far. */
  ghost predicate Stands(h: Digest<ActBody>, s: Study, l: Ledger) {
    ChainIntact(h, l) && (CoveredByPlan(l) || |Budgeted(l.acts)| <= |FamilyEndpoints(s.family)|)
  }

  // ---------------------------------------------------------------- what every run keeps

  /** An act a report of this study made from some evidence. */
  ghost predicate FromReport(s: Study, e: EvidenceDigest, a: Act) {
    && a.body.request.actAlpha == EndpointAlpha(s)
    && exists v: Evidence :: e(v) == a.body.request.evidenceDigest
        && (a.body.request.kind == IntervalReport <==> v.qualified)
  }

  ghost predicate Account(h: Digest<ActBody>, e: EvidenceDigest, s: Study, l: Ledger) {
    && ChainIntact(h, l)
    && NoveltyOk(l.acts)
    && forall i :: 0 <= i < |l.acts| ==> FromReport(s, e, l.acts[i])
  }

  ghost predicate RequestOk(s: Study, e: EvidenceDigest, r: Request) {
    && r.actAlpha == EndpointAlpha(s)
    && exists v: Evidence :: e(v) == r.evidenceDigest && (r.kind == IntervalReport <==> v.qualified)
  }

  lemma RecordOneKeepsAccount(h: Digest<ActBody>, e: EvidenceDigest, s: Study, l: Ledger, look: nat, r: Request)
    requires Account(h, e, s, l) && RequestOk(s, e, r)
    ensures Account(h, e, s, RecordOne(h, l, look, r))
  {
    hide ChainIntact, NoveltyOk;
    RecordOneKeepsChain(h, l, look, r);
    RecordOneKeepsNovelty(h, l, look, r);
  }

  lemma RecordOneKeepsNovelty(h: Digest<ActBody>, l: Ledger, look: nat, r: Request)
    requires NoveltyOk(l.acts)
    ensures NoveltyOk(RecordOne(h, l, look, r).acts)
  {
    hide SeenKey;
    var acts := RecordOne(h, l, look, r).acts;
    assert acts[..|l.acts|] == l.acts;
    assert forall i :: 0 <= i < |l.acts| ==> acts[i] == l.acts[i] && acts[..i] == l.acts[..i];
  }

  lemma {:induction false} RecordAllKeepsAccount(
    h: Digest<ActBody>, e: EvidenceDigest, s: Study, l: Ledger, look: nat, requests: seq<Request>)
    requires Account(h, e, s, l) && forall i :: 0 <= i < |requests| ==> RequestOk(s, e, requests[i])
    ensures Account(h, e, s, RecordAll(h, l, look, requests))
    decreases |requests|
  {
    hide Account, RequestOk;
    if requests != [] {
      var n := |requests| - 1;
      RecordAllKeepsAccount(h, e, s, l, look, requests[..n]);
      RecordOneKeepsAccount(h, e, s, RecordAll(h, l, look, requests[..n]), look, requests[n]);
    }
  }

  lemma RequestsOk(s: Study, e: EvidenceDigest, r: Report)
    ensures forall i :: 0 <= i < |Requests(s, e, r)| ==> RequestOk(s, e, Requests(s, e, r)[i])
  {
    forall i | 0 <= i < |Requests(s, e, r)| ensures RequestOk(s, e, Requests(s, e, r)[i]) {
      assert e(r.evidence) == Requests(s, e, r)[i].evidenceDigest;
    }
  }

  /** A ledger just opened meets all of it. */
  lemma OpenedKeepsAccount(h: Digest<ActBody>, e: EvidenceDigest, s: Study,
                           genesis: (string, string, Option<Plan>) -> string, plan: Option<Plan>)
    ensures Account(h, e, s, OpenLedger(genesis, s.studyId, s.protocolHash, plan))
  {
    EmptyIsIntact(h, OpenLedger(genesis, s.studyId, s.protocolHash, plan));
  }

  /** Any sequence of reports keeps the chain, the novelty marks, one act rate, and acts that say
      what their evidence was. */
  lemma {:induction false} ReportsKeepAccount(
    h: Digest<ActBody>, e: EvidenceDigest, s: Study, l: Ledger, reports: seq<Report>)
    requires Account(h, e, s, l)
    ensures Account(h, e, s, AfterReports(h, e, s, l, reports))
    decreases |reports|
  {
    hide Account, RequestOk, RecordAll, Requests;
    if reports != [] {
      var n := |reports| - 1;
      ReportsKeepAccount(h, e, s, l, reports[..n]);
      var before := AfterReports(h, e, s, l, reports[..n]);
      RequestsOk(s, e, reports[n]);
      RecordAllKeepsAccount(h, e, s, before, LastLook(before.acts) + 1, Requests(s, e, reports[n]));
    }
  }

  /** Over any sequence of reports on one ledger, the acts in the error budget are as many as the
      distinct keys that reported an interval -- or two pieces of evidence in different states
      have been exhibited that share a digest. */
  lemma BudgetOverReports(h: Digest<ActBody>, e: EvidenceDigest, s: Study, l: Ledger, reports: seq<Report>)
    returns (collision: Option<(Evidence, Evidence)>)
    requires Account(h, e, s, l)
    ensures collision == None ==>
              var acts := AfterReports(h, e, s, l, reports).acts; |Budgeted(acts)| == |IntervalKeys(acts)|
    ensures collision.Some? ==>
              && e(collision.value.0) == e(collision.value.1)
              && collision.value.0.qualified && !collision.value.1.qualified
  {
    hide AfterReports, ReportedFromTheFirst, IntervalKeys, Budgeted;
    ReportsKeepAccount(h, e, s, l, reports);
    var after := AfterReports(h, e, s, l, reports);
    BudgetIsDistinctKeys(after.acts);
    if ReportedFromTheFirst(after.acts) {
      return None;
    }
    var v, w := CollidingEvidence(h, e, s, after);
    return Some((v, w));
  }

  lemma CollidingEvidence(h: Digest<ActBody>, e: EvidenceDigest, s: Study, l: Ledger) returns (v: Evidence, w: Evidence)
    requires Account(h, e, s, l) && !ReportedFromTheFirst(l.acts)
    ensures e(v) == e(w) && v.qualified && !w.qualified
  {
    hide ChainIntact;
    var acts := l.acts;
    var i :| 0 <= i < |acts| && acts[i].body.request.kind == IntervalReport
        && ActKey(acts[i]) !in FirstIntervalKeys(acts);
    var j := FirstWithKey(acts, i);
    v :| e(v) == acts[i].body.request.evidenceDigest && v.qualified;
    w :| e(w) == acts[j].body.request.evidenceDigest && !w.qualified;
  }

  lemma {:induction false} FirstWithKey(acts: seq<Act>, i: nat) returns (j: nat)
    requires i < |acts|
    ensures j <= i && ActKey(acts[j]) == ActKey(acts[i]) && !SeenKey(acts[..j], ActKey(acts[i]))
    decreases i
  {
    if !SeenKey(acts[..i], ActKey(acts[i])) {
      return i;
    }
    var k: nat :| k < |acts[..i]| && ActKey(acts[..i][k]) == ActKey(acts[i]);
    j := FirstWithKey(acts, k);
  }

  // ---------------------------------------------------------------- what a standing claim has paid

  ghost predicate OneRate(acts: seq<Act>, alpha: real) {
    forall i :: 0 <= i < |acts| ==> acts[i].body.request.actAlpha == alpha
  }

  lemma {:induction false} BudgetedAtOneRate(acts: seq<Act>, alpha: real)
    requires OneRate(acts, alpha)
    ensures OneRate(Budgeted(acts), alpha)
    decreases |acts|
  {
    if acts != [] {
      BudgetedAtOneRate(acts[..|acts| - 1], alpha);
    }
  }

  /** Acts of no more than this error each. */
  ghost predicate EachWithin(acts: seq<Act>, alpha: real) {
    forall i :: 0 <= i < |acts| ==> acts[i].body.request.actAlpha <= alpha
  }

  lemma {:induction false} TotalWithin(acts: seq<Act>, alpha: real)
    requires EachWithin(acts, alpha)
    ensures TotalAlpha(acts) <= |acts| as real * alpha
    decreases |acts|
  {
    if acts != [] {
      var n := |acts| - 1;
      TotalWithin(acts[..n], alpha);
      OneMore(n, alpha);
    }
  }

  lemma {:induction false} LatestAtOneRate(acts: seq<Act>, alpha: real)
    requires OneRate(acts, alpha)
    ensures LatestAlpha(acts).Some? ==> LatestAlpha(acts).value == alpha
    decreases |acts|
  {
    if acts != [] {
      LatestAtOneRate(acts[..|acts| - 1], alpha);
    }
  }

  lemma OneMore(n: nat, alpha: real)
    ensures (n + 1) as real * alpha == n as real * alpha + alpha
  {
  }

  lemma SharesOfTarget(spent: nat, planned: nat, target: real, share: real)
    requires spent <= planned && 0 < planned && share == target / planned as real * (1.0 + ALPHA_TOLERANCE)
    requires share >= 0.0
    ensures spent as real * share <= target * (1.0 + ALPHA_TOLERANCE)
  {
    var each := target / planned as real;
    assert planned as real * each == target;
    assert spent as real * share <= planned as real * share;
    assert planned as real * share == planned as real * (each * (1.0 + ALPHA_TOLERANCE));
  }

  lemma ShareOfFamily(spent: nat, family: nat, overall: real)
    requires spent <= family && 0 < family && 0.0 <= overall
    ensures spent as real * (overall / family as real) <= overall
  {
    var share := overall / family as real;
    assert family as real * share == overall;
    assert spent as real * share <= family as real * share;
  }

  /** A claim covered by its plan has spent, over every act recorded in whatever way, at most the
      plan's target if every budgeted act, and not just the latest, meets the plan's share. */
  lemma CoveredClaimIsPaidFor(l: Ledger)
    requires CoveredByPlan(l) && l.plan.value.target > 0.0
    requires EachWithin(Budgeted(l.acts), ActShare(l.plan.value))
    ensures TotalAlpha(Budgeted(l.acts)) <= l.plan.value.target * (1.0 + ALPHA_TOLERANCE)
  {
    hide Budgeted, SlicesRegistered;
    var p := l.plan.value;
    TotalWithin(Budgeted(l.acts), ActShare(p));
    ShareIsPositive(p.target, PlannedActs(p));
    SharesOfTarget(|Budgeted(l.acts)|, PlannedActs(p), p.target, ActShare(p));
  }

  lemma ShareIsPositive(target: real, planned: nat)
    requires target > 0.0 && planned > 0
    ensures target / planned as real * (1.0 + ALPHA_TOLERANCE) >= 0.0
  {
    assert target / planned as real >= 0.0;
  }

  /** A claim that stands has spent, over every act recorded, at most the target of its plan if the
      plan covers it, and else at most the error the protocol registered for one look. */
  lemma StandingClaimIsPaidFor(h: Digest<ActBody>, e: EvidenceDigest, s: Study, l: Ledger)
    requires Account(h, e, s, l) && Stands(h, s, l) && s.overallAlpha >= 0.0
    requires l.plan.Some? ==> l.plan.value.target > 0.0
    ensures if CoveredByPlan(l) then TotalAlpha(Budgeted(l.acts)) <= l.plan.value.target * (1.0 + ALPHA_TOLERANCE)
            else TotalAlpha(Budgeted(l.acts)) <= s.overallAlpha
  {
    hide ChainIntact, NoveltyOk, ActsExceedPlan;
    BudgetedAtOneRate(l.acts, EndpointAlpha(s));
    LatestAtOneRate(l.acts, EndpointAlpha(s));
    if CoveredByPlan(l) {
      CoveredClaimIsPaidFor(l);
    } else {
      TotalWithin(Budgeted(l.acts), EndpointAlpha(s));
      ShareOfFamily(|Budgeted(l.acts)|, |FamilyEndpoints(s.family)|, s.overallAlpha);
    }
  }

  lemma EmptyIsIntact(h: Digest<ActBody>, l: Ledger)
    requires l.acts == [] && l.genesisDigest == l.ledgerDigest
    ensures ChainIntact(h, l)
  {
  }

  // ---------------------------------------------------------------- which rates a plan can afford

  /** The ledger after any looks recorded directly; a look with a blank slice is refused. */
  function AfterLooks(h: Digest<ActBody>, l: Ledger, looks: seq<seq<Request>>): Ledger
    decreases |looks|
  {
    if looks == [] then l
    else
      var before := AfterLooks(h, l, looks[..|looks| - 1]);
      var requests := looks[|looks| - 1];
      if SlicesNamed(requests) then RecordAll(h, before, LastLook(before.acts) + 1, requests) else before
  }

  /** Every request made is at a positive rate of at most r. */
  ghost predicate RatesUpTo(looks: seq<seq<Request>>, r: real) {
    forall i, k :: 0 <= i < |looks| && 0 <= k < |looks[i]| ==> 0.0 < looks[i][k].actAlpha <= r
  }

  ghost predicate NoSliceNamed(p: Plan) {
    forall i :: 0 <= i < |p.sliceIds| ==> Blank(p.sliceIds[i])
  }

  /** What holds of every act recorded: its rate is within the bound and its slice is named. */
  ghost predicate Recordings(acts: seq<Act>, r: real) {
    forall i :: 0 <= i < |acts| ==>
      acts[i].body.request.actAlpha <= r && !Blank(acts[i].body.request.sliceId)
  }

  lemma {:induction false} RecordAllKeepsRecordings(
    h: Digest<ActBody>, l: Ledger, look: nat, requests: seq<Request>, r: real)
    requires Recordings(l.acts, r) && SlicesNamed(requests)
    requires forall k :: 0 <= k < |requests| ==> requests[k].actAlpha <= r
    ensures Recordings(RecordAll(h, l, look, requests).acts, r)
    ensures RecordAll(h, l, look, requests).plan == l.plan
    decreases |requests|
  {
    if requests != [] {
      RecordAllKeepsRecordings(h, l, look, requests[..|requests| - 1], r);
    }
  }

  lemma {:induction false} LooksKeepRecordings(h: Digest<ActBody>, l: Ledger, looks: seq<seq<Request>>, r: real)
    requires Recordings(l.acts, r) && RatesUpTo(looks, r)
    ensures Recordings(AfterLooks(h, l, looks).acts, r) && AfterLooks(h, l, looks).plan == l.plan
    decreases |looks|
  {
    hide RecordAll, Recordings;
    if looks != [] {
      var n := |looks| - 1;
      LooksKeepRecordings(h, l, looks[..n], r);
      var before := AfterLooks(h, l, looks[..n]);
      if SlicesNamed(looks[n]) {
        RecordAllKeepsRecordings(h, before, LastLook(before.acts) + 1, looks[n], r);
      }
    }
  }

  lemma {:induction false} RecordAllKeepsChain(h: Digest<ActBody>, l: Ledger, look: nat, requests: seq<Request>)
    requires ChainIntact(h, l)
    ensures ChainIntact(h, RecordAll(h, l, look, requests))
    decreases |requests|
  {
    hide ChainIntact;
    if requests != [] {
      var n := |requests| - 1;
      RecordAllKeepsChain(h, l, look, requests[..n]);
      RecordOneKeepsChain(h, RecordAll(h, l, look, requests[..n]), look, requests[n]);
    }
  }

  lemma {:induction false} BudgetedWithin(acts: seq<Act>, r: real)
    requires Recordings(acts, r)
    ensures EachWithin(Budgeted(acts), r)
    decreases |acts|
  {
    if acts != [] {
      BudgetedWithin(acts[..|acts| - 1], r);
    }
  }

  /** Nothing can be recorded on slices without names, so such a plan covers nothing. */
  lemma NamelessPlanCoversNothing(l: Ledger, r: real)
    requires l.plan.Some? && NoSliceNamed(l.plan.value) && Recordings(l.acts, r)
    ensures !CoveredByPlan(l)
  {
    if l.acts != [] {
      var last := l.acts[|l.acts| - 1].body.request;
      assert !Blank(last.sliceId);
    }
  }

  /** An interval on a slice, from evidence of its own. */
  function Interval(slice: string, n: nat, rate: real): Request {
    Request(Cost, slice, seq(n, _ => 'x'), None, 0, IntervalReport, rate, 1)
  }

  function Intervals(slice: string, n: nat, rate: real): seq<Request> {
    seq(n, k requires 0 <= k < n => Interval(slice, k, rate))
  }

  /** A ledger of n budgeted intervals, all at one rate and in one look. */
  ghost predicate HoldsIntervals(l: Ledger, look: nat, slice: string, n: nat, rate: real) {
    && |l.acts| == n && Budgeted(l.acts) == l.acts && TotalAlpha(l.acts) == n as real * rate
    && forall i :: 0 <= i < n ==>
         l.acts[i].body.request == Interval(slice, i, rate) && l.acts[i].body.lookSequence == look
  }

  lemma IntervalKeysDiffer(slice: string, i: nat, k: nat, rate: real)
    ensures KeyOf(Interval(slice, i, rate)) == KeyOf(Interval(slice, k, rate)) ==> i == k
  {
    assert |Interval(slice, i, rate).evidenceDigest| == i && |Interval(slice, k, rate).evidenceDigest| == k;
  }

  lemma {:induction false} IntervalsRecorded(
    h: Digest<ActBody>, l: Ledger, look: nat, slice: string, n: nat, rate: real)
    requires l.acts == []
    ensures HoldsIntervals(RecordAll(h, l, look, Intervals(slice, n, rate)), look, slice, n, rate)
    ensures RecordAll(h, l, look, Intervals(slice, n, rate)).plan == l.plan
    decreases n
  {
    hide RecordOne, HoldsIntervals, Interval;
    if n == 0 {
      NoIntervals(l, look, slice, rate);
    } else {
      IntervalsRecorded(h, l, look, slice, n - 1, rate);
      assert Intervals(slice, n, rate)[..n - 1] == Intervals(slice, n - 1, rate);
      RecordOneKeepsPlan(h, RecordAll(h, l, look, Intervals(slice, n - 1, rate)), look, Interval(slice, n - 1, rate));
      OneIntervalMore(h, RecordAll(h, l, look, Intervals(slice, n - 1, rate)), look, slice, n - 1, rate);
    }
  }

  lemma NoIntervals(l: Ledger, look: nat, slice: string, rate: real)
    requires l.acts == []
    ensures HoldsIntervals(l, look, slice, 0, rate)
  {
  }

  lemma RecordOneKeepsPlan(h: Digest<ActBody>, l: Ledger, look: nat, r: Request)
    ensures RecordOne(h, l, look, r).plan == l.plan
  {
  }

  lemma OneIntervalMore(h: Digest<ActBody>, l: Ledger, look: nat, slice: string, n: nat, rate: real)
    requires HoldsIntervals(l, look, slice, n, rate)
    ensures HoldsIntervals(RecordOne(h, l, look, Interval(slice, n, rate)), look, slice, n + 1, rate)
  {
    hide Interval;
    var next := RecordOne(h, l, look, Interval(slice, n, rate));
    forall i | 0 <= i < n ensures ActKey(l.acts[i]) != KeyOf(Interval(slice, n, rate)) {
      IntervalKeysDiffer(slice, i, n, rate);
    }
    IntervalIsReport(slice, n, rate);
    assert next.acts[..n] == l.acts;
    OneMore(n, rate);
  }

  lemma IntervalIsReport(slice: string, n: nat, rate: real)
    ensures Interval(slice, n, rate).kind == IntervalReport && Interval(slice, n, rate).actAlpha == rate
    ensures Interval(slice, n, rate).sliceId == slice
  {
  }

  /** Repeating the first of them at another rate spends nothing and becomes the latest. */
  lemma RepeatIsFree(h: Digest<ActBody>, l: Ledger, look: nat, slice: string, n: nat, rate: real, share: real)
    requires HoldsIntervals(l, look, slice, n, rate) && n > 0
    ensures var acts := RecordOne(h, l, look, Interval(slice, 0, share)).acts;
            && Budgeted(acts) == l.acts && LatestAlpha(acts) == Some(share) && LastLook(acts) == look
            && forall i :: 0 <= i < |acts| ==> acts[i].body.request.sliceId == slice
  {
    var acts := RecordOne(h, l, look, Interval(slice, 0, share)).acts;
    assert acts[..n] == l.acts;
    assert ActKey(l.acts[0]) == KeyOf(Interval(slice, 0, share));
  }

  /** One look that a plan covers although it spends a rate above the plan's share on every planned act. */
  function DearLook(p: Plan, slice: string, rate: real): seq<Request>
    requires PlannedActs(p) > 0
  {
    Intervals(slice, PlannedActs(p), rate) + [Interval(slice, 0, ActShare(p))]
  }

  lemma DearLookIsCovered(h: Digest<ActBody>, begun: Ledger, slice: string, rate: real)
    requires begun.acts == [] && begun.plan.Some? && PlannedActs(begun.plan.value) > 0
    requires slice in begun.plan.value.sliceIds
    ensures var p := begun.plan.value;
            var l := RecordAll(h, begun, 1, DearLook(p, slice, rate));
            CoveredByPlan(l) && TotalAlpha(Budgeted(l.acts)) == PlannedActs(p) as real * rate
  {
    hide Interval, Intervals, Budgeted, TotalAlpha, LatestAlpha, ActShare, PlannedActs, CoveredByPlan;
    var p := begun.plan.value;
    var n := PlannedActs(p);
    var l := RecordAll(h, begun, 1, Intervals(slice, n, rate));
    IntervalsRecorded(h, begun, 1, slice, n, rate);
    IntervalCount(slice, n, rate);
    assert DearLook(p, slice, rate)[..n] == Intervals(slice, n, rate);
    RepeatIsFree(h, l, 1, slice, n, rate, ActShare(p));
    FreeRepeatIsCovered(RecordOne(h, l, 1, Interval(slice, 0, ActShare(p))), p, slice);
  }

  lemma IntervalCount(slice: string, n: nat, rate: real)
    ensures |Intervals(slice, n, rate)| == n
  {
  }

  lemma FreeRepeatIsCovered(l: Ledger, p: Plan, slice: string)
    requires l.plan == Some(p) && PlannedActs(p) > 0 && slice in p.sliceIds
    requires |Budgeted(l.acts)| == PlannedActs(p) && LatestAlpha(l.acts) == Some(ActShare(p)) && LastLook(l.acts) == 1
    requires forall i :: 0 <= i < |l.acts| ==> l.acts[i].body.request.sliceId == slice
    ensures CoveredByPlan(l)
  {
    hide Budgeted, LatestAlpha, ActShare;
    LooksPlanned(p);
  }

  lemma LooksPlanned(p: Plan)
    requires PlannedActs(p) > 0
    ensures p.maxLooks >= 1
  {
  }

  lemma DearLookRates(p: Plan, slice: string, rate: real)
    requires PlannedActs(p) > 0 && p.target > 0.0 && rate > ActShare(p) && !Blank(slice)
    ensures RatesUpTo([DearLook(p, slice, rate)], rate) && SlicesNamed(DearLook(p, slice, rate))
    ensures PlannedActs(p) as real * rate > p.target * (1.0 + ALPHA_TOLERANCE)
  {
    ShareIsPositive(p.target, PlannedActs(p));
    AllShares(p.target, PlannedActs(p), ActShare(p), rate);
  }

  lemma AllShares(target: real, planned: nat, share: real, rate: real)
    requires planned > 0 && share == target / planned as real * (1.0 + ALPHA_TOLERANCE) && rate > share
    ensures planned as real * rate > target * (1.0 + ALPHA_TOLERANCE)
  {
    var n, each := planned as real, target / planned as real;
    assert n * each == target;
    Regrouped(n, each, 1.0 + ALPHA_TOLERANCE);
    MoreOfEach(n, share, rate);
  }

  lemma Regrouped(a: real, b: real, c: real)
    ensures a * (b * c) == a * b * c
  {
  }

  lemma MoreOfEach(n: real, share: real, rate: real)
    requires n > 0.0 && rate > share
    ensures n * rate > n * share
  {
    assert n * (rate - share) > 0.0;
  }

  /** The exact condition, on the rates alone: whatever looks are recorded at rates of at most r, a
      covered ledger has spent at most its plan's target, if and only if r is at most the plan's share
      of one act -- or the plan names no slice, and covers nothing. */
  lemma RatesArePaidForExactly(h: Digest<ActBody>, begun: Ledger, r: real)
    requires begun.acts == [] && begun.plan.Some? && r > 0.0
    requires PlannedActs(begun.plan.value) > 0 && begun.plan.value.target > 0.0
    ensures var p := begun.plan.value;
            r <= ActShare(p) || NoSliceNamed(p)
            <==> forall looks :: RatesUpTo(looks, r) && CoveredByPlan(AfterLooks(h, begun, looks)) ==>
                   TotalAlpha(Budgeted(AfterLooks(h, begun, looks).acts)) <= p.target * (1.0 + ALPHA_TOLERANCE)
  {
    hide RatesUpTo, CoveredByPlan, Budgeted, TotalAlpha, AfterLooks, NoSliceNamed, ActShare, Recordings;
    var p := begun.plan.value;
    if r <= ActShare(p) || NoSliceNamed(p) {
      forall looks | RatesUpTo(looks, r) && CoveredByPlan(AfterLooks(h, begun, looks))
        ensures TotalAlpha(Budgeted(AfterLooks(h, begun, looks).acts)) <= p.target * (1.0 + ALPHA_TOLERANCE)
      {
        AffordedRatesArePaidFor(h, begun, looks, r);
      }
    } else {
      var looks := DearLookEscapes(h, begun, r);
    }
  }

  lemma AffordedRatesArePaidFor(h: Digest<ActBody>, begun: Ledger, looks: seq<seq<Request>>, r: real)
    requires begun.acts == [] && begun.plan.Some?
    requires PlannedActs(begun.plan.value) > 0 && begun.plan.value.target > 0.0
    requires r <= ActShare(begun.plan.value) || NoSliceNamed(begun.plan.value)
    requires RatesUpTo(looks, r) && CoveredByPlan(AfterLooks(h, begun, looks))
    ensures TotalAlpha(Budgeted(AfterLooks(h, begun, looks).acts)) <= begun.plan.value.target * (1.0 + ALPHA_TOLERANCE)
  {
    hide RatesUpTo, CoveredByPlan, Budgeted, TotalAlpha, AfterLooks, NoSliceNamed, ActShare;
    var l := AfterLooks(h, begun, looks);
    LooksKeepRecordings(h, begun, looks, r);
    if NoSliceNamed(begun.plan.value) {
      NamelessPlanCoversNothing(l, r);
    } else {
      BudgetedWithin(l.acts, r);
      CoveredClaimIsPaidFor(l);
    }
  }

  /** Any rate above the share escapes the plan: some look at that rate is covered, over the target, and
      leaves a chain that verifies, so the claim stands. */
  lemma DearLookEscapes(h: Digest<ActBody>, begun: Ledger, r: real) returns (looks: seq<seq<Request>>)
    requires begun.acts == [] && begun.plan.Some?
    requires PlannedActs(begun.plan.value) > 0 && begun.plan.value.target > 0.0
    requires r > ActShare(begun.plan.value) && !NoSliceNamed(begun.plan.value)
    ensures RatesUpTo(looks, r) && CoveredByPlan(AfterLooks(h, begun, looks))
    ensures ChainIntact(h, begun) ==> forall s :: Stands(h, s, AfterLooks(h, begun, looks))
    ensures TotalAlpha(Budgeted(AfterLooks(h, begun, looks).acts)) > begun.plan.value.target * (1.0 + ALPHA_TOLERANCE)
  {
    hide RatesUpTo, CoveredByPlan, Budgeted, TotalAlpha, DearLook, RecordAll, ActShare, SlicesNamed, ChainIntact;
    var p := begun.plan.value;
    var i :| 0 <= i < |p.sliceIds| && !Blank(p.sliceIds[i]);
    var look := DearLook(p, p.sliceIds[i], r);
    DearLookRates(p, p.sliceIds[i], r);
    DearLookIsCovered(h, begun, p.sliceIds[i], r);
    looks := [look];
    assert looks[..0] == [] && AfterLooks(h, begun, []) == begun;
    assert AfterLooks(h, begun, looks) == RecordAll(h, begun, 1, look);
    if ChainIntact(h, begun) {
      RecordAllKeepsChain(h, begun, 1, look);
    }
  }

  // ---------------------------------------------------------------- once withheld, always withheld

  /** The latest interval was at the registered rate and the claim is withheld. */
  ghost predicate Withheld(h: Digest<ActBody>, s: Study, l: Ledger) {
    LatestAlpha(l.acts) == Some(EndpointAlpha(s)) && !Stands(h, s, l)
  }

  lemma RecordOneKeepsWithheld(h: Digest<ActBody>, s: Study, l: Ledger, look: nat, r: Request)
    requires Withheld(h, s, l) && r.actAlpha == EndpointAlpha(s) && LastLook(l.acts) <= look
    ensures Withheld(h, s, RecordOne(h, l, look, r))
  {
    var next := RecordOne(h, l, look, r);
    var n := |l.acts|;
    assert next.acts[..n] == l.acts;
    if ChainIntact(h, next) {
      LastVerified(h, Some(next.genesisDigest), next.acts);
    }
    if l.plan.Some? && !SlicesRegistered(l.acts, l.plan.value) {
      var i :| 0 <= i < n && l.acts[i].body.request.sliceId !in l.plan.value.sliceIds;
      assert next.acts[i] == l.acts[i];
    }
  }

  lemma {:induction false} RecordAllKeepsWithheld(
    h: Digest<ActBody>, s: Study, l: Ledger, look: nat, requests: seq<Request>)
    requires LastLook(l.acts) <= look && forall i :: 0 <= i < |requests| ==> requests[i].actAlpha == EndpointAlpha(s)
    ensures Withheld(h, s, l) ==> Withheld(h, s, RecordAll(h, l, look, requests))
    ensures LastLook(RecordAll(h, l, look, requests).acts) == if requests == [] then LastLook(l.acts) else look
    decreases |requests|
  {
    hide Withheld;
    if requests != [] {
      var n := |requests| - 1;
      RecordAllKeepsWithheld(h, s, l, look, requests[..n]);
      var before := RecordAll(h, l, look, requests[..n]);
      if Withheld(h, s, l) {
        RecordOneKeepsWithheld(h, s, before, look, requests[n]);
      }
    }
  }

  lemma {:induction false} ReportsKeepWithheld(
    h: Digest<ActBody>, e: EvidenceDigest, s: Study, l: Ledger, reports: seq<Report>)
    requires Withheld(h, s, l)
    ensures Withheld(h, s, AfterReports(h, e, s, l, reports))
    decreases |reports|
  {
    hide Withheld, RecordAll;
    if reports != [] {
      var n := |reports| - 1;
      ReportsKeepWithheld(h, e, s, l, reports[..n]);
      var before := AfterReports(h, e, s, l, reports[..n]);
      RecordAllKeepsWithheld(h, s, before, LastLook(before.acts) + 1, Requests(s, e, reports[n]));
    }
  }

  lemma LatestAlphaOfReport(h: Digest<ActBody>, l: Ledger, look: nat, requests: seq<Request>)
    requires requests != [] && requests[|requests| - 1].kind == IntervalReport
    ensures LatestAlpha(RecordAll(h, l, look, requests).acts) == Some(requests[|requests| - 1].actAlpha)
  {
  }

  /** Whatever the ledger held before: once the looks recorded make a supported claim withheld, it
      is withheld at every later look. */
  lemma OnceWithheldAlwaysWithheld(h: Digest<ActBody>, e: EvidenceDigest, s: Study, l: Ledger, r: Report,
                                   later: seq<Report>)
    requires ReportOk(r) && r.supported && SlicesNamed(Requests(s, e, r))
    requires !Stands(h, s, Reported(h, e, s, l, r))
    ensures !Stands(h, s, AfterReports(h, e, s, Reported(h, e, s, l, r), later))
  {
    hide Stands, RecordAll;
    var l' := Reported(h, e, s, l, r);
    LatestAlphaOfReport(h, l, LastLook(l.acts) + 1, Requests(s, e, r));
    ReportsKeepWithheld(h, e, s, l', later);
  }

  // ---------------------------------------------------------------- the first look

  lemma {:induction false} BudgetWithinActs(acts: seq<Act>)
    ensures |Budgeted(acts)| <= |acts|
    decreases |acts|
  {
    if acts != [] {
      BudgetWithinActs(acts[..|acts| - 1]);
    }
  }

  lemma {:induction false} RecordAllAdds(h: Digest<ActBody>, l: Ledger, look: nat, requests: seq<Request>)
    ensures |RecordAll(h, l, look, requests).acts| == |l.acts| + |requests|
    decreases |requests|
  {
    if requests != [] {
      RecordAllAdds(h, l, look, requests[..|requests| - 1]);
    }
  }

  /** The one look the registered joint rule already pays for is never withheld. */
  lemma FirstLookStands(h: Digest<ActBody>, e: EvidenceDigest, s: Study, l: Ledger, r: Report)
    requires l.acts == [] && l.genesisDigest == l.ledgerDigest
    ensures Stands(h, s, Reported(h, e, s, l, r))
  {
    hide RecordAll, Budgeted, CoveredByPlan;
    var requests := Requests(s, e, r);
    BudgetWithinActs(l.acts);
    RecordAllKeepsChain(h, l, 1, requests);
    RecordAllAdds(h, l, 1, requests);
    BudgetWithinActs(RecordAll(h, l, 1, requests).acts);
  }

  function NamedReports(s: Study, e: EvidenceDigest, reports: seq<Report>): nat {
    if reports == [] then 0
    else
      NamedReports(s, e, reports[..|reports| - 1])
      + if SlicesNamed(Requests(s, e, reports[|reports| - 1])) then 1 else 0
  }

  /** No look can be recorded as an earlier one: each accepted report raises the look count by one. */
  lemma {:induction false} EveryReportIsALook(
    h: Digest<ActBody>, e: EvidenceDigest, s: Study, l: Ledger, reports: seq<Report>)
    ensures LastLook(AfterReports(h, e, s, l, reports).acts) == LastLook(l.acts) + NamedReports(s, e, reports)
    decreases |reports|
  {
    hide RecordAll, SlicesNamed;
    if reports != [] {
      var n := |reports| - 1;
      EveryReportIsALook(h, e, s, l, reports[..n]);
      var before := AfterReports(h, e, s, l, reports[..n]);
      RecordAllKeepsWithheld(h, s, before, LastLook(before.acts) + 1, Requests(s, e, reports[n]));
    }
  }
}
