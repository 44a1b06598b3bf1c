/** The gates a randomized study passes before any estimate, as loops that collect reasons. */
module Qualification {
  // Each verdict is stated and proved with its exact condition.

  import opened Money
  import opened Tables
  import opened StudyRecords
  import Assignment

  datatype State = Invalid | Collecting | Inconclusive | Qualified

  datatype Reason =
    | ProtocolInvalid | DuplicateId(id: string) | BadDecision(id: string) | NoPredecessor(id: string)
    | ConflictingBlock(id: string) | UnbalancedBlock(id: string) | IncompleteBlock(id: string)
    | BadExecution(id: string) | BadOutcome(id: string) | NoSupport(arm: string)
    | StillIncomplete | MissingnessLimit(arm: string) | Underpowered(arm: string)

  datatype Counts = Counts(units: nat, completed: nat, missing: nat, adherent: nat)

  datatype Verdict = Verdict(state: State, reasons: seq<Reason>, counts: map<string, Counts>, included: seq<string>)

  datatype Study = Study(protocol: Protocol, decisions: seq<Decision>, executions: seq<Execution>,
                         outcomes: seq<Outcome>)

  // ---------------------------------------------------------------- one record at a time

  predicate DecisionOk(h: EventDigests, p: Protocol, d: Decision) {
    && SameStudy(p, d.studyId, d.protocolHash) && d.wellFormed && IsSha256(d.unitIdHash) && IsArm(p, d.arm)
    && d.propensity == p.propensity && d.assignedAt >= p.committedAt && DecisionSealed(h, d)
  }

  function PlanOf(p: Protocol, arm: string): Option<string> {
    if |p.arms| > 0 && p.arms[0].armId == arm then Some(p.arms[0].planHash)
    else if |p.arms| > 1 && p.arms[1].armId == arm then Some(p.arms[1].planHash)
    else None
  }

  predicate AdherenceOk(p: Protocol, d: Decision, e: Execution) {
    && PlanOf(p, d.arm) == Some(e.assignedPlan)
    && (e.adherence == Confirmed || e.adherence == Deviated)
    && e.actualPlan.Some?
    && (e.adherence == Confirmed ==> e.actualPlan == PlanOf(p, d.arm))
  }

  predicate ExecutionOk(h: EventDigests, p: Protocol, d: Decision, e: Execution) {
    && SameStudy(p, e.studyId, e.protocolHash) && e.wellFormed && ExecutionSealed(h, e)
    && e.previous == d.event && d.assignedAt <= e.startedAt <= e.completedAt
    && AdherenceOk(p, d, e)
    && InBounds(e.directCost, p.cost) && e.directAccepted
    && (p.question == AiNetBenefit ==> InBounds(e.fullCost, p.cost) && e.fullAccepted)
  }

  predicate LineageOk(h: EventDigests, p: Protocol, e: Execution, o: Outcome) {
    && SameStudy(p, o.studyId, o.protocolHash) && o.wellFormed && OutcomeSealed(h, o)
    && o.previous == e.event && o.observedAt >= e.completedAt
  }

  predicate ValuesOk(p: Protocol, o: Outcome) {
    && InBounds(o.quality, p.quality) && o.qualityAccepted
    && (p.economic.Some? ==> InBounds(o.economic, p.economic.value) && o.economicAccepted)
  }

  predicate OutcomeOk(h: EventDigests, p: Protocol, e: Execution, o: Outcome) {
    LineageOk(h, p, e, o) && o.maturity == Matured && ValuesOk(p, o)
  }

  /** Nothing is wrong with an outcome, though it may still be awaited. */
  predicate OutcomeMayCount(h: EventDigests, p: Protocol, e: Execution, o: Outcome) {
    LineageOk(h, p, e, o) && (o.maturity == Awaited || (o.maturity == Matured && ValuesOk(p, o)))
  }

  // ---------------------------------------------------------------- what qualifies

  function DecisionIds(ds: seq<Decision>): seq<string> { seq(|ds|, i requires 0 <= i < |ds| => ds[i].decisionId) }
  function ExecutionIds(es: seq<Execution>): seq<string> { seq(|es|, i requires 0 <= i < |es| => es[i].executionId) }
  function OutcomeIds(os: seq<Outcome>): seq<string> { seq(|os|, i requires 0 <= i < |os| => os[i].outcomeId) }
  function ExecutionTargets(es: seq<Execution>): seq<string> { seq(|es|, i requires 0 <= i < |es| => es[i].decisionId) }
  function OutcomeTargets(os: seq<Outcome>): seq<string> { seq(|os|, i requires 0 <= i < |os| => os[i].decisionId) }

  ghost predicate IdsDistinct(s: Study) {
    && Distinct(DecisionIds(s.decisions)) && Distinct(ExecutionIds(s.executions)) && Distinct(OutcomeIds(s.outcomes))
    && Distinct(ExecutionTargets(s.executions)) && Distinct(OutcomeTargets(s.outcomes))
  }

  ghost predicate AllDecisionsOk(h: EventDigests, p: Protocol, ds: seq<Decision>) {
    forall i :: 0 <= i < |ds| ==> DecisionOk(h, p, ds[i])
  }

  predicate Resolves(p: Protocol, ds: seq<Decision>, d: Decision) {
    d.previous == p.protocolHash || exists j :: 0 <= j < |ds| && ds[j].event == d.previous
  }

  ghost predicate ChainOk(p: Protocol, ds: seq<Decision>) {
    forall i :: 0 <= i < |ds| ==> Resolves(p, ds, ds[i])
  }

  ghost predicate BlocksFull(p: Protocol, ds: seq<Decision>) {
    forall i :: 0 <= i < |ds| ==> FullBlock(p, InBlock(ds, ds[i].block), ds[i].block)
  }

  ghost predicate ExecutionBinds(h: EventDigests, p: Protocol, ds: seq<Decision>, e: Execution) {
    exists d :: d in ds && d.decisionId == e.decisionId && ExecutionOk(h, p, d, e)
  }

  ghost predicate OutcomeBinds(h: EventDigests, p: Protocol, es: seq<Execution>, o: Outcome) {
    exists e :: e in es && e.decisionId == o.decisionId && OutcomeOk(h, p, e, o)
  }

  ghost predicate OutcomeMayBind(h: EventDigests, p: Protocol, es: seq<Execution>, o: Outcome) {
    exists e :: e in es && e.decisionId == o.decisionId && OutcomeMayCount(h, p, e, o)
  }

  ghost predicate Complete(s: Study, d: Decision) {
    d.decisionId in ExecutionTargets(s.executions) && d.decisionId in OutcomeTargets(s.outcomes)
  }

  /** Decisions of a listing assigned to an arm. */
  function Assigned(ds: seq<Decision>, arm: string): nat {
    if ds == [] then 0 else Assigned(ds[..|ds| - 1], arm) + if ds[|ds| - 1].arm == arm then 1 else 0
  }

  ghost predicate Powered(p: Protocol, ds: seq<Decision>) {
    forall i :: 0 <= i < |p.arms| ==> Assigned(ds, p.arms[i].armId) >= p.minCompleted
  }

  /** Every block full and balanced, every decision carried out and observed once, every value in
      bounds, and enough units in each arm. */
  ghost predicate Qualifies(h: EventDigests, s: Study) {
    && ProtocolOk(s.protocol) && s.decisions != [] && IdsDistinct(s)
    && AllDecisionsOk(h, s.protocol, s.decisions) && ChainOk(s.protocol, s.decisions)
    && BlocksFull(s.protocol, s.decisions)
    && (forall i :: 0 <= i < |s.executions| ==> ExecutionBinds(h, s.protocol, s.decisions, s.executions[i]))
    && (forall i :: 0 <= i < |s.outcomes| ==> OutcomeBinds(h, s.protocol, s.executions, s.outcomes[i]))
    && (forall i :: 0 <= i < |s.decisions| ==> Complete(s, s.decisions[i]))
    && Powered(s.protocol, s.decisions)
  }

  // ---------------------------------------------------------------- duplicate ids

  /** The reason names an id that is listed more than once. */
  ghost predicate RepeatedIn(values: seq<string>, r: Reason) {
    exists i, j :: 0 <= i < j < |values| && values[i] == values[j] && r == DuplicateId(values[j])
  }

  lemma RepeatedPush(values: seq<string>, n: nat, r: Reason)
    requires n < |values|
    ensures RepeatedIn(values[..n + 1], r)
       <==> RepeatedIn(values[..n], r) || (values[n] in values[..n] && r == DuplicateId(values[n]))
  {
    var before, after := values[..n], values[..n + 1];
    assert after == before + [values[n]];
    if RepeatedIn(before, r) {
      var i, j :| 0 <= i < j < |before| && before[i] == before[j] && r == DuplicateId(before[j]);
      assert after[i] == after[j];
    }
    if values[n] in before && r == DuplicateId(values[n]) {
      var i :| 0 <= i < |before| && before[i] == values[n];
      assert after[i] == after[n];
    }
  }

  method DuplicateIds(values: seq<string>, reasons: seq<Reason>) returns (out: seq<Reason>)
    ensures out == [] <==> reasons == [] && Distinct(values)
    ensures forall r :: r in out <==> r in reasons || RepeatedIn(values, r)
    ensures |reasons| <= |out|
    ensures NoLimitReason(reasons) ==> NoLimitReason(out)
  {
    var seen: set<string> := {};
    out := reasons;
    for n := 0 to |values|
      invariant forall x :: x in seen <==> x in values[..n]
      invariant out == [] <==> reasons == [] && Distinct(values[..n])
      invariant |reasons| <= |out|
      invariant forall r :: r in out <==> r in reasons || RepeatedIn(values[..n], r)
      invariant NoLimitReason(reasons) ==> NoLimitReason(out)
    {
      hide Distinct, RepeatedIn;
      DistinctStep(values, n);
      forall r
        ensures RepeatedIn(values[..n + 1], r)
           <==> RepeatedIn(values[..n], r) || (values[n] in values[..n] && r == DuplicateId(values[n]))
      {
        RepeatedPush(values, n, r);
      }
      if values[n] in seen {
        out := out + [DuplicateId(values[n])];
      }
      seen := seen + {values[n]};
    }
    assert values[..|values|] == values;
  }

  lemma DistinctStep(values: seq<string>, n: nat)
    requires n < |values|
    ensures Distinct(values[..n + 1]) <==> Distinct(values[..n]) && values[n] !in values[..n]
    ensures forall x :: x in values[..n + 1] <==> x in values[..n] || x == values[n]
  {
    assert values[..n + 1] == values[..n] + [values[n]];
  }

  /** No reason says that an arm exceeds its missingness limit. */
  ghost predicate NoLimitReason(reasons: seq<Reason>) {
    forall r :: r in reasons ==> !r.MissingnessLimit?
  }

  /** An id is used twice, or two executions or two outcomes are of one decision. */
  ghost predicate IdFault(s: Study, r: Reason) {
    || RepeatedIn(DecisionIds(s.decisions), r) || RepeatedIn(ExecutionIds(s.executions), r)
    || RepeatedIn(OutcomeIds(s.outcomes), r) || RepeatedIn(ExecutionTargets(s.executions), r)
    || RepeatedIn(OutcomeTargets(s.outcomes), r)
  }

  method CheckIds(s: Study) returns (out: seq<Reason>)
    ensures out == [] <==> IdsDistinct(s)
    ensures forall r :: r in out <==> IdFault(s, r)
    ensures NoLimitReason(out)
  {
    hide Distinct, RepeatedIn;
    out := DuplicateIds(DecisionIds(s.decisions), []);
    out := DuplicateIds(ExecutionIds(s.executions), out);
    out := DuplicateIds(OutcomeIds(s.outcomes), out);
    out := DuplicateIds(ExecutionTargets(s.executions), out);
    out := DuplicateIds(OutcomeTargets(s.outcomes), out);
  }

  // ---------------------------------------------------------------- decisions

  type Index = Table<string, Decision>

  ghost predicate IndexOk(h: EventDigests, p: Protocol, byId: Index) {
    && Ok(byId)
    && forall id :: id in byId.at ==> DecisionOk(h, p, byId.at[id]) && byId.at[id].decisionId == id
  }

  function Listed(byId: Index): seq<Decision>
    requires forall i :: 0 <= i < |byId.order| ==> byId.order[i] in byId.at
  {
    seq(|byId.order|, i requires 0 <= i < |byId.order| => byId.at[byId.order[i]])
  }

  /** The index of a clean study lists its decisions in order. */
  ghost predicate Lists(byId: Index, ds: seq<Decision>) {
    && |byId.order| == |ds|
    && forall i :: 0 <= i < |ds| ==>
        byId.order[i] == ds[i].decisionId && byId.order[i] in byId.at && byId.at[byId.order[i]] == ds[i]
  }

  lemma AllDecisionsPush(h: EventDigests, p: Protocol, ds: seq<Decision>, n: nat)
    requires n < |ds|
    ensures AllDecisionsOk(h, p, ds[..n + 1]) <==> AllDecisionsOk(h, p, ds[..n]) && DecisionOk(h, p, ds[n])
  {
    hide DecisionOk;
    assert ds[..n + 1] == ds[..n] + [ds[n]];
  }

  /** The decision passes, and no later one that passes has its id. */
  ghost predicate Stays(h: EventDigests, p: Protocol, ds: seq<Decision>, d: Decision) {
    exists i :: 0 <= i < |ds| && ds[i] == d && DecisionOk(h, p, d)
                && forall j :: i < j < |ds| && DecisionOk(h, p, ds[j]) ==> ds[j].decisionId != d.decisionId
  }

  /** The index holds the decisions that stay, each under its id. */
  ghost predicate Indexes(h: EventDigests, p: Protocol, ds: seq<Decision>, byId: Index) {
    && (forall id :: id in byId.at ==> byId.at[id].decisionId == id && Stays(h, p, ds, byId.at[id]))
    && forall d :: Stays(h, p, ds, d) ==> d.decisionId in byId.at && byId.at[d.decisionId] == d
  }

  /** The reason names a decision that does not pass. */
  ghost predicate DecisionFault(h: EventDigests, p: Protocol, ds: seq<Decision>, r: Reason) {
    exists i :: 0 <= i < |ds| && !DecisionOk(h, p, ds[i]) && r == BadDecision(ds[i].decisionId)
  }

  lemma StaysPush(h: EventDigests, p: Protocol, ds: seq<Decision>, n: nat, d: Decision)
    requires n < |ds|
    ensures Stays(h, p, ds[..n + 1], d)
       <==> || (DecisionOk(h, p, ds[n]) && d == ds[n])
            || (Stays(h, p, ds[..n], d) && !(DecisionOk(h, p, ds[n]) && ds[n].decisionId == d.decisionId))
  {
    hide DecisionOk;
    var before, after := ds[..n], ds[..n + 1];
    assert after == before + [ds[n]];
    if Stays(h, p, after, d) {
      var i :| 0 <= i < |after| && after[i] == d && DecisionOk(h, p, d)
               && forall j :: i < j < |after| && DecisionOk(h, p, after[j]) ==> after[j].decisionId != d.decisionId;
      if i < n {
        assert before[i] == d && after[n] == ds[n];
        assert forall j :: i < j < |before| ==> before[j] == after[j];
      }
    }
    if DecisionOk(h, p, ds[n]) && d == ds[n] {
      assert after[n] == d;
    } else if Stays(h, p, before, d) && !(DecisionOk(h, p, ds[n]) && ds[n].decisionId == d.decisionId) {
      var i :| 0 <= i < |before| && before[i] == d && DecisionOk(h, p, d)
               && forall j :: i < j < |before| && DecisionOk(h, p, before[j]) ==> before[j].decisionId != d.decisionId;
      assert after[i] == d;
      assert forall j :: i < j < |after| ==> after[j] == if j < n then before[j] else ds[n];
    }
  }

  lemma IndexesPush(h: EventDigests, p: Protocol, ds: seq<Decision>, n: nat, byId: Index)
    requires n < |ds| && Indexes(h, p, ds[..n], byId)
    ensures DecisionOk(h, p, ds[n]) ==> Indexes(h, p, ds[..n + 1], Put(byId, ds[n].decisionId, ds[n]))
    ensures !DecisionOk(h, p, ds[n]) ==> Indexes(h, p, ds[..n + 1], byId)
  {
    hide DecisionOk, Stays;
    forall d
      ensures Stays(h, p, ds[..n + 1], d)
         <==> || (DecisionOk(h, p, ds[n]) && d == ds[n])
              || (Stays(h, p, ds[..n], d) && !(DecisionOk(h, p, ds[n]) && ds[n].decisionId == d.decisionId))
    {
      StaysPush(h, p, ds, n, d);
    }
  }

  lemma DecisionFaultPush(h: EventDigests, p: Protocol, ds: seq<Decision>, n: nat)
    requires n < |ds|
    ensures forall r :: DecisionFault(h, p, ds[..n + 1], r) <==>
              DecisionFault(h, p, ds[..n], r) || (!DecisionOk(h, p, ds[n]) && r == BadDecision(ds[n].decisionId))
  {
    hide DecisionOk;
    var before, after := ds[..n], ds[..n + 1];
    assert after[n] == ds[n];
    assert forall i :: 0 <= i < n ==> after[i] == before[i];
    forall r | DecisionFault(h, p, before, r) ensures DecisionFault(h, p, after, r) {
      var i :| 0 <= i < |before| && !DecisionOk(h, p, before[i]) && r == BadDecision(before[i].decisionId);
      assert after[i] == before[i];
    }
  }

  lemma NothingIndexed(h: EventDigests, p: Protocol, ds: seq<Decision>)
    ensures Indexes(h, p, ds[..0], Empty()) && IndexOk(h, p, Empty()) && Lists(Empty(), ds[..0])
    ensures AllDecisionsOk(h, p, ds[..0]) && forall r :: !DecisionFault(h, p, ds[..0], r)
  {
  }

  method IndexDecisions(h: EventDigests, p: Protocol, ds: seq<Decision>, reasons: seq<Reason>)
    returns (byId: Index, out: seq<Reason>)
    ensures out == [] <==> reasons == [] && AllDecisionsOk(h, p, ds)
    ensures forall r :: r in out <==> r in reasons || DecisionFault(h, p, ds, r)
    ensures Indexes(h, p, ds, byId)
    ensures IndexOk(h, p, byId)
    ensures out == [] && Distinct(DecisionIds(ds)) ==> Lists(byId, ds)
    ensures NoLimitReason(reasons) ==> NoLimitReason(out)
  {
    hide *;
    byId, out := Empty(), reasons;
    NothingIndexed(h, p, ds);
    for n := 0 to |ds|
      invariant out == [] <==> reasons == [] && AllDecisionsOk(h, p, ds[..n])
      invariant forall r :: r in out <==> r in reasons || DecisionFault(h, p, ds[..n], r)
      invariant Indexes(h, p, ds[..n], byId)
      invariant IndexOk(h, p, byId)
      invariant out == [] && Distinct(DecisionIds(ds)) ==> Lists(byId, ds[..n])
      invariant NoLimitReason(reasons) ==> NoLimitReason(out)
    {
      AllDecisionsPush(h, p, ds, n);
      IndexesPush(h, p, ds, n, byId);
      DecisionFaultPush(h, p, ds, n);
      if DecisionOk(h, p, ds[n]) {
        PutLists(h, p, ds, n, byId);
        byId := Indexed(h, p, byId, ds[n]);
      } else {
        StillNoLimit(out, BadDecision(ds[n].decisionId));
        out := out + [BadDecision(ds[n].decisionId)];
      }
    }
    assert ds[..|ds|] == ds;
  }

  method Indexed(h: EventDigests, p: Protocol, byId: Index, d: Decision) returns (r: Index)
    requires IndexOk(h, p, byId) && DecisionOk(h, p, d)
    ensures r == Put(byId, d.decisionId, d) && IndexOk(h, p, r)
  {
    hide DecisionOk;
    PutKeepsOk(byId, d.decisionId, d);
    r := Put(byId, d.decisionId, d);
  }

  lemma PutLists(h: EventDigests, p: Protocol, ds: seq<Decision>, n: nat, byId: Index)
    requires n < |ds| && IndexOk(h, p, byId)
    ensures Distinct(DecisionIds(ds)) && Lists(byId, ds[..n]) ==> Lists(Put(byId, ds[n].decisionId, ds[n]), ds[..n + 1])
  {
    hide DecisionOk;
    if Distinct(DecisionIds(ds)) && Lists(byId, ds[..n]) {
      var ids := DecisionIds(ds);
      forall i | 0 <= i < |byId.order| ensures byId.order[i] != ds[n].decisionId {
        assert byId.order[i] == ids[i] != ids[n];
      }
    }
  }

  // ---------------------------------------------------------------- counts

  ghost predicate CountsOk(p: Protocol, counts: map<string, Counts>) {
    forall arm :: arm in counts <==> IsArm(p, arm)
  }

  method BlankCounts(p: Protocol) returns (counts: map<string, Counts>)
    ensures CountsOk(p, counts)
    ensures forall arm :: arm in counts ==> counts[arm] == Counts(0, 0, 0, 0)
  {
    counts := map i | 0 <= i < |p.arms| :: p.arms[i].armId := Counts(0, 0, 0, 0);
  }

  /** The units of each arm are counted, n decisions in. */
  ghost predicate CountsUpTo(p: Protocol, ds: seq<Decision>, n: nat, counted: map<string, Counts>)
    requires n <= |ds|
  {
    CountsOk(p, counted) && forall arm :: arm in counted ==> counted[arm] == Counts(Assigned(ds[..n], arm), 0, 0, 0)
  }

  lemma ResolvesIn(p: Protocol, ds: seq<Decision>, d: Decision)
    ensures Resolves(p, ds, d)
       <==> d.previous == p.protocolHash || d.previous in set i | 0 <= i < |ds| :: ds[i].event
  {
  }

  lemma StillNoLimit(reasons: seq<Reason>, r: Reason)
    requires !r.MissingnessLimit?
    ensures NoLimitReason(reasons) ==> NoLimitReason(reasons + [r])
  {
  }

  lemma CountStep(h: EventDigests, p: Protocol, ds: seq<Decision>, n: nat, counted: map<string, Counts>)
    requires n < |ds| && AllDecisionsOk(h, p, ds) && CountsUpTo(p, ds, n, counted)
    ensures var arm := ds[n].arm;
            && arm in counted
            && CountsUpTo(p, ds, n + 1, counted[arm := counted[arm].(units := counted[arm].units + 1)])
  {
    hide Assigned, IsArm;
    assert DecisionOk(h, p, ds[n]);
    AssignedStep(ds, n);
  }

  ghost predicate ResolvedUpTo(p: Protocol, ds: seq<Decision>, n: nat)
    requires n <= |ds|
  {
    forall i :: 0 <= i < n ==> Resolves(p, ds, ds[i])
  }

  lemma ResolvedPush(p: Protocol, ds: seq<Decision>, n: nat)
    requires n < |ds|
    ensures ResolvedUpTo(p, ds, n + 1) <==> ResolvedUpTo(p, ds, n) && Resolves(p, ds, ds[n])
  {
    hide Resolves;
  }

  lemma CountsStart(p: Protocol, ds: seq<Decision>, counts: map<string, Counts>)
    requires CountsOk(p, counts) && forall arm :: arm in counts ==> counts[arm] == Counts(0, 0, 0, 0)
    ensures CountsUpTo(p, ds, 0, counts) && ResolvedUpTo(p, ds, 0)
  {
  }

  lemma CountsEnd(p: Protocol, ds: seq<Decision>, counted: map<string, Counts>)
    requires CountsUpTo(p, ds, |ds|, counted)
    ensures CountsOk(p, counted)
    ensures forall arm :: arm in counted ==> counted[arm] == Counts(Assigned(ds, arm), 0, 0, 0)
    ensures ResolvedUpTo(p, ds, |ds|) <==> ChainOk(p, ds)
  {
    hide Resolves, CountsOk, Assigned;
    assert ds[..|ds|] == ds;
  }

  /** The reason names one of the first n decisions that no event precedes. */
  ghost predicate ChainFault(p: Protocol, ds: seq<Decision>, n: nat, r: Reason)
    requires n <= |ds|
  {
    exists i :: 0 <= i < n && !Resolves(p, ds, ds[i]) && r == NoPredecessor(ds[i].decisionId)
  }

  lemma ChainFaultPush(p: Protocol, ds: seq<Decision>, n: nat)
    requires n < |ds|
    ensures forall r :: ChainFault(p, ds, n + 1, r) <==>
              ChainFault(p, ds, n, r) || (!Resolves(p, ds, ds[n]) && r == NoPredecessor(ds[n].decisionId))
  {
    hide Resolves;
    forall r | ChainFault(p, ds, n + 1, r)
      ensures ChainFault(p, ds, n, r) || (!Resolves(p, ds, ds[n]) && r == NoPredecessor(ds[n].decisionId))
    {
      var i :| 0 <= i < n + 1 && !Resolves(p, ds, ds[i]) && r == NoPredecessor(ds[i].decisionId);
    }
  }

  lemma NoChainFault(p: Protocol, ds: seq<Decision>)
    ensures forall r :: !ChainFault(p, ds, 0, r)
  {
  }

  method CountAssigned(h: EventDigests, p: Protocol, ds: seq<Decision>, counts: map<string, Counts>,
                       reasons: seq<Reason>)
    returns (counted: map<string, Counts>, out: seq<Reason>)
    requires AllDecisionsOk(h, p, ds) && CountsOk(p, counts)
    requires forall arm :: arm in counts ==> counts[arm] == Counts(0, 0, 0, 0)
    ensures out == [] <==> reasons == [] && ChainOk(p, ds)
    ensures forall r :: r in out <==> r in reasons || ChainFault(p, ds, |ds|, r)
    ensures CountsOk(p, counted)
    ensures forall arm :: arm in counted ==> counted[arm] == Counts(Assigned(ds, arm), 0, 0, 0)
    ensures NoLimitReason(reasons) ==> NoLimitReason(out)
  {
    hide *;
    CountsStart(p, ds, counts);
    var hashes := set i | 0 <= i < |ds| :: ds[i].event;
    counted, out := counts, reasons;
    NoChainFault(p, ds);
    for n := 0 to |ds|
      invariant out == [] <==> reasons == [] && ResolvedUpTo(p, ds, n)
      invariant forall r :: r in out <==> r in reasons || ChainFault(p, ds, n, r)
      invariant CountsUpTo(p, ds, n, counted)
      invariant NoLimitReason(reasons) ==> NoLimitReason(out)
    {
      var d := ds[n];
      CountStep(h, p, ds, n, counted);
      ResolvesIn(p, ds, d);
      ResolvedPush(p, ds, n);
      ChainFaultPush(p, ds, n);
      StillNoLimit(out, NoPredecessor(d.decisionId));
      if d.previous != p.protocolHash && d.previous !in hashes {
        out := out + [NoPredecessor(d.decisionId)];
      }
      counted := counted[d.arm := counted[d.arm].(units := counted[d.arm].units + 1)];
    }
    CountsEnd(p, ds, counted);
  }

  lemma AssignedStep(ds: seq<Decision>, n: nat)
    requires n < |ds|
    ensures forall arm :: Assigned(ds[..n + 1], arm) == Assigned(ds[..n], arm) + if ds[n].arm == arm then 1 else 0
  {
    assert ds[..n + 1][..n] == ds[..n];
  }

  // ---------------------------------------------------------------- blocks

  type Blocks = Table<string, seq<Decision>>

  ghost predicate BlocksOf(ds: seq<Decision>, blocks: Blocks) {
    && Ok(blocks)
    && (forall b :: b in blocks.at <==> InBlock(ds, b) != [])
    && forall b :: b in blocks.at ==> blocks.at[b] == InBlock(ds, b)
  }

  method GroupBlocks(ds: seq<Decision>) returns (blocks: Blocks)
    ensures BlocksOf(ds, blocks)
  {
    blocks := Empty();
    for n := 0 to |ds|
      invariant BlocksOf(ds[..n], blocks)
    {
      var b := ds[n].block;
      BlockStep(ds, n, blocks);
      blocks := Put(blocks, b, (if b in blocks.at then blocks.at[b] else []) + [ds[n]]);
    }
    assert ds[..|ds|] == ds;
  }

  lemma BlockStep(ds: seq<Decision>, n: nat, blocks: Blocks)
    requires n < |ds| && BlocksOf(ds[..n], blocks)
    ensures var b := ds[n].block;
            BlocksOf(ds[..n + 1], Put(blocks, b, (if b in blocks.at then blocks.at[b] else []) + [ds[n]]))
  {
    hide InBlock, Ok;
    InBlockPush(ds, n);
    var b := ds[n].block;
    PutKeepsOk(blocks, b, (if b in blocks.at then blocks.at[b] else []) + [ds[n]]);
  }

  lemma InBlockPush(ds: seq<Decision>, n: nat)
    requires n < |ds|
    ensures forall b :: InBlock(ds[..n + 1], b) == InBlock(ds[..n], b) + if ds[n].block == b then [ds[n]] else []
  {
    assert ds[..n + 1][..n] == ds[..n];
  }

  lemma {:induction false} BlockHolds(ds: seq<Decision>, i: nat)
    requires i < |ds|
    ensures InBlock(ds, ds[i].block) != []
    decreases |ds|
  {
    if i < |ds| - 1 {
      BlockHolds(ds[..|ds| - 1], i);
    }
  }

  lemma {:induction false} HeldBlock(ds: seq<Decision>, b: string) returns (i: nat)
    requires InBlock(ds, b) != []
    ensures i < |ds| && ds[i].block == b
    decreases |ds|
  {
    var n := |ds| - 1;
    if ds[n].block == b {
      return n;
    }
    i := HeldBlock(ds[..n], b);
  }

  /** One allocation and one material in the whole block. */
  predicate OneIdentity(block: seq<Decision>) {
    && (forall i :: 0 <= i < |block| ==> block[i].allocation == block[0].allocation)
    && (forall i :: 0 <= i < |block| ==> block[i].material == block[0].material)
  }

  predicate Overfull(p: Protocol, block: seq<Decision>, name: string) {
    |block| > p.blockSize
    || exists i :: 0 <= i < |p.arms| && InArm(block, name, p.arms[i].armId) > p.blockSize / 2
  }

  /** Nothing is wrong with a block, though it may still lack units. */
  predicate MayFill(p: Protocol, block: seq<Decision>, name: string) { OneIdentity(block) && !Overfull(p, block, name) }

  ghost predicate BlocksMayFill(p: Protocol, ds: seq<Decision>) {
    forall i :: 0 <= i < |ds| ==> MayFill(p, InBlock(ds, ds[i].block), ds[i].block)
  }

  ghost predicate BlockMembers(p: Protocol, block: seq<Decision>, name: string) {
    forall i :: 0 <= i < |block| ==> block[i].block == name && IsArm(p, block[i].arm)
  }

  lemma {:induction false} ArmsCoverBlock(p: Protocol, block: seq<Decision>, name: string)
    requires ProtocolOk(p) && BlockMembers(p, block, name)
    ensures InArm(block, name, p.arms[0].armId) + InArm(block, name, p.arms[1].armId) == |block|
    decreases |block|
  {
    if block != [] {
      ArmsCoverBlock(p, block[..|block| - 1], name);
    }
  }

  /** A block with none too many in any arm and none too few in all has exactly half in each. */
  lemma NeitherOverNorUnder(p: Protocol, block: seq<Decision>, name: string)
    requires ProtocolOk(p) && BlockMembers(p, block, name)
    ensures FullBlock(p, block, name)
       <==> OneIdentity(block) && !Overfull(p, block, name) && |block| >= p.blockSize
  {
    hide InArm;
    ArmsCoverBlock(p, block, name);
  }

  lemma {:induction false} MembersOfBlock(h: EventDigests, p: Protocol, ds: seq<Decision>, name: string)
    requires AllDecisionsOk(h, p, ds)
    ensures BlockMembers(p, InBlock(ds, name), name)
    decreases |ds|
  {
    if ds != [] {
      hide DecisionOk, IsArm;
      MembersOfBlock(h, p, ds[..|ds| - 1], name);
      LastIsOk(h, p, ds);
    }
  }

  lemma LastIsOk(h: EventDigests, p: Protocol, ds: seq<Decision>)
    requires AllDecisionsOk(h, p, ds) && ds != []
    ensures AllDecisionsOk(h, p, ds[..|ds| - 1]) && IsArm(p, ds[|ds| - 1].arm)
  {
  }

  /** What is held against a block, and what it still lacks. */
  ghost predicate BlockBlamed(p: Protocol, ds: seq<Decision>, name: string, r: Reason) {
    || (r == ConflictingBlock(name) && !OneIdentity(InBlock(ds, name)))
    || (r == UnbalancedBlock(name) && Overfull(p, InBlock(ds, name), name))
  }

  ghost predicate BlockLacks(p: Protocol, ds: seq<Decision>, name: string, r: Reason) {
    r == IncompleteBlock(name) && !Overfull(p, InBlock(ds, name), name) && |InBlock(ds, name)| < p.blockSize
  }

  ghost predicate BlamedUpTo(p: Protocol, ds: seq<Decision>, names: seq<string>, n: nat, r: Reason)
    requires n <= |names|
  {
    exists i :: 0 <= i < n && BlockBlamed(p, ds, names[i], r)
  }

  ghost predicate LacksUpTo(p: Protocol, ds: seq<Decision>, names: seq<string>, n: nat, r: Reason)
    requires n <= |names|
  {
    exists i :: 0 <= i < n && BlockLacks(p, ds, names[i], r)
  }

  ghost predicate BlockFault(p: Protocol, ds: seq<Decision>, r: Reason) {
    exists i :: 0 <= i < |ds| && BlockBlamed(p, ds, ds[i].block, r)
  }

  ghost predicate BlockGap(p: Protocol, ds: seq<Decision>, r: Reason) {
    exists i :: 0 <= i < |ds| && BlockLacks(p, ds, ds[i].block, r)
  }

  lemma BlamePush(p: Protocol, ds: seq<Decision>, names: seq<string>, n: nat, out: seq<Reason>, lacking: seq<Reason>,
                  reasons: seq<Reason>)
    requires n < |names|
    requires forall r :: r in out <==> r in reasons || BlamedUpTo(p, ds, names, n, r)
    requires forall r :: r in lacking <==> LacksUpTo(p, ds, names, n, r)
    ensures var block := InBlock(ds, names[n]);
            var one := if OneIdentity(block) then out else out + [ConflictingBlock(names[n])];
            var over := Overfull(p, block, names[n]);
            var all := if over then one + [UnbalancedBlock(names[n])] else one;
            var short := !over && |block| < p.blockSize;
            var missing := if short then lacking + [IncompleteBlock(names[n])] else lacking;
            && (forall r :: r in all <==> r in reasons || BlamedUpTo(p, ds, names, n + 1, r))
            && (forall r :: r in missing <==> LacksUpTo(p, ds, names, n + 1, r))
  {
    hide OneIdentity, Overfull, InBlock;
    forall r
      ensures BlamedUpTo(p, ds, names, n + 1, r) <==> BlamedUpTo(p, ds, names, n, r) || BlockBlamed(p, ds, names[n], r)
      ensures LacksUpTo(p, ds, names, n + 1, r) <==> LacksUpTo(p, ds, names, n, r) || BlockLacks(p, ds, names[n], r)
    {
      BlamedPush(p, ds, names, n, r);
    }
    hide BlamedUpTo, LacksUpTo;
  }

  lemma BlamedPush(p: Protocol, ds: seq<Decision>, names: seq<string>, n: nat, r: Reason)
    requires n < |names|
    ensures BlamedUpTo(p, ds, names, n + 1, r) <==> BlamedUpTo(p, ds, names, n, r) || BlockBlamed(p, ds, names[n], r)
    ensures LacksUpTo(p, ds, names, n + 1, r) <==> LacksUpTo(p, ds, names, n, r) || BlockLacks(p, ds, names[n], r)
  {
    hide BlockBlamed, BlockLacks;
  }

  lemma NoneBlamed(p: Protocol, ds: seq<Decision>, names: seq<string>)
    ensures forall r :: !BlamedUpTo(p, ds, names, 0, r) && !LacksUpTo(p, ds, names, 0, r)
  {
  }

  lemma AllBlamed(p: Protocol, ds: seq<Decision>, blocks: Blocks)
    requires BlocksOf(ds, blocks)
    ensures forall r :: BlamedUpTo(p, ds, blocks.order, |blocks.order|, r) <==> BlockFault(p, ds, r)
    ensures forall r :: LacksUpTo(p, ds, blocks.order, |blocks.order|, r) <==> BlockGap(p, ds, r)
  {
    hide BlockBlamed, BlockLacks, BlocksOf;
    NamesListed(ds, blocks);
    forall i | 0 <= i < |ds| ensures exists j :: 0 <= j < |blocks.order| && blocks.order[j] == ds[i].block {
      assert ds[i].block in blocks.order;
    }
  }

  ghost predicate HasBlock(ds: seq<Decision>, name: string) {
    exists j :: 0 <= j < |ds| && ds[j].block == name
  }

  lemma NamesListed(ds: seq<Decision>, blocks: Blocks)
    requires BlocksOf(ds, blocks)
    ensures forall i :: 0 <= i < |ds| ==> ds[i].block in blocks.order
    ensures forall i :: 0 <= i < |blocks.order| ==> HasBlock(ds, blocks.order[i])
  {
    hide InBlock;
    forall i | 0 <= i < |ds| ensures ds[i].block in blocks.order {
      BlockHolds(ds, i);
      assert ds[i].block in blocks.at;
    }
    forall i | 0 <= i < |blocks.order| ensures HasBlock(ds, blocks.order[i]) {
      assert blocks.order[i] in blocks.at;
      var j := HeldBlock(ds, blocks.order[i]);
    }
  }

  method CheckBlocks(h: EventDigests, p: Protocol, ds: seq<Decision>, reasons: seq<Reason>)
    returns (out: seq<Reason>, incomplete: seq<Reason>)
    requires ProtocolOk(p) && AllDecisionsOk(h, p, ds)
    ensures out == [] <==> reasons == [] && BlocksMayFill(p, ds)
    ensures out == [] && incomplete == [] <==> reasons == [] && BlocksFull(p, ds)
    ensures forall r :: r in out <==> r in reasons || BlockFault(p, ds, r)
    ensures forall r :: r in incomplete <==> BlockGap(p, ds, r)
    ensures NoLimitReason(reasons) ==> NoLimitReason(out)
    ensures NoLimitReason(incomplete)
  {
    hide *;
    var blocks := GroupBlocks(ds);
    out, incomplete := reasons, [];
    NoneBlamed(p, ds, blocks.order);
    for n := 0 to |blocks.order|
      invariant forall r :: r in out <==> r in reasons || BlamedUpTo(p, ds, blocks.order, n, r)
      invariant forall r :: r in incomplete <==> LacksUpTo(p, ds, blocks.order, n, r)
    {
      BlockAt(ds, blocks, n);
      var name := blocks.order[n];
      var block := blocks.at[name];
      BlamePush(p, ds, blocks.order, n, out, incomplete, reasons);
      if !OneIdentity(block) {
        out := out + [ConflictingBlock(name)];
      }
      if Overfull(p, block, name) {
        out := out + [UnbalancedBlock(name)];
      } else if |block| < p.blockSize {
        incomplete := incomplete + [IncompleteBlock(name)];
      }
    }
    AllBlamed(p, ds, blocks);
    BlocksAreClean(h, p, ds, reasons, out, incomplete);
  }

  lemma BlockAt(ds: seq<Decision>, blocks: Blocks, n: nat)
    requires BlocksOf(ds, blocks) && n < |blocks.order|
    ensures blocks.order[n] in blocks.at && blocks.at[blocks.order[n]] == InBlock(ds, blocks.order[n])
  {
    hide InBlock;
  }

  /** Without a fault every block may fill; if none lacks a decision either, every one is full. */
  lemma BlocksAreClean(h: EventDigests, p: Protocol, ds: seq<Decision>, reasons: seq<Reason>, out: seq<Reason>,
                       incomplete: seq<Reason>)
    requires ProtocolOk(p) && AllDecisionsOk(h, p, ds)
    requires forall r :: r in out <==> r in reasons || BlockFault(p, ds, r)
    requires forall r :: r in incomplete <==> BlockGap(p, ds, r)
    ensures out == [] <==> reasons == [] && BlocksMayFill(p, ds)
    ensures out == [] && incomplete == [] <==> reasons == [] && BlocksFull(p, ds)
    ensures NoLimitReason(reasons) ==> NoLimitReason(out)
    ensures NoLimitReason(incomplete)
  {
    hide ProtocolOk, AllDecisionsOk, FullBlock, InArm, InBlock, OneIdentity, Overfull;
    NoReasons(reasons);
    NoReasons(out);
    NoReasons(incomplete);
    forall i | 0 <= i < |ds|
      ensures FullBlock(p, InBlock(ds, ds[i].block), ds[i].block)
         <==> MayFill(p, InBlock(ds, ds[i].block), ds[i].block) && |InBlock(ds, ds[i].block)| >= p.blockSize
    {
      MembersOfBlock(h, p, ds, ds[i].block);
      NeitherOverNorUnder(p, InBlock(ds, ds[i].block), ds[i].block);
    }
    forall i | 0 <= i < |ds| && !MayFill(p, InBlock(ds, ds[i].block), ds[i].block) ensures out != [] {
      assert BlockFault(p, ds, ConflictingBlock(ds[i].block)) || BlockFault(p, ds, UnbalancedBlock(ds[i].block)) by {
        var conflicting, unbalanced := ConflictingBlock(ds[i].block), UnbalancedBlock(ds[i].block);
        assert BlockBlamed(p, ds, ds[i].block, conflicting) || BlockBlamed(p, ds, ds[i].block, unbalanced);
      }
    }
    forall i | 0 <= i < |ds| && MayFill(p, InBlock(ds, ds[i].block), ds[i].block)
               && |InBlock(ds, ds[i].block)| < p.blockSize
      ensures incomplete != []
    {
      assert BlockLacks(p, ds, ds[i].block, IncompleteBlock(ds[i].block));
      assert BlockGap(p, ds, IncompleteBlock(ds[i].block));
    }
  }

  // ---------------------------------------------------------------- executions

  type Executed = map<string, Execution>

  predicate ExecutionGood(h: EventDigests, p: Protocol, byId: Index, e: Execution) {
    e.decisionId in byId.at && ExecutionOk(h, p, byId.at[e.decisionId], e)
  }

  ghost predicate ExecutedOk(h: EventDigests, p: Protocol, byId: Index, es: seq<Execution>, executed: Executed) {
    forall id :: id in executed ==>
        executed[id] in es && executed[id].decisionId == id && ExecutionGood(h, p, byId, executed[id])
  }

  /** Two counts that agree on everything but observed adherence. */
  ghost predicate SameTallies(a: map<string, Counts>, b: map<string, Counts>) {
    && (forall arm :: arm in a <==> arm in b)
    && forall arm :: arm in a && arm in b ==>
         a[arm].units == b[arm].units && a[arm].completed == b[arm].completed && a[arm].missing == b[arm].missing
  }

  ghost predicate AllExecutionsGood(h: EventDigests, p: Protocol, byId: Index, es: seq<Execution>) {
    forall i :: 0 <= i < |es| ==> ExecutionGood(h, p, byId, es[i])
  }

  ghost predicate Covers(es: seq<Execution>, executed: Executed) {
    forall i :: 0 <= i < |es| ==> es[i].decisionId in executed
  }

  /** Every good execution so far is indexed. */
  ghost predicate CoversGood(h: EventDigests, p: Protocol, byId: Index, es: seq<Execution>, executed: Executed) {
    forall i :: 0 <= i < |es| && ExecutionGood(h, p, byId, es[i]) ==> es[i].decisionId in executed
  }

  lemma CoversPush(h: EventDigests, p: Protocol, byId: Index, es: seq<Execution>, n: nat, executed: Executed)
    requires n < |es| && CoversGood(h, p, byId, es[..n], executed)
    ensures CoversGood(h, p, byId, es[..n + 1], executed[es[n].decisionId := es[n]])
    ensures !ExecutionGood(h, p, byId, es[n]) ==> CoversGood(h, p, byId, es[..n + 1], executed)
  {
    hide ExecutionGood;
    assert es[..n + 1] == es[..n] + [es[n]];
  }

  lemma ExecutedPut(h: EventDigests, p: Protocol, byId: Index, es: seq<Execution>, executed: Executed, e: Execution)
    requires ExecutedOk(h, p, byId, es, executed) && e in es && ExecutionGood(h, p, byId, e)
    ensures ExecutedOk(h, p, byId, es, executed[e.decisionId := e])
  {
    hide ExecutionGood;
  }

  lemma ExecutionsPush(h: EventDigests, p: Protocol, byId: Index, es: seq<Execution>, n: nat)
    requires n < |es|
    ensures AllExecutionsGood(h, p, byId, es[..n + 1])
       <==> AllExecutionsGood(h, p, byId, es[..n]) && ExecutionGood(h, p, byId, es[n])
  {
    hide ExecutionGood;
    assert es[..n + 1] == es[..n] + [es[n]];
  }

  lemma ExecutionsStart(h: EventDigests, p: Protocol, byId: Index, es: seq<Execution>, counts: map<string, Counts>)
    ensures AllExecutionsGood(h, p, byId, es[..0]) && ExecutedOk(h, p, byId, es, map[])
    ensures CoversGood(h, p, byId, es[..0], map[]) && SameTallies(counts, counts)
  {
  }

  lemma AllGoodCovers(h: EventDigests, p: Protocol, byId: Index, es: seq<Execution>, executed: Executed)
    requires CoversGood(h, p, byId, es, executed)
    ensures AllExecutionsGood(h, p, byId, es) ==> Covers(es, executed)
  {
    hide ExecutionGood;
  }

  /** The reason names an execution that does not pass. */
  ghost predicate ExecutionFault(h: EventDigests, p: Protocol, byId: Index, es: seq<Execution>, r: Reason) {
    exists k :: 0 <= k < |es| && !ExecutionGood(h, p, byId, es[k]) && r == BadExecution(es[k].executionId)
  }

  /** The execution passes, and no later one that passes is of its decision. */
  ghost predicate LastGood(h: EventDigests, p: Protocol, byId: Index, es: seq<Execution>, e: Execution) {
    exists k :: 0 <= k < |es| && es[k] == e && ExecutionGood(h, p, byId, e)
                && forall j :: k < j < |es| && ExecutionGood(h, p, byId, es[j]) ==> es[j].decisionId != e.decisionId
  }

  /** The index holds the last execution that passes of each decision. */
  ghost predicate HoldsLast(h: EventDigests, p: Protocol, byId: Index, es: seq<Execution>, executed: Executed) {
    && (forall id :: id in executed ==> executed[id].decisionId == id && LastGood(h, p, byId, es, executed[id]))
    && forall e :: LastGood(h, p, byId, es, e) ==> e.decisionId in executed && executed[e.decisionId] == e
  }

  predicate ConfirmedIn(h: EventDigests, p: Protocol, byId: Index, e: Execution, arm: string) {
    ExecutionGood(h, p, byId, e) && e.adherence == Confirmed && byId.at[e.decisionId].arm == arm
  }

  /** How many of the first n executions pass with confirmed adherence in an arm. */
  function Confirmations(h: EventDigests, p: Protocol, byId: Index, es: seq<Execution>, n: nat, arm: string): nat
    requires n <= |es|
  {
    if n == 0 then 0
    else Confirmations(h, p, byId, es, n - 1, arm) + if ConfirmedIn(h, p, byId, es[n - 1], arm) then 1 else 0
  }

  ghost predicate AdherentUpTo(h: EventDigests, p: Protocol, byId: Index, es: seq<Execution>, n: nat,
                               counts: map<string, Counts>, counted: map<string, Counts>)
    requires n <= |es|
  {
    forall arm :: arm in counts && arm in counted ==>
      counted[arm].adherent == counts[arm].adherent + Confirmations(h, p, byId, es, n, arm)
  }

  lemma LastGoodPush(h: EventDigests, p: Protocol, byId: Index, es: seq<Execution>, n: nat, e: Execution)
    requires n < |es|
    ensures LastGood(h, p, byId, es[..n + 1], e)
       <==> || (ExecutionGood(h, p, byId, es[n]) && e == es[n])
            || (LastGood(h, p, byId, es[..n], e)
                && !(ExecutionGood(h, p, byId, es[n]) && es[n].decisionId == e.decisionId))
  {
    hide ExecutionGood;
    var before, after := es[..n], es[..n + 1];
    assert after == before + [es[n]];
    if LastGood(h, p, byId, after, e) {
      var k :| 0 <= k < |after| && after[k] == e && ExecutionGood(h, p, byId, e)
               && forall j :: k < j < |after| && ExecutionGood(h, p, byId, after[j]) ==>
                    after[j].decisionId != e.decisionId;
      if k < n {
        assert before[k] == e && after[n] == es[n];
        assert forall j :: k < j < |before| ==> before[j] == after[j];
      }
    }
    if ExecutionGood(h, p, byId, es[n]) && e == es[n] {
      assert after[n] == e;
    } else if LastGood(h, p, byId, before, e)
              && !(ExecutionGood(h, p, byId, es[n]) && es[n].decisionId == e.decisionId) {
      var k :| 0 <= k < |before| && before[k] == e && ExecutionGood(h, p, byId, e)
               && forall j :: k < j < |before| && ExecutionGood(h, p, byId, before[j]) ==>
                    before[j].decisionId != e.decisionId;
      assert after[k] == e;
      assert forall j :: k < j < |after| ==> after[j] == if j < n then before[j] else es[n];
    }
  }

  lemma HoldsLastPush(h: EventDigests, p: Protocol, byId: Index, es: seq<Execution>, n: nat, executed: Executed)
    requires n < |es| && HoldsLast(h, p, byId, es[..n], executed)
    ensures ExecutionGood(h, p, byId, es[n]) ==>
              HoldsLast(h, p, byId, es[..n + 1], executed[es[n].decisionId := es[n]])
    ensures !ExecutionGood(h, p, byId, es[n]) ==> HoldsLast(h, p, byId, es[..n + 1], executed)
  {
    hide ExecutionGood, LastGood;
    forall e
      ensures LastGood(h, p, byId, es[..n + 1], e)
         <==> || (ExecutionGood(h, p, byId, es[n]) && e == es[n])
              || (LastGood(h, p, byId, es[..n], e)
                  && !(ExecutionGood(h, p, byId, es[n]) && es[n].decisionId == e.decisionId))
    {
      LastGoodPush(h, p, byId, es, n, e);
    }
  }

  lemma ExecutionFaultPush(h: EventDigests, p: Protocol, byId: Index, es: seq<Execution>, n: nat)
    requires n < |es|
    ensures forall r :: ExecutionFault(h, p, byId, es[..n + 1], r) <==>
              || ExecutionFault(h, p, byId, es[..n], r)
              || (!ExecutionGood(h, p, byId, es[n]) && r == BadExecution(es[n].executionId))
  {
    hide ExecutionGood;
    var before, after := es[..n], es[..n + 1];
    assert after[n] == es[n];
    assert forall i :: 0 <= i < n ==> after[i] == before[i];
    forall r | ExecutionFault(h, p, byId, before, r) ensures ExecutionFault(h, p, byId, after, r) {
      var i :| 0 <= i < |before| && !ExecutionGood(h, p, byId, before[i]) && r == BadExecution(before[i].executionId);
      assert after[i] == before[i];
    }
  }

  lemma NothingExecuted(h: EventDigests, p: Protocol, byId: Index, es: seq<Execution>, counts: map<string, Counts>)
    ensures HoldsLast(h, p, byId, es[..0], map[]) && forall r :: !ExecutionFault(h, p, byId, es[..0], r)
    ensures AdherentUpTo(h, p, byId, es, 0, counts, counts)
  {
  }

  lemma AdherentPush(h: EventDigests, p: Protocol, byId: Index, es: seq<Execution>, n: nat,
                     counts: map<string, Counts>, counted: map<string, Counts>)
    requires n < |es| && AdherentUpTo(h, p, byId, es, n, counts, counted)
    ensures ExecutionGood(h, p, byId, es[n]) && es[n].adherence == Confirmed
            && byId.at[es[n].decisionId].arm in counted ==>
              var arm := byId.at[es[n].decisionId].arm;
              AdherentUpTo(h, p, byId, es, n + 1, counts,
                           counted[arm := counted[arm].(adherent := counted[arm].adherent + 1)])
    ensures !(ExecutionGood(h, p, byId, es[n]) && es[n].adherence == Confirmed) ==>
              AdherentUpTo(h, p, byId, es, n + 1, counts, counted)
  {
    hide ExecutionOk;
  }

  /** The arm of the decision an execution is of; counting it there leaves the other counts alone. */
  method CountedArm(h: EventDigests, p: Protocol, byId: Index, e: Execution, ghost counts: map<string, Counts>,
                    counted: map<string, Counts>)
    returns (arm: string)
    requires IndexOk(h, p, byId) && ExecutionGood(h, p, byId, e)
    requires CountsOk(p, counts) && SameTallies(counts, counted)
    ensures arm in counted && arm == byId.at[e.decisionId].arm
    ensures SameTallies(counts, counted[arm := counted[arm].(adherent := counted[arm].adherent + 1)])
  {
    hide ExecutionOk, IsArm;
    arm := byId.at[e.decisionId].arm;
    assert DecisionOk(h, p, byId.at[e.decisionId]);
  }

  lemma GoodIsIndexed(h: EventDigests, p: Protocol, byId: Index, e: Execution)
    ensures ExecutionGood(h, p, byId, e) ==> e.decisionId in byId.at
  {
  }

  method BindExecutions(h: EventDigests, p: Protocol, byId: Index, es: seq<Execution>, counts: map<string, Counts>,
                        reasons: seq<Reason>)
    returns (executed: Executed, counted: map<string, Counts>, out: seq<Reason>)
    requires IndexOk(h, p, byId) && CountsOk(p, counts)
    ensures out == [] <==> reasons == [] && AllExecutionsGood(h, p, byId, es)
    ensures ExecutedOk(h, p, byId, es, executed)
    ensures AllExecutionsGood(h, p, byId, es) ==> Covers(es, executed)
    ensures SameTallies(counts, counted)
    ensures forall r :: r in out <==> r in reasons || ExecutionFault(h, p, byId, es, r)
    ensures HoldsLast(h, p, byId, es, executed)
    ensures AdherentUpTo(h, p, byId, es, |es|, counts, counted)
    ensures NoLimitReason(reasons) ==> NoLimitReason(out)
  {
    hide *;
    executed, counted, out := map[], counts, reasons;
    ExecutionsStart(h, p, byId, es, counts);
    NothingExecuted(h, p, byId, es, counts);
    for n := 0 to |es|
      invariant out == [] <==> reasons == [] && AllExecutionsGood(h, p, byId, es[..n])
      invariant ExecutedOk(h, p, byId, es, executed)
      invariant CoversGood(h, p, byId, es[..n], executed)
      invariant SameTallies(counts, counted)
      invariant forall r :: r in out <==> r in reasons || ExecutionFault(h, p, byId, es[..n], r)
      invariant HoldsLast(h, p, byId, es[..n], executed)
      invariant AdherentUpTo(h, p, byId, es, n, counts, counted)
      invariant NoLimitReason(reasons) ==> NoLimitReason(out)
    {
      var e := es[n];
      ExecutionFaultPush(h, p, byId, es, n);
      HoldsLastPush(h, p, byId, es, n, executed);
      GoodIsIndexed(h, p, byId, e);
      AdherentPush(h, p, byId, es, n, counts, counted);
      ExecutionsPush(h, p, byId, es, n);
      CoversPush(h, p, byId, es, n, executed);
      StillNoLimit(out, BadExecution(e.executionId));
      if !ExecutionGood(h, p, byId, e) {
        out := out + [BadExecution(e.executionId)];
      } else {
        ExecutedPut(h, p, byId, es, executed, e);
        executed := executed[e.decisionId := e];
        if e.adherence == Confirmed {
          var arm := CountedArm(h, p, byId, e, counts, counted);
          counted := counted[arm := counted[arm].(adherent := counted[arm].adherent + 1)];
        }
      }
    }
    assert es[..|es|] == es;
    AllGoodCovers(h, p, byId, es, executed);
  }

  // ---------------------------------------------------------------- outcomes

  predicate OutcomeGood(h: EventDigests, p: Protocol, executed: Executed, o: Outcome) {
    o.decisionId in executed && OutcomeOk(h, p, executed[o.decisionId], o)
  }

  predicate OutcomeOpen(h: EventDigests, p: Protocol, executed: Executed, o: Outcome) {
    o.decisionId in executed && OutcomeMayCount(h, p, executed[o.decisionId], o)
  }

  ghost predicate AllOutcomesOpen(h: EventDigests, p: Protocol, executed: Executed, os: seq<Outcome>) {
    forall i :: 0 <= i < |os| ==> OutcomeOpen(h, p, executed, os[i])
  }

  ghost predicate ObservedOk(h: EventDigests, p: Protocol, executed: Executed, os: seq<Outcome>,
                             observed: map<string, Outcome>) {
    forall id :: id in observed ==>
        observed[id] in os && observed[id].decisionId == id && OutcomeGood(h, p, executed, observed[id])
  }

  ghost predicate AllOutcomesGood(h: EventDigests, p: Protocol, executed: Executed, os: seq<Outcome>) {
    forall i :: 0 <= i < |os| ==> OutcomeGood(h, p, executed, os[i])
  }

  ghost predicate Observes(os: seq<Outcome>, observed: map<string, Outcome>) {
    forall i :: 0 <= i < |os| ==> os[i].decisionId in observed
  }

  /** The reason names an outcome that does not pass and is not awaited either. */
  ghost predicate OutcomeFault(h: EventDigests, p: Protocol, executed: Executed, os: seq<Outcome>, n: nat, r: Reason)
    requires n <= |os|
  {
    exists m :: 0 <= m < n && !OutcomeOpen(h, p, executed, os[m]) && r == BadOutcome(os[m].outcomeId)
  }

  /** Some outcome that may count is still awaited. */
  ghost predicate Awaiting(h: EventDigests, p: Protocol, executed: Executed, os: seq<Outcome>, n: nat)
    requires n <= |os|
  {
    exists m :: 0 <= m < n && OutcomeOpen(h, p, executed, os[m]) && os[m].maturity == Awaited
  }

  /** Some outcome of the decision passes. */
  ghost predicate Matures(h: EventDigests, p: Protocol, executed: Executed, os: seq<Outcome>, n: nat, id: string)
    requires n <= |os|
  {
    exists m :: 0 <= m < n && OutcomeGood(h, p, executed, os[m]) && os[m].decisionId == id
  }

  lemma OutcomePush(h: EventDigests, p: Protocol, executed: Executed, os: seq<Outcome>, n: nat)
    requires n < |os|
    ensures forall r :: OutcomeFault(h, p, executed, os, n + 1, r) <==>
              || OutcomeFault(h, p, executed, os, n, r)
              || (!OutcomeOpen(h, p, executed, os[n]) && r == BadOutcome(os[n].outcomeId))
    ensures Awaiting(h, p, executed, os, n + 1)
       <==> Awaiting(h, p, executed, os, n) || (OutcomeOpen(h, p, executed, os[n]) && os[n].maturity == Awaited)
    ensures forall id :: Matures(h, p, executed, os, n + 1, id) <==>
              Matures(h, p, executed, os, n, id) || (OutcomeGood(h, p, executed, os[n]) && os[n].decisionId == id)
  {
    hide OutcomeOpen, OutcomeGood;
    forall r | OutcomeFault(h, p, executed, os, n + 1, r)
      ensures || OutcomeFault(h, p, executed, os, n, r)
              || (!OutcomeOpen(h, p, executed, os[n]) && r == BadOutcome(os[n].outcomeId))
    {
      var m :| 0 <= m < n + 1 && !OutcomeOpen(h, p, executed, os[m]) && r == BadOutcome(os[m].outcomeId);
    }
    forall id | Matures(h, p, executed, os, n + 1, id)
      ensures Matures(h, p, executed, os, n, id) || (OutcomeGood(h, p, executed, os[n]) && os[n].decisionId == id)
    {
      var m :| 0 <= m < n + 1 && OutcomeGood(h, p, executed, os[m]) && os[m].decisionId == id;
    }
  }

  lemma ObservedPush(h: EventDigests, p: Protocol, executed: Executed, os: seq<Outcome>, n: nat,
                     observed: map<string, Outcome>)
    requires n < |os| && forall id :: id in observed <==> Matures(h, p, executed, os, n, id)
    ensures var next := observed[os[n].decisionId := os[n]];
            OutcomeGood(h, p, executed, os[n]) ==>
              forall id :: id in next <==> Matures(h, p, executed, os, n + 1, id)
    ensures !OutcomeGood(h, p, executed, os[n]) ==>
              forall id :: id in observed <==> Matures(h, p, executed, os, n + 1, id)
  {
    OutcomePush(h, p, executed, os, n);
    hide Matures, OutcomeGood;
  }

  lemma NothingObserved(h: EventDigests, p: Protocol, executed: Executed, os: seq<Outcome>)
    ensures forall r :: !OutcomeFault(h, p, executed, os, 0, r)
    ensures !Awaiting(h, p, executed, os, 0) && forall id :: !Matures(h, p, executed, os, 0, id)
    ensures ObservedOk(h, p, executed, os, map[])
  {
  }

  /** An outcome passes, is awaited, or has a fault. */
  lemma OutcomeKinds(h: EventDigests, p: Protocol, executed: Executed, o: Outcome)
    ensures OutcomeGood(h, p, executed, o)
       <==> && o.decisionId in executed && LineageOk(h, p, executed[o.decisionId], o)
            && o.maturity == Matured && ValuesOk(p, o)
    ensures OutcomeOpen(h, p, executed, o)
       <==> && o.decisionId in executed && LineageOk(h, p, executed[o.decisionId], o)
            && (o.maturity == Awaited || (o.maturity == Matured && ValuesOk(p, o)))
  {
    hide LineageOk, ValuesOk;
  }

  lemma ObservedPut(h: EventDigests, p: Protocol, executed: Executed, os: seq<Outcome>, observed: map<string, Outcome>,
                    o: Outcome)
    requires ObservedOk(h, p, executed, os, observed) && o in os && OutcomeGood(h, p, executed, o)
    ensures ObservedOk(h, p, executed, os, observed[o.decisionId := o])
  {
    hide OutcomeGood;
  }

  lemma NoReasons(reasons: seq<Reason>)
    ensures reasons == [] <==> forall r :: r !in reasons
  {
    if reasons != [] {
      assert reasons[0] in reasons;
    }
  }

  /** Without a fault every outcome may count; if none is awaited either, every one passes. */
  lemma OutcomesAreClean(h: EventDigests, p: Protocol, executed: Executed, os: seq<Outcome>, reasons: seq<Reason>,
                         out: seq<Reason>, pending: bool, observed: map<string, Outcome>)
    requires forall r :: r in out <==> r in reasons || OutcomeFault(h, p, executed, os, |os|, r)
    requires pending <==> Awaiting(h, p, executed, os, |os|)
    requires forall id :: id in observed <==> Matures(h, p, executed, os, |os|, id)
    ensures out == [] <==> reasons == [] && AllOutcomesOpen(h, p, executed, os)
    ensures out == [] && !pending <==> reasons == [] && AllOutcomesGood(h, p, executed, os)
    ensures AllOutcomesGood(h, p, executed, os) ==> Observes(os, observed)
    ensures NoLimitReason(reasons) ==> NoLimitReason(out)
  {
    hide OutcomeOpen, OutcomeGood;
    NoReasons(reasons);
    NoReasons(out);
    forall o: Outcome
      ensures OutcomeGood(h, p, executed, o) <==> OutcomeOpen(h, p, executed, o) && o.maturity != Awaited
    {
      OutcomeKinds(h, p, executed, o);
    }
    forall m | 0 <= m < |os| && !OutcomeOpen(h, p, executed, os[m]) ensures out != [] {
      assert OutcomeFault(h, p, executed, os, |os|, BadOutcome(os[m].outcomeId));
    }
  }

  method BindOutcomes(h: EventDigests, p: Protocol, executed: Executed, os: seq<Outcome>, reasons: seq<Reason>)
    returns (observed: map<string, Outcome>, pending: bool, out: seq<Reason>)
    ensures out == [] <==> reasons == [] && AllOutcomesOpen(h, p, executed, os)
    ensures out == [] && !pending <==> reasons == [] && AllOutcomesGood(h, p, executed, os)
    ensures ObservedOk(h, p, executed, os, observed)
    ensures AllOutcomesGood(h, p, executed, os) ==> Observes(os, observed)
    ensures forall r :: r in out <==> r in reasons || OutcomeFault(h, p, executed, os, |os|, r)
    ensures pending <==> Awaiting(h, p, executed, os, |os|)
    ensures forall id :: id in observed <==> Matures(h, p, executed, os, |os|, id)
    ensures NoLimitReason(reasons) ==> NoLimitReason(out)
  {
    hide *;
    observed, pending, out := map[], false, reasons;
    NothingObserved(h, p, executed, os);
    for n := 0 to |os|
      invariant forall r :: r in out <==> r in reasons || OutcomeFault(h, p, executed, os, n, r)
      invariant pending <==> Awaiting(h, p, executed, os, n)
      invariant forall id :: id in observed <==> Matures(h, p, executed, os, n, id)
      invariant ObservedOk(h, p, executed, os, observed)
    {
      var o := os[n];
      OutcomePush(h, p, executed, os, n);
      ObservedPush(h, p, executed, os, n, observed);
      OutcomeKinds(h, p, executed, o);
      if o.decisionId !in executed || !LineageOk(h, p, executed[o.decisionId], o) {
        out := out + [BadOutcome(o.outcomeId)];
      } else if o.maturity == Awaited {
        pending := true;
      } else if o.maturity != Matured || !ValuesOk(p, o) {
        out := out + [BadOutcome(o.outcomeId)];
      } else {
        ObservedPut(h, p, executed, os, observed, o);
        observed := observed[o.decisionId := o];
      }
    }
    OutcomesAreClean(h, p, executed, os, reasons, out, pending, observed);
  }

  // ---------------------------------------------------------------- completeness

  predicate Finished(executed: Executed, observed: map<string, Outcome>, d: Decision) {
    d.decisionId in executed && d.decisionId in observed
  }

  ghost predicate AllFinished(executed: Executed, observed: map<string, Outcome>, ds: seq<Decision>) {
    forall i :: 0 <= i < |ds| ==> Finished(executed, observed, ds[i])
  }

  lemma FinishedPush(executed: Executed, observed: map<string, Outcome>, ds: seq<Decision>, n: nat)
    requires n < |ds|
    ensures AllFinished(executed, observed, ds[..n + 1])
       <==> AllFinished(executed, observed, ds[..n]) && Finished(executed, observed, ds[n])
  {
    hide Finished;
    assert ds[..n + 1] == ds[..n] + [ds[n]];
  }

  /** How many decisions of a listing in an arm are carried out and observed. */
  function Done(executed: Executed, observed: map<string, Outcome>, ds: seq<Decision>, arm: string): nat {
    if ds == [] then 0
    else
      var d := ds[|ds| - 1];
      Done(executed, observed, ds[..|ds| - 1], arm) + if d.arm == arm && Finished(executed, observed, d) then 1 else 0
  }

  lemma DoneStep(executed: Executed, observed: map<string, Outcome>, ds: seq<Decision>, n: nat)
    requires n < |ds|
    ensures forall arm :: Done(executed, observed, ds[..n + 1], arm)
                       == Done(executed, observed, ds[..n], arm)
                          + if ds[n].arm == arm && Finished(executed, observed, ds[n]) then 1 else 0
  {
    hide Finished;
    assert ds[..n + 1][..n] == ds[..n];
  }

  /** Completed and missing decisions, n decisions in. */
  ghost predicate CompletedUpTo(executed: Executed, observed: map<string, Outcome>, ds: seq<Decision>, n: nat,
                                counts: map<string, Counts>, counted: map<string, Counts>)
    requires n <= |ds|
  {
    && (forall arm :: arm in counted <==> arm in counts)
    && forall arm :: arm in counted && arm in counts ==>
         && counted[arm].units == counts[arm].units && counted[arm].adherent == counts[arm].adherent
         && counted[arm].completed == Done(executed, observed, ds[..n], arm)
         && counted[arm].completed + counted[arm].missing == Assigned(ds[..n], arm)
  }

  lemma CompletedStep(executed: Executed, observed: map<string, Outcome>, ds: seq<Decision>, n: nat,
                      counts: map<string, Counts>, counted: map<string, Counts>)
    requires n < |ds| && CompletedUpTo(executed, observed, ds, n, counts, counted) && ds[n].arm in counted
    ensures var c := counted[ds[n].arm];
            var next := if Finished(executed, observed, ds[n]) then c.(completed := c.completed + 1)
                        else c.(missing := c.missing + 1);
            CompletedUpTo(executed, observed, ds, n + 1, counts, counted[ds[n].arm := next])
  {
    hide Finished, Done, Assigned;
    DoneStep(executed, observed, ds, n);
    AssignedStep(ds, n);
  }

  lemma CompletedStart(executed: Executed, observed: map<string, Outcome>, ds: seq<Decision>,
                       counts: map<string, Counts>)
    requires forall arm :: arm in counts ==> counts[arm].completed == 0 && counts[arm].missing == 0
    ensures CompletedUpTo(executed, observed, ds, 0, counts, counts)
  {
  }

  lemma NothingFinished(executed: Executed, observed: map<string, Outcome>, ds: seq<Decision>)
    ensures AllFinished(executed, observed, ds[..0])
  {
  }

  lemma ArmCounted(h: EventDigests, p: Protocol, ds: seq<Decision>, n: nat, counts: map<string, Counts>,
                   counted: map<string, Counts>, executed: Executed, observed: map<string, Outcome>)
    requires AllDecisionsOk(h, p, ds) && CountsOk(p, counts) && n < |ds|
    requires CompletedUpTo(executed, observed, ds, n, counts, counted)
    ensures ds[n].arm in counted
  {
    assert DecisionOk(h, p, ds[n]);
    hide IsArm, Done, Assigned;
  }

  lemma {:induction false} AllDone(executed: Executed, observed: map<string, Outcome>, ds: seq<Decision>, arm: string)
    requires AllFinished(executed, observed, ds)
    ensures Done(executed, observed, ds, arm) == Assigned(ds, arm)
    decreases |ds|
  {
    if ds != [] {
      AllDone(executed, observed, ds[..|ds| - 1], arm);
    }
  }

  lemma CompletedEnd(p: Protocol, executed: Executed, observed: map<string, Outcome>, ds: seq<Decision>,
                     counts: map<string, Counts>, counted: map<string, Counts>)
    requires CountsOk(p, counts) && CompletedUpTo(executed, observed, ds, |ds|, counts, counted)
    ensures CountsOk(p, counted)
    ensures forall arm :: arm in counted ==> arm in counts && counted[arm].units == counts[arm].units
    ensures AllFinished(executed, observed, ds) ==> forall arm :: arm in counted ==>
              counted[arm].missing == 0 && counted[arm].completed == Assigned(ds, arm)
  {
    hide IsArm, Done, Assigned, Finished, AllFinished;
    assert ds[..|ds|] == ds;
    if AllFinished(executed, observed, ds) {
      forall arm | arm in counted ensures counted[arm].completed == Assigned(ds, arm) {
        AllDone(executed, observed, ds, arm);
      }
    }
  }

  method CountCompleted(h: EventDigests, p: Protocol, ds: seq<Decision>, executed: Executed,
                        observed: map<string, Outcome>, counts: map<string, Counts>, wasPending: bool)
    returns (counted: map<string, Counts>, pending: bool)
    requires AllDecisionsOk(h, p, ds) && CountsOk(p, counts)
    requires forall arm :: arm in counts ==> counts[arm].completed == 0 && counts[arm].missing == 0
    ensures pending <==> wasPending || !AllFinished(executed, observed, ds)
    ensures CountsOk(p, counted)
    ensures forall arm :: arm in counted ==> arm in counts && counted[arm].units == counts[arm].units
    ensures !pending ==> forall arm :: arm in counted ==>
            counted[arm].missing == 0 && counted[arm].completed == Assigned(ds, arm)
    ensures CompletedUpTo(executed, observed, ds, |ds|, counts, counted)
  {
    hide *;
    counted, pending := counts, wasPending;
    CompletedStart(executed, observed, ds, counts);
    NothingFinished(executed, observed, ds);
    for n := 0 to |ds|
      invariant pending <==> wasPending || !AllFinished(executed, observed, ds[..n])
      invariant CompletedUpTo(executed, observed, ds, n, counts, counted)
    {
      var d := ds[n];
      ArmCounted(h, p, ds, n, counts, counted, executed, observed);
      FinishedPush(executed, observed, ds, n);
      CompletedStep(executed, observed, ds, n, counts, counted);
      if Finished(executed, observed, d) {
        counted := counted[d.arm := counted[d.arm].(completed := counted[d.arm].completed + 1)];
      } else {
        counted := counted[d.arm := counted[d.arm].(missing := counted[d.arm].missing + 1)];
        pending := true;
      }
    }
    assert ds[..|ds|] == ds;
    CompletedEnd(p, executed, observed, ds, counts, counted);
  }

  // ---------------------------------------------------------------- gates on the counts

  ghost predicate Supported(p: Protocol, counts: map<string, Counts>) {
    forall i :: 0 <= i < |p.arms| ==> p.arms[i].armId in counts && counts[p.arms[i].armId].units > 0
  }

  /** The reason names an arm without a decision. */
  ghost predicate SupportFault(p: Protocol, counts: map<string, Counts>, n: nat, r: Reason)
    requires n <= |p.arms|
  {
    exists i :: 0 <= i < n && p.arms[i].armId in counts && counts[p.arms[i].armId].units == 0
                && r == NoSupport(p.arms[i].armId)
  }

  method CheckSupport(p: Protocol, counts: map<string, Counts>, reasons: seq<Reason>) returns (out: seq<Reason>)
    requires CountsOk(p, counts)
    ensures out == [] <==> reasons == [] && Supported(p, counts)
    ensures forall r :: r in out <==> r in reasons || SupportFault(p, counts, |p.arms|, r)
    ensures NoLimitReason(reasons) ==> NoLimitReason(out)
  {
    out := reasons;
    for n := 0 to |p.arms|
      invariant out == [] <==> reasons == [] && forall i :: 0 <= i < n ==> counts[p.arms[i].armId].units > 0
      invariant forall r :: r in out <==> r in reasons || SupportFault(p, counts, n, r)
      invariant NoLimitReason(reasons) ==> NoLimitReason(out)
    {
      if counts[p.arms[n].armId].units == 0 {
        out := out + [NoSupport(p.arms[n].armId)];
      }
    }
  }

  /** The declared missingness limit, and then the declared sample floor. */
  method CheckLimits(p: Protocol, counts: map<string, Counts>) returns (over: seq<Reason>, under: seq<Reason>)
    requires CountsOk(p, counts)
    ensures over == [] <==> forall i :: 0 <= i < |p.arms| ==> !OverLimit(p, counts[p.arms[i].armId])
    ensures under == [] <==> forall i :: 0 <= i < |p.arms| ==> counts[p.arms[i].armId].completed >= p.minCompleted
    ensures forall r :: r in under <==>
              exists i :: 0 <= i < |p.arms| && counts[p.arms[i].armId].completed < p.minCompleted
                          && r == Underpowered(p.arms[i].armId)
    ensures NoLimitReason(under)
  {
    over, under := [], [];
    for n := 0 to |p.arms|
      invariant over == [] <==> forall i :: 0 <= i < n ==> !OverLimit(p, counts[p.arms[i].armId])
      invariant under == [] <==> forall i :: 0 <= i < n ==> counts[p.arms[i].armId].completed >= p.minCompleted
      invariant forall r :: r in under <==>
                  exists i :: 0 <= i < n && counts[p.arms[i].armId].completed < p.minCompleted
                              && r == Underpowered(p.arms[i].armId)
      invariant NoLimitReason(under)
    {
      if OverLimit(p, counts[p.arms[n].armId]) {
        over := over + [MissingnessLimit(p.arms[n].armId)];
      }
      if counts[p.arms[n].armId].completed < p.minCompleted {
        under := under + [Underpowered(p.arms[n].armId)];
      }
    }
  }

  predicate OverLimit(p: Protocol, c: Counts) {
    c.units > 0 && c.missing as real / c.units as real > p.maxMissing
  }

  lemma NothingMissing(p: Protocol, c: Counts)
    requires ProtocolOk(p) && c.missing == 0
    ensures !OverLimit(p, c)
  {
  }

  // ---------------------------------------------------------------- lookups in a clean study

  lemma LookupDecision(ds: seq<Decision>, byId: Index, d: Decision)
    requires Lists(byId, ds) && d in ds
    ensures d.decisionId in byId.at && byId.at[d.decisionId] == d
  {
    var i :| 0 <= i < |ds| && ds[i] == d;
    assert byId.order[i] == d.decisionId;
  }

  lemma ExecutionBindsExactly(h: EventDigests, p: Protocol, ds: seq<Decision>, byId: Index, e: Execution)
    requires Lists(byId, ds) && Ok(byId)
    ensures ExecutionBinds(h, p, ds, e) <==> ExecutionGood(h, p, byId, e)
  {
    hide ExecutionOk;
    if ExecutionBinds(h, p, ds, e) {
      var d :| d in ds && d.decisionId == e.decisionId && ExecutionOk(h, p, d, e);
      LookupDecision(ds, byId, d);
    }
    if ExecutionGood(h, p, byId, e) {
      var i :| 0 <= i < |byId.order| && byId.order[i] == e.decisionId;
      assert ds[i] in ds && byId.at[e.decisionId] == ds[i];
    }
  }

  lemma LookupExecution(h: EventDigests, es: seq<Execution>, byId: Index, executed: Executed, e: Execution, p: Protocol)
    requires Distinct(ExecutionTargets(es)) && ExecutedOk(h, p, byId, es, executed) && e in es
             && e.decisionId in executed
    ensures executed[e.decisionId] == e
  {
    hide ExecutionGood;
    var x := executed[e.decisionId];
    var i :| 0 <= i < |es| && es[i] == e;
    var j :| 0 <= j < |es| && es[j] == x;
    assert ExecutionTargets(es)[i] == ExecutionTargets(es)[j];
  }

  lemma OutcomeBindsExactly(h: EventDigests, p: Protocol, es: seq<Execution>, byId: Index, executed: Executed,
                            o: Outcome)
    requires Distinct(ExecutionTargets(es)) && ExecutedOk(h, p, byId, es, executed)
    requires forall i :: 0 <= i < |es| ==> es[i].decisionId in executed
    ensures OutcomeBinds(h, p, es, o) <==> OutcomeGood(h, p, executed, o)
  {
    hide OutcomeOk, ExecutionGood, Distinct;
    if OutcomeBinds(h, p, es, o) {
      var e :| e in es && e.decisionId == o.decisionId && OutcomeOk(h, p, e, o);
      LookupExecution(h, es, byId, executed, e, p);
    }
    if OutcomeGood(h, p, executed, o) {
      assert executed[o.decisionId] in es;
    }
  }

  // ---------------------------------------------------------------- the verdict

  /** What the loops establish when they leave no reason behind. */
  lemma CleanMeansBound(h: EventDigests, s: Study, byId: Index, executed: Executed, observed: map<string, Outcome>)
    requires IdsDistinct(s) && Lists(byId, s.decisions) && Ok(byId)
    requires ExecutedOk(h, s.protocol, byId, s.executions, executed)
    requires forall i :: 0 <= i < |s.executions| ==> s.executions[i].decisionId in executed
    requires ObservedOk(h, s.protocol, executed, s.outcomes, observed)
    requires forall i :: 0 <= i < |s.outcomes| ==> s.outcomes[i].decisionId in observed
    ensures forall i :: 0 <= i < |s.decisions| ==>
            (Finished(executed, observed, s.decisions[i]) <==> Complete(s, s.decisions[i]))
  {
    hide Distinct, ExecutionGood, OutcomeGood;
    forall id ensures id in executed <==> id in ExecutionTargets(s.executions) {
      if id in executed {
        var i :| 0 <= i < |s.executions| && s.executions[i] == executed[id];
        assert ExecutionTargets(s.executions)[i] == id;
      }
    }
    forall id ensures id in observed <==> id in OutcomeTargets(s.outcomes) {
      if id in observed {
        var i :| 0 <= i < |s.outcomes| && s.outcomes[i] == observed[id];
        assert OutcomeTargets(s.outcomes)[i] == id;
      }
    }
  }

  /** Full blocks support both arms. */
  lemma FullBlocksSupport(p: Protocol, ds: seq<Decision>, i: nat)
    requires ProtocolOk(p) && BlocksFull(p, ds) && ds != [] && i < |p.arms|
    ensures Assigned(ds, p.arms[i].armId) > 0
  {
    hide InBlock, Assigned;
    assert FullBlock(p, InBlock(ds, ds[0].block), ds[0].block);
    BlockWithinStudy(ds, ds[0].block, p.arms[i].armId);
  }

  lemma {:induction false} BlockWithinStudy(ds: seq<Decision>, b: string, arm: string)
    ensures InArm(InBlock(ds, b), b, arm) <= Assigned(ds, arm)
    decreases |ds|
  {
    if ds != [] {
      var n := |ds| - 1;
      BlockWithinStudy(ds[..n], b, arm);
      if ds[n].block == b {
        InArmPush(InBlock(ds[..n], b), ds[n], b, arm);
      } else {
        assert InBlock(ds, b) == InBlock(ds[..n], b);
      }
    }
  }

  lemma IndexListed(h: EventDigests, p: Protocol, byId: Index)
    requires IndexOk(h, p, byId)
    ensures forall i :: 0 <= i < |byId.order| ==> byId.order[i] in byId.at
    ensures AllDecisionsOk(h, p, Listed(byId)) && Ok(byId)
  {
    hide DecisionOk;
  }

  lemma ListedIsStudy(byId: Index, ds: seq<Decision>)
    requires Lists(byId, ds) && forall i :: 0 <= i < |byId.order| ==> byId.order[i] in byId.at
    ensures Listed(byId) == ds
  {
  }

  /** Executions that pass against the index are those that bind a decision of the study. */
  lemma ExecutionsBind(h: EventDigests, p: Protocol, ds: seq<Decision>, byId: Index, es: seq<Execution>)
    requires Lists(byId, ds) && Ok(byId)
    ensures (forall i :: 0 <= i < |es| ==> ExecutionGood(h, p, byId, es[i]))
       <==> forall i :: 0 <= i < |es| ==> ExecutionBinds(h, p, ds, es[i])
  {
    hide ExecutionGood, ExecutionBinds, Lists;
    forall e: Execution ensures ExecutionBinds(h, p, ds, e) <==> ExecutionGood(h, p, byId, e) {
      ExecutionBindsExactly(h, p, ds, byId, e);
    }
  }

  lemma OutcomesBind(h: EventDigests, p: Protocol, es: seq<Execution>, byId: Index, executed: Executed,
                     os: seq<Outcome>)
    requires Distinct(ExecutionTargets(es)) && ExecutedOk(h, p, byId, es, executed)
    requires forall i :: 0 <= i < |es| ==> es[i].decisionId in executed
    ensures (forall i :: 0 <= i < |os| ==> OutcomeGood(h, p, executed, os[i]))
       <==> forall i :: 0 <= i < |os| ==> OutcomeBinds(h, p, es, os[i])
  {
    hide OutcomeGood, OutcomeBinds, Distinct, ExecutedOk;
    forall o: Outcome ensures OutcomeBinds(h, p, es, o) <==> OutcomeGood(h, p, executed, o) {
      OutcomeBindsExactly(h, p, es, byId, executed, o);
    }
  }

  lemma OutcomesMayBind(h: EventDigests, p: Protocol, es: seq<Execution>, byId: Index, executed: Executed,
                        os: seq<Outcome>)
    requires Distinct(ExecutionTargets(es)) && ExecutedOk(h, p, byId, es, executed)
    requires forall i :: 0 <= i < |es| ==> es[i].decisionId in executed
    ensures AllOutcomesOpen(h, p, executed, os) <==> forall i :: 0 <= i < |os| ==> OutcomeMayBind(h, p, es, os[i])
  {
    hide OutcomeMayCount, Distinct, ExecutionGood;
    forall o: Outcome ensures OutcomeMayBind(h, p, es, o) <==> OutcomeOpen(h, p, executed, o) {
      if OutcomeMayBind(h, p, es, o) {
        var e :| e in es && e.decisionId == o.decisionId && OutcomeMayCount(h, p, e, o);
        LookupExecution(h, es, byId, executed, e, p);
      }
      if OutcomeOpen(h, p, executed, o) {
        assert executed[o.decisionId] in es;
      }
    }
    hide OutcomeOpen, OutcomeMayBind;
  }

  lemma TargetsDistinct(s: Study)
    requires IdsDistinct(s)
    ensures Distinct(DecisionIds(s.decisions)) && Distinct(ExecutionTargets(s.executions))
  {
  }

  /** The gates before the sample floor. */
  ghost predicate Sound(h: EventDigests, s: Study) {
    && s.decisions != [] && IdsDistinct(s)
    && AllDecisionsOk(h, s.protocol, s.decisions) && ChainOk(s.protocol, s.decisions)
    && BlocksFull(s.protocol, s.decisions)
    && (forall i :: 0 <= i < |s.executions| ==> ExecutionBinds(h, s.protocol, s.decisions, s.executions[i]))
    && (forall i :: 0 <= i < |s.outcomes| ==> OutcomeBinds(h, s.protocol, s.executions, s.outcomes[i]))
    && (forall i :: 0 <= i < |s.decisions| ==> Complete(s, s.decisions[i]))
  }

  /** Nothing stands against the study, though blocks may lack units and outcomes may be awaited or absent. */
  ghost predicate Blameless(h: EventDigests, s: Study) {
    && IdsDistinct(s)
    && AllDecisionsOk(h, s.protocol, s.decisions) && ChainOk(s.protocol, s.decisions)
    && BlocksMayFill(s.protocol, s.decisions)
    && (forall i :: 0 <= i < |s.executions| ==> ExecutionBinds(h, s.protocol, s.decisions, s.executions[i]))
    && (forall i :: 0 <= i < |s.outcomes| ==> OutcomeMayBind(h, s.protocol, s.executions, s.outcomes[i]))
    && (forall i :: 0 <= i < |s.protocol.arms| ==> Assigned(s.decisions, s.protocol.arms[i].armId) > 0)
  }

  lemma QualifiesSplits(h: EventDigests, s: Study)
    ensures Qualifies(h, s) <==> ProtocolOk(s.protocol) && Sound(h, s) && Powered(s.protocol, s.decisions)
  {
    hide ProtocolOk, IdsDistinct, AllDecisionsOk, ChainOk, BlocksFull, ExecutionBinds, OutcomeBinds, Complete, Powered;
  }

  /** In a study whose decisions are clean, passing the loops is passing the gates. */
  lemma CleanStudyIsSound(h: EventDigests, s: Study, byId: Index, executed: Executed, observed: map<string, Outcome>)
    requires IdsDistinct(s) && Lists(byId, s.decisions) && Ok(byId)
    requires ExecutedOk(h, s.protocol, byId, s.executions, executed)
    requires AllExecutionsGood(h, s.protocol, byId, s.executions) ==> Covers(s.executions, executed)
    requires ObservedOk(h, s.protocol, executed, s.outcomes, observed)
    requires AllExecutionsGood(h, s.protocol, byId, s.executions)
             && AllOutcomesGood(h, s.protocol, executed, s.outcomes)
             ==> Observes(s.outcomes, observed)
    ensures && AllExecutionsGood(h, s.protocol, byId, s.executions)
            && AllOutcomesGood(h, s.protocol, executed, s.outcomes)
            && AllFinished(executed, observed, s.decisions)
       <==> && (forall i :: 0 <= i < |s.executions| ==> ExecutionBinds(h, s.protocol, s.decisions, s.executions[i]))
            && (forall i :: 0 <= i < |s.outcomes| ==> OutcomeBinds(h, s.protocol, s.executions, s.outcomes[i]))
            && (forall i :: 0 <= i < |s.decisions| ==> Complete(s, s.decisions[i]))
  {
    hide IdsDistinct, Lists, ExecutedOk, ObservedOk, ExecutionBinds, OutcomeBinds, Complete, Finished, ExecutionGood,
         OutcomeGood, Ok, Distinct, OutcomeTargets, ExecutionTargets;
    TargetsDistinct(s);
    ExecutionsBind(h, s.protocol, s.decisions, byId, s.executions);
    if AllExecutionsGood(h, s.protocol, byId, s.executions) {
      OutcomesBind(h, s.protocol, s.executions, byId, executed, s.outcomes);
      if AllOutcomesGood(h, s.protocol, executed, s.outcomes) {
        CleanMeansBound(h, s, byId, executed, observed);
      }
    }
  }

  lemma SupportOfFullBlocks(p: Protocol, ds: seq<Decision>, counts: map<string, Counts>)
    requires ProtocolOk(p) && BlocksFull(p, ds) && ds != [] && CountsOk(p, counts)
    requires forall arm :: arm in counts ==> counts[arm].units == Assigned(ds, arm)
    ensures Supported(p, counts)
  {
    hide Assigned, BlocksFull;
    forall i | 0 <= i < |p.arms| ensures p.arms[i].armId in counts && counts[p.arms[i].armId].units > 0 {
      assert IsArm(p, p.arms[i].armId);
      FullBlocksSupport(p, ds, i);
    }
  }

  lemma NoSupportWithoutDecisions(p: Protocol, counts: map<string, Counts>)
    requires ProtocolOk(p) && CountsOk(p, counts) && forall arm :: arm in counts ==> counts[arm].units == 0
    ensures p.arms[0].armId in counts && counts[p.arms[0].armId].units == 0
  {
    assert IsArm(p, p.arms[0].armId);
  }

  /** Which checks have left no reason against the study, this one and all before it. */
  datatype Passed = Passed(
    ids: bool, decisions: bool, chain: bool, blocks: bool, executions: bool, outcomes: bool, support: bool)

  /** The chain of checks comes out clean exactly for a sound study. */
  lemma GatesMean(h: EventDigests, s: Study, byId: Index, ds: seq<Decision>, executed: Executed,
                  observed: map<string, Outcome>, counts: map<string, Counts>, passed: Passed, full: bool,
                  awaiting: bool, pending: bool)
    requires ProtocolOk(s.protocol) && CountsOk(s.protocol, counts) && Ok(byId)
    requires passed.ids <==> IdsDistinct(s)
    requires passed.decisions <==> passed.ids && AllDecisionsOk(h, s.protocol, s.decisions)
    requires passed.decisions && Distinct(DecisionIds(s.decisions)) ==> Lists(byId, s.decisions)
    requires forall i :: 0 <= i < |byId.order| ==> byId.order[i] in byId.at
    requires ds == Listed(byId)
    requires passed.chain <==> passed.decisions && ChainOk(s.protocol, ds)
    requires passed.blocks && full <==> passed.chain && BlocksFull(s.protocol, ds)
    requires passed.blocks ==> passed.chain
    requires passed.executions <==> passed.blocks && AllExecutionsGood(h, s.protocol, byId, s.executions)
    requires ExecutedOk(h, s.protocol, byId, s.executions, executed)
    requires AllExecutionsGood(h, s.protocol, byId, s.executions) ==> Covers(s.executions, executed)
    requires passed.outcomes && !awaiting <==> passed.executions && AllOutcomesGood(h, s.protocol, executed, s.outcomes)
    requires passed.outcomes ==> passed.executions
    requires ObservedOk(h, s.protocol, executed, s.outcomes, observed)
    requires AllOutcomesGood(h, s.protocol, executed, s.outcomes) ==> Observes(s.outcomes, observed)
    requires pending <==> awaiting || !AllFinished(executed, observed, ds)
    requires forall arm :: arm in counts ==> counts[arm].units == Assigned(ds, arm)
    requires passed.support <==> passed.outcomes && Supported(s.protocol, counts)
    ensures passed.support && s.decisions != [] && !pending && full <==> Sound(h, s)
    ensures passed.decisions ==> ds == s.decisions
    ensures s.decisions == [] ==> !passed.support
  {
    hide IdsDistinct, AllDecisionsOk, Lists, ChainOk, BlocksFull, AllExecutionsGood, ExecutedOk, Covers,
         AllOutcomesGood, ObservedOk, Observes, AllFinished, CountsOk, ProtocolOk, Listed, ExecutionBinds,
         OutcomeBinds, Complete, Ok, Distinct, DecisionIds;
    if passed.decisions {
      TargetsDistinct(s);
      ListedIsStudy(byId, s.decisions);
      CleanStudyIsSound(h, s, byId, executed, observed);
      if ds == [] {
        NoSupportWithoutDecisions(s.protocol, counts);
        TwoArms(s.protocol);
      } else if BlocksFull(s.protocol, ds) {
        SupportOfFullBlocks(s.protocol, ds, counts);
      }
    }
  }

  lemma SupportMeans(p: Protocol, ds: seq<Decision>, counts: map<string, Counts>)
    requires CountsOk(p, counts) && forall arm :: arm in counts ==> counts[arm].units == Assigned(ds, arm)
    ensures Supported(p, counts) <==> forall i :: 0 <= i < |p.arms| ==> Assigned(ds, p.arms[i].armId) > 0
  {
    hide Assigned;
    assert forall i :: 0 <= i < |p.arms| ==> IsArm(p, p.arms[i].armId);
  }

  /** The chain of checks leaves no reason exactly for a blameless study. */
  lemma NoReasonMeans(h: EventDigests, s: Study, byId: Index, ds: seq<Decision>, executed: Executed,
                      counts: map<string, Counts>, passed: Passed)
    requires CountsOk(s.protocol, counts) && Ok(byId)
    requires passed.ids <==> IdsDistinct(s)
    requires passed.decisions <==> passed.ids && AllDecisionsOk(h, s.protocol, s.decisions)
    requires passed.decisions && Distinct(DecisionIds(s.decisions)) ==> Lists(byId, s.decisions)
    requires forall i :: 0 <= i < |byId.order| ==> byId.order[i] in byId.at
    requires ds == Listed(byId)
    requires passed.chain <==> passed.decisions && ChainOk(s.protocol, ds)
    requires passed.blocks <==> passed.chain && BlocksMayFill(s.protocol, ds)
    requires passed.executions <==> passed.blocks && AllExecutionsGood(h, s.protocol, byId, s.executions)
    requires ExecutedOk(h, s.protocol, byId, s.executions, executed)
    requires AllExecutionsGood(h, s.protocol, byId, s.executions) ==> Covers(s.executions, executed)
    requires passed.outcomes <==> passed.executions && AllOutcomesOpen(h, s.protocol, executed, s.outcomes)
    requires forall arm :: arm in counts ==> counts[arm].units == Assigned(ds, arm)
    requires passed.support <==> passed.outcomes && Supported(s.protocol, counts)
    ensures passed.support <==> Blameless(h, s)
  {
    hide IdsDistinct, AllDecisionsOk, Lists, ChainOk, BlocksMayFill, ExecutedOk, AllOutcomesOpen, CountsOk, Listed,
         ExecutionBinds, OutcomeMayBind, Ok, Distinct, DecisionIds, ExecutionGood, Supported, Assigned,
         ExecutionTargets;
    if passed.decisions {
      TargetsDistinct(s);
      ListedIsStudy(byId, s.decisions);
      SupportMeans(s.protocol, ds, counts);
      ExecutionsBind(h, s.protocol, s.decisions, byId, s.executions);
      if AllExecutionsGood(h, s.protocol, byId, s.executions) {
        OutcomesMayBind(h, s.protocol, s.executions, byId, executed, s.outcomes);
      }
    }
  }

  lemma TwoArms(p: Protocol)
    requires ProtocolOk(p)
    ensures |p.arms| == 2
  {
  }

  lemma HeldHasNoLimit(incomplete: seq<Reason>, still: bool)
    requires NoLimitReason(incomplete)
    ensures NoLimitReason(incomplete + if still then [StillIncomplete] else [])
  {
  }

  lemma ListedIds(byId: Index, ds: seq<Decision>)
    requires Lists(byId, ds)
    ensures byId.order == DecisionIds(ds)
  {
  }

  /** What the loops have taken from the records: the decisions that stay, in order, the last execution that
      passes of each, and the decisions of which an outcome passes. */
  ghost predicate Gathered(h: EventDigests, s: Study, byId: Index, ds: seq<Decision>, executed: Executed,
                           observed: map<string, Outcome>) {
    && Ok(byId) && Indexes(h, s.protocol, s.decisions, byId) && Lists(byId, ds)
    && HoldsLast(h, s.protocol, byId, s.executions, executed)
    && forall id :: id in observed <==> Matures(h, s.protocol, executed, s.outcomes, |s.outcomes|, id)
  }

  /** Everything that can stand against a study before the limits. */
  ghost predicate Blamed(h: EventDigests, s: Study, byId: Index, ds: seq<Decision>, executed: Executed, r: Reason) {
    || IdFault(s, r) || DecisionFault(h, s.protocol, s.decisions, r)
    || ChainFault(s.protocol, ds, |ds|, r) || BlockFault(s.protocol, ds, r)
    || ExecutionFault(h, s.protocol, byId, s.executions, r)
    || OutcomeFault(h, s.protocol, executed, s.outcomes, |s.outcomes|, r)
    || ArmFault(s.protocol, ds, r)
  }

  ghost predicate ArmFault(p: Protocol, ds: seq<Decision>, r: Reason) {
    exists i :: 0 <= i < |p.arms| && Assigned(ds, p.arms[i].armId) == 0 && r == NoSupport(p.arms[i].armId)
  }

  /** Everything that can keep a study collecting. */
  ghost predicate HeldUp(h: EventDigests, s: Study, ds: seq<Decision>, executed: Executed,
                         observed: map<string, Outcome>, r: Reason) {
    || BlockGap(s.protocol, ds, r)
    || (r == StillIncomplete && (|| Awaiting(h, s.protocol, executed, s.outcomes, |s.outcomes|)
                                 || !AllFinished(executed, observed, ds) || s.decisions == []))
  }

  ghost predicate CountsSay(h: EventDigests, s: Study, byId: Index, ds: seq<Decision>, executed: Executed,
                            observed: map<string, Outcome>, counts: map<string, Counts>) {
    CountsOk(s.protocol, counts) && forall arm :: arm in counts ==>
      && counts[arm].units == Assigned(ds, arm) == counts[arm].completed + counts[arm].missing
      && counts[arm].completed == Done(executed, observed, ds, arm)
      && counts[arm].adherent == Confirmations(h, s.protocol, byId, s.executions, |s.executions|, arm)
  }

  /** The reasons, held-up ones apart, and the counts are those of what the loops have taken. */
  ghost predicate Reported(h: EventDigests, s: Study, counts: map<string, Counts>, reasons: seq<Reason>,
                           held: seq<Reason>) {
    exists byId, ds, executed, observed ::
      && Gathered(h, s, byId, ds, executed, observed) && CountsSay(h, s, byId, ds, executed, observed, counts)
      && (forall r :: r in reasons <==> Blamed(h, s, byId, ds, executed, r))
      && (forall r :: r in held <==> HeldUp(h, s, ds, executed, observed, r))
  }

  lemma ListedIsListed(h: EventDigests, p: Protocol, byId: Index)
    requires IndexOk(h, p, byId)
    ensures forall i :: 0 <= i < |byId.order| ==> byId.order[i] in byId.at
    ensures Ok(byId) && Lists(byId, Listed(byId))
  {
    hide DecisionOk;
  }

  lemma ArmFaultIs(p: Protocol, ds: seq<Decision>, counts: map<string, Counts>)
    requires CountsOk(p, counts) && forall arm :: arm in counts ==> counts[arm].units == Assigned(ds, arm)
    ensures forall r :: SupportFault(p, counts, |p.arms|, r) <==> ArmFault(p, ds, r)
  {
    hide Assigned;
    assert forall i :: 0 <= i < |p.arms| ==> IsArm(p, p.arms[i].armId);
  }

  lemma CountsSaid(h: EventDigests, s: Study, byId: Index, ds: seq<Decision>, executed: Executed,
                   observed: map<string, Outcome>, counted: map<string, Counts>, adherent: map<string, Counts>,
                   counts: map<string, Counts>)
    requires CountsOk(s.protocol, counted) && CountsOk(s.protocol, counts) && SameTallies(counted, adherent)
    requires forall arm :: arm in counted ==> counted[arm] == Counts(Assigned(ds, arm), 0, 0, 0)
    requires AdherentUpTo(h, s.protocol, byId, s.executions, |s.executions|, counted, adherent)
    requires CompletedUpTo(executed, observed, ds, |ds|, adherent, counts)
    ensures CountsSay(h, s, byId, ds, executed, observed, counts)
  {
    hide Assigned, Done, Confirmations, IsArm;
    assert ds[..|ds|] == ds;
  }

  lemma HeldSaid(h: EventDigests, s: Study, ds: seq<Decision>, executed: Executed, observed: map<string, Outcome>,
                 incomplete: seq<Reason>, awaiting: bool, pending: bool)
    requires forall r :: r in incomplete <==> BlockGap(s.protocol, ds, r)
    requires awaiting <==> Awaiting(h, s.protocol, executed, s.outcomes, |s.outcomes|)
    requires pending <==> awaiting || !AllFinished(executed, observed, ds)
    ensures var held := incomplete + if pending || s.decisions == [] then [StillIncomplete] else [];
            forall r :: r in held <==> HeldUp(h, s, ds, executed, observed, r)
  {
    hide BlockGap, Awaiting, AllFinished;
  }

  lemma BlameSaid(h: EventDigests, s: Study, byId: Index, ds: seq<Decision>, executed: Executed,
                  counts: map<string, Counts>, r1: seq<Reason>, r2: seq<Reason>, r3: seq<Reason>, r4: seq<Reason>,
                  r5: seq<Reason>, r6: seq<Reason>, reasons: seq<Reason>)
    requires forall r :: r in r1 <==> IdFault(s, r)
    requires forall r :: r in r2 <==> r in r1 || DecisionFault(h, s.protocol, s.decisions, r)
    requires forall r :: r in r3 <==> r in r2 || ChainFault(s.protocol, ds, |ds|, r)
    requires forall r :: r in r4 <==> r in r3 || BlockFault(s.protocol, ds, r)
    requires forall r :: r in r5 <==> r in r4 || ExecutionFault(h, s.protocol, byId, s.executions, r)
    requires forall r :: r in r6 <==> r in r5 || OutcomeFault(h, s.protocol, executed, s.outcomes, |s.outcomes|, r)
    requires forall r :: r in reasons <==> r in r6 || SupportFault(s.protocol, counts, |s.protocol.arms|, r)
    requires CountsOk(s.protocol, counts) && forall arm :: arm in counts ==> counts[arm].units == Assigned(ds, arm)
    ensures forall r :: r in reasons <==> Blamed(h, s, byId, ds, executed, r)
  {
    ArmFaultIs(s.protocol, ds, counts);
    hide IdFault, DecisionFault, ChainFault, BlockFault, ExecutionFault, OutcomeFault, ArmFault, SupportFault, CountsOk;
  }

  lemma ReportedSo(h: EventDigests, s: Study, byId: Index, ds: seq<Decision>, executed: Executed,
                   observed: map<string, Outcome>, counts: map<string, Counts>, reasons: seq<Reason>, held: seq<Reason>)
    requires Ok(byId) && Indexes(h, s.protocol, s.decisions, byId) && Lists(byId, ds)
    requires HoldsLast(h, s.protocol, byId, s.executions, executed)
    requires forall id :: id in observed <==> Matures(h, s.protocol, executed, s.outcomes, |s.outcomes|, id)
    requires CountsSay(h, s, byId, ds, executed, observed, counts)
    requires forall r :: r in reasons <==> Blamed(h, s, byId, ds, executed, r)
    requires forall r :: r in held <==> HeldUp(h, s, ds, executed, observed, r)
    ensures Reported(h, s, counts, reasons, held)
  {
    hide Ok, Indexes, Lists, HoldsLast, Matures, CountsSay, Blamed, HeldUp;
    assert Gathered(h, s, byId, ds, executed, observed);
  }

  /** Runs the gates up to the counts; `clean` says that nothing stands against the study so far. */
  method RunGates(h: EventDigests, s: Study)
    returns (clean: bool, counts: map<string, Counts>, reasons: seq<Reason>, held: seq<Reason>, ids: seq<string>)
    requires ProtocolOk(s.protocol)
    ensures CountsOk(s.protocol, counts)
    ensures clean <==> reasons == [] && held == []
    ensures reasons == [] <==> Blameless(h, s)
    ensures clean <==> Sound(h, s)
    ensures NoLimitReason(reasons) && NoLimitReason(held)
    ensures s.decisions == [] ==> reasons != []
    ensures clean ==> ids == DecisionIds(s.decisions) && Tallied(s, counts)
    ensures Reported(h, s, counts, reasons, held)
  {
    hide *;
    var p := s.protocol;
    var blank := BlankCounts(p);
    var r1 := CheckIds(s);
    var byId, r2 := IndexDecisions(h, p, s.decisions, r1);
    IndexListed(h, p, byId);
    ListedIsListed(h, p, byId);
    var ds := Listed(byId);
    var counted, r3 := CountAssigned(h, p, ds, blank, r2);
    var r4, incomplete := CheckBlocks(h, p, ds, r3);
    var executed, adherent, r5 := BindExecutions(h, p, byId, s.executions, counted, r4);
    var observed, awaiting, r6 := BindOutcomes(h, p, executed, s.outcomes, r5);
    KeepsCounts(p, ds, counted, adherent);
    var pending;
    counts, pending := CountCompleted(h, p, ds, executed, observed, adherent, awaiting);
    reasons := CheckSupport(p, counts, r6);
    held := incomplete + if pending || s.decisions == [] then [StillIncomplete] else [];
    clean := reasons == [] && s.decisions != [] && !pending && incomplete == [];
    ids := byId.order;
    ghost var passed := Passed(r1 == [], r2 == [], r3 == [], r4 == [], r5 == [], r6 == [], reasons == []);
    GatesMean(h, s, byId, ds, executed, observed, counts, passed, incomplete == [], awaiting, pending);
    NoReasonMeans(h, s, byId, ds, executed, counts, passed);
    HeldHasNoLimit(incomplete, pending || s.decisions == []);
    CountsSaid(h, s, byId, ds, executed, observed, counted, adherent, counts);
    HeldSaid(h, s, ds, executed, observed, incomplete, awaiting, pending);
    BlameSaid(h, s, byId, ds, executed, counts, r1, r2, r3, r4, r5, r6, reasons);
    ReportedSo(h, s, byId, ds, executed, observed, counts, reasons, held);
    if clean {
      TargetsDistinct(s);
      ListedIds(byId, s.decisions);
      TalliedIntro(s, counts);
    }
  }

  ghost predicate Tallied(s: Study, counts: map<string, Counts>) {
    forall arm :: arm in counts ==>
      && counts[arm].units == Assigned(s.decisions, arm) && counts[arm].completed == Assigned(s.decisions, arm)
      && counts[arm].missing == 0
  }

  lemma TalliedIntro(s: Study, counts: map<string, Counts>)
    requires forall arm :: arm in counts ==>
               && counts[arm].units == Assigned(s.decisions, arm) && counts[arm].completed == Assigned(s.decisions, arm)
               && counts[arm].missing == 0
    ensures Tallied(s, counts)
  {
  }

  lemma KeepsCounts(p: Protocol, ds: seq<Decision>, before: map<string, Counts>, after: map<string, Counts>)
    requires CountsOk(p, before) && SameTallies(before, after)
    requires forall arm :: arm in before ==> before[arm] == Counts(Assigned(ds, arm), 0, 0, 0)
    ensures CountsOk(p, after)
    ensures forall arm :: arm in after ==>
            after[arm].completed == 0 && after[arm].missing == 0 && after[arm].units == Assigned(ds, arm)
  {
  }

  lemma NotQualified(h: EventDigests, s: Study)
    requires !ProtocolOk(s.protocol)
    ensures !Qualifies(h, s)
  {
  }

  lemma PoweredMeans(s: Study, counts: map<string, Counts>)
    requires CountsOk(s.protocol, counts) && Tallied(s, counts)
    ensures forall i :: 0 <= i < |s.protocol.arms| ==> s.protocol.arms[i].armId in counts
    ensures Powered(s.protocol, s.decisions)
       <==> forall i :: 0 <= i < |s.protocol.arms| ==>
           counts[s.protocol.arms[i].armId].completed >= s.protocol.minCompleted
  {
    assert forall i :: 0 <= i < |s.protocol.arms| ==> IsArm(s.protocol, s.protocol.arms[i].armId);
    hide Assigned;
  }

  lemma NoneOverLimit(s: Study, counts: map<string, Counts>)
    requires ProtocolOk(s.protocol) && CountsOk(s.protocol, counts) && Tallied(s, counts)
    ensures forall i :: 0 <= i < |s.protocol.arms| ==>
              s.protocol.arms[i].armId in counts && !OverLimit(s.protocol, counts[s.protocol.arms[i].armId])
  {
    hide Assigned, OverLimit, ProtocolOk;
    forall i | 0 <= i < |s.protocol.arms|
      ensures s.protocol.arms[i].armId in counts && !OverLimit(s.protocol, counts[s.protocol.arms[i].armId])
    {
      assert IsArm(s.protocol, s.protocol.arms[i].armId);
      NothingMissing(s.protocol, counts[s.protocol.arms[i].armId]);
    }
  }

  /** The verdict the records allow. The declared missingness limit is never the reason given. */
  ghost predicate IsVerdict(h: EventDigests, s: Study, v: Verdict) {
    && (v.state == Invalid <==> !ProtocolOk(s.protocol) || !Blameless(h, s))
    && (v.state == Collecting <==> ProtocolOk(s.protocol) && Blameless(h, s) && !Sound(h, s))
    && (v.state == Inconclusive <==> ProtocolOk(s.protocol) && Sound(h, s) && !Powered(s.protocol, s.decisions))
    && (v.state == Qualified <==> Qualifies(h, s))
    && (v.state == Qualified ==> multiset(v.included) == multiset(DecisionIds(s.decisions)) && Tallied(s, v.counts))
    && NoLimitReason(v.reasons)
  }

  /** The reason names an arm that has not completed enough decisions. */
  ghost predicate PowerFault(p: Protocol, counts: map<string, Counts>, r: Reason) {
    exists i :: 0 <= i < |p.arms| && p.arms[i].armId in counts
                && counts[p.arms[i].armId].completed < p.minCompleted && r == Underpowered(p.arms[i].armId)
  }

  /** How a verdict follows from what is reported: faults first, then what is held up, then the sample floor. */
  ghost predicate Follows(s: Study, reasons: seq<Reason>, held: seq<Reason>, v: Verdict) {
    if reasons != [] then v.state == Invalid && v.reasons == reasons && v.included == []
    else if held != [] then v.state == Collecting && v.reasons == held && v.included == []
    else if exists r :: PowerFault(s.protocol, v.counts, r) then
      && v.state == Inconclusive && v.included == []
      && forall r :: r in v.reasons <==> PowerFault(s.protocol, v.counts, r)
    else
      && v.state == Qualified && v.reasons == []
      && v.included == Sort(InOrder(), DecisionIds(s.decisions))
  }

  ghost predicate Explained(h: EventDigests, s: Study, v: Verdict) {
    if !ProtocolOk(s.protocol) then
      && v.state == Invalid && v.reasons == [ProtocolInvalid] && v.included == []
      && CountsOk(s.protocol, v.counts) && forall arm :: arm in v.counts ==> v.counts[arm] == Counts(0, 0, 0, 0)
    else exists reasons, held :: Reported(h, s, v.counts, reasons, held) && Follows(s, reasons, held, v)
  }

  lemma ProtocolVerdict(h: EventDigests, s: Study, counts: map<string, Counts>)
    requires !ProtocolOk(s.protocol) && CountsOk(s.protocol, counts)
    requires forall arm :: arm in counts ==> counts[arm] == Counts(0, 0, 0, 0)
    ensures var v := Verdict(Invalid, [ProtocolInvalid], counts, []); IsVerdict(h, s, v) && Explained(h, s, v)
  {
    hide ProtocolOk, Blameless, Sound, Powered, CountsOk, Tallied;
    NotQualified(h, s);
    NoLimitIn(ProtocolInvalid);
    hide Qualifies;
  }

  lemma ReasonsVerdict(h: EventDigests, s: Study, counts: map<string, Counts>, reasons: seq<Reason>, held: seq<Reason>)
    requires ProtocolOk(s.protocol) && Reported(h, s, counts, reasons, held) && NoLimitReason(reasons)
    requires reasons != [] && !Blameless(h, s) && !Sound(h, s)
    ensures var v := Verdict(Invalid, reasons, counts, []); IsVerdict(h, s, v) && Explained(h, s, v)
  {
    QualifiesSplits(h, s);
    hide ProtocolOk, Blameless, Sound, Powered, Tallied, NoLimitReason, Reported, Qualifies, PowerFault;
    assert Follows(s, reasons, held, Verdict(Invalid, reasons, counts, []));
  }

  lemma HeldVerdict(h: EventDigests, s: Study, counts: map<string, Counts>, reasons: seq<Reason>, held: seq<Reason>)
    requires ProtocolOk(s.protocol) && Reported(h, s, counts, reasons, held) && NoLimitReason(held)
    requires reasons == [] && held != [] && Blameless(h, s) && !Sound(h, s)
    ensures var v := Verdict(Collecting, held, counts, []); IsVerdict(h, s, v) && Explained(h, s, v)
  {
    QualifiesSplits(h, s);
    hide ProtocolOk, Blameless, Sound, Powered, Tallied, NoLimitReason, Reported, Qualifies, PowerFault;
    assert Follows(s, reasons, held, Verdict(Collecting, held, counts, []));
  }

  lemma ShortVerdict(h: EventDigests, s: Study, counts: map<string, Counts>, under: seq<Reason>)
    requires ProtocolOk(s.protocol) && Reported(h, s, counts, [], []) && NoLimitReason(under)
    requires under != [] && Blameless(h, s) && Sound(h, s) && !Powered(s.protocol, s.decisions)
    requires forall r :: r in under <==> PowerFault(s.protocol, counts, r)
    ensures var v := Verdict(Inconclusive, under, counts, []); IsVerdict(h, s, v) && Explained(h, s, v)
  {
    QualifiesSplits(h, s);
    hide ProtocolOk, Blameless, Sound, Powered, Tallied, NoLimitReason, Reported, Qualifies, PowerFault;
    assert under[0] in under;
    assert Follows(s, [], [], Verdict(Inconclusive, under, counts, []));
  }

  lemma QualifiedVerdict(h: EventDigests, s: Study, counts: map<string, Counts>)
    requires ProtocolOk(s.protocol) && Reported(h, s, counts, [], []) && Tallied(s, counts)
    requires Blameless(h, s) && Sound(h, s) && Powered(s.protocol, s.decisions)
    requires forall r :: !PowerFault(s.protocol, counts, r)
    ensures var v := Verdict(Qualified, [], counts, Sort(InOrder(), DecisionIds(s.decisions)));
            IsVerdict(h, s, v) && Explained(h, s, v)
  {
    QualifiesSplits(h, s);
    NoLimitInNone();
    hide ProtocolOk, Blameless, Sound, Powered, Tallied, NoLimitReason, Reported, Qualifies, PowerFault, DecisionIds;
    var included := Sort(InOrder(), DecisionIds(s.decisions));
    assert Follows(s, [], [], Verdict(Qualified, [], counts, included));
  }

  lemma SoundIsBlameless(h: EventDigests, s: Study, reasons: seq<Reason>)
    requires reasons == [] <==> Blameless(h, s)
    requires reasons != [] ==> !Sound(h, s)
    ensures Sound(h, s) ==> Blameless(h, s)
  {
  }

  lemma PowerFaults(p: Protocol, counts: map<string, Counts>, under: seq<Reason>)
    requires CountsOk(p, counts)
    requires forall i :: 0 <= i < |p.arms| ==> p.arms[i].armId in counts
    requires forall r :: r in under <==>
               exists i :: 0 <= i < |p.arms| && counts[p.arms[i].armId].completed < p.minCompleted
                           && r == Underpowered(p.arms[i].armId)
    ensures forall r :: r in under <==> PowerFault(p, counts, r)
  {
  }

  /** The four verdicts, each with its exact condition and with what is reported; and a study without
      decisions is refused rather than still collecting. */
  method QualifyCausalStudy(h: EventDigests, s: Study) returns (v: Verdict)
    ensures IsVerdict(h, s, v) && Explained(h, s, v)
    ensures s.decisions == [] ==> v.state == Invalid
  {
    hide *;
    if !ProtocolOk(s.protocol) {
      var blank := BlankCounts(s.protocol);
      ProtocolVerdict(h, s, blank);
      return Verdict(Invalid, [ProtocolInvalid], blank, []);
    }
    var clean, counts, reasons, held, ids := RunGates(h, s);
    SoundIsBlameless(h, s, reasons);
    if reasons != [] {
      ReasonsVerdict(h, s, counts, reasons, held);
      return Verdict(Invalid, reasons, counts, []);
    }
    if !clean {
      HeldVerdict(h, s, counts, reasons, held);
      return Verdict(Collecting, held, counts, []);
    }
    var over, under := CheckLimits(s.protocol, counts);
    NoneOverLimit(s, counts);
    if over != [] {
      return Verdict(Invalid, over, counts, []);
    }
    PoweredMeans(s, counts);
    PowerFaults(s.protocol, counts, under);
    if under != [] {
      ShortVerdict(h, s, counts, under);
      return Verdict(Inconclusive, under, counts, []);
    }
    QualifiedVerdict(h, s, counts);
    v := Verdict(Qualified, [], counts, Sort(InOrder(), ids));
  }

  /** The order ids are listed in: by their first different character. */
  predicate Before(a: string, b: string) {
    b != [] && (a == [] || a[0] < b[0] || (a[0] == b[0] && Before(a[1..], b[1..])))
  }

  function InOrder(): (string, string) -> bool { (a: string, b: string) => Before(a, b) }

  lemma NoLimitIn(r: Reason)
    requires !r.MissingnessLimit?
    ensures NoLimitReason([r])
  {
  }

  lemma NoLimitInNone()
    ensures NoLimitReason([])
  {
  }

  // ---------------------------------------------------------------- what qualification is worth

  lemma TheExecution(h: EventDigests, s: Study, d: Decision) returns (i: nat)
    requires Qualifies(h, s) && d in s.decisions
    ensures i < |s.executions| && ExecutionOk(h, s.protocol, d, s.executions[i])
    ensures forall k :: 0 <= k < |s.executions| ==> (s.executions[k].decisionId == d.decisionId <==> k == i)
  {
    hide ExecutionOk, ProtocolOk, AllDecisionsOk, ChainOk, BlocksFull, Powered, OutcomeBinds;
    var n :| 0 <= n < |s.decisions| && s.decisions[n] == d;
    assert Complete(s, s.decisions[n]);
    i :| 0 <= i < |s.executions| && ExecutionTargets(s.executions)[i] == d.decisionId;
    var m :| m in s.decisions && m.decisionId == d.decisionId && ExecutionOk(h, s.protocol, m, s.executions[i]);
    var j :| 0 <= j < |s.decisions| && s.decisions[j] == m;
    assert DecisionIds(s.decisions)[j] == DecisionIds(s.decisions)[n];
    forall k | 0 <= k < |s.executions| && s.executions[k].decisionId == d.decisionId ensures k == i {
      assert ExecutionTargets(s.executions)[k] == ExecutionTargets(s.executions)[i];
    }
  }

  /** In a qualified study every decision was carried out exactly once and observed exactly once, and
      the outcome is matured, in bounds and chained to that execution. */
  lemma EachDecisionObservedOnce(h: EventDigests, s: Study, d: Decision) returns (i: nat, j: nat)
    requires Qualifies(h, s) && d in s.decisions
    ensures i < |s.executions| && ExecutionOk(h, s.protocol, d, s.executions[i])
    ensures forall k :: 0 <= k < |s.executions| ==> (s.executions[k].decisionId == d.decisionId <==> k == i)
    ensures j < |s.outcomes| && OutcomeOk(h, s.protocol, s.executions[i], s.outcomes[j])
    ensures forall k :: 0 <= k < |s.outcomes| ==> (s.outcomes[k].decisionId == d.decisionId <==> k == j)
  {
    hide ExecutionOk, OutcomeOk, ProtocolOk, AllDecisionsOk, ChainOk, BlocksFull, Powered, ExecutionBinds;
    i := TheExecution(h, s, d);
    var n :| 0 <= n < |s.decisions| && s.decisions[n] == d;
    assert Complete(s, s.decisions[n]);
    j :| 0 <= j < |s.outcomes| && OutcomeTargets(s.outcomes)[j] == d.decisionId;
    assert OutcomeBinds(h, s.protocol, s.executions, s.outcomes[j]);
    var e :| e in s.executions && e.decisionId == s.outcomes[j].decisionId
             && OutcomeOk(h, s.protocol, e, s.outcomes[j]);
    var k :| 0 <= k < |s.executions| && s.executions[k] == e;
    forall m | 0 <= m < |s.outcomes| && s.outcomes[m].decisionId == d.decisionId ensures m == j {
      assert OutcomeTargets(s.outcomes)[m] == OutcomeTargets(s.outcomes)[j];
    }
  }

  lemma {:induction false} WholeBlock(ds: seq<Decision>, b: string)
    requires forall i :: 0 <= i < |ds| ==> ds[i].block == b
    ensures InBlock(ds, b) == ds
    decreases |ds|
  {
    if ds != [] {
      WholeBlock(ds[..|ds| - 1], b);
    }
  }

  /** A block that the assignment replay accepts passes the block gate here. */
  lemma AcceptedPlanPassesBlockGate(h: Assignment.Digests, p: Protocol, plan: Assignment.Plan,
                                    draws: seq<Assignment.Draw>)
    requires p.blockSize <= |draws| && Assignment.Accepted(h, p, plan, draws)
    ensures BlocksFull(p, plan.decisions)
  {
    Assignment.AcceptedPlanIsBalanced(h, p, plan, draws);
    hide Assignment.Accepted, FullBlock;
    forall i | 0 <= i < |plan.decisions| ensures plan.decisions[i].block == plan.blockId {
      assert Assignment.FromPlan(p, plan, plan.allocation, plan.decisions[i]);
    }
    WholeBlock(plan.decisions, plan.blockId);
  }
}
