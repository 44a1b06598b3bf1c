/** What a verdict on a study says, record by record. */
module QualificationMeaning {
  // Stated from the records alone: which of them meet their conditions, what can be held against a study,
  // what can keep it collecting, and how many decisions of an arm were assigned and completed.

  import opened Money
  import opened Tables
  import opened StudyRecords
  import opened Qualification

  // ---------------------------------------------------------------- one record at a time

  /** Sixty-four hexadecimal digits. */
  ghost predicate IsDigest(s: string) {
    |s| == 64 && forall i :: 0 <= i < 64 ==> '0' <= s[i] <= '9' || 'a' <= s[i] <= 'f' || 'A' <= s[i] <= 'F'
  }

  ghost predicate Inside(v: Option<real>, b: Bounds) { v != None && b.low <= v.value <= b.high }

  /** The protocol: two named arms, one of them the treatment, blocks of an even size, and real bounds. */
  ghost predicate ProtocolMeets(p: Protocol) {
    && |p.arms| == 2 && p.arms[0].armId != p.arms[1].armId && (p.arms[0].treatment <==> !p.arms[1].treatment)
    && p.blockSize >= 2 && p.blockSize % 2 == 0
    && p.cost.low < p.cost.high && p.quality.low < p.quality.high
    && (if p.question == AiNetBenefit then p.economic != None && p.economic.value.low < p.economic.value.high
        else p.economic == None)
    && p.minCompleted >= 1 && 0.0 <= p.maxMissing < 1.0 && IsDigest(p.protocolHash) && p.otherwiseOk
  }

  /** A decision of this study for one of its arms, at the registered propensity and after commitment, with
      its own digest. */
  ghost predicate DecisionMeets(h: EventDigests, p: Protocol, d: Decision) {
    && d.studyId == p.studyId && d.protocolHash == p.protocolHash && d.wellFormed && IsDigest(d.unitIdHash)
    && (exists i :: 0 <= i < |p.arms| && d.arm == p.arms[i].armId)
    && d.propensity == p.propensity && p.committedAt <= d.assignedAt
    && IsDigest(d.previous) && IsDigest(d.event) && d.event == h.decision(d.(event := ""))
  }

  /** An execution chained to its decision and no earlier, under the plan of the decision's arm, with observed
      adherence, and with costs inside the declared bounds from accepted sources. */
  ghost predicate ExecutionMeets(h: EventDigests, p: Protocol, d: Decision, e: Execution) {
    && e.studyId == p.studyId && e.protocolHash == p.protocolHash && e.wellFormed
    && IsDigest(e.previous) && IsDigest(e.event) && e.event == h.execution(e.(event := "")) && e.previous == d.event
    && d.assignedAt <= e.startedAt && e.startedAt <= e.completedAt
    && (exists i :: 0 <= i < |p.arms| && p.arms[i].armId == d.arm && p.arms[i].planHash == e.assignedPlan)
    && (e.adherence == Deviated || (e.adherence == Confirmed && e.actualPlan == Some(e.assignedPlan)))
    && e.actualPlan != None
    && Inside(e.directCost, p.cost) && e.directAccepted
    && (p.question == AiNetBenefit ==> Inside(e.fullCost, p.cost) && e.fullAccepted)
  }

  /** An outcome chained to its execution and no earlier. */
  ghost predicate OutcomeChains(h: EventDigests, p: Protocol, e: Execution, o: Outcome) {
    && o.studyId == p.studyId && o.protocolHash == p.protocolHash && o.wellFormed
    && IsDigest(o.previous) && IsDigest(o.event) && o.event == h.outcome(o.(event := "")) && o.previous == e.event
    && e.completedAt <= o.observedAt
  }

  /** One that has matured, with values inside the declared bounds from accepted evidence. */
  ghost predicate OutcomeMeets(h: EventDigests, p: Protocol, e: Execution, o: Outcome) {
    && OutcomeChains(h, p, e, o) && o.maturity == Matured
    && Inside(o.quality, p.quality) && o.qualityAccepted
    && (p.economic != None ==> Inside(o.economic, p.economic.value) && o.economicAccepted)
  }

  lemma ProtocolOkExactly(p: Protocol)
    ensures ProtocolOk(p) <==> ProtocolMeets(p)
  {
  }

  lemma DecisionOkExactly(h: EventDigests, p: Protocol, d: Decision)
    ensures DecisionOk(h, p, d) <==> DecisionMeets(h, p, d)
  {
  }

  lemma PlanExactly(p: Protocol, arm: string, plan: string)
    requires ProtocolOk(p)
    ensures PlanOf(p, arm) == Some(plan)
       <==> exists i :: 0 <= i < |p.arms| && p.arms[i].armId == arm && p.arms[i].planHash == plan
  {
  }

  lemma ExecutionOkExactly(h: EventDigests, p: Protocol, d: Decision, e: Execution)
    requires ProtocolOk(p)
    ensures ExecutionOk(h, p, d, e) <==> ExecutionMeets(h, p, d, e)
  {
    PlanExactly(p, d.arm, e.assignedPlan);
    hide PlanOf, ProtocolOk;
  }

  lemma OutcomeOkExactly(h: EventDigests, p: Protocol, e: Execution, o: Outcome)
    ensures LineageOk(h, p, e, o) <==> OutcomeChains(h, p, e, o)
    ensures OutcomeOk(h, p, e, o) <==> OutcomeMeets(h, p, e, o)
    ensures OutcomeMayCount(h, p, e, o)
       <==> OutcomeMeets(h, p, e, o) || (OutcomeChains(h, p, e, o) && o.maturity == Awaited)
  {
  }

  // ---------------------------------------------------------------- what the records amount to

  /** A decision that counts: it meets its conditions, and no later one under its id does. */
  ghost predicate Standing(h: EventDigests, s: Study, d: Decision) {
    exists i :: 0 <= i < |s.decisions| && s.decisions[i] == d && DecisionMeets(h, s.protocol, d)
                && forall j :: i < j < |s.decisions| && DecisionMeets(h, s.protocol, s.decisions[j]) ==>
                     s.decisions[j].decisionId != d.decisionId
  }

  /** An execution that carries out a decision that counts. */
  ghost predicate Carries(h: EventDigests, s: Study, d: Decision, e: Execution) {
    Standing(h, s, d) && e.decisionId == d.decisionId && ExecutionMeets(h, s.protocol, d, e)
  }

  /** The last one that does. */
  ghost predicate CarriedOutBy(h: EventDigests, s: Study, d: Decision, e: Execution) {
    exists k :: 0 <= k < |s.executions| && s.executions[k] == e && Carries(h, s, d, e)
                && forall j :: k < j < |s.executions| ==> !Carries(h, s, d, s.executions[j])
  }

  /** An outcome of the decision meets its conditions. */
  ghost predicate Observed(h: EventDigests, s: Study, d: Decision) {
    exists e, m :: 0 <= m < |s.outcomes| && CarriedOutBy(h, s, d, e) && s.outcomes[m].decisionId == d.decisionId
                   && OutcomeMeets(h, s.protocol, e, s.outcomes[m])
  }

  ghost function Standings(h: EventDigests, s: Study): set<Decision> {
    set d | d in s.decisions && Standing(h, s, d)
  }

  ghost function InBlockSet(h: EventDigests, s: Study, block: string): set<Decision> {
    set d | d in Standings(h, s) && d.block == block
  }

  ghost function InArmSet(h: EventDigests, s: Study, block: string, arm: string): set<Decision> {
    set d | d in Standings(h, s) && d.block == block && d.arm == arm
  }

  /** Too many decisions of a block, or of one of its arms. */
  ghost predicate TooMany(h: EventDigests, s: Study, block: string) {
    || |InBlockSet(h, s, block)| > s.protocol.blockSize
    || exists i :: 0 <= i < |s.protocol.arms|
                   && 2 * |InArmSet(h, s, block, s.protocol.arms[i].armId)| > s.protocol.blockSize
  }

  ghost predicate Twice(ids: seq<string>, id: string) { exists i, j :: 0 <= i < j < |ids| && ids[i] == id == ids[j] }

  ghost function Ids<T>(f: T -> string, s: seq<T>): seq<string> {
    seq(|s|, i requires 0 <= i < |s| => f(s[i]))
  }

  /** What can be held against a study. */
  ghost predicate Fault(h: EventDigests, s: Study, r: Reason) {
    match r
    case DuplicateId(id) =>
      || Twice(Ids((d: Decision) => d.decisionId, s.decisions), id)
      || Twice(Ids((e: Execution) => e.executionId, s.executions), id)
      || Twice(Ids((o: Outcome) => o.outcomeId, s.outcomes), id)
      || Twice(Ids((e: Execution) => e.decisionId, s.executions), id)
      || Twice(Ids((o: Outcome) => o.decisionId, s.outcomes), id)
    case BadDecision(id) =>
      exists i :: 0 <= i < |s.decisions| && s.decisions[i].decisionId == id
                  && !DecisionMeets(h, s.protocol, s.decisions[i])
    case NoPredecessor(id) =>
      exists d :: d in Standings(h, s) && d.decisionId == id && d.previous != s.protocol.protocolHash
                  && forall o :: o in Standings(h, s) ==> o.event != d.previous
    case ConflictingBlock(block) =>
      exists d, o :: d in InBlockSet(h, s, block) && o in InBlockSet(h, s, block)
                     && (d.allocation != o.allocation || d.material != o.material)
    case UnbalancedBlock(block) => TooMany(h, s, block)
    case BadExecution(id) =>
      exists k :: 0 <= k < |s.executions| && s.executions[k].executionId == id
                  && forall d :: !Carries(h, s, d, s.executions[k])
    case BadOutcome(id) =>
      exists m :: 0 <= m < |s.outcomes| && s.outcomes[m].outcomeId == id
                  && forall d, e :: CarriedOutBy(h, s, d, e) && s.outcomes[m].decisionId == d.decisionId ==>
                       && !OutcomeMeets(h, s.protocol, e, s.outcomes[m])
                       && !(OutcomeChains(h, s.protocol, e, s.outcomes[m]) && s.outcomes[m].maturity == Awaited)
    case NoSupport(arm) =>
      exists i :: 0 <= i < |s.protocol.arms| && s.protocol.arms[i].armId == arm
                  && forall d :: d in Standings(h, s) ==> d.arm != arm
    case _ => false
  }

  /** What keeps a study collecting: a block that lacks decisions, an outcome that is awaited, or a decision
      that is not yet carried out and observed. */
  ghost predicate Holdup(h: EventDigests, s: Study, r: Reason) {
    match r
    case IncompleteBlock(block) =>
      0 < |InBlockSet(h, s, block)| < s.protocol.blockSize && !TooMany(h, s, block)
    case StillIncomplete =>
      || s.decisions == []
      || (exists m, d, e :: 0 <= m < |s.outcomes| && CarriedOutBy(h, s, d, e)
                            && s.outcomes[m].decisionId == d.decisionId && s.outcomes[m].maturity == Awaited
                            && OutcomeChains(h, s.protocol, e, s.outcomes[m]))
      || exists d :: d in Standings(h, s) && !Observed(h, s, d)
    case _ => false
  }

  ghost function AssignedTo(h: EventDigests, s: Study, arm: string): set<Decision> {
    set d | d in Standings(h, s) && d.arm == arm
  }

  ghost function CompletedIn(h: EventDigests, s: Study, arm: string): set<Decision> {
    set d | d in AssignedTo(h, s, arm) && Observed(h, s, d)
  }

  ghost predicate Confirms(h: EventDigests, s: Study, arm: string, e: Execution) {
    e.adherence == Confirmed && exists d: Decision :: d.arm == arm && Carries(h, s, d, e)
  }

  ghost function ConfirmedFor(h: EventDigests, s: Study, arm: string): set<int> {
    set k | 0 <= k < |s.executions| && Confirms(h, s, arm, s.executions[k])
  }

  /** Of an arm, how many decisions count, how many of those were observed, and how many executions confirm
      that the assigned plan was kept to. */
  ghost predicate CountsAre(h: EventDigests, s: Study, arm: string, c: Counts) {
    && c.units == |AssignedTo(h, s, arm)| && c.completed == |CompletedIn(h, s, arm)|
    && c.units == c.completed + c.missing && c.adherent == |ConfirmedFor(h, s, arm)|
  }

  /** One id comes before another: at the first character that differs, or as a beginning of it. */
  ghost predicate Precedes(a: string, b: string) {
    exists n :: 0 <= n <= |a| && n < |b| && a[..n] == b[..n] && (n == |a| || a[n] < b[n])
  }

  ghost predicate Short(h: EventDigests, s: Study, i: int) {
    0 <= i < |s.protocol.arms| && |CompletedIn(h, s, s.protocol.arms[i].armId)| < s.protocol.minCompleted
  }

  /** The reason names an arm short of the sample floor. */
  ghost predicate Lacking(h: EventDigests, s: Study, r: Reason) {
    exists i :: Short(h, s, i) && r == Underpowered(s.protocol.arms[i].armId)
  }

  /** What a verdict says: whatever can be held against the study makes it invalid, then whatever holds it up
      keeps it collecting, then arms short of the sample floor make it inconclusive; otherwise it is qualified,
      and every decision is included. */
  ghost predicate SaysState(h: EventDigests, s: Study, v: Verdict) {
    if exists r :: Fault(h, s, r) then
      v.state == Invalid && v.included == [] && forall r :: r in v.reasons <==> Fault(h, s, r)
    else if exists r :: Holdup(h, s, r) then
      v.state == Collecting && v.included == [] && forall r :: r in v.reasons <==> Holdup(h, s, r)
    else if exists i :: Short(h, s, i) then
      v.state == Inconclusive && v.included == [] && forall r :: r in v.reasons <==> Lacking(h, s, r)
    else
      && v.state == Qualified && v.reasons == []
      && multiset(v.included) == multiset(Ids((d: Decision) => d.decisionId, s.decisions))
      && forall i, j :: 0 <= i < j < |v.included| ==> Precedes(v.included[i], v.included[j])
  }

  /** All of it: the counts of the protocol's arms, and nothing but a refusal where the protocol is not met. */
  ghost predicate Says(h: EventDigests, s: Study, v: Verdict) {
    && (forall arm :: arm in v.counts <==> exists i :: 0 <= i < |s.protocol.arms| && s.protocol.arms[i].armId == arm)
    && if !ProtocolMeets(s.protocol) then
         && v.state == Invalid && v.reasons == [ProtocolInvalid] && v.included == []
         && forall arm :: arm in v.counts ==> v.counts[arm] == Counts(0, 0, 0, 0)
       else
         SaysState(h, s, v) && forall arm :: arm in v.counts ==> CountsAre(h, s, arm, v.counts[arm])
  }

  // ---------------------------------------------------------------- decisions, executions and outcomes taken

  lemma StandsExactly(h: EventDigests, s: Study, d: Decision)
    ensures Stays(h, s.protocol, s.decisions, d) <==> Standing(h, s, d)
  {
    hide DecisionOk, DecisionMeets;
    forall o: Decision ensures DecisionOk(h, s.protocol, o) <==> DecisionMeets(h, s.protocol, o) {
      DecisionOkExactly(h, s.protocol, o);
    }
  }

  lemma StandingIsListed(h: EventDigests, s: Study, d: Decision)
    ensures Standing(h, s, d) <==> d in Standings(h, s)
  {
    hide DecisionMeets;
  }

  lemma ListedAreStanding(h: EventDigests, s: Study, byId: Index, ds: seq<Decision>)
    requires Ok(byId) && Indexes(h, s.protocol, s.decisions, byId) && Lists(byId, ds)
    ensures Distinct(ds) && forall d :: d in ds <==> d in Standings(h, s)
    ensures forall d :: d in Standings(h, s) ==> d.decisionId in byId.at && byId.at[d.decisionId] == d
    ensures forall id :: id in byId.at ==> byId.at[id] in Standings(h, s) && byId.at[id].decisionId == id
  {
    hide Stays, Standing;
    forall d ensures Stays(h, s.protocol, s.decisions, d) <==> d in Standings(h, s) {
      StandsExactly(h, s, d);
      StandingIsListed(h, s, d);
    }
    hide Standings;
    forall d | d in Standings(h, s) ensures d in ds {
      assert d.decisionId in byId.order;
      var i :| 0 <= i < |byId.order| && byId.order[i] == d.decisionId;
      assert ds[i] == d;
    }
    forall i, j | 0 <= i < j < |ds| ensures ds[i] != ds[j] {
      assert byId.order[i] != byId.order[j];
    }
  }

  lemma CarriesExactly(h: EventDigests, s: Study, byId: Index, ds: seq<Decision>, e: Execution)
    requires ProtocolOk(s.protocol)
    requires Ok(byId) && Indexes(h, s.protocol, s.decisions, byId) && Lists(byId, ds)
    ensures ExecutionGood(h, s.protocol, byId, e) ==> Carries(h, s, byId.at[e.decisionId], e)
    ensures forall d :: Carries(h, s, d, e) ==>
              ExecutionGood(h, s.protocol, byId, e) && byId.at[e.decisionId] == d
  {
    ListedAreStanding(h, s, byId, ds);
    hide Standing, Standings, ExecutionOk, ExecutionMeets, ProtocolOk, Ok, Indexes, Lists;
    forall d: Decision
      ensures Standing(h, s, d) <==> d in Standings(h, s)
      ensures ExecutionOk(h, s.protocol, d, e) <==> ExecutionMeets(h, s.protocol, d, e)
    {
      StandingIsListed(h, s, d);
      ExecutionOkExactly(h, s.protocol, d, e);
    }
  }

  lemma LastIsCarrier(h: EventDigests, s: Study, byId: Index, ds: seq<Decision>, e: Execution)
    requires ProtocolOk(s.protocol)
    requires Ok(byId) && Indexes(h, s.protocol, s.decisions, byId) && Lists(byId, ds)
    ensures LastGood(h, s.protocol, byId, s.executions, e) ==>
              ExecutionGood(h, s.protocol, byId, e) && CarriedOutBy(h, s, byId.at[e.decisionId], e)
    ensures forall d :: CarriedOutBy(h, s, d, e) ==>
              LastGood(h, s.protocol, byId, s.executions, e) && e.decisionId == d.decisionId
  {
    hide Ok, Indexes, Lists, Carries, ExecutionGood, ProtocolOk;
    forall x: Execution
      ensures ExecutionGood(h, s.protocol, byId, x) ==>
                x.decisionId in byId.at && Carries(h, s, byId.at[x.decisionId], x)
      ensures forall d :: Carries(h, s, d, x) ==>
                && ExecutionGood(h, s.protocol, byId, x) && x.decisionId in byId.at && byId.at[x.decisionId] == d
                && x.decisionId == d.decisionId
    {
      CarriesExactly(h, s, byId, ds, x);
      GoodIsIndexed(h, s.protocol, byId, x);
      CarriedIds(h, s, x);
    }
    forall d | CarriedOutBy(h, s, d, e) ensures LastGood(h, s.protocol, byId, s.executions, e) {
      var k :| 0 <= k < |s.executions| && s.executions[k] == e && Carries(h, s, d, e)
               && forall j :: k < j < |s.executions| ==> !Carries(h, s, d, s.executions[j]);
    }
  }

  lemma CarriedIds(h: EventDigests, s: Study, e: Execution)
    ensures forall d :: Carries(h, s, d, e) ==> e.decisionId == d.decisionId
  {
    hide Standing, ExecutionMeets;
  }

  /** Of each decision that was carried out, the index holds the execution that did so last. */
  ghost predicate Links(h: EventDigests, s: Study, executed: Executed) {
    && (forall id :: id in executed ==>
          exists d :: d in Standings(h, s) && d.decisionId == id && CarriedOutBy(h, s, d, executed[id]))
    && forall d, e :: CarriedOutBy(h, s, d, e) ==> d.decisionId in executed && executed[d.decisionId] == e
  }

  lemma CarriedStands(h: EventDigests, s: Study, d: Decision, e: Execution)
    requires CarriedOutBy(h, s, d, e)
    ensures d in Standings(h, s) && e.decisionId == d.decisionId
  {
    StandingIsListed(h, s, d);
    hide Standing, ExecutionMeets;
  }

  lemma IndexLinks(h: EventDigests, s: Study, byId: Index, ds: seq<Decision>, executed: Executed,
                   observed: map<string, Outcome>)
    requires ProtocolOk(s.protocol) && Gathered(h, s, byId, ds, executed, observed)
    ensures Links(h, s, executed)
  {
    hide Standings, Ok, Indexes, Lists, CarriedOutBy, ProtocolOk, Matures;
    forall id | id in executed
      ensures exists d :: d in Standings(h, s) && d.decisionId == id && CarriedOutBy(h, s, d, executed[id])
    {
      var d := CarriedOne(h, s, byId, ds, executed, id);
    }
    forall d, e | CarriedOutBy(h, s, d, e) ensures d.decisionId in executed && executed[d.decisionId] == e {
      LastIsCarrier(h, s, byId, ds, e);
      HeldIs(h, s, byId, executed, e);
    }
  }

  lemma CarriedOne(h: EventDigests, s: Study, byId: Index, ds: seq<Decision>, executed: Executed, id: string)
    returns (d: Decision)
    requires ProtocolOk(s.protocol) && id in executed
    requires Ok(byId) && Indexes(h, s.protocol, s.decisions, byId) && Lists(byId, ds)
    requires HoldsLast(h, s.protocol, byId, s.executions, executed)
    ensures d in Standings(h, s) && d.decisionId == id && CarriedOutBy(h, s, d, executed[id])
  {
    ListedAreStanding(h, s, byId, ds);
    hide Standings, Ok, Indexes, Lists, LastGood, CarriedOutBy, ExecutionGood, ProtocolOk;
    LastIsCarrier(h, s, byId, ds, executed[id]);
    GoodIsIndexed(h, s.protocol, byId, executed[id]);
    d := byId.at[id];
  }

  lemma HeldIs(h: EventDigests, s: Study, byId: Index, executed: Executed, e: Execution)
    requires HoldsLast(h, s.protocol, byId, s.executions, executed)
    requires LastGood(h, s.protocol, byId, s.executions, e)
    ensures e.decisionId in executed && executed[e.decisionId] == e
  {
    hide LastGood;
  }

  ghost predicate MayCount(h: EventDigests, s: Study, e: Execution, o: Outcome) {
    || OutcomeMeets(h, s.protocol, e, o)
    || (OutcomeChains(h, s.protocol, e, o) && o.maturity == Awaited)
  }

  lemma OpenExactly(h: EventDigests, s: Study, executed: Executed, o: Outcome)
    requires Links(h, s, executed)
    ensures OutcomeOpen(h, s.protocol, executed, o)
       <==> exists d, e :: CarriedOutBy(h, s, d, e) && o.decisionId == d.decisionId && MayCount(h, s, e, o)
    ensures OutcomeGood(h, s.protocol, executed, o)
       <==> exists d, e :: CarriedOutBy(h, s, d, e) && o.decisionId == d.decisionId && OutcomeMeets(h, s.protocol, e, o)
    ensures OutcomeOpen(h, s.protocol, executed, o) && o.maturity == Awaited
       <==> exists d, e :: CarriedOutBy(h, s, d, e) && o.decisionId == d.decisionId && o.maturity == Awaited
                           && OutcomeChains(h, s.protocol, e, o)
  {
    hide CarriedOutBy, Standings;
    forall e: Execution
      ensures OutcomeOk(h, s.protocol, e, o) <==> OutcomeMeets(h, s.protocol, e, o)
      ensures OutcomeMayCount(h, s.protocol, e, o) <==> MayCount(h, s, e, o)
    {
      OutcomeOkExactly(h, s.protocol, e, o);
    }
    hide OutcomeChains, OutcomeOk, OutcomeMayCount;
    if o.decisionId in executed {
      var d :| d in Standings(h, s) && d.decisionId == o.decisionId && CarriedOutBy(h, s, d, executed[o.decisionId]);
    }
  }

  lemma ObservedExactly(h: EventDigests, s: Study, executed: Executed, observed: map<string, Outcome>, d: Decision)
    requires Links(h, s, executed) && d in Standings(h, s)
    requires forall id :: id in observed <==> Matures(h, s.protocol, executed, s.outcomes, |s.outcomes|, id)
    ensures Finished(executed, observed, d) <==> Observed(h, s, d)
  {
    hide CarriedOutBy, Standings, OutcomeMeets, OutcomeGood;
    forall o: Outcome
      ensures OutcomeGood(h, s.protocol, executed, o)
         <==> exists d, e :: CarriedOutBy(h, s, d, e) && o.decisionId == d.decisionId
                             && OutcomeMeets(h, s.protocol, e, o)
    {
      OpenExactly(h, s, executed, o);
    }
    if Finished(executed, observed, d) {
      var m :| 0 <= m < |s.outcomes| && OutcomeGood(h, s.protocol, executed, s.outcomes[m])
               && s.outcomes[m].decisionId == d.decisionId;
      SameId(h, s, executed, d, s.outcomes[m]);
    }
    if Observed(h, s, d) {
      var e, m :| 0 <= m < |s.outcomes| && CarriedOutBy(h, s, d, e) && s.outcomes[m].decisionId == d.decisionId
                  && OutcomeMeets(h, s.protocol, e, s.outcomes[m]);
      assert OutcomeGood(h, s.protocol, executed, s.outcomes[m]);
    }
  }

  /** Decisions that count have different ids. */
  lemma OneStandsPerId(h: EventDigests, s: Study, d: Decision, o: Decision)
    requires d in Standings(h, s) && o in Standings(h, s) && d.decisionId == o.decisionId
    ensures d == o
  {
    hide DecisionMeets;
    var i :| 0 <= i < |s.decisions| && s.decisions[i] == d && DecisionMeets(h, s.protocol, d)
             && forall j :: i < j < |s.decisions| && DecisionMeets(h, s.protocol, s.decisions[j]) ==>
                  s.decisions[j].decisionId != d.decisionId;
    var k :| 0 <= k < |s.decisions| && s.decisions[k] == o && DecisionMeets(h, s.protocol, o)
             && forall j :: k < j < |s.decisions| && DecisionMeets(h, s.protocol, s.decisions[j]) ==>
                  s.decisions[j].decisionId != o.decisionId;
    assert i == k;
  }

  lemma SameId(h: EventDigests, s: Study, executed: Executed, d: Decision, o: Outcome)
    requires Links(h, s, executed) && d in Standings(h, s) && o.decisionId == d.decisionId
    requires OutcomeGood(h, s.protocol, executed, o)
    ensures exists e :: CarriedOutBy(h, s, d, e) && OutcomeMeets(h, s.protocol, e, o)
  {
    hide CarriedOutBy, Standings, OutcomeMeets;
    OpenExactly(h, s, executed, o);
    var x, e :| CarriedOutBy(h, s, x, e) && o.decisionId == x.decisionId && OutcomeMeets(h, s.protocol, e, o);
    CarriedStands(h, s, x, e);
    OneStandsPerId(h, s, x, d);
  }

  // ---------------------------------------------------------------- counts

  ghost function Among(ds: seq<Decision>, keep: Decision -> bool): set<Decision> { set d | d in ds && keep(d) }

  lemma AmongPush(ds: seq<Decision>, keep: Decision -> bool)
    requires ds != [] && Distinct(ds)
    ensures var n := |ds| - 1;
            && Distinct(ds[..n])
            && |Among(ds, keep)| == |Among(ds[..n], keep)| + if keep(ds[n]) then 1 else 0
  {
    var n := |ds| - 1;
    assert ds == ds[..n] + [ds[n]] && ds[n] !in ds[..n];
    assert Among(ds, keep) == Among(ds[..n], keep) + if keep(ds[n]) then {ds[n]} else {};
  }

  ghost function InArmOnly(arm: string): Decision -> bool { (d: Decision) => d.arm == arm }
  ghost function InBlockOnly(block: string): Decision -> bool { (d: Decision) => d.block == block }
  ghost function InCell(block: string, arm: string): Decision -> bool {
    (d: Decision) => d.block == block && d.arm == arm
  }
  ghost function IsDone(executed: Executed, observed: map<string, Outcome>, arm: string): Decision -> bool {
    (d: Decision) => d.arm == arm && Finished(executed, observed, d)
  }

  lemma {:induction false} AssignedCounts(ds: seq<Decision>, arm: string)
    requires Distinct(ds)
    ensures Assigned(ds, arm) == |Among(ds, InArmOnly(arm))|
    decreases |ds|
  {
    if ds != [] {
      AmongPush(ds, InArmOnly(arm));
      hide Among, Distinct;
      AssignedCounts(ds[..|ds| - 1], arm);
    }
  }

  lemma {:induction false} DoneCounts(executed: Executed, observed: map<string, Outcome>, ds: seq<Decision>,
                                      arm: string)
    requires Distinct(ds)
    ensures Done(executed, observed, ds, arm) == |Among(ds, IsDone(executed, observed, arm))|
    decreases |ds|
  {
    if ds != [] {
      AmongPush(ds, IsDone(executed, observed, arm));
      hide Among, Distinct, Finished;
      DoneCounts(executed, observed, ds[..|ds| - 1], arm);
    }
  }

  lemma {:induction false} BlockCounts(ds: seq<Decision>, block: string, arm: string)
    requires Distinct(ds)
    ensures |InBlock(ds, block)| == |Among(ds, InBlockOnly(block))|
    ensures InArm(InBlock(ds, block), block, arm) == |Among(ds, InCell(block, arm))|
    decreases |ds|
  {
    if ds != [] {
      var n := |ds| - 1;
      AmongPush(ds, InBlockOnly(block));
      AmongPush(ds, InCell(block, arm));
      hide Among, Distinct;
      BlockCounts(ds[..n], block, arm);
      InArmPush(InBlock(ds[..n], block), ds[n], block, arm);
      assert InBlock(ds[..n], block) + [] == InBlock(ds[..n], block);
      hide InArm;
    }
  }

  lemma {:induction false} BlockMembersAre(ds: seq<Decision>, block: string)
    ensures forall d :: d in InBlock(ds, block) <==> d in ds && d.block == block
    decreases |ds|
  {
    if ds != [] {
      var n := |ds| - 1;
      BlockMembersAre(ds[..n], block);
      assert ds == ds[..n] + [ds[n]];
    }
  }

  ghost function ConfirmedUpTo(h: EventDigests, p: Protocol, byId: Index, es: seq<Execution>, n: nat, arm: string)
    : set<int>
    requires n <= |es|
  {
    set k | 0 <= k < n && ConfirmedIn(h, p, byId, es[k], arm)
  }

  lemma ConfirmedPush(h: EventDigests, p: Protocol, byId: Index, es: seq<Execution>, n: nat, arm: string)
    requires n < |es|
    ensures |ConfirmedUpTo(h, p, byId, es, n + 1, arm)|
         == |ConfirmedUpTo(h, p, byId, es, n, arm)| + if ConfirmedIn(h, p, byId, es[n], arm) then 1 else 0
  {
    hide ConfirmedIn;
    assert ConfirmedUpTo(h, p, byId, es, n + 1, arm)
        == ConfirmedUpTo(h, p, byId, es, n, arm) + if ConfirmedIn(h, p, byId, es[n], arm) then {n as int} else {};
  }

  lemma {:induction false} ConfirmationsCount(h: EventDigests, p: Protocol, byId: Index, es: seq<Execution>, n: nat,
                                              arm: string)
    requires n <= |es|
    ensures Confirmations(h, p, byId, es, n, arm) == |ConfirmedUpTo(h, p, byId, es, n, arm)|
  {
    if n > 0 {
      hide ConfirmedIn, ConfirmedUpTo;
      ConfirmationsCount(h, p, byId, es, n - 1, arm);
      ConfirmedPush(h, p, byId, es, n - 1, arm);
    }
  }

  // ---------------------------------------------------------------- what is held against a study

  /** The listing is of the decisions that count, each once. */
  ghost predicate Enumerates(h: EventDigests, s: Study, ds: seq<Decision>) {
    Distinct(ds) && forall d :: d in ds <==> d in Standings(h, s)
  }

  lemma RepeatedTwice(ids: seq<string>, r: Reason)
    ensures RepeatedIn(ids, r) <==> r.DuplicateId? && Twice(ids, r.id)
  {
  }

  lemma SameIds(s: Study)
    ensures Ids((d: Decision) => d.decisionId, s.decisions) == DecisionIds(s.decisions)
    ensures Ids((e: Execution) => e.executionId, s.executions) == ExecutionIds(s.executions)
    ensures Ids((o: Outcome) => o.outcomeId, s.outcomes) == OutcomeIds(s.outcomes)
    ensures Ids((e: Execution) => e.decisionId, s.executions) == ExecutionTargets(s.executions)
    ensures Ids((o: Outcome) => o.decisionId, s.outcomes) == OutcomeTargets(s.outcomes)
  {
  }

  lemma IdFaultExactly(h: EventDigests, s: Study, r: Reason)
    ensures IdFault(s, r) <==> r.DuplicateId? && Fault(h, s, r)
  {
    hide RepeatedIn, Twice, Ids, DecisionIds, ExecutionIds, OutcomeIds, ExecutionTargets, OutcomeTargets;
    SameIds(s);
    RepeatedTwice(DecisionIds(s.decisions), r);
    RepeatedTwice(ExecutionIds(s.executions), r);
    RepeatedTwice(OutcomeIds(s.outcomes), r);
    RepeatedTwice(ExecutionTargets(s.executions), r);
    RepeatedTwice(OutcomeTargets(s.outcomes), r);
  }

  lemma DecisionFaultExactly(h: EventDigests, s: Study, r: Reason)
    ensures DecisionFault(h, s.protocol, s.decisions, r) <==> r.BadDecision? && Fault(h, s, r)
  {
    hide DecisionOk, DecisionMeets;
    forall d: Decision ensures DecisionOk(h, s.protocol, d) <==> DecisionMeets(h, s.protocol, d) {
      DecisionOkExactly(h, s.protocol, d);
    }
  }

  lemma ChainFaultExactly(h: EventDigests, s: Study, ds: seq<Decision>, r: Reason)
    requires Enumerates(h, s, ds)
    ensures ChainFault(s.protocol, ds, |ds|, r) <==> r.NoPredecessor? && Fault(h, s, r)
  {
    hide Standings, Distinct;
    if r.NoPredecessor? && Fault(h, s, r) {
      var d :| d in Standings(h, s) && d.decisionId == r.id && d.previous != s.protocol.protocolHash
               && forall o :: o in Standings(h, s) ==> o.event != d.previous;
      var i :| 0 <= i < |ds| && ds[i] == d;
      assert !Resolves(s.protocol, ds, ds[i]);
    }
    if ChainFault(s.protocol, ds, |ds|, r) {
      var i :| 0 <= i < |ds| && !Resolves(s.protocol, ds, ds[i]) && r == NoPredecessor(ds[i].decisionId);
      assert ds[i] in Standings(h, s);
      forall o | o in Standings(h, s) ensures o.event != ds[i].previous {
        assert o in ds;
      }
    }
  }

  lemma BlockSets(h: EventDigests, s: Study, ds: seq<Decision>, block: string)
    requires Enumerates(h, s, ds)
    ensures |InBlock(ds, block)| == |InBlockSet(h, s, block)|
    ensures forall arm :: InArm(InBlock(ds, block), block, arm) == |InArmSet(h, s, block, arm)|
    ensures forall d :: d in InBlock(ds, block) <==> d in InBlockSet(h, s, block)
  {
    hide Standings, Distinct, InBlock, InArm;
    BlockMembersAre(ds, block);
    BlockCounts(ds, block, "");
    assert Among(ds, InBlockOnly(block)) == InBlockSet(h, s, block);
    forall arm ensures InArm(InBlock(ds, block), block, arm) == |InArmSet(h, s, block, arm)| {
      BlockCounts(ds, block, arm);
      assert Among(ds, InCell(block, arm)) == InArmSet(h, s, block, arm);
    }
  }

  lemma OneIdentityExactly(block: seq<Decision>)
    ensures OneIdentity(block)
       <==> forall d, o :: d in block && o in block ==> d.allocation == o.allocation && d.material == o.material
  {
    if OneIdentity(block) {
      forall d, o | d in block && o in block ensures d.allocation == o.allocation && d.material == o.material {
        var i :| 0 <= i < |block| && block[i] == d;
        var j :| 0 <= j < |block| && block[j] == o;
      }
    }
    if block != []
       && forall d, o :: d in block && o in block ==> d.allocation == o.allocation && d.material == o.material {
      assert block[0] in block;
    }
  }

  lemma TooManyExactly(h: EventDigests, s: Study, ds: seq<Decision>, block: string)
    requires Enumerates(h, s, ds) && ProtocolOk(s.protocol)
    ensures Overfull(s.protocol, InBlock(ds, block), block) <==> TooMany(h, s, block)
    ensures TooMany(h, s, block) ==> InBlock(ds, block) != []
  {
    BlockSets(h, s, ds, block);
    assert s.protocol.blockSize == 2 * (s.protocol.blockSize / 2) && s.protocol.blockSize > 0;
    hide InBlock, InArm, InBlockSet, InArmSet, ProtocolOk, Enumerates;
    if InBlock(ds, block) == [] {
      NoneInArm(s.protocol, block);
    }
  }

  lemma NoneInArm(p: Protocol, block: string)
    ensures forall arm :: InArm([], block, arm) == 0
  {
  }

  lemma SomeInBlock(ds: seq<Decision>, block: string)
    ensures InBlock(ds, block) != [] <==> exists i :: 0 <= i < |ds| && ds[i].block == block
  {
    hide InBlock;
    BlockMembersAre(ds, block);
    if InBlock(ds, block) != [] {
      var d := InBlock(ds, block)[0];
      assert d in InBlock(ds, block);
      var i :| 0 <= i < |ds| && ds[i] == d;
    }
    forall i | 0 <= i < |ds| && ds[i].block == block ensures InBlock(ds, block) != [] {
      assert ds[i] in InBlock(ds, block);
    }
  }

  lemma ConflictExactly(h: EventDigests, s: Study, ds: seq<Decision>, block: string)
    requires Enumerates(h, s, ds)
    ensures !OneIdentity(InBlock(ds, block)) <==> Fault(h, s, ConflictingBlock(block))
    ensures !OneIdentity(InBlock(ds, block)) ==> InBlock(ds, block) != []
  {
    BlockSets(h, s, ds, block);
    OneIdentityExactly(InBlock(ds, block));
    hide InBlock, InArm, InBlockSet, InArmSet, Enumerates, OneIdentity;
  }

  lemma BlockFaultExactly(h: EventDigests, s: Study, ds: seq<Decision>, r: Reason)
    requires Enumerates(h, s, ds) && ProtocolOk(s.protocol)
    ensures BlockFault(s.protocol, ds, r) <==> (r.ConflictingBlock? || r.UnbalancedBlock?) && Fault(h, s, r)
  {
    hide InBlock, OneIdentity, Overfull, TooMany, ProtocolOk, Enumerates, InBlockSet;
    if r.ConflictingBlock? || r.UnbalancedBlock? {
      TooManyExactly(h, s, ds, r.id);
      ConflictExactly(h, s, ds, r.id);
      SomeInBlock(ds, r.id);
      if Fault(h, s, r) {
        assert BlockBlamed(s.protocol, ds, r.id, r);
        var i :| 0 <= i < |ds| && ds[i].block == r.id;
        assert BlockBlamed(s.protocol, ds, ds[i].block, r);
      }
    }
  }

  lemma BlockGapExactly(h: EventDigests, s: Study, ds: seq<Decision>, r: Reason)
    requires Enumerates(h, s, ds) && ProtocolOk(s.protocol)
    ensures BlockGap(s.protocol, ds, r) <==> r.IncompleteBlock? && Holdup(h, s, r)
  {
    hide InBlock, Overfull, TooMany, ProtocolOk, Enumerates, InBlockSet;
    if r.IncompleteBlock? {
      TooManyExactly(h, s, ds, r.id);
      BlockSets(h, s, ds, r.id);
      SomeInBlock(ds, r.id);
      if Holdup(h, s, r) {
        var i :| 0 <= i < |ds| && ds[i].block == r.id;
        assert BlockLacks(s.protocol, ds, ds[i].block, r);
      }
    }
  }

  lemma ExecutionFaultExactly(h: EventDigests, s: Study, byId: Index, ds: seq<Decision>, r: Reason)
    requires ProtocolOk(s.protocol)
    requires Ok(byId) && Indexes(h, s.protocol, s.decisions, byId) && Lists(byId, ds)
    ensures ExecutionFault(h, s.protocol, byId, s.executions, r) <==> r.BadExecution? && Fault(h, s, r)
  {
    hide ProtocolOk, Ok, Indexes, Lists, ExecutionGood, Carries;
    forall e: Execution ensures ExecutionGood(h, s.protocol, byId, e) <==> exists d :: Carries(h, s, d, e) {
      CarriesExactly(h, s, byId, ds, e);
      GoodIsIndexed(h, s.protocol, byId, e);
    }
  }

  lemma OutcomeFaultExactly(h: EventDigests, s: Study, executed: Executed, r: Reason)
    requires Links(h, s, executed)
    ensures OutcomeFault(h, s.protocol, executed, s.outcomes, |s.outcomes|, r) <==> r.BadOutcome? && Fault(h, s, r)
  {
    hide Links, OutcomeOpen, CarriedOutBy, OutcomeMeets, OutcomeChains;
    forall o: Outcome
      ensures OutcomeOpen(h, s.protocol, executed, o)
         <==> exists d, e :: CarriedOutBy(h, s, d, e) && o.decisionId == d.decisionId && MayCount(h, s, e, o)
    {
      OpenExactly(h, s, executed, o);
    }
  }

  lemma ArmFaultExactly(h: EventDigests, s: Study, ds: seq<Decision>, r: Reason)
    requires Enumerates(h, s, ds)
    ensures ArmFault(s.protocol, ds, r) <==> r.NoSupport? && Fault(h, s, r)
  {
    hide Standings, Distinct;
    forall arm ensures Assigned(ds, arm) == 0 <==> forall d :: d in Standings(h, s) ==> d.arm != arm {
      AssignedCounts(ds, arm);
      if d :| d in Standings(h, s) && d.arm == arm {
        assert d in Among(ds, InArmOnly(arm));
      } else {
        assert Among(ds, InArmOnly(arm)) == {};
      }
    }
  }

  /** What the loops report against a study is what can be held against it. */
  lemma BlamedExactly(h: EventDigests, s: Study, byId: Index, ds: seq<Decision>, executed: Executed,
                      observed: map<string, Outcome>, r: Reason)
    requires ProtocolOk(s.protocol) && Gathered(h, s, byId, ds, executed, observed)
    ensures Blamed(h, s, byId, ds, executed, r) <==> Fault(h, s, r)
  {
    hide ProtocolOk, Ok, Indexes, Lists, HoldsLast, Matures, IdFault, DecisionFault, ChainFault, BlockFault,
         ExecutionFault, OutcomeFault, ArmFault, Links, Enumerates;
    ListedEnumerates(h, s, byId, ds);
    IndexLinks(h, s, byId, ds, executed, observed);
    IdFaultExactly(h, s, r);
    DecisionFaultExactly(h, s, r);
    ChainFaultExactly(h, s, ds, r);
    BlockFaultExactly(h, s, ds, r);
    ExecutionFaultExactly(h, s, byId, ds, r);
    OutcomeFaultExactly(h, s, executed, r);
    ArmFaultExactly(h, s, ds, r);
    FaultsAreOf(h, s, r);
    hide Fault;
  }

  lemma FaultsAreOf(h: EventDigests, s: Study, r: Reason)
    ensures Fault(h, s, r) ==>
              || r.DuplicateId? || r.BadDecision? || r.NoPredecessor? || r.ConflictingBlock? || r.UnbalancedBlock?
              || r.BadExecution? || r.BadOutcome? || r.NoSupport?
  {
  }

  lemma ListedEnumerates(h: EventDigests, s: Study, byId: Index, ds: seq<Decision>)
    requires Ok(byId) && Indexes(h, s.protocol, s.decisions, byId) && Lists(byId, ds)
    ensures Enumerates(h, s, ds)
  {
    ListedAreStanding(h, s, byId, ds);
  }

  // ---------------------------------------------------------------- what holds a study up

  lemma AwaitingExactly(h: EventDigests, s: Study, executed: Executed)
    requires Links(h, s, executed)
    ensures Awaiting(h, s.protocol, executed, s.outcomes, |s.outcomes|)
       <==> exists m, d, e :: 0 <= m < |s.outcomes| && CarriedOutBy(h, s, d, e)
                              && s.outcomes[m].decisionId == d.decisionId && s.outcomes[m].maturity == Awaited
                              && OutcomeChains(h, s.protocol, e, s.outcomes[m])
  {
    hide Links, OutcomeOpen, CarriedOutBy, OutcomeMeets, OutcomeChains;
    forall o: Outcome
      ensures OutcomeOpen(h, s.protocol, executed, o) && o.maturity == Awaited
         <==> exists d, e :: CarriedOutBy(h, s, d, e) && o.decisionId == d.decisionId && o.maturity == Awaited
                             && OutcomeChains(h, s.protocol, e, o)
    {
      OpenExactly(h, s, executed, o);
    }
  }

  lemma UnfinishedExactly(h: EventDigests, s: Study, ds: seq<Decision>, executed: Executed,
                          observed: map<string, Outcome>)
    requires Enumerates(h, s, ds) && Links(h, s, executed)
    requires forall id :: id in observed <==> Matures(h, s.protocol, executed, s.outcomes, |s.outcomes|, id)
    ensures !AllFinished(executed, observed, ds) <==> exists d :: d in Standings(h, s) && !Observed(h, s, d)
  {
    hide Links, Standings, Observed, Finished, Matures, Distinct;
    forall d | d in Standings(h, s) ensures Finished(executed, observed, d) <==> Observed(h, s, d) {
      ObservedExactly(h, s, executed, observed, d);
    }
    forall d | d in Standings(h, s) && !Observed(h, s, d) ensures !AllFinished(executed, observed, ds) {
      var i :| 0 <= i < |ds| && ds[i] == d;
    }
    forall i | 0 <= i < |ds| && !Finished(executed, observed, ds[i])
      ensures exists d :: d in Standings(h, s) && !Observed(h, s, d)
    {
      assert ds[i] in Standings(h, s);
    }
  }

  lemma HeldUpExactly(h: EventDigests, s: Study, byId: Index, ds: seq<Decision>, executed: Executed,
                      observed: map<string, Outcome>, r: Reason)
    requires ProtocolOk(s.protocol) && Gathered(h, s, byId, ds, executed, observed)
    ensures HeldUp(h, s, ds, executed, observed, r) <==> Holdup(h, s, r)
  {
    hide ProtocolOk, Ok, Indexes, Lists, HoldsLast, Matures, BlockGap, Awaiting, AllFinished, Links, Enumerates,
         Standings, Observed, CarriedOutBy, OutcomeChains, InBlockSet, TooMany;
    ListedEnumerates(h, s, byId, ds);
    IndexLinks(h, s, byId, ds, executed, observed);
    BlockGapExactly(h, s, ds, r);
    AwaitingExactly(h, s, executed);
    UnfinishedExactly(h, s, ds, executed, observed);
  }

  // ---------------------------------------------------------------- the verdict

  lemma CountsExactly(h: EventDigests, s: Study, byId: Index, ds: seq<Decision>, executed: Executed,
                      observed: map<string, Outcome>, counts: map<string, Counts>, arm: string)
    requires ProtocolOk(s.protocol) && Gathered(h, s, byId, ds, executed, observed) && arm in counts
    requires CountsSay(h, s, byId, ds, executed, observed, counts)
    ensures CountsAre(h, s, arm, counts[arm])
  {
    hide ProtocolOk, Ok, Indexes, Lists, HoldsLast, Matures, Links, Assigned, Done, Confirmations, CountsOk;
    ListedEnumerates(h, s, byId, ds);
    IndexLinks(h, s, byId, ds, executed, observed);
    AssignedExactly(h, s, ds, executed, observed, arm);
    ConfirmedExactly(h, s, byId, ds, arm);
    hide AssignedTo, CompletedIn, ConfirmedFor;
  }

  lemma AssignedExactly(h: EventDigests, s: Study, ds: seq<Decision>, executed: Executed,
                        observed: map<string, Outcome>, arm: string)
    requires Enumerates(h, s, ds) && Links(h, s, executed)
    requires forall id :: id in observed <==> Matures(h, s.protocol, executed, s.outcomes, |s.outcomes|, id)
    ensures Assigned(ds, arm) == |AssignedTo(h, s, arm)|
    ensures Done(executed, observed, ds, arm) == |CompletedIn(h, s, arm)|
  {
    hide Links, Standings, Observed, Finished, Matures, Distinct, Assigned, Done;
    AssignedCounts(ds, arm);
    DoneCounts(executed, observed, ds, arm);
    forall d | d in Standings(h, s) ensures Finished(executed, observed, d) <==> Observed(h, s, d) {
      ObservedExactly(h, s, executed, observed, d);
    }
    assert Among(ds, InArmOnly(arm)) == AssignedTo(h, s, arm);
    assert Among(ds, IsDone(executed, observed, arm)) == CompletedIn(h, s, arm);
  }

  lemma ConfirmedExactly(h: EventDigests, s: Study, byId: Index, ds: seq<Decision>, arm: string)
    requires ProtocolOk(s.protocol)
    requires Ok(byId) && Indexes(h, s.protocol, s.decisions, byId) && Lists(byId, ds)
    ensures Confirmations(h, s.protocol, byId, s.executions, |s.executions|, arm) == |ConfirmedFor(h, s, arm)|
  {
    hide ProtocolOk, Ok, Indexes, Lists, ExecutionGood, Carries, Confirmations;
    ConfirmationsCount(h, s.protocol, byId, s.executions, |s.executions|, arm);
    forall e: Execution ensures ConfirmedIn(h, s.protocol, byId, e, arm) <==> Confirms(h, s, arm, e) {
      CarriesExactly(h, s, byId, ds, e);
      GoodIsIndexed(h, s.protocol, byId, e);
    }
    hide ConfirmedIn, Confirms;
    assert ConfirmedUpTo(h, s.protocol, byId, s.executions, |s.executions|, arm) == ConfirmedFor(h, s, arm);
  }

  lemma {:induction false} BeforePrecedes(a: string, b: string)
    ensures Before(a, b) ==> Precedes(a, b)
    decreases |a|
  {
    if Before(a, b) {
      if a == [] {
        assert a[..0] == b[..0];
      } else if a[0] < b[0] {
        assert a[..0] == b[..0];
      } else {
        BeforePrecedes(a[1..], b[1..]);
        var n :| 0 <= n <= |a[1..]| && n < |b[1..]| && a[1..][..n] == b[1..][..n]
                 && (n == |a[1..]| || a[1..][n] < b[1..][n]);
        assert a[..n + 1] == [a[0]] + a[1..][..n] && b[..n + 1] == [b[0]] + b[1..][..n];
      }
    }
  }

  lemma {:induction false} BeforeOrders(a: string, b: string, c: string)
    ensures !Before(a, a)
    ensures Before(a, b) && Before(b, c) ==> Before(a, c)
    ensures Before(a, c) ==> Before(a, b) || Before(b, c)
    ensures a != b ==> Before(a, b) || Before(b, a)
    decreases |a| + |b| + |c|
  {
    if a != [] {
      BeforeOrders(a[1..], if b == [] then [] else b[1..], if c == [] then [] else c[1..]);
      if b != [] && a[0] == b[0] {
        assert a == [a[0]] + a[1..] && b == [b[0]] + b[1..];
      }
    }
  }

  /** Sorted ids come one before the other where no two are equal. */
  lemma SortedIdsPrecede(ids: seq<string>)
    requires Distinct(ids)
    ensures var sorted := Sort(InOrder(), ids);
            forall i, j :: 0 <= i < j < |sorted| ==> Precedes(sorted[i], sorted[j])
  {
    var before := InOrder();
    forall a: string, b: string, c: string
      ensures !before(a, a)
      ensures before(a, b) && before(b, c) ==> before(a, c)
      ensures before(a, c) ==> before(a, b) || before(b, c)
    {
      BeforeOrders(a, b, c);
    }
    hide Before, Precedes;
    var sorted := Sort(before, ids);
    SortSorts(before, ids);
    DistinctPermuted(ids, sorted);
    forall i, j | 0 <= i < j < |sorted| ensures Precedes(sorted[i], sorted[j]) {
      BeforeOrders(sorted[i], sorted[j], sorted[i]);
      assert !before(sorted[j], sorted[i]);
      BeforePrecedes(sorted[i], sorted[j]);
    }
  }

  ghost predicate ReasonsAre(h: EventDigests, s: Study, counts: map<string, Counts>, reasons: seq<Reason>,
                             held: seq<Reason>) {
    && CountsOk(s.protocol, counts) && (forall arm :: arm in counts ==> CountsAre(h, s, arm, counts[arm]))
    && (forall r :: r in reasons <==> Fault(h, s, r)) && (forall r :: r in held <==> Holdup(h, s, r))
  }

  lemma ReportedExactly(h: EventDigests, s: Study, counts: map<string, Counts>, reasons: seq<Reason>, held: seq<Reason>)
    requires ProtocolOk(s.protocol) && Reported(h, s, counts, reasons, held)
    ensures ReasonsAre(h, s, counts, reasons, held)
  {
    hide ProtocolOk, Gathered, Blamed, HeldUp, Fault, Holdup, CountsAre, CountsSay;
    var byId, ds, executed, observed :|
      && Gathered(h, s, byId, ds, executed, observed) && CountsSay(h, s, byId, ds, executed, observed, counts)
      && (forall r :: r in reasons <==> Blamed(h, s, byId, ds, executed, r))
      && (forall r :: r in held <==> HeldUp(h, s, ds, executed, observed, r));
    forall r
      ensures Blamed(h, s, byId, ds, executed, r) <==> Fault(h, s, r)
      ensures HeldUp(h, s, ds, executed, observed, r) <==> Holdup(h, s, r)
    {
      BlamedExactly(h, s, byId, ds, executed, observed, r);
      HeldUpExactly(h, s, byId, ds, executed, observed, r);
    }
    CountedArms(h, s, byId, ds, executed, observed, counts);
    forall arm | arm in counts ensures CountsAre(h, s, arm, counts[arm]) {
      CountsExactly(h, s, byId, ds, executed, observed, counts, arm);
    }
  }

  lemma CountedArms(h: EventDigests, s: Study, byId: Index, ds: seq<Decision>, executed: Executed,
                    observed: map<string, Outcome>, counts: map<string, Counts>)
    requires CountsSay(h, s, byId, ds, executed, observed, counts)
    ensures CountsOk(s.protocol, counts)
  {
  }

  lemma PowerExactly(h: EventDigests, s: Study, counts: map<string, Counts>, r: Reason)
    requires CountsOk(s.protocol, counts) && forall arm :: arm in counts ==> CountsAre(h, s, arm, counts[arm])
    ensures PowerFault(s.protocol, counts, r) <==> Lacking(h, s, r)
  {
    hide CompletedIn, AssignedTo, ConfirmedFor;
    forall i | 0 <= i < |s.protocol.arms| ensures s.protocol.arms[i].armId in counts {
      assert IsArm(s.protocol, s.protocol.arms[i].armId);
    }
    if PowerFault(s.protocol, counts, r) {
      var i :| 0 <= i < |s.protocol.arms| && s.protocol.arms[i].armId in counts
               && counts[s.protocol.arms[i].armId].completed < s.protocol.minCompleted
               && r == Underpowered(s.protocol.arms[i].armId);
      assert Short(h, s, i);
    }
  }

  lemma ShortIsLacking(h: EventDigests, s: Study)
    ensures (exists r :: Lacking(h, s, r)) <==> exists i :: Short(h, s, i)
  {
    if i :| Short(h, s, i) {
      assert Lacking(h, s, Underpowered(s.protocol.arms[i].armId));
    }
  }

  lemma ShortExactly(h: EventDigests, s: Study, counts: map<string, Counts>)
    requires CountsOk(s.protocol, counts) && forall arm :: arm in counts ==> CountsAre(h, s, arm, counts[arm])
    ensures (exists r :: PowerFault(s.protocol, counts, r)) <==> exists i :: Short(h, s, i)
    ensures forall r :: PowerFault(s.protocol, counts, r) <==> Lacking(h, s, r)
  {
    ShortIsLacking(h, s);
    hide CountsAre, PowerFault, Short, Lacking;
    forall r ensures PowerFault(s.protocol, counts, r) <==> Lacking(h, s, r) {
      PowerExactly(h, s, counts, r);
    }
  }

  lemma IncludedAre(h: EventDigests, s: Study, included: seq<string>)
    requires Qualifies(h, s) && included == Sort(InOrder(), DecisionIds(s.decisions))
    ensures multiset(included) == multiset(Ids((d: Decision) => d.decisionId, s.decisions))
    ensures forall i, j :: 0 <= i < j < |included| ==> Precedes(included[i], included[j])
  {
    QualifiedIdsDistinct(h, s);
    SortedIdsPrecede(DecisionIds(s.decisions));
    SameIds(s);
    hide Qualifies, Precedes, Sort, InOrder;
  }

  /** The verdict as it is returned says just this. */
  lemma VerdictSays(h: EventDigests, s: Study, v: Verdict)
    requires IsVerdict(h, s, v) && Explained(h, s, v)
    ensures Says(h, s, v)
  {
    hide *;
    ProtocolOkExactly(s.protocol);
    if ProtocolOk(s.protocol) {
      var reasons, held := Explanation(h, s, v);
      ReportedExactly(h, s, v.counts, reasons, held);
      QualifiedQualifies(h, s, v);
      FollowsSays(h, s, reasons, held, v);
      CountedSays(h, s, v, reasons, held);
    } else {
      RefusedSays(h, s, v);
    }
  }

  lemma Explanation(h: EventDigests, s: Study, v: Verdict) returns (reasons: seq<Reason>, held: seq<Reason>)
    requires Explained(h, s, v) && ProtocolOk(s.protocol)
    ensures Reported(h, s, v.counts, reasons, held) && Follows(s, reasons, held, v)
  {
    hide Reported, Follows, ProtocolOk;
    reasons, held :| Reported(h, s, v.counts, reasons, held) && Follows(s, reasons, held, v);
  }

  lemma RefusedSays(h: EventDigests, s: Study, v: Verdict)
    requires !ProtocolMeets(s.protocol) && !ProtocolOk(s.protocol) && Explained(h, s, v)
    ensures Says(h, s, v)
  {
    ArmsAre(s.protocol, v.counts);
    hide ProtocolOk, ProtocolMeets, Fault, Holdup, CountsAre, Short, CountsOk, Ids, Precedes;
  }

  lemma FaultSays(h: EventDigests, s: Study, v: Verdict)
    requires v.state == Invalid && v.included == [] && v.reasons != [] && forall r :: r in v.reasons <==> Fault(h, s, r)
    ensures SaysState(h, s, v)
  {
    SomeReason(v.reasons);
    hide Fault, Holdup, Short, Lacking, Ids, Precedes;
  }

  lemma HeldSays(h: EventDigests, s: Study, v: Verdict)
    requires forall r :: !Fault(h, s, r)
    requires v.state == Collecting && v.included == [] && v.reasons != []
    requires forall r :: r in v.reasons <==> Holdup(h, s, r)
    ensures SaysState(h, s, v)
  {
    SomeReason(v.reasons);
    hide Fault, Holdup, Short, Lacking, Ids, Precedes;
  }

  lemma ShortSays(h: EventDigests, s: Study, v: Verdict)
    requires (forall r :: !Fault(h, s, r)) && (forall r :: !Holdup(h, s, r)) && exists i :: Short(h, s, i)
    requires v.state == Inconclusive && v.included == [] && forall r :: r in v.reasons <==> Lacking(h, s, r)
    ensures SaysState(h, s, v)
  {
    hide Fault, Holdup, Short, Lacking, Ids, Precedes;
  }

  lemma QualifiedSays(h: EventDigests, s: Study, v: Verdict)
    requires (forall r :: !Fault(h, s, r)) && (forall r :: !Holdup(h, s, r)) && forall i :: !Short(h, s, i)
    requires v.state == Qualified && v.reasons == []
    requires multiset(v.included) == multiset(Ids((d: Decision) => d.decisionId, s.decisions))
    requires forall i, j :: 0 <= i < j < |v.included| ==> Precedes(v.included[i], v.included[j])
    ensures SaysState(h, s, v)
  {
    hide Fault, Holdup, Short, Lacking, Ids, Precedes;
  }

  lemma FollowsSays(h: EventDigests, s: Study, reasons: seq<Reason>, held: seq<Reason>, v: Verdict)
    requires v.state == Qualified ==> Qualifies(h, s)
    requires ReasonsAre(h, s, v.counts, reasons, held) && Follows(s, reasons, held, v)
    ensures SaysState(h, s, v)
  {
    ShortExactly(h, s, v.counts);
    hide SaysState, Fault, Holdup, CountsAre, PowerFault, Short, CountsOk, Ids, DecisionIds, Precedes, Qualifies, Sort,
         InOrder, Lacking;
    if reasons != [] {
      FaultSays(h, s, v);
    } else if held != [] {
      HeldSays(h, s, v);
    } else if exists r :: PowerFault(s.protocol, v.counts, r) {
      ShortSays(h, s, v);
    } else {
      IncludedAre(h, s, v.included);
      QualifiedSays(h, s, v);
    }
  }

  lemma CountedSays(h: EventDigests, s: Study, v: Verdict, reasons: seq<Reason>, held: seq<Reason>)
    requires ProtocolMeets(s.protocol) && SaysState(h, s, v) && ReasonsAre(h, s, v.counts, reasons, held)
    ensures Says(h, s, v)
  {
    ArmsAre(s.protocol, v.counts);
    hide ProtocolMeets, SaysState, Fault, Holdup, CountsAre, CountsOk;
  }

  lemma QualifiedQualifies(h: EventDigests, s: Study, v: Verdict)
    requires IsVerdict(h, s, v)
    ensures v.state == Qualified ==> Qualifies(h, s)
  {
    hide Qualifies;
  }

  lemma SomeReason(reasons: seq<Reason>)
    ensures reasons != [] <==> exists r :: r in reasons
  {
    if reasons != [] {
      assert reasons[0] in reasons;
    }
  }

  lemma QualifiedIdsDistinct(h: EventDigests, s: Study)
    requires Qualifies(h, s)
    ensures Distinct(DecisionIds(s.decisions))
  {
  }

  lemma ArmsAre(p: Protocol, counts: map<string, Counts>)
    ensures CountsOk(p, counts)
       <==> forall arm :: arm in counts <==> exists i :: 0 <= i < |p.arms| && p.arms[i].armId == arm
  {
  }
}
