/** Whether a qualified study can assign one unit twice. */
module StudyUnits {
  // The gates check the shape of a unit and the digest of the record that names it, and compare the ids of
  // decisions, executions and outcomes, but never two units. What keeps units apart is the replay of each
  // block from its plan, and that no two plans share a unit.

  import opened Tables
  import opened StudyRecords
  import opened Qualification
  import DecimalText

  // ---------------------------------------------------------------- a study with other units

  /** The decision for another unit, hashed anew and linked to the protocol. */
  function Redecided(h: EventDigests, p: Protocol, d: Decision, unit: string): Decision {
    var r := d.(unitIdHash := unit, previous := p.protocolHash, event := "");
    r.(event := h.decision(r))
  }

  function Redecisions(h: EventDigests, p: Protocol, ds: seq<Decision>, units: seq<string>): seq<Decision>
    requires |units| == |ds|
  {
    seq(|ds|, k requires 0 <= k < |ds| => Redecided(h, p, ds[k], units[k]))
  }

  /** The digest of the decision with an id. */
  function EventOf(ds: seq<Decision>, id: string): string {
    if ds == [] then ""
    else if ds[|ds| - 1].decisionId == id then ds[|ds| - 1].event
    else EventOf(ds[..|ds| - 1], id)
  }

  /** The digest of the execution of a decision. */
  function ExecutionOf(es: seq<Execution>, id: string): string {
    if es == [] then ""
    else if es[|es| - 1].decisionId == id then es[|es| - 1].event
    else ExecutionOf(es[..|es| - 1], id)
  }

  /** The execution linked to its decision's new digest and hashed anew. */
  function Reexecuted(h: EventDigests, ds: seq<Decision>, e: Execution): Execution {
    var r := e.(previous := EventOf(ds, e.decisionId), event := "");
    r.(event := h.execution(r))
  }

  function Reexecutions(h: EventDigests, ds: seq<Decision>, es: seq<Execution>): seq<Execution> {
    seq(|es|, k requires 0 <= k < |es| => Reexecuted(h, ds, es[k]))
  }

  function Reobserved(h: EventDigests, es: seq<Execution>, o: Outcome): Outcome {
    var r := o.(previous := ExecutionOf(es, o.decisionId), event := "");
    r.(event := h.outcome(r))
  }

  function Reobservations(h: EventDigests, es: seq<Execution>, os: seq<Outcome>): seq<Outcome> {
    seq(|os|, k requires 0 <= k < |os| => Reobserved(h, es, os[k]))
  }

  /** The study rebuilt for these units: every record is hashed anew and linked to what it follows. */
  function Rebuilt(h: EventDigests, s: Study, units: seq<string>): Study
    requires |units| == |s.decisions|
  {
    var ds := Redecisions(h, s.protocol, s.decisions, units);
    var es := Reexecutions(h, ds, s.executions);
    Study(s.protocol, ds, es, Reobservations(h, es, s.outcomes))
  }

  /** Digests have the shape of a digest; nothing more is asked of them. */
  ghost predicate DigestsOk(h: EventDigests) {
    && (forall d :: IsSha256(h.decision(d))) && (forall e :: IsSha256(h.execution(e)))
    && (forall o :: IsSha256(h.outcome(o)))
  }

  // ---------------------------------------------------------------- what is left alone

  /** The same decisions up to unit and digests. */
  ghost predicate Alike(a: seq<Decision>, b: seq<Decision>) {
    |a| == |b| && forall k :: 0 <= k < |a| ==>
      b[k] == a[k].(unitIdHash := b[k].unitIdHash, previous := b[k].previous, event := b[k].event)
  }

  lemma AlikeInit(a: seq<Decision>, b: seq<Decision>)
    requires Alike(a, b) && a != []
    ensures Alike(a[..|a| - 1], b[..|b| - 1])
    ensures b[|b| - 1].block == a[|a| - 1].block && b[|b| - 1].arm == a[|a| - 1].arm
    ensures Alike([a[|a| - 1]], [b[|b| - 1]])
  {
  }

  lemma AlikeConcat(a: seq<Decision>, b: seq<Decision>, c: seq<Decision>, d: seq<Decision>)
    requires Alike(a, b) && Alike(c, d)
    ensures Alike(a + c, b + d)
  {
  }

  lemma {:induction false} BlocksAlike(a: seq<Decision>, b: seq<Decision>, block: string)
    requires Alike(a, b)
    ensures Alike(InBlock(a, block), InBlock(b, block))
    decreases |a|
  {
    if a != [] {
      hide Alike;
      var n := |a| - 1;
      AlikeInit(a, b);
      BlocksAlike(a[..n], b[..|b| - 1], block);
      AlikeConcat(InBlock(a[..n], block), InBlock(b[..|b| - 1], block), [a[n]], [b[|b| - 1]]);
      assert InBlock(a[..n], block) + [] == InBlock(a[..n], block);
      assert InBlock(b[..|b| - 1], block) + [] == InBlock(b[..|b| - 1], block);
      assert b != [];
    }
  }

  lemma {:induction false} CountsAlike(a: seq<Decision>, b: seq<Decision>, block: string, arm: string)
    requires Alike(a, b)
    ensures InArm(a, block, arm) == InArm(b, block, arm) && Assigned(a, arm) == Assigned(b, arm)
    decreases |a|
  {
    if a != [] {
      AlikeInit(a, b);
      CountsAlike(a[..|a| - 1], b[..|b| - 1], block, arm);
    }
  }

  lemma FullAlike(p: Protocol, a: seq<Decision>, b: seq<Decision>, name: string)
    requires Alike(a, b) && FullBlock(p, a, name)
    ensures FullBlock(p, b, name)
  {
    hide InArm;
    forall i | 0 <= i < |p.arms| ensures InArm(b, name, p.arms[i].armId) == p.blockSize / 2 {
      CountsAlike(a, b, name, p.arms[i].armId);
    }
  }

  lemma FullBlocksAlike(p: Protocol, a: seq<Decision>, b: seq<Decision>)
    requires Alike(a, b) && BlocksFull(p, a)
    ensures BlocksFull(p, b)
  {
    hide FullBlock, InBlock;
    forall i | 0 <= i < |b| ensures FullBlock(p, InBlock(b, b[i].block), b[i].block) {
      assert FullBlock(p, InBlock(a, a[i].block), a[i].block);
      BlocksAlike(a, b, a[i].block);
      FullAlike(p, InBlock(a, a[i].block), InBlock(b, a[i].block), a[i].block);
    }
  }

  lemma PowerAlike(p: Protocol, a: seq<Decision>, b: seq<Decision>)
    requires Alike(a, b) && Powered(p, a)
    ensures Powered(p, b)
  {
    hide Assigned;
    forall i | 0 <= i < |p.arms| ensures Assigned(b, p.arms[i].armId) >= p.minCompleted {
      CountsAlike(a, b, "", p.arms[i].armId);
    }
  }

  function Units(ds: seq<Decision>): seq<string> { seq(|ds|, i requires 0 <= i < |ds| => ds[i].unitIdHash) }

  lemma RebuiltIds(h: EventDigests, s: Study, units: seq<string>)
    requires |units| == |s.decisions|
    ensures var t := Rebuilt(h, s, units);
            && t.protocol == s.protocol && t.decisions == Redecisions(h, s.protocol, s.decisions, units)
            && Units(t.decisions) == units
            && Alike(s.decisions, t.decisions) && DecisionIds(t.decisions) == DecisionIds(s.decisions)
            && ExecutionIds(t.executions) == ExecutionIds(s.executions)
            && ExecutionTargets(t.executions) == ExecutionTargets(s.executions)
            && OutcomeIds(t.outcomes) == OutcomeIds(s.outcomes)
            && OutcomeTargets(t.outcomes) == OutcomeTargets(s.outcomes)
  {
  }

  // ---------------------------------------------------------------- what is made anew

  lemma DecisionPasses(h: EventDigests, p: Protocol, d: Decision, unit: string)
    requires DigestsOk(h) && ProtocolOk(p) && IsSha256(unit) && DecisionOk(h, p, d)
    ensures DecisionOk(h, p, Redecided(h, p, d, unit))
  {
    hide IsSha256, IsArm;
  }

  lemma DecisionsPass(h: EventDigests, p: Protocol, ds: seq<Decision>, units: seq<string>)
    requires DigestsOk(h) && ProtocolOk(p) && |units| == |ds| && AllDecisionsOk(h, p, ds)
    requires forall k :: 0 <= k < |units| ==> IsSha256(units[k])
    ensures AllDecisionsOk(h, p, Redecisions(h, p, ds, units)) && ChainOk(p, Redecisions(h, p, ds, units))
  {
    hide DecisionOk, DigestsOk, ProtocolOk, IsSha256;
    forall k | 0 <= k < |ds| ensures DecisionOk(h, p, Redecided(h, p, ds[k], units[k])) {
      DecisionPasses(h, p, ds[k], units[k]);
    }
  }

  lemma {:induction false} EventOfDecision(ds: seq<Decision>, k: nat)
    requires k < |ds| && Distinct(DecisionIds(ds))
    ensures EventOf(ds, ds[k].decisionId) == ds[k].event
    decreases |ds|
  {
    var n := |ds| - 1;
    assert DecisionIds(ds)[k] == ds[k].decisionId && DecisionIds(ds)[n] == ds[n].decisionId;
    if k < n {
      assert DecisionIds(ds[..n]) == DecisionIds(ds)[..n];
      EventOfDecision(ds[..n], k);
    }
  }

  lemma {:induction false} EventOfExecution(es: seq<Execution>, k: nat)
    requires k < |es| && Distinct(ExecutionTargets(es))
    ensures ExecutionOf(es, es[k].decisionId) == es[k].event
    decreases |es|
  {
    var n := |es| - 1;
    assert ExecutionTargets(es)[k] == es[k].decisionId && ExecutionTargets(es)[n] == es[n].decisionId;
    if k < n {
      assert ExecutionTargets(es[..n]) == ExecutionTargets(es)[..n];
      EventOfExecution(es[..n], k);
    }
  }

  lemma ExecutionPasses(h: EventDigests, p: Protocol, d: Decision, e: Execution, unit: string, ds: seq<Decision>)
    requires DigestsOk(h) && ExecutionOk(h, p, d, e)
    requires EventOf(ds, e.decisionId) == Redecided(h, p, d, unit).event
    ensures ExecutionOk(h, p, Redecided(h, p, d, unit), Reexecuted(h, ds, e))
  {
    hide IsSha256, EventOf;
  }

  lemma ExecutionsPass(h: EventDigests, s: Study, units: seq<string>)
    requires DigestsOk(h) && |units| == |s.decisions| && Distinct(DecisionIds(s.decisions))
    requires forall i :: 0 <= i < |s.executions| ==> ExecutionBinds(h, s.protocol, s.decisions, s.executions[i])
    ensures var t := Rebuilt(h, s, units);
            forall i :: 0 <= i < |t.executions| ==> ExecutionBinds(h, t.protocol, t.decisions, t.executions[i])
  {
    hide DigestsOk, ExecutionOk, Distinct, EventOf;
    var t := Rebuilt(h, s, units);
    RebuiltIds(h, s, units);
    forall i | 0 <= i < |t.executions| ensures ExecutionBinds(h, t.protocol, t.decisions, t.executions[i]) {
      var e := s.executions[i];
      assert ExecutionBinds(h, s.protocol, s.decisions, e);
      var d :| d in s.decisions && d.decisionId == e.decisionId && ExecutionOk(h, s.protocol, d, e);
      var k :| 0 <= k < |s.decisions| && s.decisions[k] == d;
      EventOfDecision(t.decisions, k);
      ExecutionPasses(h, s.protocol, d, e, units[k], t.decisions);
      assert t.decisions[k] in t.decisions;
    }
  }

  lemma OutcomePasses(h: EventDigests, p: Protocol, e: Execution, o: Outcome, ds: seq<Decision>, es: seq<Execution>)
    requires DigestsOk(h) && OutcomeOk(h, p, e, o)
    requires ExecutionOf(es, o.decisionId) == Reexecuted(h, ds, e).event
    ensures OutcomeOk(h, p, Reexecuted(h, ds, e), Reobserved(h, es, o))
  {
    hide IsSha256, EventOf, ExecutionOf, ValuesOk;
    ValuesKept(p, o, Reobserved(h, es, o));
  }

  lemma ValuesKept(p: Protocol, o: Outcome, r: Outcome)
    requires r == o.(previous := r.previous, event := r.event)
    ensures ValuesOk(p, o) == ValuesOk(p, r)
  {
  }

  lemma OutcomesPass(h: EventDigests, s: Study, units: seq<string>)
    requires DigestsOk(h) && |units| == |s.decisions| && Distinct(ExecutionTargets(s.executions))
    requires forall i :: 0 <= i < |s.outcomes| ==> OutcomeBinds(h, s.protocol, s.executions, s.outcomes[i])
    ensures var t := Rebuilt(h, s, units);
            forall i :: 0 <= i < |t.outcomes| ==> OutcomeBinds(h, t.protocol, t.executions, t.outcomes[i])
  {
    hide DigestsOk, OutcomeOk, Distinct, ExecutionOf, Redecisions;
    var t := Rebuilt(h, s, units);
    RebuiltIds(h, s, units);
    forall i | 0 <= i < |t.outcomes| ensures OutcomeBinds(h, t.protocol, t.executions, t.outcomes[i]) {
      var o := s.outcomes[i];
      assert OutcomeBinds(h, s.protocol, s.executions, o);
      var e :| e in s.executions && e.decisionId == o.decisionId && OutcomeOk(h, s.protocol, e, o);
      var k :| 0 <= k < |s.executions| && s.executions[k] == e;
      EventOfExecution(t.executions, k);
      OutcomePasses(h, s.protocol, e, o, t.decisions, t.executions);
      assert t.executions[k] in t.executions;
    }
  }

  lemma StillComplete(s: Study, t: Study)
    requires ExecutionTargets(t.executions) == ExecutionTargets(s.executions)
    requires OutcomeTargets(t.outcomes) == OutcomeTargets(s.outcomes)
    requires DecisionIds(t.decisions) == DecisionIds(s.decisions)
    requires forall i :: 0 <= i < |s.decisions| ==> Complete(s, s.decisions[i])
    ensures forall i :: 0 <= i < |t.decisions| ==> Complete(t, t.decisions[i])
  {
    forall i | 0 <= i < |t.decisions| ensures Complete(t, t.decisions[i]) {
      assert |DecisionIds(t.decisions)| == |t.decisions| && |DecisionIds(s.decisions)| == |s.decisions|;
      assert DecisionIds(t.decisions)[i] == t.decisions[i].decisionId == s.decisions[i].decisionId;
      assert Complete(s, s.decisions[i]);
    }
  }

  /** No gate compares the units of two decisions: of every qualified study and any well-shaped units, the
      study rebuilt with these units, its records hashed and linked anew, qualifies. */
  lemma AnyUnitsQualify(h: EventDigests, s: Study, units: seq<string>)
    requires DigestsOk(h) && Qualifies(h, s) && |units| == |s.decisions|
    requires forall k :: 0 <= k < |units| ==> IsSha256(units[k])
    ensures Qualifies(h, Rebuilt(h, s, units)) && Units(Rebuilt(h, s, units).decisions) == units
  {
    hide Rebuilt, DigestsOk, ProtocolOk, Distinct, DecisionIds, ExecutionIds, OutcomeIds, ExecutionTargets,
         OutcomeTargets, AllDecisionsOk, ChainOk, BlocksFull, ExecutionBinds, OutcomeBinds, Complete, Powered, IsSha256,
         Alike, Redecisions, Units;
    var t := Rebuilt(h, s, units);
    RebuiltIds(h, s, units);
    DecisionsPass(h, s.protocol, s.decisions, units);
    FullBlocksAlike(s.protocol, s.decisions, t.decisions);
    PowerAlike(s.protocol, s.decisions, t.decisions);
    ExecutionsPass(h, s, units);
    OutcomesPass(h, s, units);
    StillComplete(s, t);
    AsManyUnits(t.decisions);
  }

  lemma AsManyUnits(ds: seq<Decision>)
    ensures |Units(ds)| == |ds|
  {
  }

  /** So a qualified study may assign a single unit over and over. */
  lemma OneUnitQualifies(h: EventDigests, s: Study, unit: string)
    requires DigestsOk(h) && Qualifies(h, s) && IsSha256(unit)
    ensures var t := Rebuilt(h, s, seq(|s.decisions|, _ => unit));
            && Qualifies(h, t) && |t.decisions| == |s.decisions| > 1
            && forall k :: 0 <= k < |t.decisions| ==> t.decisions[k].unitIdHash == unit
  {
    hide DigestsOk, Qualifies, IsSha256;
    AnyUnitsQualify(h, s, seq(|s.decisions|, _ => unit));
    BlockHoldsTwo(h, s);
  }

  lemma BlockHoldsTwo(h: EventDigests, s: Study)
    requires Qualifies(h, s)
    ensures |s.decisions| > 1
  {
    hide InArm, InBlock, ExecutionBinds, OutcomeBinds, Complete, Powered, IdsDistinct, AllDecisionsOk, ChainOk;
    assert FullBlock(s.protocol, InBlock(s.decisions, s.decisions[0].block), s.decisions[0].block);
    BlockIsPart(s.decisions, s.decisions[0].block);
  }

  lemma {:induction false} BlockIsPart(ds: seq<Decision>, block: string)
    ensures |InBlock(ds, block)| <= |ds|
    decreases |ds|
  {
    if ds != [] {
      BlockIsPart(ds[..|ds| - 1], block);
    }
  }

  // ---------------------------------------------------------------- what keeps units apart

  function PlanDecisions(): Assignment.Plan -> seq<Decision> { (plan: Assignment.Plan) => plan.decisions }

  function PlanUnits(): Assignment.Plan -> seq<string> { (plan: Assignment.Plan) => plan.units }

  lemma {:induction false} ReplayedUnits(h: Assignment.Digests, p: Protocol, plan: Assignment.Plan, arms: seq<string>,
                                         allocation: string, first: string, n: nat)
    requires n <= |plan.units| && n <= |arms|
    ensures Units(Assignment.Replayed(h, p, plan, arms, allocation, first, n)) == plan.units[..n]
    decreases n
  {
    if n > 0 {
      ReplayedUnits(h, p, plan, arms, allocation, first, n - 1);
    }
  }

  lemma AcceptedUnits(h: Assignment.Digests, p: Protocol, plan: Assignment.Plan, draws: seq<Assignment.Draw>)
    requires p.blockSize <= |draws| && Assignment.Accepted(h, p, plan, draws)
    ensures Units(plan.decisions) == plan.units && Distinct(plan.units)
  {
    hide Assignment.Replayed, Assignment.ReplayedArms;
    ReplayedUnits(h, p, plan, Assignment.ReplayedArms(p, draws), plan.allocation,
                  Assignment.FirstPrevious(p, plan), |plan.units|);
    assert plan.units[..|plan.units|] == plan.units;
  }

  lemma {:induction false} UnitsOfPlans(plans: seq<Assignment.Plan>)
    requires forall k :: 0 <= k < |plans| ==> Units(plans[k].decisions) == plans[k].units
    ensures Units(Flatten(PlanDecisions(), plans)) == Flatten(PlanUnits(), plans)
    decreases |plans|
  {
    if plans != [] {
      hide Units;
      var n := |plans| - 1;
      UnitsOfPlans(plans[..n]);
      UnitsConcat(Flatten(PlanDecisions(), plans[..n]), plans[n].decisions);
    }
  }

  lemma UnitsConcat(a: seq<Decision>, b: seq<Decision>)
    ensures Units(a + b) == Units(a) + Units(b)
  {
  }

  /** No unit is in two of the plans. */
  ghost predicate PlansApart(plans: seq<Assignment.Plan>) {
    forall j, k, unit :: 0 <= j < k < |plans| && unit in plans[j].units ==> unit !in plans[k].units
  }

  lemma {:induction false} DistinctPlans(plans: seq<Assignment.Plan>)
    requires forall k :: 0 <= k < |plans| ==> Distinct(plans[k].units)
    ensures Distinct(Flatten(PlanUnits(), plans)) <==> PlansApart(plans)
    decreases |plans|
  {
    if plans != [] {
      hide Distinct, Flatten;
      var n := |plans| - 1;
      DistinctPlans(plans[..n]);
      DistinctConcatExactly(Flatten(PlanUnits(), plans[..n]), plans[n].units);
      FlattenLast(plans);
      LastPlanApart(plans);
    } else {
      assert Flatten(PlanUnits(), plans) == [];
    }
  }

  lemma FlattenLast(plans: seq<Assignment.Plan>)
    requires plans != []
    ensures Flatten(PlanUnits(), plans)
         == Flatten(PlanUnits(), plans[..|plans| - 1]) + plans[|plans| - 1].units
  {
  }

  lemma LastPlanApart(plans: seq<Assignment.Plan>)
    requires plans != []
    ensures var n := |plans| - 1;
            PlansApart(plans)
            <==> PlansApart(plans[..n])
                 && forall unit :: unit in Flatten(PlanUnits(), plans[..n]) ==> unit !in plans[n].units
  {
    hide Flatten;
    var n := |plans| - 1;
    forall unit
      ensures unit in Flatten(PlanUnits(), plans[..n]) <==> exists j :: 0 <= j < n && unit in plans[j].units
    {
      InFlatten(PlanUnits(), plans[..n], unit);
      if j: nat :| j < n && unit in plans[j].units {
        assert plans[..n][j] in plans[..n] && unit in PlanUnits()(plans[..n][j]);
      }
    }
  }

  lemma DistinctConcatExactly(a: seq<string>, b: seq<string>)
    ensures Distinct(a + b) <==> Distinct(a) && Distinct(b) && forall x :: x in a ==> x !in b
  {
    var all := a + b;
    if Distinct(all) {
      forall i, j | 0 <= i < j < |a| ensures a[i] != a[j] {
        assert all[i] != all[j];
      }
      forall i, j | 0 <= i < j < |b| ensures b[i] != b[j] {
        assert all[|a| + i] != all[|a| + j];
      }
      forall i, j | 0 <= i < |a| && 0 <= j < |b| ensures a[i] != b[j] {
        assert all[i] != all[|a| + j];
      }
    } else if Distinct(a) && Distinct(b) {
      var i, j :| 0 <= i < j < |all| && all[i] == all[j];
      assert all[i] in a && all[i] in b;
    }
  }

  /** Of blocks that replay from their plans, every unit is assigned once if and only if no two plans
      share a unit. */
  lemma UnitsApartExactly(h: Assignment.Digests, p: Protocol, plans: seq<Assignment.Plan>,
                          draws: seq<seq<Assignment.Draw>>)
    requires |draws| == |plans|
    requires forall k :: 0 <= k < |plans| ==>
               p.blockSize <= |draws[k]| && Assignment.Accepted(h, p, plans[k], draws[k])
    ensures Distinct(Units(Flatten(PlanDecisions(), plans))) <==> PlansApart(plans)
  {
    hide Assignment.Accepted, Distinct, Units, Flatten, PlansApart;
    forall k | 0 <= k < |plans| ensures Units(plans[k].decisions) == plans[k].units && Distinct(plans[k].units) {
      AcceptedUnits(h, p, plans[k], draws[k]);
    }
    UnitsOfPlans(plans);
    DistinctPlans(plans);
  }

  // ---------------------------------------------------------------- a study made of plans

  /** Different blocks and positions have different decision ids. */
  ghost predicate IdsTellPlaces(h: Assignment.Digests) {
    forall a, m, b, n :: h.decisionId(a, m) == h.decisionId(b, n) ==> a == b && m == n
  }

  /** The id of a decision as a replay writes it: the study, the block and the position, between colons. */
  function WrittenId(study: string): (string, nat) -> string {
    (block: string, n: nat) => "decision:" + study + ":" + block + (":" + DecimalText.NatText(n))
  }

  lemma BlockThenDigits(x: string, a: string, y: string, b: string)
    requires DecimalText.AllDigits(a) && DecimalText.AllDigits(b) && x + (":" + a) == y + (":" + b)
    ensures x == y && a == b
  {
    var s := x + (":" + a);
    assert s[|x|] == ':' && s[|y|] == ':';
    assert forall i :: 0 <= i < |a| ==> s[|x| + 1 + i] == a[i];
    assert forall i :: 0 <= i < |b| ==> s[|y| + 1 + i] == b[i];
    assert |x| == |y|;
    assert x == s[..|x|] && y == s[..|y|] && a == s[|x| + 1..] && b == s[|y| + 1..];
  }

  /** Written so, ids tell blocks and positions apart, whatever the names contain. */
  lemma WrittenIdsTellPlaces(h: Assignment.Digests, study: string)
    requires h.decisionId == WrittenId(study)
    ensures IdsTellPlaces(h)
  {
    var head := "decision:" + study + ":";
    forall a, m, b, n | h.decisionId(a, m) == h.decisionId(b, n) ensures a == b && m == n {
      BlockThenDigits(head + a, DecimalText.NatText(m), head + b, DecimalText.NatText(n));
      assert a == (head + a)[|head|..] && b == (head + b)[|head|..];
      DecimalText.ParseNatText(m);
      DecimalText.ParseNatText(n);
    }
  }

  /** Every plan replays, no two are of one block, and each is linked to the protocol or to a plan. */
  ghost predicate PlansOk(h: Assignment.Digests, p: Protocol, plans: seq<Assignment.Plan>,
                          draws: seq<seq<Assignment.Draw>>) {
    && |draws| == |plans|
    && (forall k :: 0 <= k < |plans| ==>
          p.blockSize <= |draws[k]| && Assignment.Accepted(h, p, plans[k], draws[k]))
    && (forall j, k :: 0 <= j < k < |plans| ==> plans[j].blockId != plans[k].blockId)
    && forall k :: 0 <= k < |plans| ==> Linked(p, plans, plans[k])
  }

  ghost predicate Linked(p: Protocol, plans: seq<Assignment.Plan>, plan: Assignment.Plan) {
    var first := Assignment.FirstPrevious(p, plan);
    || first == p.protocolHash
    || exists j, i :: 0 <= j < |plans| && 0 <= i < |plans[j].decisions| && plans[j].decisions[i].event == first
  }

  lemma {:induction false} BalancedAreArms(arms: seq<Arm>, n: nat, x: string)
    requires x in Assignment.BalancedArms(arms, n)
    ensures exists i :: 0 <= i < |arms| && arms[i].armId == x
    decreases |arms|
  {
    var m := |arms| - 1;
    if x in Assignment.BalancedArms(arms[..m], n) {
      BalancedAreArms(arms[..m], n, x);
      var i :| 0 <= i < m && arms[..m][i].armId == x;
      assert arms[i].armId == x;
    } else {
      assert x in Assignment.Repeated(arms[m].armId, n);
    }
  }

  lemma ReplayedIsArm(p: Protocol, draws: seq<Assignment.Draw>, k: nat)
    requires ProtocolOk(p) && p.blockSize <= |draws| && k < p.blockSize
    ensures IsArm(p, Assignment.ReplayedArms(p, draws)[k])
  {
    hide Assignment.ReplayedArms, Assignment.BalancedArms;
    var arms, balanced := Assignment.ReplayedArms(p, draws), Assignment.BalancedArms(p.arms, p.blockSize / 2);
    SameMembers(arms, balanced);
    assert arms[k] in arms;
    BalancedAreArms(p.arms, p.blockSize / 2, arms[k]);
  }

  lemma {:induction false} ReplayedAt(h: Assignment.Digests, p: Protocol, plan: Assignment.Plan, arms: seq<string>,
                                      allocation: string, first: string, n: nat, k: nat)
    requires k < n <= |plan.units| && n <= |arms|
    ensures var all := Assignment.Replayed(h, p, plan, arms, allocation, first, n);
            var previous := if k == 0 then first else all[k - 1].event;
            all[k] == Assignment.Decided(h, p, plan, arms[k], allocation, k, previous)
    decreases n
  {
    hide Assignment.Decided;
    if k < n - 1 {
      ReplayedAt(h, p, plan, arms, allocation, first, n - 1, k);
    }
  }

  lemma DecidedPasses(h: Assignment.Digests, p: Protocol, plan: Assignment.Plan, arm: string, k: nat, previous: string)
    requires DigestsOk(h.events) && ProtocolOk(p) && k < |plan.units| && IsSha256(plan.units[k]) && IsArm(p, arm)
    requires IsSha256(previous) && plan.createdAt >= p.committedAt
    ensures DecisionOk(h.events, p, Assignment.Decided(h, p, plan, arm, plan.allocation, k, previous))
  {
    hide IsSha256, IsArm;
  }

  /** What one accepted plan's decision is: its place's id and block, and the link before it. */
  lemma PlanDecision(h: Assignment.Digests, p: Protocol, plan: Assignment.Plan, draws: seq<Assignment.Draw>, k: nat)
    requires p.blockSize <= |draws| && Assignment.Accepted(h, p, plan, draws) && k < |plan.decisions|
    ensures var d := plan.decisions[k];
            && d.decisionId == h.decisionId(plan.blockId, k + 1) && d.block == plan.blockId
            && d.previous == (if k == 0 then Assignment.FirstPrevious(p, plan) else plan.decisions[k - 1].event)
            && d.event == h.events.decision(d.(event := ""))
            && (DigestsOk(h.events) && IsSha256(d.previous) ==> DecisionOk(h.events, p, d))
  {
    hide Assignment.ReplayedArms, Assignment.Replayed, IsSha256, DecisionOk, DigestsOk, Assignment.FirstPrevious;
    var arms, first := Assignment.ReplayedArms(p, draws), Assignment.FirstPrevious(p, plan);
    ReplayedAt(h, p, plan, arms, plan.allocation, first, |plan.units|, k);
    ReplayedIsArm(p, draws, k);
    var previous := if k == 0 then first else plan.decisions[k - 1].event;
    assert plan.decisions[k] == Assignment.Decided(h, p, plan, arms[k], plan.allocation, k, previous);
    if DigestsOk(h.events) && IsSha256(previous) {
      DecidedPasses(h, p, plan, arms[k], k, previous);
    }
  }

  lemma LinksHaveShape(h: Assignment.Digests, p: Protocol, plans: seq<Assignment.Plan>,
                       draws: seq<seq<Assignment.Draw>>,
                       k: nat, n: nat)
    requires DigestsOk(h.events) && ProtocolOk(p) && PlansOk(h, p, plans, draws)
    requires k < |plans| && n < |plans[k].decisions|
    ensures IsSha256(plans[k].decisions[n].previous)
  {
    hide Assignment.Accepted, IsSha256, Assignment.FirstPrevious;
    PlanDecision(h, p, plans[k], draws[k], n);
    if n > 0 {
      PlanDecision(h, p, plans[k], draws[k], n - 1);
    } else {
      assert Linked(p, plans, plans[k]);
      if Assignment.FirstPrevious(p, plans[k]) != p.protocolHash {
        var j, i :| 0 <= j < |plans| && 0 <= i < |plans[j].decisions|
                    && plans[j].decisions[i].event == Assignment.FirstPrevious(p, plans[k]);
        PlanDecision(h, p, plans[j], draws[j], i);
      }
    }
  }

  /** A decision of the whole listing has a place in a plan. */
  lemma PlaceOf(plans: seq<Assignment.Plan>, d: Decision) returns (k: nat, n: nat)
    requires d in Flatten(PlanDecisions(), plans)
    ensures k < |plans| && n < |plans[k].decisions| && plans[k].decisions[n] == d
  {
    hide Flatten;
    InFlatten(PlanDecisions(), plans, d);
    var plan :| plan in plans && d in PlanDecisions()(plan);
    k :| 0 <= k < |plans| && plans[k] == plan;
    n :| 0 <= n < |plan.decisions| && plan.decisions[n] == d;
  }

  lemma InListing(plans: seq<Assignment.Plan>, k: nat, n: nat)
    requires k < |plans| && n < |plans[k].decisions|
    ensures plans[k].decisions[n] in Flatten(PlanDecisions(), plans)
  {
    hide Flatten;
    InFlatten(PlanDecisions(), plans, plans[k].decisions[n]);
    assert plans[k] in plans && plans[k].decisions[n] in PlanDecisions()(plans[k]);
  }

  lemma PlansDecide(h: Assignment.Digests, p: Protocol, plans: seq<Assignment.Plan>, draws: seq<seq<Assignment.Draw>>)
    requires DigestsOk(h.events) && ProtocolOk(p) && PlansOk(h, p, plans, draws)
    ensures AllDecisionsOk(h.events, p, Flatten(PlanDecisions(), plans))
  {
    hide Assignment.Accepted, IsSha256, DecisionOk, DigestsOk, ProtocolOk, Flatten, Linked;
    var ds := Flatten(PlanDecisions(), plans);
    forall i | 0 <= i < |ds| ensures DecisionOk(h.events, p, ds[i]) {
      var k, n := PlaceOf(plans, ds[i]);
      LinksHaveShape(h, p, plans, draws, k, n);
      PlanDecision(h, p, plans[k], draws[k], n);
    }
  }

  lemma ResolvesInListing(p: Protocol, ds: seq<Decision>, d: Decision, e: Decision)
    requires e in ds && d.previous == e.event
    ensures Resolves(p, ds, d)
  {
  }

  lemma PlansResolve(h: Assignment.Digests, p: Protocol, plans: seq<Assignment.Plan>, draws: seq<seq<Assignment.Draw>>)
    requires PlansOk(h, p, plans, draws)
    ensures ChainOk(p, Flatten(PlanDecisions(), plans))
  {
    hide Assignment.Accepted, Flatten, Assignment.FirstPrevious;
    var ds := Flatten(PlanDecisions(), plans);
    forall i | 0 <= i < |ds| ensures Resolves(p, ds, ds[i]) {
      var k, n := PlaceOf(plans, ds[i]);
      PlanDecision(h, p, plans[k], draws[k], n);
      if n > 0 {
        InListing(plans, k, n - 1);
        ResolvesInListing(p, ds, ds[i], plans[k].decisions[n - 1]);
      } else {
        assert Linked(p, plans, plans[k]);
        if ds[i].previous != p.protocolHash {
          var j, m :| 0 <= j < |plans| && 0 <= m < |plans[j].decisions|
                      && plans[j].decisions[m].event == Assignment.FirstPrevious(p, plans[k]);
          InListing(plans, j, m);
          ResolvesInListing(p, ds, ds[i], plans[j].decisions[m]);
        }
      }
    }
  }

  lemma {:induction false} BlockOfConcat(a: seq<Decision>, b: seq<Decision>, name: string)
    ensures InBlock(a + b, name) == InBlock(a, name) + InBlock(b, name)
    decreases |b|
  {
    if b == [] {
      assert a + b == a;
    } else {
      var n := |b| - 1;
      assert (a + b)[..|a + b| - 1] == a + b[..n];
      BlockOfConcat(a, b[..n], name);
    }
  }

  lemma {:induction false} NoneOfBlock(ds: seq<Decision>, name: string)
    requires forall i :: 0 <= i < |ds| ==> ds[i].block != name
    ensures InBlock(ds, name) == []
    decreases |ds|
  {
    if ds != [] {
      NoneOfBlock(ds[..|ds| - 1], name);
    }
  }

  /** Every decision of a plan is of its block, and of two plans the blocks differ. */
  ghost predicate BlocksApart(plans: seq<Assignment.Plan>) {
    && (forall k, i :: 0 <= k < |plans| && 0 <= i < |plans[k].decisions| ==>
          plans[k].decisions[i].block == plans[k].blockId)
    && forall j, k :: 0 <= j < k < |plans| ==> plans[j].blockId != plans[k].blockId
  }

  lemma FlattenedLast(plans: seq<Assignment.Plan>)
    requires plans != []
    ensures Flatten(PlanDecisions(), plans)
         == Flatten(PlanDecisions(), plans[..|plans| - 1]) + plans[|plans| - 1].decisions
  {
  }

  lemma OtherBlocks(plans: seq<Assignment.Plan>, name: string)
    requires BlocksApart(plans) && forall k :: 0 <= k < |plans| ==> plans[k].blockId != name
    ensures InBlock(Flatten(PlanDecisions(), plans), name) == []
  {
    hide Flatten, InBlock;
    var ds := Flatten(PlanDecisions(), plans);
    forall i | 0 <= i < |ds| ensures ds[i].block != name {
      var k, n := PlaceOf(plans, ds[i]);
    }
    NoneOfBlock(ds, name);
  }

  /** The block of a plan in the whole listing is the plan's decisions. */
  lemma {:induction false} BlockIsPlan(plans: seq<Assignment.Plan>, k: nat)
    requires BlocksApart(plans) && k < |plans|
    ensures InBlock(Flatten(PlanDecisions(), plans), plans[k].blockId) == plans[k].decisions
    decreases |plans|
  {
    hide Flatten, InBlock;
    var n := |plans| - 1;
    var name := plans[k].blockId;
    FlattenedLast(plans);
    BlockOfConcat(Flatten(PlanDecisions(), plans[..n]), plans[n].decisions, name);
    if k < n {
      BlockIsPlan(plans[..n], k);
      NoneOfBlock(plans[n].decisions, name);
    } else {
      OtherBlocks(plans[..n], name);
      WholeBlock(plans[n].decisions, name);
    }
  }

  lemma PlansApartInBlocks(h: Assignment.Digests, p: Protocol, plans: seq<Assignment.Plan>,
                           draws: seq<seq<Assignment.Draw>>)
    requires PlansOk(h, p, plans, draws)
    ensures BlocksApart(plans)
  {
    hide Assignment.Accepted, Linked;
    forall k, i | 0 <= k < |plans| && 0 <= i < |plans[k].decisions|
      ensures plans[k].decisions[i].block == plans[k].blockId
    {
      PlanDecision(h, p, plans[k], draws[k], i);
    }
  }

  lemma PlansFillBlocks(h: Assignment.Digests, p: Protocol, plans: seq<Assignment.Plan>,
                        draws: seq<seq<Assignment.Draw>>)
    requires PlansOk(h, p, plans, draws)
    ensures BlocksFull(p, Flatten(PlanDecisions(), plans))
  {
    hide Assignment.Accepted, Flatten, InBlock, FullBlock, Linked;
    PlansApartInBlocks(h, p, plans, draws);
    var ds := Flatten(PlanDecisions(), plans);
    forall i | 0 <= i < |ds| ensures FullBlock(p, InBlock(ds, ds[i].block), ds[i].block) {
      var k, n := PlaceOf(plans, ds[i]);
      BlockIsPlan(plans, k);
      Assignment.AcceptedPlanIsBalanced(h, p, plans[k], draws[k]);
    }
  }

  lemma IdsConcat(a: seq<Decision>, b: seq<Decision>)
    ensures DecisionIds(a + b) == DecisionIds(a) + DecisionIds(b)
  {
  }

  lemma IdsOfOnePlan(h: Assignment.Digests, p: Protocol, plan: Assignment.Plan, draws: seq<Assignment.Draw>)
    requires IdsTellPlaces(h) && p.blockSize <= |draws| && Assignment.Accepted(h, p, plan, draws)
    ensures Distinct(DecisionIds(plan.decisions))
  {
    hide Assignment.Accepted;
    forall i, j | 0 <= i < j < |plan.decisions| ensures plan.decisions[i].decisionId != plan.decisions[j].decisionId {
      PlanDecision(h, p, plan, draws, i);
      PlanDecision(h, p, plan, draws, j);
    }
  }

  /** The first n plans of a listing. */
  lemma {:induction false} IdsOfPlans(h: Assignment.Digests, p: Protocol, plans: seq<Assignment.Plan>,
                                      draws: seq<seq<Assignment.Draw>>, n: nat)
    requires IdsTellPlaces(h) && PlansOk(h, p, plans, draws) && n <= |plans|
    ensures Distinct(DecisionIds(Flatten(PlanDecisions(), plans[..n])))
    decreases n
  {
    hide Assignment.Accepted, Flatten, Distinct, DecisionIds, Linked, IdsTellPlaces;
    if n == 0 {
      NoIds(plans);
    } else {
      IdsOfPlans(h, p, plans, draws, n - 1);
      assert plans[..n][..n - 1] == plans[..n - 1];
      FlattenedLast(plans[..n]);
      var before, last := Flatten(PlanDecisions(), plans[..n - 1]), plans[n - 1].decisions;
      IdsConcat(before, last);
      IdsOfOnePlan(h, p, plans[n - 1], draws[n - 1]);
      forall x | x in DecisionIds(before) ensures x !in DecisionIds(last) {
        IdsDiffer(h, p, plans, draws, n - 1, x);
      }
      DistinctConcatExactly(DecisionIds(before), DecisionIds(last));
    }
  }

  lemma NoIds(plans: seq<Assignment.Plan>)
    ensures Distinct(DecisionIds(Flatten(PlanDecisions(), plans[..0])))
  {
    assert plans[..0] == [];
  }

  lemma IdsDiffer(h: Assignment.Digests, p: Protocol, plans: seq<Assignment.Plan>, draws: seq<seq<Assignment.Draw>>,
                  n: nat, x: string)
    requires IdsTellPlaces(h) && PlansOk(h, p, plans, draws) && n < |plans|
    requires x in DecisionIds(Flatten(PlanDecisions(), plans[..n]))
    ensures x !in DecisionIds(plans[n].decisions)
  {
    hide Assignment.Accepted, Flatten, Linked;
    var before := Flatten(PlanDecisions(), plans[..n]);
    var i :| 0 <= i < |before| && before[i].decisionId == x;
    var k, m := PlaceOf(plans[..n], before[i]);
    PlanDecision(h, p, plans[k], draws[k], m);
    forall j | 0 <= j < |plans[n].decisions| ensures plans[n].decisions[j].decisionId != x {
      PlanDecision(h, p, plans[n], draws[n], j);
    }
  }

  /** Blocks that replay from their plans pass every gate on decisions, whatever units the plans share; and
      each unit is assigned once if and only if they share none. */
  lemma PlansPassDecisionGates(h: Assignment.Digests, p: Protocol, plans: seq<Assignment.Plan>,
                               draws: seq<seq<Assignment.Draw>>)
    requires DigestsOk(h.events) && IdsTellPlaces(h) && ProtocolOk(p) && PlansOk(h, p, plans, draws)
    ensures var ds := Flatten(PlanDecisions(), plans);
            && Distinct(DecisionIds(ds)) && AllDecisionsOk(h.events, p, ds) && ChainOk(p, ds) && BlocksFull(p, ds)
            && (Distinct(Units(ds)) <==> PlansApart(plans))
  {
    hide Assignment.Accepted, Flatten, Distinct, DecisionIds, Linked, IdsTellPlaces, DigestsOk, ProtocolOk, PlansApart,
         AllDecisionsOk, ChainOk, BlocksFull, Units;
    PlansDecide(h, p, plans, draws);
    PlansResolve(h, p, plans, draws);
    PlansFillBlocks(h, p, plans, draws);
    IdsOfPlans(h, p, plans, draws, |plans|);
    assert plans[..|plans|] == plans;
    UnitsApartExactly(h, p, plans, draws);
  }
}
