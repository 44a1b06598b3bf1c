/** From a study to its effects and the claim they allow. */
module StudyEstimate {
  // The registered joint rule is resolved, every endpoint is estimated on the qualified units only, and the
  // claim follows from the intervals.

  import opened Money
  import opened Reals
  import opened Tables
  import opened StudyRecords
  import opened Estimate
  import opened Qualification

  // ---------------------------------------------------------------- the joint rule

  datatype Family = CostQuality | NetBenefitFamily

  /** `wellFormed` stands for the method, the allocation and the policy for secondary endpoints. */
  datatype Declared = Declared(family: Family, count: nat, margin: real, threshold: real, wellFormed: bool)

  datatype Joint = Joint(family: Family, count: nat, margin: real, threshold: real, confidence: real, alpha: real)

  const DEFAULT_CONFIDENCE := 0.95

  /** What the protocol registers about the decision rule. */
  datatype Registered = Registered(confidence: real, qualityMargin: real, declared: Option<Declared>)

  function FamilyOf(q: Question): Family { if q == ModelCostQuality then CostQuality else NetBenefitFamily }
  function CountOf(q: Question): nat { if q == ModelCostQuality then 2 else 1 }

  predicate DeclaredOk(q: Question, margin: real, d: Declared) {
    d.wellFormed && d.family == FamilyOf(q) && d.count == CountOf(q) && d.margin == margin && d.threshold >= 0.0
  }

  function ResolveJoint(q: Question, r: Registered): Joint {
    var margin := if r.qualityMargin >= 0.0 then r.qualityMargin else 0.0;
    var confidence := if 0.0 < r.confidence < 1.0 then r.confidence else DEFAULT_CONFIDENCE;
    if r.declared.Some? && DeclaredOk(q, margin, r.declared.value) then
      var d := r.declared.value;
      Joint(d.family, d.count, d.margin, d.threshold, confidence, (1.0 - confidence) / d.count as real)
    else
      Joint(FamilyOf(q), CountOf(q), margin, 0.0, confidence, (1.0 - confidence) / CountOf(q) as real)
  }

  /** Whatever is declared, the endpoints share out exactly the error of the overall confidence, and no
      declaration lowers the margin or makes the cost threshold negative. */
  lemma JointRuleSharesError(q: Question, r: Registered)
    ensures var j := ResolveJoint(q, r);
            && j.family == FamilyOf(q) && j.count == CountOf(q) && 0.0 < j.alpha < 1.0
            && j.count as real * j.alpha == 1.0 - j.confidence
            && j.margin >= 0.0 && j.threshold >= 0.0
            && (r.qualityMargin >= 0.0 ==> j.margin == r.qualityMargin)
  {
  }

  // ---------------------------------------------------------------- what is compared

  datatype Metric = DirectCost | Quality | NetBenefit

  /** Records by decision: of several for one decision the last is kept. */
  function ExecutionFor(es: seq<Execution>, id: string): Option<Execution> {
    if es == [] then None
    else if es[|es| - 1].decisionId == id then Some(es[|es| - 1]) else ExecutionFor(es[..|es| - 1], id)
  }

  function OutcomeFor(os: seq<Outcome>, id: string): Option<Outcome> {
    if os == [] then None
    else if os[|os| - 1].decisionId == id then Some(os[|os| - 1]) else OutcomeFor(os[..|os| - 1], id)
  }

  function Given(x: Option<real>): real { if x.Some? then x.value else 0.0 }

  function Measure(m: Metric, e: Execution, o: Outcome): real {
    match m
    case DirectCost => Given(e.directCost)
    case Quality => Given(o.quality)
    case NetBenefit => Given(o.economic) - Given(e.fullCost)
  }

  function Reading(s: Study, m: Metric): string -> real {
    (id: string) =>
      var e, o := ExecutionFor(s.executions, id), OutcomeFor(s.outcomes, id);
      if e.Some? && o.Some? then Measure(m, e.value, o.value) else 0.0
  }

  /** The declared range of a metric; that of the net benefit is the widest difference of two ranges. */
  function RangeOf(p: Protocol, m: Metric): Bounds {
    match m
    case DirectCost => p.cost
    case Quality => p.quality
    case NetBenefit =>
      if p.economic.Some? then Bounds(p.economic.value.low - p.cost.high, p.economic.value.high - p.cost.low)
      else Bounds(0.0, 0.0)
  }

  predicate Applies(p: Protocol, m: Metric) { m == NetBenefit ==> p.question == AiNetBenefit }

  lemma {:induction false} OnlyExecution(es: seq<Execution>, id: string, i: nat)
    requires i < |es| && forall k :: 0 <= k < |es| ==> (es[k].decisionId == id <==> k == i)
    ensures ExecutionFor(es, id) == Some(es[i])
    decreases |es|
  {
    var n := |es| - 1;
    if i < n {
      OnlyExecution(es[..n], id, i);
    }
  }

  lemma {:induction false} OnlyOutcome(os: seq<Outcome>, id: string, i: nat)
    requires i < |os| && forall k :: 0 <= k < |os| ==> (os[k].decisionId == id <==> k == i)
    ensures OutcomeFor(os, id) == Some(os[i])
    decreases |os|
  {
    var n := |os| - 1;
    if i < n {
      OnlyOutcome(os[..n], id, i);
    }
  }

  lemma MeasureInRange(h: EventDigests, p: Protocol, m: Metric, d: Decision, e: Execution, o: Outcome)
    requires ProtocolOk(p) && Applies(p, m) && ExecutionOk(h, p, d, e) && OutcomeOk(h, p, e, o)
    ensures RangeOf(p, m).low <= Measure(m, e, o) <= RangeOf(p, m).high
  {
    hide LineageOk, AdherenceOk;
  }

  /** In a qualified study every reading is a recorded value inside the declared range. */
  lemma ReadingInRange(h: EventDigests, s: Study, m: Metric, d: Decision)
    requires Qualifies(h, s) && d in s.decisions && Applies(s.protocol, m)
    ensures RangeOf(s.protocol, m).low <= Reading(s, m)(d.decisionId) <= RangeOf(s.protocol, m).high
  {
    ProtocolOfQualified(h, s);
    hide Qualifies, ProtocolOk, ExecutionOk, OutcomeOk, Measure, RangeOf;
    var i, j := EachDecisionObservedOnce(h, s, d);
    OnlyExecution(s.executions, d.decisionId, i);
    OnlyOutcome(s.outcomes, d.decisionId, j);
    MeasureInRange(h, s.protocol, m, d, s.executions[i], s.outcomes[j]);
  }

  /** In a qualified study every reading is what the decision's own records say. */
  lemma ReadingIsObserved(h: EventDigests, s: Study, m: Metric, d: Decision)
    requires Qualifies(h, s) && d in s.decisions && Applies(s.protocol, m)
    ensures Observes(s, m, d, Reading(s, m)(d.decisionId))
  {
    ProtocolOfQualified(h, s);
    hide Qualifies, ProtocolOk, ExecutionOk, OutcomeOk, Measure;
    var i, j := EachDecisionObservedOnce(h, s, d);
    OnlyExecution(s.executions, d.decisionId, i);
    OnlyOutcome(s.outcomes, d.decisionId, j);
    MeasureIsObserved(h, s.protocol, m, d, s.executions[i], s.outcomes[j]);
  }

  lemma MeasureIsObserved(h: EventDigests, p: Protocol, m: Metric, d: Decision, e: Execution, o: Outcome)
    requires ProtocolOk(p) && Applies(p, m) && ExecutionOk(h, p, d, e) && OutcomeOk(h, p, e, o)
    requires e.decisionId == d.decisionId && o.decisionId == d.decisionId
    ensures ObservedIn(m, d, e, o, Measure(m, e, o))
  {
    hide LineageOk, AdherenceOk;
  }

  lemma ProtocolOfQualified(h: EventDigests, s: Study)
    requires Qualifies(h, s)
    ensures ProtocolOk(s.protocol)
  {
  }

  lemma {:induction false} CellWithin(us: seq<Unit>, block: string, arm: string, bounds: Bounds)
    requires forall i :: 0 <= i < |us| ==> bounds.low <= us[i].value <= bounds.high
    ensures ValuesWithin(ValuesIn(us, block, arm), bounds)
    decreases |us|
  {
    if us != [] {
      CellWithin(us[..|us| - 1], block, arm, bounds);
    }
  }

  lemma CellsWithin(us: seq<Unit>, blocks: seq<string>, arm: string, bounds: Bounds)
    requires forall i :: 0 <= i < |us| ==> bounds.low <= us[i].value <= bounds.high
    ensures GroupsWithin(Groups(us, blocks, arm), bounds)
  {
    hide ValuesIn, ValuesWithin;
    forall b | 0 <= b < |blocks| ensures ValuesWithin(ValuesIn(us, blocks[b], arm), bounds) {
      CellWithin(us, blocks[b], arm, bounds);
    }
  }

  // ---------------------------------------------------------------- effects

  /** What the records of a decision say of the metric. */
  ghost predicate Observes(s: Study, m: Metric, d: Decision, v: real) {
    exists e, o :: e in s.executions && o in s.outcomes && ObservedIn(m, d, e, o, v)
  }

  ghost predicate ObservedIn(m: Metric, d: Decision, e: Execution, o: Outcome, v: real) {
    && e.decisionId == d.decisionId && o.decisionId == d.decisionId
    && match m
       case DirectCost => e.directCost == Some(v)
       case Quality => o.quality == Some(v)
       case NetBenefit => o.economic.Some? && e.fullCost.Some? && v == o.economic.value - e.fullCost.value
  }

  /** The width of the range declared for the metric; that of a difference has both widths. */
  ghost function Width(p: Protocol, m: Metric): real {
    match m
    case DirectCost => p.cost.high - p.cost.low
    case Quality => p.quality.high - p.quality.low
    case NetBenefit =>
      if p.economic.Some? then (p.economic.value.high - p.economic.value.low) + (p.cost.high - p.cost.low) else 0.0
  }

  /** An effect on a qualified study: the difference of the arms' plain means of what was observed over all
      decisions, give or take the radii of both arms, and never outside the declared range. */
  ghost predicate IsEffectOf(s: Study, m: Metric, t: string, c: string, alpha: real, radius: Radius, e: Interval,
                             value: string -> real) {
    var n, k, w := Assigned(s.decisions, t), Assigned(s.decisions, c), Width(s.protocol, m);
    && (forall d :: d in s.decisions ==> Observes(s, m, d, value(d.decisionId)))
    && n > 0 && k > 0
    && e.estimate == Total(ArmValue(value, t), s.decisions) / n as real
                     - Total(ArmValue(value, c), s.decisions) / k as real
    && var r := radius(w, n, alpha) + radius(w, k, alpha);
    && e.lower == (if e.estimate - r < -w then -w else e.estimate - r)
    && e.upper == (if e.estimate + r > w then w else e.estimate + r)
    && -w <= e.lower <= e.estimate <= e.upper <= w
  }

  ghost predicate IsEffect(s: Study, m: Metric, t: string, c: string, alpha: real, radius: Radius, e: Interval) {
    exists value :: IsEffectOf(s, m, t, c, alpha, radius, e, value)
  }

  ghost predicate RadiusOk(radius: Radius) { forall x, n, a :: radius(x, n, a) >= 0.0 }

  ghost function ArmValue(value: string -> real, arm: string): Decision -> real {
    (d: Decision) => if d.arm == arm then value(d.decisionId) else 0.0
  }

  ghost function ArmUnit(arm: string): Decision -> real { (d: Decision) => if d.arm == arm then 1.0 else 0.0 }

  lemma {:induction false} ArmTotals(ds: seq<Decision>, value: string -> real, arm: string)
    ensures Sum(ValuesOfArm(UnitsOf(ds, value), arm)) == Total(ArmValue(value, arm), ds)
    ensures |ValuesOfArm(UnitsOf(ds, value), arm)| as real == Total(ArmUnit(arm), ds)
    decreases |ds|
  {
    if ds != [] {
      var n := |ds| - 1;
      ArmTotals(ds[..n], value, arm);
      assert UnitsOf(ds, value)[..n] == UnitsOf(ds[..n], value);
      var init, x := ValuesOfArm(UnitsOf(ds[..n], value), arm), value(ds[n].decisionId);
      assert init + [] == init && (init + [x])[..|init|] == init;
    }
  }

  lemma {:induction false} AssignedIsTotal(ds: seq<Decision>, arm: string)
    ensures Assigned(ds, arm) as real == Total(ArmUnit(arm), ds)
    decreases |ds|
  {
    if ds != [] {
      AssignedIsTotal(ds[..|ds| - 1], arm);
    }
  }

  /** In any order, the values of an arm are as many as its decisions, and add up to their sum. */
  lemma ArmOfStudy(order: seq<Decision>, ds: seq<Decision>, value: string -> real, arm: string)
    requires multiset(order) == multiset(ds)
    ensures |ValuesOfArm(UnitsOf(order, value), arm)| == Assigned(ds, arm)
    ensures Sum(ValuesOfArm(UnitsOf(order, value), arm)) == Total(ArmValue(value, arm), ds)
  {
    hide Sum, ValuesOfArm, UnitsOf, Total, Assigned;
    ArmTotals(order, value, arm);
    AssignedIsTotal(ds, arm);
    TotalPermuted(ArmValue(value, arm), order, ds);
    TotalPermuted(ArmUnit(arm), order, ds);
  }

  /** The pieces an interval is made of. */
  lemma IntervalMade(treatment: seq<seq<real>>, control: seq<seq<real>>, bounds: Bounds, alpha: real, radius: Radius)
    requires |treatment| == |control| > 0 && AllFilled(treatment) && AllFilled(control)
    ensures var i, w := BoundedDifference(treatment, control, bounds, alpha, radius), bounds.high - bounds.low;
            var r := radius(w, |Pooled(treatment)|, alpha) + radius(w, |Pooled(control)|, alpha);
            && i.lower == (if i.estimate - r < -w then -w else i.estimate - r)
            && i.upper == (if i.estimate + r > w then w else i.estimate + r)
  {
    hide Contrast;
    PooledSize(treatment);
    PooledSize(control);
  }

  lemma UnitsInRange(h: EventDigests, s: Study, m: Metric, order: seq<Decision>)
    requires Qualifies(h, s) && multiset(order) == multiset(s.decisions) && Applies(s.protocol, m)
    ensures var us, range := UnitsOf(order, Reading(s, m)), RangeOf(s.protocol, m);
            forall i :: 0 <= i < |us| ==> range.low <= us[i].value <= range.high
  {
    hide Qualifies, Reading, RangeOf, Applies;
    SameMembers(order, s.decisions);
    forall i | 0 <= i < |order|
      ensures RangeOf(s.protocol, m).low <= Reading(s, m)(order[i].decisionId) <= RangeOf(s.protocol, m).high
    {
      assert order[i] in s.decisions;
      ReadingInRange(h, s, m, order[i]);
    }
  }

  lemma DifferenceIsEffect(h: EventDigests, s: Study, m: Metric, order: seq<Decision>, blocks: seq<string>, t: string,
                           c: string, alpha: real, radius: Radius)
    requires Qualifies(h, s) && multiset(order) == multiset(s.decisions) && BlockNames(s.decisions, blocks)
    requires IsArm(s.protocol, t) && IsArm(s.protocol, c) && t != c && Applies(s.protocol, m) && RadiusOk(radius)
    ensures var us := UnitsOf(order, Reading(s, m));
            && |Groups(us, blocks, t)| == |Groups(us, blocks, c)| > 0
            && AllFilled(Groups(us, blocks, t)) && AllFilled(Groups(us, blocks, c))
            && IsEffectOf(s, m, t, c, alpha, radius,
                          BoundedDifference(Groups(us, blocks, t), Groups(us, blocks, c), RangeOf(s.protocol, m), alpha,
                                            radius), Reading(s, m))
  {
    hide Qualifies, BlockNames, UnitsOf, Reading, RangeOf, Applies, BoundedDifference, AllFilled, Groups,
         GroupsWithin, ValuesOfArm, IsArm, Sum, Observes, Width, Total, Assigned, Pooled;
    var us := UnitsOf(order, Reading(s, m));
    QualifiedEstimateIsDifferenceOfMeans(h, s, order, Reading(s, m), blocks, t, c, RangeOf(s.protocol, m), alpha,
                                         radius);
    UnitsInRange(h, s, m, order);
    CellsWithin(us, blocks, t, RangeOf(s.protocol, m));
    CellsWithin(us, blocks, c, RangeOf(s.protocol, m));
    IntervalContainsEstimate(Groups(us, blocks, t), Groups(us, blocks, c), RangeOf(s.protocol, m), alpha, radius);
    IntervalMade(Groups(us, blocks, t), Groups(us, blocks, c), RangeOf(s.protocol, m), alpha, radius);
    RangeIsWide(s.protocol, m);
    ArmSizes(s, m, order, blocks, t);
    ArmSizes(s, m, order, blocks, c);
    forall d | d in s.decisions ensures Observes(s, m, d, Reading(s, m)(d.decisionId)) {
      ReadingIsObserved(h, s, m, d);
    }
  }

  lemma RangeIsWide(p: Protocol, m: Metric)
    ensures RangeOf(p, m).high - RangeOf(p, m).low == Width(p, m)
  {
  }

  lemma ArmSizes(s: Study, m: Metric, order: seq<Decision>, blocks: seq<string>, arm: string)
    requires multiset(order) == multiset(s.decisions) && BlockNames(s.decisions, blocks)
    ensures var us := UnitsOf(order, Reading(s, m));
            && |Pooled(Groups(us, blocks, arm))| == |ValuesOfArm(us, arm)| == Assigned(s.decisions, arm)
            && Sum(ValuesOfArm(us, arm)) == Total(ArmValue(Reading(s, m), arm), s.decisions)
  {
    hide Sum, ValuesOfArm, Pooled, Groups, Reading, Total, Assigned, Distinct;
    UnitBlocks(s, order, Reading(s, m), blocks);
    PooledIsArm(UnitsOf(order, Reading(s, m)), blocks, arm);
    ArmOfStudy(order, s.decisions, Reading(s, m), arm);
  }

  // ---------------------------------------------------------------- the units and blocks that enter

  function DecisionFor(ds: seq<Decision>, id: string): seq<Decision> {
    if ds == [] then []
    else if ds[|ds| - 1].decisionId == id then [ds[|ds| - 1]] else DecisionFor(ds[..|ds| - 1], id)
  }

  function Found(ds: seq<Decision>): string -> seq<Decision> { (id: string) => DecisionFor(ds, id) }

  lemma {:induction false} OnlyDecision(ds: seq<Decision>, i: nat)
    requires Distinct(DecisionIds(ds)) && i < |ds|
    ensures DecisionFor(ds, ds[i].decisionId) == [ds[i]]
    decreases |ds|
  {
    var n := |ds| - 1;
    assert DecisionIds(ds)[i] == ds[i].decisionId && DecisionIds(ds)[n] == ds[n].decisionId;
    if i < n {
      PrefixDistinct(ds, n);
      OnlyDecision(ds[..n], i);
    }
  }

  lemma PrefixDistinct(ds: seq<Decision>, n: nat)
    requires Distinct(DecisionIds(ds)) && n <= |ds|
    ensures Distinct(DecisionIds(ds[..n]))
  {
    assert DecisionIds(ds[..n]) == DecisionIds(ds)[..n];
  }

  lemma {:induction false} EveryDecisionFound(ds: seq<Decision>, n: nat)
    requires Distinct(DecisionIds(ds)) && n <= |ds|
    ensures Flatten(Found(ds), DecisionIds(ds)[..n]) == ds[..n]
    decreases n
  {
    if n > 0 {
      hide Distinct, DecisionFor;
      EveryDecisionFound(ds, n - 1);
      OnlyDecision(ds, n - 1);
      var ids := DecisionIds(ds)[..n];
      assert ids[..n - 1] == DecisionIds(ds)[..n - 1] && ids[n - 1] == ds[n - 1].decisionId;
      assert ds[..n] == ds[..n - 1] + [ds[n - 1]];
    }
  }

  /** The included ids, in whatever order, stand for exactly the decisions of the study. */
  lemma IncludedAreAll(ds: seq<Decision>, ids: seq<string>)
    requires Distinct(DecisionIds(ds)) && multiset(ids) == multiset(DecisionIds(ds))
    ensures multiset(Flatten(Found(ds), ids)) == multiset(ds)
  {
    hide Distinct, Flatten;
    EveryDecisionFound(ds, |ds|);
    assert DecisionIds(ds)[..|ds|] == DecisionIds(ds) && ds[..|ds|] == ds;
    FlattenPermuted(Found(ds), Found(ds), ids, DecisionIds(ds));
  }

  function Names(ds: seq<Decision>): seq<string> {
    if ds == [] then []
    else
      var names := Names(ds[..|ds| - 1]);
      if ds[|ds| - 1].block in names then names else names + [ds[|ds| - 1].block]
  }

  lemma BlockNamesPush(ds: seq<Decision>, d: Decision, names: seq<string>)
    requires BlockNames(ds, names)
    ensures BlockNames(ds + [d], if d.block in names then names else names + [d.block])
  {
    var longer, next := ds + [d], if d.block in names then names else names + [d.block];
    assert longer[|ds|] == d;
    forall i | 0 <= i < |longer| ensures longer[i].block in next {
      assert i < |ds| ==> longer[i] == ds[i];
    }
    forall b | 0 <= b < |next| ensures exists i :: 0 <= i < |longer| && longer[i].block == next[b] {
      if b < |names| {
        var i :| 0 <= i < |ds| && ds[i].block == names[b];
        assert longer[i].block == next[b];
      }
    }
  }

  lemma {:induction false} NamesAreBlocks(ds: seq<Decision>)
    ensures BlockNames(ds, Names(ds))
    decreases |ds|
  {
    if ds != [] {
      hide BlockNames;
      var n := |ds| - 1;
      NamesAreBlocks(ds[..n]);
      assert ds == ds[..n] + [ds[n]];
      BlockNamesPush(ds[..n], ds[n], Names(ds[..n]));
    }
  }

  function BlockIds(ds: seq<Decision>): seq<string> { Sort(InOrder(), Names(ds)) }

  lemma BlockIdsAreBlocks(ds: seq<Decision>)
    ensures BlockNames(ds, BlockIds(ds))
  {
    hide Names, Distinct, Sort;
    NamesAreBlocks(ds);
    DistinctPermuted(Names(ds), BlockIds(ds));
    SameMembers(Names(ds), BlockIds(ds));
    forall b | 0 <= b < |BlockIds(ds)| ensures exists i :: 0 <= i < |ds| && ds[i].block == BlockIds(ds)[b] {
      assert BlockIds(ds)[b] in BlockIds(ds);
      var j :| 0 <= j < |Names(ds)| && Names(ds)[j] == BlockIds(ds)[b];
    }
  }

  // ---------------------------------------------------------------- the estimate of a study

  datatype Effects = Effects(cost: Interval, quality: Interval, net: Option<Interval>)

  datatype Claim = NotEstablished | CostQualitySupported | NetBenefitSupported

  datatype StudyResult = StudyResult(verdict: Verdict, effects: Option<Effects>, claim: Claim)

  function ArmOf(p: Protocol, treatment: bool): string
    requires |p.arms| == 2
  {
    if p.arms[0].treatment == treatment then p.arms[0].armId else p.arms[1].armId
  }

  /** An arm with this name is the treatment, or the one it is compared with. */
  ghost predicate IsRole(p: Protocol, arm: string, treatment: bool) {
    exists a :: a in p.arms && a.armId == arm && a.treatment == treatment
  }

  lemma ArmsDiffer(p: Protocol)
    requires ProtocolOk(p)
    ensures |p.arms| == 2
    ensures forall arm, treatment :: IsRole(p, arm, treatment) <==> arm == ArmOf(p, treatment)
    ensures IsArm(p, ArmOf(p, true)) && IsArm(p, ArmOf(p, false)) && ArmOf(p, true) != ArmOf(p, false)
  {
    assert p.arms[0].armId == ArmOf(p, p.arms[0].treatment) && p.arms[1].armId == ArmOf(p, p.arms[1].treatment);
    assert p.arms[0] in p.arms && p.arms[1] in p.arms;
  }

  /** The estimated effect of one metric. */
  method EffectOf(h: EventDigests, s: Study, m: Metric, order: seq<Decision>, blocks: seq<string>, alpha: real,
                  radius: Radius)
    returns (e: Interval)
    requires Qualifies(h, s) && multiset(order) == multiset(s.decisions) && BlockNames(s.decisions, blocks)
    requires Applies(s.protocol, m) && RadiusOk(radius)
    ensures forall t, c :: IsRole(s.protocol, t, true) && IsRole(s.protocol, c, false) ==>
              IsEffect(s, m, t, c, alpha, radius, e)
  {
    ProtocolOfQualified(h, s);
    ArmsDiffer(s.protocol);
    hide *;
    var us, t, c := UnitsOf(order, Reading(s, m)), ArmOf(s.protocol, true), ArmOf(s.protocol, false);
    UnitBlocks(s, order, Reading(s, m), blocks);
    DifferenceIsEffect(h, s, m, order, blocks, t, c, alpha, radius);
    var treatment, control := SplitByBlock(us, blocks, t, c);
    GroupsAre(us, blocks, t, treatment);
    GroupsAre(us, blocks, c, control);
    e := BoundedDifference(treatment, control, RangeOf(s.protocol, m), alpha, radius);
  }

  lemma GroupsAre(us: seq<Unit>, blocks: seq<string>, arm: string, groups: seq<seq<real>>)
    requires |groups| == |blocks| && forall b :: 0 <= b < |blocks| ==> groups[b] == ValuesIn(us, blocks[b], arm)
    ensures groups == Groups(us, blocks, arm)
  {
    hide ValuesIn;
  }

  /** The error each endpoint is estimated at: an equal part of what the registered confidence leaves, or
      the usual confidence if none in range is registered. */
  ghost function ErrorOf(q: Question, r: Registered): real {
    (1.0 - if 0.0 < r.confidence && r.confidence < 1.0 then r.confidence else 0.95)
    / if q == ModelCostQuality then 2.0 else 1.0
  }

  ghost function MarginOf(r: Registered): real { if r.qualityMargin < 0.0 then 0.0 else r.qualityMargin }

  /** The declared threshold, if the declaration is for this question and its margin, or none. */
  ghost function ThresholdOf(q: Question, r: Registered): real {
    if r.declared.Some? && r.declared.value.wellFormed && r.declared.value.threshold >= 0.0
       && r.declared.value.margin == MarginOf(r)
       && ((q == ModelCostQuality && r.declared.value.family == CostQuality && r.declared.value.count == 2)
           || (q == AiNetBenefit && r.declared.value.family == NetBenefitFamily && r.declared.value.count == 1))
    then r.declared.value.threshold else 0.0
  }

  lemma JointIsResolved(q: Question, r: Registered)
    ensures ResolveJoint(q, r).alpha == ErrorOf(q, r)
    ensures ResolveJoint(q, r).margin == MarginOf(r) && ResolveJoint(q, r).threshold == ThresholdOf(q, r)
  {
  }

  /** What a claim rests on. */
  ghost predicate ClaimFollows(q: Question, r: Registered, effects: Effects, claim: Claim) {
    && (claim == CostQualitySupported
        <==> q == ModelCostQuality && effects.cost.upper < -ThresholdOf(q, r) && effects.quality.lower > -MarginOf(r))
    && (claim == NetBenefitSupported <==> q == AiNetBenefit && effects.net.Some? && effects.net.value.lower > 0.0)
  }

  /** Every metric of the question is estimated, the treatment against the other arm. */
  ghost predicate AreEffects(s: Study, alpha: real, radius: Radius, effects: Effects) {
    && (exists t, c :: IsRole(s.protocol, t, true) && IsRole(s.protocol, c, false))
    && (effects.net.Some? <==> s.protocol.question == AiNetBenefit)
    && forall t, c :: IsRole(s.protocol, t, true) && IsRole(s.protocol, c, false) ==>
         && IsEffect(s, DirectCost, t, c, alpha, radius, effects.cost)
         && IsEffect(s, Quality, t, c, alpha, radius, effects.quality)
         && (effects.net.Some? ==> IsEffect(s, NetBenefit, t, c, alpha, radius, effects.net.value))
  }

  /** Effects are reported precisely for qualified studies of a known design; they are the differences of
      the arms' plain means, and the claim is what their intervals allow. */
  method EstimateCausalStudy(h: EventDigests, s: Study, r: Registered, designKnown: bool, radius: Radius)
    returns (result: StudyResult)
    requires RadiusOk(radius)
    ensures IsVerdict(h, s, result.verdict) && Explained(h, s, result.verdict)
    ensures result.effects.Some? <==> Qualifies(h, s) && designKnown
    ensures result.effects == None ==> result.claim == NotEstablished
    ensures result.effects.Some? ==>
              && AreEffects(s, ErrorOf(s.protocol.question, r), radius, result.effects.value)
              && ClaimFollows(s.protocol.question, r, result.effects.value, result.claim)
  {
    hide IsRole, Qualifies, IsEffect, RadiusOk, BlockNames, Sort, Distinct, Flatten, DecisionFor, Blameless, Sound,
         ProtocolOk, Tallied, NoLimitReason, Powered, Explained;
    var verdict := QualifyCausalStudy(h, s);
    if verdict.state != Qualified || !designKnown {
      return StudyResult(verdict, None, NotEstablished);
    }
    var j := ResolveJoint(s.protocol.question, r);
    JointIsResolved(s.protocol.question, r);
    DecisionsDistinct(h, s);
    ProtocolOfQualified(h, s);
    ArmsDiffer(s.protocol);
    assert IsRole(s.protocol, ArmOf(s.protocol, true), true) && IsRole(s.protocol, ArmOf(s.protocol, false), false);
    var order := Flatten(Found(s.decisions), verdict.included);
    IncludedAreAll(s.decisions, verdict.included);
    var blocks := BlockIds(s.decisions);
    BlockIdsAreBlocks(s.decisions);
    var cost := EffectOf(h, s, DirectCost, order, blocks, j.alpha, radius);
    var quality := EffectOf(h, s, Quality, order, blocks, j.alpha, radius);
    if s.protocol.question == ModelCostQuality {
      var supported := cost.upper < -j.threshold && quality.lower > -j.margin;
      return StudyResult(verdict, Some(Effects(cost, quality, None)),
                         if supported then CostQualitySupported else NotEstablished);
    }
    var net := EffectOf(h, s, NetBenefit, order, blocks, j.alpha, radius);
    return StudyResult(verdict, Some(Effects(cost, quality, Some(net))),
                       if net.lower > 0.0 then NetBenefitSupported else NotEstablished);
  }

  lemma DecisionsDistinct(h: EventDigests, s: Study)
    requires Qualifies(h, s)
    ensures Distinct(DecisionIds(s.decisions))
  {
    TargetsDistinct(s);
  }

  /** A supported claim is never against the observed means: the treatment's mean cost is lower by more
      than the threshold and its mean quality worse by less than the margin, or its mean benefit higher. */
  lemma ClaimAgreesWithMeans(s: Study, r: Registered, alpha: real, radius: Radius, effects: Effects, claim: Claim)
    requires AreEffects(s, alpha, radius, effects) && ClaimFollows(s.protocol.question, r, effects, claim)
    ensures claim == CostQualitySupported ==>
              effects.cost.estimate < -ThresholdOf(s.protocol.question, r) && effects.quality.estimate > -MarginOf(r)
    ensures claim == NetBenefitSupported ==> effects.net.Some? && effects.net.value.estimate > 0.0
  {
    hide IsEffect;
    var t, c :| IsRole(s.protocol, t, true) && IsRole(s.protocol, c, false);
    WithinInterval(s, DirectCost, t, c, alpha, radius, effects.cost);
    WithinInterval(s, Quality, t, c, alpha, radius, effects.quality);
    if effects.net.Some? {
      WithinInterval(s, NetBenefit, t, c, alpha, radius, effects.net.value);
    }
  }

  lemma WithinInterval(s: Study, m: Metric, t: string, c: string, alpha: real, radius: Radius, e: Interval)
    requires IsEffect(s, m, t, c, alpha, radius, e)
    ensures e.lower <= e.estimate <= e.upper
  {
  }
}
