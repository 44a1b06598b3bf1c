/** The records of a randomized study. `wellFormed` stands for the shapes of a record's identifiers, of the
    digests it names besides its unit and its links, and of its timestamps. */
module StudyRecords {
  import opened Money

  datatype Bounds = Bounds(low: real, high: real)

  datatype Question = ModelCostQuality | AiNetBenefit

  datatype Arm = Arm(armId: string, treatment: bool, planHash: string)

  /** `otherwiseOk` stands for the protocol checks that play no part in qualification. */
  datatype Protocol = Protocol(
    studyId: string, protocolHash: string, committedAt: int, question: Question, arms: seq<Arm>,
    blockSize: nat, propensity: real, cost: Bounds, quality: Bounds, economic: Option<Bounds>,
    minCompleted: nat, maxMissing: real, otherwiseOk: bool)

  datatype Decision = Decision(
    decisionId: string, studyId: string, protocolHash: string, unitIdHash: string, assignedAt: int,
    block: string, arm: string, propensity: real, allocation: string, material: string,
    previous: string, event: string, wellFormed: bool)

  datatype Adherence = Confirmed | Deviated | Unobserved

  /** `directAccepted` and `fullAccepted`: the cost has an accepted source class and price lineage. */
  datatype Execution = Execution(
    executionId: string, decisionId: string, studyId: string, protocolHash: string,
    assignedPlan: string, actualPlan: Option<string>, adherence: Adherence,
    previous: string, event: string, startedAt: int, completedAt: int,
    directCost: Option<real>, directAccepted: bool, fullCost: Option<real>, fullAccepted: bool, wellFormed: bool)

  datatype Maturity = Awaited | Matured | NotMatured

  datatype Outcome = Outcome(
    outcomeId: string, decisionId: string, studyId: string, protocolHash: string,
    previous: string, event: string, observedAt: int, maturity: Maturity,
    quality: Option<real>, qualityAccepted: bool, economic: Option<real>, economicAccepted: bool, wellFormed: bool)

  /** How events are hashed: the digest of a record covers everything in it but the digest itself. */
  datatype EventDigests = EventDigests(
    decision: Decision -> string, execution: Execution -> string, outcome: Outcome -> string)

  predicate IsHexDigit(c: char) { '0' <= c <= '9' || 'a' <= c <= 'f' || 'A' <= c <= 'F' }

  predicate IsSha256(s: string) { |s| == 64 && forall i :: 0 <= i < |s| ==> IsHexDigit(s[i]) }

  /** The record carries its own digest and a link of the right shape. */
  predicate DecisionSealed(h: EventDigests, d: Decision) {
    IsSha256(d.previous) && IsSha256(d.event) && d.event == h.decision(d.(event := ""))
  }

  predicate ExecutionSealed(h: EventDigests, e: Execution) {
    IsSha256(e.previous) && IsSha256(e.event) && e.event == h.execution(e.(event := ""))
  }

  predicate OutcomeSealed(h: EventDigests, o: Outcome) {
    IsSha256(o.previous) && IsSha256(o.event) && o.event == h.outcome(o.(event := ""))
  }

  predicate BoundsOk(b: Bounds) { b.low < b.high }

  predicate InBounds(v: Option<real>, b: Bounds) { v.Some? && b.low <= v.value <= b.high }

  /** Two arms with different names, one of them the treatment, in even blocks of equal allocation. */
  predicate ProtocolOk(p: Protocol) {
    && |p.arms| == 2 && p.arms[0].armId != p.arms[1].armId && p.arms[0].treatment != p.arms[1].treatment
    && p.blockSize > 0 && p.blockSize % 2 == 0
    && BoundsOk(p.cost) && BoundsOk(p.quality)
    && (p.economic.Some? <==> p.question == AiNetBenefit)
    && (p.economic.Some? ==> BoundsOk(p.economic.value))
    && p.minCompleted > 0 && 0.0 <= p.maxMissing < 1.0
    && IsSha256(p.protocolHash) && p.otherwiseOk
  }

  predicate IsArm(p: Protocol, arm: string) {
    exists i :: 0 <= i < |p.arms| && p.arms[i].armId == arm
  }

  predicate SameStudy(p: Protocol, studyId: string, protocolHash: string) {
    studyId == p.studyId && protocolHash == p.protocolHash
  }

  /** How many decisions of a listing are in a block and an arm. */
  function InArm(ds: seq<Decision>, block: string, arm: string): nat {
    if ds == [] then 0
    else
      var last := ds[|ds| - 1];
      InArm(ds[..|ds| - 1], block, arm) + if last.block == block && last.arm == arm then 1 else 0
  }

  lemma InArmPush(ds: seq<Decision>, d: Decision, block: string, arm: string)
    ensures InArm(ds + [d], block, arm) == InArm(ds, block, arm) + if d.block == block && d.arm == arm then 1 else 0
  {
    assert (ds + [d])[..|ds|] == ds;
  }

  function InBlock(ds: seq<Decision>, block: string): seq<Decision> {
    if ds == [] then []
    else
      var last := ds[|ds| - 1];
      InBlock(ds[..|ds| - 1], block) + if last.block == block then [last] else []
  }

  /** A block that holds every unit it was registered for, half of them in each arm, all assigned in
      one allocation. */
  predicate FullBlock(p: Protocol, block: seq<Decision>, name: string) {
    && |block| == p.blockSize
    && (forall i :: 0 <= i < |p.arms| ==> InArm(block, name, p.arms[i].armId) == p.blockSize / 2)
    && (forall i :: 0 <= i < |block| ==> block[i].allocation == block[0].allocation)
    && (forall i :: 0 <= i < |block| ==> block[i].material == block[0].material)
  }
}
