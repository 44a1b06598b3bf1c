/** The budget controller's policy, state and single decision step. */
module BudgetControl {
  import opened Money

  const MAX_SAFE_INTEGER: int := 9007199254740991

  /** A USD amount as the controller compares it: the exact decimal a cap states. */
  type Usd = d: Decimal | Canonical(d) witness ZERO

  datatype Result<+T> = Ok(value: T) | Err(error: string)

  datatype Policy = Policy(
    id: string, version: int, digest: string, issuedAt: int, expiresAt: int, enabled: bool,
    safeBaseline: Usd, min: Usd, max: Usd, maxRelativeStep: Usd,
    explorationRateCap: int, maxRunaway: Usd)

  datatype Phase = Armed | Controlling | RolledBack

  datatype State = State(
    policyId: string, policyVersion: int, policyDigest: string, phase: Phase, revision: int,
    safeBaseline: Usd, lastApplied: Option<Usd>, lastActionAt: int)

  datatype Action = NoAction | ApplyRecommended | RollbackToBaseline

  datatype Reason =
    | NotInForce | AlreadyRolledBack | Disabled | Expired | NoRunawayGuard | LooseRunawayGuard
    | RunawayTripped | NoCertificate | NotAuthorized | NotRobust | OutsideEnvelope
    | OperatorOverride | StepTooLarge | AlreadyActive

  datatype Plan = Plan(
    action: Action, next: Option<Usd>, reasons: seq<Reason>, nextState: State, decisionId: Option<string>)

  /** What the planner reads of a decision: the five certificate conditions, the two preference
      conditions, and the cap it recommends. */
  datatype Decision = Decision(
    id: string, provenDominant: bool, certifiesApply: bool, standingCertified: bool,
    certifiedForSpendChange: bool, assuranceMet: bool, preferenceStable: bool,
    applyIsRobust: bool, recommended: Usd)

  datatype Input = Input(
    decision: Option<Decision>, current: Option<Usd>, runawayMax: Option<Usd>, runawayTripped: bool, now: int)

  // ---------------------------------------------------------------- amounts

  predicate Positive(a: Usd) { a.coefficient > 0 }

  lemma PositiveValue(a: Usd)
    ensures Positive(a) <==> Value(a) > 0.0
  {
    ValueAtOneScale(0, a.coefficient, a.scale);
    ValueAtOneScale(0, 0, a.scale);
    assert a == Decimal(a.coefficient, a.scale);
  }

  predicate CapOk(a: Option<Usd>) { a.Some? ==> Positive(a.value) }

  predicate SameAmount(a: Option<Usd>, b: Option<Usd>)
    ensures SameAmount(a, b) <==> a == b
  {
    if a == None || b == None then a == None && b == None
    else
      SameValueSameAmount(a.value, b.value);
      Compare(a.value, b.value) == 0
  }

  lemma SameValueSameAmount(a: Usd, b: Usd)
    ensures Compare(a, b) == 0 <==> a == b
  {
    if Compare(a, b) == 0 {
      CanonicalUnique(a, b);
    }
  }

  /** |target - current| / current > step, by cross-multiplied integers: no division, no float. */
  predicate RelativeStepExceeds(target: Usd, current: Usd, maxRelativeStep: Usd) {
    var (t, c, _) := Aligned(target, current);
    var delta := if t >= c then t - c else c - t;
    Shift(delta, maxRelativeStep.scale) > c * maxRelativeStep.coefficient
  }

  ghost function Distance(a: real, b: real): real { if a >= b then a - b else b - a }

  /** The integer comparison decides exactly the comparison of the real numbers. */
  lemma RelativeStepIsExact(target: Usd, current: Usd, step: Usd, x: real, y: real, s: real)
    requires x == Value(target) && y == Value(current) && s == Value(step)
    ensures RelativeStepExceeds(target, current, step) <==> Distance(x, y) > y * s
  {
    var (t, c, scale) := Aligned(target, current);
    ComparedAtScale(target, current, step, t, c, scale, if t >= c then t - c else c - t, x, y, s);
  }

  lemma ComparedAtScale(target: Decimal, current: Decimal, step: Decimal, t: int, c: int, scale: nat, delta: int,
                        targetValue: real, currentValue: real, stepValue: real)
    requires (t, c, scale) == Aligned(target, current) && delta == if t >= c then t - c else c - t
    requires targetValue == Value(target) && currentValue == Value(current) && stepValue == Value(step)
    ensures Shift(delta, step.scale) > c * step.coefficient
       <==> Distance(targetValue, currentValue) > currentValue * stepValue
  {
    AlignedKeepsValues(target, current);
    var k, q := step.coefficient, step.scale;
    assert step == Decimal(k, q);
    DistanceAtScale(t, c, scale);
    StepAtScale(delta, c, scale, k, q, Distance(targetValue, currentValue), currentValue, stepValue);
  }

  lemma StepAtScale(delta: int, c: int, scale: nat, k: int, q: nat, d: real, current: real, step: real)
    requires d == Value(Decimal(delta, scale)) && current == Value(Decimal(c, scale)) && step == Value(Decimal(k, q))
    ensures Shift(delta, q) > c * k <==> d > current * step
  {
    ValueShift(delta, scale, q);
    ValueProduct(c, scale, k, q, current, step);
    ValueAtOneScale(c * k, Shift(delta, q), scale + q);
  }

  lemma DistanceAtScale(t: int, c: int, scale: nat)
    ensures Value(Decimal(if t >= c then t - c else c - t, scale))
         == Distance(Value(Decimal(t, scale)), Value(Decimal(c, scale)))
  {
    ValueAtOneScale(t, c, scale);
    if t >= c {
      ValueAtOneScale(t - c, c, scale);
    } else {
      ValueAtOneScale(c - t, t, scale);
    }
  }

  // ---------------------------------------------------------------- policy and state

  function MakePolicy(p: Policy): (r: Result<Policy>)
    ensures r.Ok? ==> r.value == p && PolicyOk(p)
    ensures PolicyOk(p) ==> r.Ok?
  {
    if !(1 <= p.version <= MAX_SAFE_INTEGER) then Err("version must be a positive safe integer")
    else if p.expiresAt <= p.issuedAt then Err("expiresAt must be after issuedAt")
    else if !Positive(p.safeBaseline) || !Positive(p.min) || !Positive(p.max) then Err("must be positive")
    else if Compare(p.min, p.safeBaseline) > 0 || Compare(p.safeBaseline, p.max) > 0 then
      Err("safeBaselineDailyUsd must be inside [minDailyUsd, maxDailyUsd]")
    else if !Positive(p.maxRelativeStep) || Compare(p.maxRelativeStep, Decimal(1, 0)) > 0 then
      Err("maxRelativeStep must be within (0,1]")
    else if p.explorationRateCap != 0 then Err("explorationRateCap must be 0")
    else if !Positive(p.maxRunaway) then Err("maxRunawayUsd must be positive")
    else Ok(p)
  }

  ghost predicate PolicyOk(p: Policy) {
    && 1 <= p.version <= MAX_SAFE_INTEGER
    && p.issuedAt < p.expiresAt
    && Positive(p.min) && Positive(p.max) && Positive(p.safeBaseline) && Positive(p.maxRunaway)
    && Value(p.min) <= Value(p.safeBaseline) <= Value(p.max)
    && Positive(p.maxRelativeStep) && Value(p.maxRelativeStep) <= 1.0
    && p.explorationRateCap == 0
  }

  predicate StateBelongs(policy: Policy, s: State) {
    s.policyId == policy.id && s.policyVersion == policy.version && s.policyDigest == policy.digest
  }

  /** The checks made on every state read back from disk. */
  predicate StateOk(policy: Policy, s: State) {
    && StateBelongs(policy, s)
    && 0 <= s.revision
    && SameAmount(Some(s.safeBaseline), Some(policy.safeBaseline))
    && CapOk(s.lastApplied)
  }

  function InitialState(policy: Policy, current: Option<Usd>, at: int): Result<State> {
    if !CapOk(current) then Err("currentDailyUsd must be positive")
    else if !SameAmount(current, Some(policy.safeBaseline)) then
      Err("controller can only arm when the live cap equals the declared safe baseline")
    else Ok(State(policy.id, policy.version, policy.digest, Armed, 0, policy.safeBaseline, None, at))
  }

  /** The same policy never re-arms itself; a newer version may, from its own baseline only. */
  function ReconcileState(policy: Policy, persisted: State, current: Option<Usd>, at: int): Result<State> {
    if StateBelongs(policy, persisted) then
      if StateOk(policy, persisted) then Ok(persisted) else Err("state is invalid")
    else if persisted.policyId == policy.id && persisted.policyVersion > policy.version then
      Err("policy rollback refused: persisted state belongs to a newer policy version")
    else if persisted.policyId == policy.id && persisted.policyVersion == policy.version then
      Err("policy version reused with different contents")
    else InitialState(policy, current, at)
  }

  /** Under one policy id a re-arm needs a strictly newer version and a live cap at the new
      baseline; a persisted state of the same exact policy comes back unchanged. */
  lemma ReArmNeedsNewerVersion(policy: Policy, persisted: State, current: Option<Usd>, at: int)
    requires persisted.policyId == policy.id
    requires ReconcileState(policy, persisted, current, at).Ok?
    ensures var s := ReconcileState(policy, persisted, current, at).value;
            && StateOk(policy, s)
            && (s == persisted || (policy.version > persisted.policyVersion
                                   && s.phase == Armed && current == Some(policy.safeBaseline)))
  {
  }

  /** A state just armed under a policy. */
  ghost predicate JustArmed(policy: Policy, s: State, at: int) {
    s == State(policy.id, policy.version, policy.digest, Armed, 0, policy.safeBaseline, None, at)
  }

  lemma SoundExactly(policy: Policy, s: State)
    requires StateBelongs(policy, s)
    ensures StateOk(policy, s)
       <==> && s.revision >= 0 && s.safeBaseline == policy.safeBaseline
            && (s.lastApplied.Some? ==> Value(s.lastApplied.value) > 0.0)
  {
    hide Value;
    if s.lastApplied.Some? {
      PositiveValue(s.lastApplied.value);
    }
  }

  lemma FreshExactly(policy: Policy, current: Option<Usd>, at: int)
    requires Positive(policy.safeBaseline)
    ensures var r := InitialState(policy, current, at);
            && (r.Ok? <==> current == Some(policy.safeBaseline)) && (r.Ok? ==> JustArmed(policy, r.value, at))
  {
    hide Value;
  }

  /** Exactly which states a policy goes on from: its own, if it is sound, unchanged; or a fresh one over
      another policy's, at the baseline and never back to an older version of the same policy. */
  lemma ReconcileExactly(policy: Policy, persisted: State, current: Option<Usd>, at: int)
    requires Positive(policy.safeBaseline)
    ensures var r := ReconcileState(policy, persisted, current, at);
            var own := persisted.policyId == policy.id && persisted.policyVersion == policy.version
                       && persisted.policyDigest == policy.digest;
            if own then
              && (r.Ok? <==> persisted.revision >= 0 && persisted.safeBaseline == policy.safeBaseline
                             && (persisted.lastApplied.Some? ==> Value(persisted.lastApplied.value) > 0.0))
              && (r.Ok? ==> r.value == persisted)
            else
              && (r.Ok? <==> current == Some(policy.safeBaseline)
                             && (persisted.policyId == policy.id ==> persisted.policyVersion < policy.version))
              && (r.Ok? ==> JustArmed(policy, r.value, at))
  {
    FreshExactly(policy, current, at);
    if StateBelongs(policy, persisted) {
      SoundExactly(policy, persisted);
    }
    hide Value, StateOk, InitialState, JustArmed;
  }

  // ---------------------------------------------------------------- one decision

  function NoActionPlan(s: State, current: Option<Usd>, reasons: seq<Reason>, id: Option<string>): Plan {
    Plan(NoAction, current, reasons, s, id)
  }

  function NextState(s: State, phase: Phase, now: int, applied: Usd): State {
    s.(phase := phase, revision := s.revision + 1, lastApplied := Some(applied), lastActionAt := now)
  }

  function Rollback(policy: Policy, s: State, current: Option<Usd>, now: int, reasons: seq<Reason>,
                    id: Option<string>): Plan {
    if s.phase != Controlling then NoActionPlan(s, current, reasons, id)
    else if s.lastApplied == None || !SameAmount(current, s.lastApplied) then
      NoActionPlan(s, current, reasons + [OperatorOverride], id)
    else
      Plan(RollbackToBaseline, Some(policy.safeBaseline), reasons,
           NextState(s, RolledBack, now, policy.safeBaseline), id)
  }

  predicate Certified(d: Decision) {
    d.provenDominant && d.certifiesApply && d.standingCertified && d.certifiedForSpendChange && d.assuranceMet
  }

  function PlanControl(policy: Policy, s: State, input: Input): Result<Plan> {
    var current, now := input.current, input.now;
    if !StateOk(policy, s) then Err("state does not belong to this policy")
    else if !CapOk(current) || !CapOk(input.runawayMax) then Err("must be a finite positive number")
    else if now < policy.issuedAt then Ok(NoActionPlan(s, current, [NotInForce], None))
    else
      var id := if input.decision.Some? then Some(input.decision.value.id) else None;
      if s.phase == RolledBack then Ok(NoActionPlan(s, current, [AlreadyRolledBack], id))
      else if !policy.enabled then Ok(Rollback(policy, s, current, now, [Disabled], id))
      else if now >= policy.expiresAt then Ok(Rollback(policy, s, current, now, [Expired], id))
      else if input.runawayMax == None then Ok(Rollback(policy, s, current, now, [NoRunawayGuard], id))
      else if Compare(input.runawayMax.value, policy.maxRunaway) > 0 then
        Ok(Rollback(policy, s, current, now, [LooseRunawayGuard], id))
      else if input.runawayTripped then Ok(Rollback(policy, s, current, now, [RunawayTripped], id))
      else if input.decision == None then Ok(Rollback(policy, s, current, now, [NoCertificate], None))
      else PlanCertified(policy, s, current, now, input.decision.value, id)
  }

  function PlanCertified(policy: Policy, s: State, current: Option<Usd>, now: int, d: Decision,
                         id: Option<string>): Result<Plan> {
    if !Certified(d) then Ok(Rollback(policy, s, current, now, [NotAuthorized], id))
    else if !d.preferenceStable || !d.applyIsRobust then
      Ok(Rollback(policy, s, current, now, [NotRobust], id))
    else if !Positive(d.recommended) then Err("recommendedDailyUsd must be positive")
    else if Compare(d.recommended, policy.min) < 0 || Compare(d.recommended, policy.max) > 0 then
      Ok(Rollback(policy, s, current, now, [OutsideEnvelope], id))
    else
      var owned := if s.phase == Controlling then s.lastApplied else Some(policy.safeBaseline);
      if !SameAmount(current, owned) then Ok(NoActionPlan(s, current, [OperatorOverride], id))
      else if owned == None then Err("owned cap is missing")
      else if RelativeStepExceeds(d.recommended, owned.value, policy.maxRelativeStep) then
        Ok(Rollback(policy, s, current, now, [StepTooLarge], id))
      else if SameAmount(current, Some(d.recommended)) then
        Ok(NoActionPlan(s, current, [AlreadyActive], id))
      else
        Ok(Plan(ApplyRecommended, Some(d.recommended), [],
                NextState(s, Controlling, now, d.recommended), id))
  }

  // ---------------------------------------------------------------- what a run keeps

  /** b * f^n: an amount compounded n times. */
  ghost function Compounded(b: real, f: real, n: nat): real {
    if n == 0 then b else Compounded(b, f, n - 1) * f
  }

  /** The cap is reached from the baseline by n changes, each within the maximum step. */
  ghost predicate WithinSteps(policy: Policy, a: Usd, n: nat)
    decreases n
  {
    if n == 0 then a == policy.safeBaseline
    else exists b: Usd :: Positive(b) && WithinSteps(policy, b, n - 1)
                          && !RelativeStepExceeds(a, b, policy.maxRelativeStep)
  }

  /** The cap the controller takes to be its own. */
  function Owned(policy: Policy, s: State): Option<Usd> {
    if s.phase == Armed then Some(policy.safeBaseline) else s.lastApplied
  }

  ghost predicate InEnvelope(policy: Policy, a: Usd) {
    Positive(a) && Value(policy.min) <= Value(a) <= Value(policy.max)
  }

  /** What is true of the state after any number of actions under one policy: armed means no
      action yet; controlling means `revision` bounded steps from the baseline and inside the
      envelope; rolled back means the last cap written is the baseline. */
  ghost predicate Earned(policy: Policy, s: State) {
    && StateBelongs(policy, s)
    && s.safeBaseline == policy.safeBaseline
    && s.revision >= 0
    && match s.phase
       case Armed => s.revision == 0 && s.lastApplied == None
       case Controlling =>
         && s.revision >= 1 && s.lastApplied.Some?
         && InEnvelope(policy, s.lastApplied.value)
         && WithinSteps(policy, s.lastApplied.value, s.revision)
       case RolledBack => s.revision >= 2 && s.lastApplied == Some(policy.safeBaseline)
  }

  /** An action moves the state on by one revision, never out of rolled_back, and never takes
      over a cap the controller does not own. */
  ghost predicate LegalAction(policy: Policy, s: State, current: Option<Usd>, plan: Plan) {
    && s.phase != RolledBack
    && current == Owned(policy, s) && current.Some?
    && plan.nextState.revision == s.revision + 1
    && plan.next.Some? && plan.next == plan.nextState.lastApplied
    && InEnvelope(policy, plan.next.value)
    && match plan.action
       case NoAction => false
       case ApplyRecommended =>
         && plan.nextState.phase == Controlling && plan.next != current
         && !RelativeStepExceeds(plan.next.value, current.value, policy.maxRelativeStep)
       case RollbackToBaseline =>
         s.phase == Controlling && plan.nextState.phase == RolledBack && plan.next == Some(policy.safeBaseline)
  }

  /** What one decision may do: nothing, or one legal action that keeps what was earned. */
  ghost predicate Sound(policy: Policy, s: State, current: Option<Usd>, plan: Plan) {
    && Earned(policy, plan.nextState)
    && (if plan.action == NoAction then plan.nextState == s && plan.next == current
        else LegalAction(policy, s, current, plan))
  }

  lemma RollbackIsSound(policy: Policy, s: State, current: Option<Usd>, now: int, reasons: seq<Reason>,
                        id: Option<string>)
    requires PolicyOk(policy) && Earned(policy, s)
    ensures Sound(policy, s, current, Rollback(policy, s, current, now, reasons, id))
  {
  }

  lemma OneMoreStep(policy: Policy, b: Usd, a: Usd, n: nat)
    requires Positive(b) && WithinSteps(policy, b, n)
    requires !RelativeStepExceeds(a, b, policy.maxRelativeStep)
    ensures WithinSteps(policy, a, n + 1)
  {
  }

  lemma CertifiedIsSound(policy: Policy, s: State, current: Option<Usd>, now: int, d: Decision, id: Option<string>)
    requires PolicyOk(policy) && Earned(policy, s) && s.phase != RolledBack && CapOk(current)
    requires PlanCertified(policy, s, current, now, d, id).Ok?
    ensures Sound(policy, s, current, PlanCertified(policy, s, current, now, d, id).value)
  {
    hide RelativeStepExceeds, Compare, Value, WithinSteps;
    var plan := PlanCertified(policy, s, current, now, d, id).value;
    if plan.action == ApplyRecommended {
      OneMoreStep(policy, current.value, plan.next.value, s.revision);
    } else if plan.action == RollbackToBaseline {
      RollbackIsSound(policy, s, current, now, plan.reasons, id);
    }
  }

  /** One decision keeps everything a run has earned, and every action it takes is legal. */
  lemma PlanKeepsEarned(policy: Policy, s: State, input: Input)
    requires PolicyOk(policy) && Earned(policy, s)
    requires PlanControl(policy, s, input).Ok?
    ensures Sound(policy, s, input.current, PlanControl(policy, s, input).value)
  {
    hide RelativeStepExceeds, Compare, Value, WithinSteps, PlanCertified;
    var plan := PlanControl(policy, s, input).value;
    if plan.action == RollbackToBaseline {
      RollbackIsSound(policy, s, input.current, input.now, plan.reasons, plan.decisionId);
    }
    if s.phase != RolledBack && input.decision.Some? {
      var d := input.decision.value;
      if PlanCertified(policy, s, input.current, input.now, d, Some(d.id)).Ok? {
        CertifiedIsSound(policy, s, input.current, input.now, d, Some(d.id));
      }
    }
  }

  /** After n applied steps the cap is within baseline * (1 -/+ maxRelativeStep)^n. */
  lemma {:induction false} StepsCompound(policy: Policy, a: Usd, n: nat, baseline: real, step: real)
    requires PolicyOk(policy) && WithinSteps(policy, a, n)
    requires baseline == Value(policy.safeBaseline) && step == Value(policy.maxRelativeStep)
    ensures Compounded(baseline, 1.0 - step, n) <= Value(a) <= Compounded(baseline, 1.0 + step, n)
    decreases n
  {
    hide RelativeStepExceeds, Value, Distance, PolicyOk;
    if n > 0 {
      var b := LastStep(policy, a, n);
      StepsCompound(policy, b, n - 1, baseline, step);
      AppliedStep(policy, a, b, Value(a), Value(b), step);
      StepBounds(Value(b), Value(a), step, Compounded(baseline, 1.0 - step, n - 1),
                 Compounded(baseline, 1.0 + step, n - 1));
    }
  }

  lemma LastStep(policy: Policy, a: Usd, n: nat) returns (b: Usd)
    requires n > 0 && WithinSteps(policy, a, n)
    ensures Positive(b) && WithinSteps(policy, b, n - 1) && !RelativeStepExceeds(a, b, policy.maxRelativeStep)
  {
    hide RelativeStepExceeds;
    b :| Positive(b) && WithinSteps(policy, b, n - 1) && !RelativeStepExceeds(a, b, policy.maxRelativeStep);
  }

  lemma AppliedStep(policy: Policy, a: Usd, b: Usd, x: real, y: real, step: real)
    requires PolicyOk(policy) && Positive(b) && !RelativeStepExceeds(a, b, policy.maxRelativeStep)
    requires x == Value(a) && y == Value(b) && step == Value(policy.maxRelativeStep)
    ensures y > 0.0 && 0.0 < step <= 1.0 && Distance(x, y) <= y * step
  {
    hide RelativeStepExceeds;
    RelativeStepIsExact(a, b, policy.maxRelativeStep, x, y, step);
    PositiveValue(b);
    PositiveValue(policy.maxRelativeStep);
  }

  lemma StepBounds(x: real, y: real, s: real, lo: real, hi: real)
    requires x > 0.0 && 0.0 < s <= 1.0 && lo <= x <= hi
    requires Distance(y, x) <= x * s
    ensures lo * (1.0 - s) <= y <= hi * (1.0 + s)
  {
    assert y <= x + x * s && y >= x - x * s;
    ScaledOrder(lo, x, 1.0 - s);
    ScaledOrder(x, hi, 1.0 + s);
  }

  lemma ScaledOrder(a: real, b: real, c: real)
    requires a <= b && c >= 0.0
    ensures a * c <= b * c
  {
  }

  // ---------------------------------------------------------------- when it acts

  /** The policy is in force and spend is guarded. */
  ghost predicate Guarded(policy: Policy, input: Input) {
    && policy.enabled && policy.issuedAt <= input.now < policy.expiresAt
    && input.runawayMax.Some? && Value(input.runawayMax.value) <= Value(policy.maxRunaway) && !input.runawayTripped
  }

  ghost predicate Authorized(d: Decision) {
    d.provenDominant && d.certifiesApply && d.standingCertified && d.certifiedForSpendChange && d.assuranceMet
  }

  /** The policy is in force, spend is guarded, and the decision is certified, robust, inside the
      envelope and within one step of the cap the controller owns. */
  ghost predicate Trusted(policy: Policy, s: State, input: Input) {
    && Guarded(policy, input) && input.decision.Some?
    && var d := input.decision.value;
    && Authorized(d) && d.preferenceStable && d.applyIsRobust && InEnvelope(policy, d.recommended)
    && Owned(policy, s).Some? && InStep(policy, d.recommended, Owned(policy, s).value)
  }

  /** A decision is reached that is to be acted on, whatever cap it recommends. */
  ghost predicate Reached(policy: Policy, s: State, input: Input) {
    && s.phase != RolledBack && Guarded(policy, input) && input.decision.Some?
    && Authorized(input.decision.value) && input.decision.value.preferenceStable && input.decision.value.applyIsRobust
  }

  ghost predicate Worth(a: Option<Usd>) { a.Some? ==> Value(a.value) > 0.0 }

  /** The amounts read are positive, and so is the cap of a decision that is to be acted on. */
  ghost predicate Readable(policy: Policy, s: State, input: Input) {
    && Worth(input.current) && Worth(input.runawayMax)
    && (Reached(policy, s, input) ==> Value(input.decision.value.recommended) > 0.0)
  }

  /** Why a plan is not to apply the decision: the first thing that stands against it. */
  ghost predicate Because(policy: Policy, s: State, input: Input, r: Reason) {
    var enabled := policy.issuedAt <= input.now && s.phase != RolledBack && policy.enabled;
    var unexpired := enabled && input.now < policy.expiresAt;
    var watched := unexpired && input.runawayMax.Some?;
    var decided := s.phase != RolledBack && Guarded(policy, input) && input.decision.Some?;
    var owned := Owned(policy, s);
    var wanted := if input.decision.Some? then Some(input.decision.value.recommended) else None;
    match r
    case NotInForce => input.now < policy.issuedAt
    case AlreadyRolledBack => policy.issuedAt <= input.now && s.phase == RolledBack
    case Disabled => policy.issuedAt <= input.now && s.phase != RolledBack && !policy.enabled
    case Expired => enabled && policy.expiresAt <= input.now
    case NoRunawayGuard => unexpired && input.runawayMax == None
    case LooseRunawayGuard => watched && Value(input.runawayMax.value) > Value(policy.maxRunaway)
    case RunawayTripped =>
      watched && Value(input.runawayMax.value) <= Value(policy.maxRunaway) && input.runawayTripped
    case NoCertificate => s.phase != RolledBack && Guarded(policy, input) && input.decision == None
    case NotAuthorized => decided && !Authorized(input.decision.value)
    case NotRobust =>
      && decided && Authorized(input.decision.value)
      && !(input.decision.value.preferenceStable && input.decision.value.applyIsRobust)
    case OutsideEnvelope => Reached(policy, s, input) && !InEnvelope(policy, wanted.value)
    case OperatorOverride => Reached(policy, s, input) && InEnvelope(policy, wanted.value) && input.current != owned
    case StepTooLarge =>
      && Reached(policy, s, input) && InEnvelope(policy, wanted.value) && input.current == owned && owned.Some?
      && !InStep(policy, wanted.value, owned.value)
    case AlreadyActive => Trusted(policy, s, input) && s.phase != RolledBack && input.current == owned == wanted
  }

  /** The decision a plan speaks of: none before the policy is issued. */
  ghost function Concerning(policy: Policy, input: Input): Option<string> {
    if input.now < policy.issuedAt || input.decision == None then None else Some(input.decision.value.id)
  }

  /** The state behind an action: one revision on, with the cap it writes. */
  ghost predicate Moved(policy: Policy, s: State, input: Input, next: State, phase: Phase, cap: Usd) {
    next == State(policy.id, policy.version, policy.digest, phase, s.revision + 1, policy.safeBaseline,
                  Some(cap), input.now)
  }

  ghost predicate InStep(policy: Policy, a: Usd, b: Usd) {
    Distance(Value(a), Value(b)) <= Value(b) * Value(policy.maxRelativeStep)
  }

  lemma InStepExactly(policy: Policy, a: Usd, b: Usd)
    ensures InStep(policy, a, b) <==> !RelativeStepExceeds(a, b, policy.maxRelativeStep)
  {
    hide RelativeStepExceeds, Value, Distance;
    RelativeStepIsExact(a, b, policy.maxRelativeStep, Value(a), Value(b), Value(policy.maxRelativeStep));
  }

  /** A cap is applied, with everything the plan says about it. */
  ghost predicate Applies(policy: Policy, s: State, input: Input, plan: Plan) {
    && s.phase != RolledBack && Trusted(policy, s, input) && input.current == Owned(policy, s)
    && Some(input.decision.value.recommended) != Owned(policy, s)
    && plan.action == ApplyRecommended && plan.next == Some(input.decision.value.recommended) && plan.reasons == []
    && Moved(policy, s, input, plan.nextState, Controlling, input.decision.value.recommended)
  }

  /** The baseline is restored, for the first thing that stands against the decision. */
  ghost predicate Restores(policy: Policy, s: State, input: Input, plan: Plan) {
    && s.phase == Controlling && policy.issuedAt <= input.now && !Trusted(policy, s, input)
    && input.current == Owned(policy, s)
    && plan.action == RollbackToBaseline && plan.next == Some(policy.safeBaseline)
    && |plan.reasons| == 1 && Because(policy, s, input, plan.reasons[0])
    && Moved(policy, s, input, plan.nextState, RolledBack, policy.safeBaseline)
  }

  /** Nothing is done, for the first thing that stands against it; a restoration that was due is left
      to the operator whose cap is live. */
  ghost predicate Rests(policy: Policy, s: State, input: Input, plan: Plan) {
    && plan.action == NoAction && plan.next == input.current && plan.nextState == s
    && plan.reasons != [] && Because(policy, s, input, plan.reasons[0])
    && plan.reasons[1..] == if s.phase == Controlling && policy.issuedAt <= input.now && input.current != s.lastApplied
                               && plan.reasons[0] != OperatorOverride then [OperatorOverride] else []
  }

  lemma RollbackPlanned(policy: Policy, s: State, input: Input, r: Reason, plan: Plan)
    requires PolicyOk(policy) && Earned(policy, s) && policy.issuedAt <= input.now && Because(policy, s, input, r)
    requires r != OperatorOverride && r != AlreadyActive && r != AlreadyRolledBack
    requires plan == Rollback(policy, s, input.current, input.now, [r], Concerning(policy, input))
    ensures if s.phase == Controlling && input.current == Owned(policy, s) then Restores(policy, s, input, plan)
            else Rests(policy, s, input, plan)
    ensures plan.decisionId == Concerning(policy, input)
  {
    hide Value, WithinSteps, InEnvelope, InStep;
  }

  /** A decision that is not reached is answered by what stands against it. */
  lemma NotReached(policy: Policy, s: State, input: Input)
    requires PolicyOk(policy) && Earned(policy, s) && Worth(input.current) && Worth(input.runawayMax)
    requires !Reached(policy, s, input)
    ensures PlanControl(policy, s, input).Ok?
    ensures var plan := PlanControl(policy, s, input).value;
            && plan.decisionId == Concerning(policy, input)
            && (if s.phase == Controlling && policy.issuedAt <= input.now && input.current == Owned(policy, s)
                then Restores(policy, s, input, plan) else Rests(policy, s, input, plan))
  {
    hide Value, Compare, WithinSteps, InEnvelope, InStep, Rollback;
    EarnedIsRead(policy, s, input);
    var plan := PlanControl(policy, s, input).value;
    if policy.issuedAt <= input.now && s.phase != RolledBack {
      GuardCompared(policy, input);
      hide Restores, Rests;
      var r :=
        if !policy.enabled then Disabled
        else if input.now >= policy.expiresAt then Expired
        else if input.runawayMax == None then NoRunawayGuard
        else if Value(input.runawayMax.value) > Value(policy.maxRunaway) then LooseRunawayGuard
        else if input.runawayTripped then RunawayTripped
        else if input.decision == None then NoCertificate
        else if !Authorized(input.decision.value) then NotAuthorized
        else NotRobust;
      RollbackPlanned(policy, s, input, r, plan);
    }
  }

  lemma EarnedIsRead(policy: Policy, s: State, input: Input)
    requires PolicyOk(policy) && Earned(policy, s)
    ensures StateOk(policy, s)
    ensures CapOk(input.current) <==> Worth(input.current)
    ensures CapOk(input.runawayMax) <==> Worth(input.runawayMax)
  {
    hide Value, WithinSteps;
    if input.current.Some? {
      PositiveValue(input.current.value);
    }
    if input.runawayMax.Some? {
      PositiveValue(input.runawayMax.value);
    }
  }

  lemma GuardCompared(policy: Policy, input: Input)
    ensures input.runawayMax.Some? ==>
              (Compare(input.runawayMax.value, policy.maxRunaway) > 0
               <==> Value(input.runawayMax.value) > Value(policy.maxRunaway))
  {
  }

  lemma EnvelopeCompared(policy: Policy, a: Usd)
    ensures Positive(a) <==> Value(a) > 0.0
    ensures Positive(a) ==> (InEnvelope(policy, a) <==> !(Compare(a, policy.min) < 0 || Compare(a, policy.max) > 0))
  {
    PositiveValue(a);
  }

  /** A decision that is reached is refused, or answered by its cap, the envelope, the owner and the step. */
  lemma ReachedIsPlanned(policy: Policy, s: State, input: Input)
    requires PolicyOk(policy) && Earned(policy, s) && Worth(input.current) && Reached(policy, s, input)
    ensures var d := input.decision.value;
            var made := PlanCertified(policy, s, input.current, input.now, d, Some(d.id));
            && (made.Ok? <==> Value(d.recommended) > 0.0)
            && (made.Ok? ==> Answers(policy, s, input, made.value))
  {
    hide Value, Compare, WithinSteps, InEnvelope, InStep, RelativeStepExceeds, Rollback, PolicyOk;
    var d := input.decision.value;
    var plan := PlanCertified(policy, s, input.current, input.now, d, Some(d.id));
    EnvelopeCompared(policy, d.recommended);
    var owned := Owned(policy, s);
    InStepExactly(policy, d.recommended, owned.value);
    if plan.Ok? && (!InEnvelope(policy, d.recommended)
                    || (input.current == owned && !InStep(policy, d.recommended, owned.value))) {
      var r := if !InEnvelope(policy, d.recommended) then OutsideEnvelope else StepTooLarge;
      hide Restores, Rests;
      RollbackPlanned(policy, s, input, r, plan.value);
    }
  }

  /** The plan is the one the policy, the state and the input call for. */
  ghost predicate Answers(policy: Policy, s: State, input: Input, plan: Plan) {
    && plan.decisionId == Concerning(policy, input)
    && if s.phase != RolledBack && Trusted(policy, s, input) && input.current == Owned(policy, s)
          && Some(input.decision.value.recommended) != Owned(policy, s) then
         Applies(policy, s, input, plan)
       else if s.phase == Controlling && policy.issuedAt <= input.now && !Trusted(policy, s, input)
               && input.current == Owned(policy, s) then
         Restores(policy, s, input, plan)
       else
         Rests(policy, s, input, plan)
  }

  /** Exactly when a plan is made, and which: everything in it but the cap's past is told by the policy,
      the state and the input. */
  lemma PlanIsDetermined(policy: Policy, s: State, input: Input)
    requires PolicyOk(policy) && Earned(policy, s)
    ensures PlanControl(policy, s, input).Ok? <==> Readable(policy, s, input)
    ensures Readable(policy, s, input) ==> Answers(policy, s, input, PlanControl(policy, s, input).value)
  {
    hide Value, Compare, WithinSteps, InEnvelope, InStep, Rollback, PlanCertified, Restores, Rests, Applies;
    EarnedIsRead(policy, s, input);
    if Worth(input.current) && Worth(input.runawayMax) {
      if Reached(policy, s, input) {
        GuardCompared(policy, input);
        ReachedIsPlanned(policy, s, input);
      } else {
        NotReached(policy, s, input);
      }
    }
  }

  /** Exactly when a decision is applied, and exactly when the baseline is restored: both need
      the live cap to be the one the controller owns, and nothing else about the cap's past. */
  lemma PlanActsExactly(policy: Policy, s: State, input: Input)
    requires PolicyOk(policy) && Earned(policy, s) && Readable(policy, s, input)
    ensures PlanControl(policy, s, input).Ok?
    ensures var plan, owned := PlanControl(policy, s, input).value, Owned(policy, s);
            && (plan.action == ApplyRecommended
                <==> s.phase != RolledBack && Trusted(policy, s, input) && input.current == owned
                     && Some(input.decision.value.recommended) != owned)
            && (plan.action == ApplyRecommended ==> plan.next == Some(input.decision.value.recommended))
            && (plan.action == RollbackToBaseline
                <==> s.phase == Controlling && policy.issuedAt <= input.now && !Trusted(policy, s, input)
                     && input.current == owned)
            && (plan.action == RollbackToBaseline ==> plan.next == Some(policy.safeBaseline))
  {
    hide PlanControl, Readable, Trusted, Moved, Because;
    PlanIsDetermined(policy, s, input);
  }

  /** A manual edit does not end the controller's authority for good: on a trusted decision it
      acts if and only if the live cap is its own last one, whatever happened in between. */
  lemma RestoredCapRestoresAuthority(policy: Policy, s: State, input: Input)
    requires PolicyOk(policy) && Earned(policy, s) && s.phase == Controlling && Trusted(policy, s, input)
    requires Some(input.decision.value.recommended) != s.lastApplied
    requires CapOk(input.current) && CapOk(input.runawayMax)
    ensures PlanControl(policy, s, input).Ok?
    ensures var plan, d := PlanControl(policy, s, input).value, input.decision.value;
            && (plan.action == ApplyRecommended <==> input.current == s.lastApplied)
            && (if input.current == s.lastApplied then plan.next == Some(d.recommended)
                else plan == NoActionPlan(s, input.current, [OperatorOverride], Some(d.id)))
  {
    hide Value, Compare, WithinSteps, PlanControl, InStep;
    EarnedIsRead(policy, s, input);
    PositiveValue(input.decision.value.recommended);
    PlanIsDetermined(policy, s, input);
    var plan := PlanControl(policy, s, input).value;
    assert input.current != s.lastApplied ==> plan.reasons == [plan.reasons[0]] + plan.reasons[1..];
  }
}
