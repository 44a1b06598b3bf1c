/** How runs of the controller end. */
module ControlRecovery {
  import opened Money
  import opened BudgetControl
  import opened DigestChain
  import opened ControlJournal

  // ---------------------------------------------------------------- runs, piece by piece

  lemma {:induction false} RunConcat(h: EventDigest, policy: Policy, s: System, a: seq<Step>, b: seq<Step>)
    ensures Run(h, policy, s, a + b) == Run(h, policy, Run(h, policy, s, a), b)
    decreases |b|
  {
    hide After;
    if b == [] {
      assert a + b == a;
    } else {
      RunConcat(h, policy, s, a, b[..|b| - 1]);
      assert (a + b)[..|a + b| - 1] == a + b[..|b| - 1];
    }
  }

  lemma RunOne(h: EventDigest, policy: Policy, s: System, step: Step)
    ensures Run(h, policy, s, [step]) == After(h, policy, s, step)
  {
    hide After;
  }

  lemma RunFrom(h: EventDigest, policy: Policy, s: System, step: Step, rest: seq<Step>)
    ensures Run(h, policy, s, [step] + rest) == Run(h, policy, After(h, policy, s, step), rest)
  {
    hide Run, After;
    RunOne(h, policy, s, step);
    RunConcat(h, policy, s, [step], rest);
  }

  lemma RunNothing(h: EventDigest, policy: Policy, s: System)
    ensures Run(h, policy, s, []) == s
  {
  }

  /** The process that is running performs k writes. */
  function Writes(k: nat): seq<Step> { seq(k, _ => Execute) }

  lemma {:induction false} RunWrites(h: EventDigest, policy: Policy, s: System, k: nat)
    ensures Run(h, policy, s, Writes(k)) == PerformTimes(s, k)
    decreases k
  {
    hide Perform, Run;
    if k == 0 {
      RunNothing(h, policy, s);
    } else {
      RunWrites(h, policy, Perform(s), k - 1);
      assert Writes(k) == [Execute] + Writes(k - 1);
      RunFrom(h, policy, s, Execute, Writes(k - 1));
    }
  }

  lemma {:induction false} RunFromInv(h: EventDigest, policy: Policy, s: System, steps: seq<Step>)
    requires PolicyOk(policy) && Inv(h, policy, s)
    ensures Inv(h, policy, Run(h, policy, s, steps))
    decreases |steps|
  {
    hide Inv, After, PolicyOk;
    if steps != [] {
      RunFromInv(h, policy, s, steps[..|steps| - 1]);
      StepKeepsInv(h, policy, Run(h, policy, s, steps[..|steps| - 1]), steps[|steps| - 1]);
    }
  }

  // ---------------------------------------------------------------- every recovery settles

  ghost predicate RecordedOnce(audit: Audit, t: string) {
    exists i: nat | i < |audit| ::
      audit[i].body.transactionId == t && forall j: nat | j < |audit| && j != i :: audit[j].body.transactionId != t
  }

  lemma DistinctIsOnce(audit: Audit, t: string)
    requires DistinctIds(audit) && Recorded(audit, t)
    ensures RecordedOnce(audit, t)
  {
    var i :| 0 <= i < |audit| && audit[i].body.transactionId == t;
    forall j: nat | j < |audit| && j != i ensures audit[j].body.transactionId != t {
    }
  }

  /** The state and the action that belong to the live cap of an open transaction. */
  ghost predicate Outcome(before: Durable, p: Pending, after: Durable) {
    && after.cap == before.cap
    && after.audit != [] && after.audit[..|after.audit| - 1] == before.audit
    && var last := after.audit[|after.audit| - 1].body;
    && last.transactionId == p.transactionId
    && (if before.cap == p.to then after.state == Some(p.nextState) && last.action == p.action
        else before.cap == p.from && after.state == Some(p.previousState) && last.action == NoAction)
  }

  ghost function Recovered(h: EventDigest, policy: Policy, s: System): System {
    Run(h, policy, s, [Recover] + Writes(3))
  }

  lemma RecoveredIs(h: EventDigest, policy: Policy, s: System)
    ensures Recovered(h, policy, s) == PerformTimes(After(h, policy, s, Recover), 3)
  {
    hide Run, After, PerformTimes;
    RunFrom(h, policy, s, Recover, Writes(3));
    RunWrites(h, policy, After(h, policy, s, Recover), 3);
  }

  lemma OpenTask(h: EventDigest, policy: Policy, s: System) returns (st: State, e: Link<Event>)
    requires PolicyOk(policy) && Inv(h, policy, s) && s.task == Idle && Open(s.d)
    requires RecoveryTask(h, policy, s.d).Ok?
    ensures RecoveryTask(h, policy, s.d) == Ok(Store(st, e, true))
    ensures var p := s.d.pending.value;
            && e.body.transactionId == p.transactionId
            && (if s.d.cap == p.to then st == p.nextState && e.body.action == p.action
                else s.d.cap == p.from && st == p.previousState && e.body.action == NoAction)
  {
    hide Earned, Verified, Recorded, StateOk, Owned, InEnvelope;
    var task := RecoveryTask(h, policy, s.d).value;
    st, e := task.state, task.event;
  }

  lemma SettledMeans(h: EventDigest, policy: Policy, r: System, t: string)
    requires Inv(h, policy, r) && r.task == Idle && r.d.pending == None && !r.edited && r.d.audit != []
    requires Recorded(r.d.audit, t)
    ensures RecordedOnce(r.d.audit, t) && Agrees(policy, r.d, r.journaled)
    ensures r.d.state.value.revision == Actions(r.d.audit)
  {
    hide Earned, Verified, DistinctIds, Recorded, Agrees, RecordedOnce;
    DistinctIsOnce(r.d.audit, t);
  }

  /** After any run, a recovery of an open transaction that is not refused ends with the journal
      clear, the transaction recorded once, its own outcome by the live cap, and cap, state and last
      event agreeing, with as many actions recorded as the state counts. */
  lemma EveryRecoverySettles(h: EventDigest, policy: Policy, cap: Option<Usd>, steps: seq<Step>)
    requires PolicyOk(policy)
    ensures var s := Run(h, policy, Fresh(cap), steps);
            s.task == Idle && Open(s.d) && RecoveryTask(h, policy, s.d).Ok? ==>
              var p, r := s.d.pending.value, Recovered(h, policy, s);
              && r.task == Idle && r.d.pending == None
              && RecordedOnce(r.d.audit, p.transactionId)
              && Outcome(s.d, p, r.d)
              && Agrees(policy, r.d, r.journaled)
              && r.d.state.value.revision == Actions(r.d.audit)
  {
    var s := Run(h, policy, Fresh(cap), steps);
    hide Run, Inv, Agrees, RecordedOnce, Recorded, RecoveryTask, PolicyOk, PerformTimes;
    RunKeepsInv(h, policy, cap, steps);
    if s.task == Idle && Open(s.d) && RecoveryTask(h, policy, s.d).Ok? {
      OpenSettles(h, policy, s);
    }
  }

  lemma OpenSettles(h: EventDigest, policy: Policy, s: System)
    requires PolicyOk(policy) && Inv(h, policy, s) && s.task == Idle && Open(s.d)
    requires RecoveryTask(h, policy, s.d).Ok?
    ensures var p, r := s.d.pending.value, Recovered(h, policy, s);
            && r.task == Idle && r.d.pending == None && !r.edited
            && RecordedOnce(r.d.audit, p.transactionId)
            && Outcome(s.d, p, r.d)
            && Agrees(policy, r.d, r.journaled)
            && r.d.state.value.revision == Actions(r.d.audit)
  {
    hide Inv, Agrees, RecordedOnce, Recorded, RecoveryTask, PolicyOk, PerformTimes, Run, Actions;
    var st, e := OpenTask(h, policy, s);
    var started, r := After(h, policy, s, Recover), Recovered(h, policy, s);
    RecoveredIs(h, policy, s);
    FromStore(started, 3);
    NotEdited(started);
    RunFromInv(h, policy, s, [Recover] + Writes(3));
    assert r.d.audit[..|s.d.audit|] == s.d.audit && r.d.audit[|s.d.audit|] == e;
    AppendedIsRecorded(s.d.audit, e);
    SettledMeans(h, policy, r, e.body.transactionId);
  }

  lemma NotEdited(s: System)
    requires s.task.Store? && s.task.journaled
    ensures !PerformTimes(s, 3).edited
  {
    assert PerformTimes(s, 3) == Perform(Perform(Perform(s)));
  }

  // ---------------------------------------------------------------- what recovery can undo

  /** A stored state is taken back exactly when its transaction is still open and the live cap is
      the one of before, a different one. */
  lemma RecoveryUndoesExactly(h: EventDigest, policy: Policy, s: System)
    requires PolicyOk(policy) && Inv(h, policy, s) && s.task == Idle && s.d.pending.Some?
    requires s.d.state == Some(s.d.pending.value.nextState)
    ensures var p := s.d.pending.value;
            RecoverFully(h, policy, s.d).state == Some(p.previousState)
            <==> Open(s.d) && s.d.cap == p.from && p.from != p.to
  {
    hide Earned, Verified, Recorded, StateOk, Owned, InEnvelope;
  }

  /** Before its event is recorded a rollback is not final: interrupted behind the write of the
      state, with the old cap put back by hand, it is undone and the state is controlling again. */
  lemma UnrecordedRollbackCanBeUndone(h: EventDigest, policy: Policy, s: System)
    requires PolicyOk(policy) && Inv(h, policy, s)
    requires s.task.Journal? && s.task.pending.action == RollbackToBaseline
    requires s.task.pending.from != s.task.pending.to
    ensures var p := s.task.pending;
            var stored := Run(h, policy, s, Writes(3) + [Crash]);
            var undone := Recovered(h, policy, After(h, policy, stored, Edit(p.from)));
            && stored.d.state == Some(p.nextState) && p.nextState.phase == RolledBack
            && stored.d.cap == Some(policy.safeBaseline)
            && undone.d == Durable(p.from, Some(p.previousState), None, undone.d.audit)
            && undone.task == Idle && p.previousState.phase == Controlling
  {
    hide Inv, Agrees, RecordedOnce, Recorded, RecoveryTask, PolicyOk, Recovered, Run;
    var p, stored := s.task.pending, Run(h, policy, s, Writes(3) + [Crash]);
    StoredRollback(h, policy, s);
    RunFromInv(h, policy, s, Writes(3) + [Crash]);
    var edited := After(h, policy, stored, Edit(p.from));
    StepKeepsInv(h, policy, stored, Edit(p.from));
    RefusedOnlyForForeignCap(h, policy, edited);
    OpenSettles(h, policy, edited);
  }

  lemma StoredRollback(h: EventDigest, policy: Policy, s: System)
    requires PolicyOk(policy) && Inv(h, policy, s)
    requires s.task.Journal? && s.task.pending.action == RollbackToBaseline
    ensures var p, stored := s.task.pending, Run(h, policy, s, Writes(3) + [Crash]);
            && stored.task == Idle && Open(stored.d)
            && stored.d.pending == Some(p) && stored.d.state == Some(p.nextState) && stored.d.cap == p.to
            && p.nextState.phase == RolledBack && p.previousState.phase == Controlling
            && p.to == Some(policy.safeBaseline)
  {
    hide Run, Recorded, Verified, DistinctIds, Agrees, StateOk, InEnvelope, WithinSteps, Settled, Counted;
    RunConcat(h, policy, s, Writes(3), [Crash]);
    RunWrites(h, policy, s, 3);
    RunOne(h, policy, PerformTimes(s, 3), Crash);
    assert PerformTimes(s, 3) == Perform(Perform(Perform(s)));
  }

  // ---------------------------------------------------------------- an edit and its return

  /** A tick over a clear journal, on a trusted decision: with the controller's own cap live it
      journals the decided cap, with any other it only reports the override. */
  lemma TickAtCap(h: EventDigest, policy: Policy, s: System, st: State, input: Input, id: string)
    requires PolicyOk(policy) && Inv(h, policy, s) && s.task == Idle && s.d.pending == None
    requires s.d.state == Some(st) && st.phase == Controlling && CapOk(s.d.cap) && CapOk(input.runawayMax)
    requires Trusted(policy, st, input) && Some(input.decision.value.recommended) != st.lastApplied
    requires id !in s.journaled && !Recorded(s.d.audit, id)
    ensures var r, to := After(h, policy, s, Tick(input, id)), Some(input.decision.value.recommended);
            && r.d == s.d && r.journaled == s.journaled
            && (if s.d.cap == st.lastApplied then
                  r.task.Journal? && r.task.pending.action == ApplyRecommended && r.task.pending.to == to
                else
                  && r.task.Store? && r.task.state == st && !r.task.journaled
                  && r.task.event.body.transactionId == id && r.task.event.body.to == s.d.cap
                  && r.task.event.body.action == NoAction && r.task.event.body.note == Reasons([OperatorOverride]))
  {
    assert Trusted(policy, st, input.(current := s.d.cap));
    hide Earned, Verified, Recorded, DistinctIds, PlanControl, PolicyOk, Trusted, InEnvelope, Counted, Settled;
    EarnedIsOk(policy, st);
    var live := input.(current := s.d.cap);
    RestoredCapRestoresAuthority(policy, st, live);
    PlanKeepsEarned(policy, st, live);
    var plan := PlanControl(policy, st, live).value;
    EarnedIsOk(policy, plan.nextState);
    assert StateBelongs(policy, st);
    assert LoadState(policy, s.d, input.now) == Ok(st);
    assert CapOk(plan.next);
  }

  /** A trusted decision for a cap that differs from the controller's own. */
  ghost predicate Wants(policy: Policy, st: State, input: Input) {
    && Trusted(policy, st, input) && CapOk(input.runawayMax)
    && Some(input.decision.value.recommended) != st.lastApplied
  }

  ghost predicate NewId(s: System, id: string) { id !in s.journaled && !Recorded(s.d.audit, id) }

  /** The controller at rest behind an applied cap, with this cap live. */
  ghost predicate AtRest(s: System, st: State, cap: Option<Usd>) {
    s.task == Idle && s.d.pending == None && s.d.state == Some(st) && st.phase == Controlling && s.d.cap == cap
  }

  lemma OverrideIsReported(h: EventDigest, policy: Policy, s: System, st: State, input: Input, id: string)
    requires PolicyOk(policy) && Inv(h, policy, s) && AtRest(s, st, s.d.cap)
    requires CapOk(s.d.cap) && s.d.cap != st.lastApplied && Wants(policy, st, input) && NewId(s, id)
    ensures var r := Run(h, policy, s, [Tick(input, id)] + Writes(2));
            && Inv(h, policy, r) && AtRest(r, st, s.d.cap) && r.journaled == s.journaled
            && (forall t :: Recorded(r.d.audit, t) <==> Recorded(s.d.audit, t) || t == id)
            && Reported(s.d.audit, r.d.audit, id)
  {
    assert DistinctIds(s.d.audit);
    hide Run, Recorded, Inv, Trusted, DistinctIds, PolicyOk, Earned, After, Actions, PerformTimes, Reported;
    TickAtCap(h, policy, s, st, input, id);
    RunFromInv(h, policy, s, [Tick(input, id)] + Writes(2));
    var ticked := After(h, policy, s, Tick(input, id));
    RunFrom(h, policy, s, Tick(input, id), Writes(2));
    RunWrites(h, policy, ticked, 2);
    ReportWritten(s, ticked, st, id);
  }

  /** The two writes of a tick that only reports. */
  lemma ReportWritten(s: System, ticked: System, st: State, id: string)
    requires DistinctIds(s.d.audit) && !Recorded(s.d.audit, id) && s.d.state == Some(st)
    requires ticked.d == s.d && ticked.task.Store? && ticked.task.state == st && !ticked.task.journaled
    requires var e := ticked.task.event.body;
             e.transactionId == id && e.action == NoAction && e.note == Reasons([OperatorOverride])
    ensures var r := PerformTimes(ticked, 2);
            && r.task == Idle && r.journaled == ticked.journaled && r.d == s.d.(audit := r.d.audit)
            && (forall t :: Recorded(r.d.audit, t) <==> Recorded(s.d.audit, t) || t == id)
            && Reported(s.d.audit, r.d.audit, id)
  {
    hide Recorded, DistinctIds, Actions;
    assert PerformTimes(ticked, 2) == Perform(Perform(ticked));
    AppendKeepsDistinct(s.d.audit, ticked.task.event);
  }

  /** One more event, a no-action that names the operator's override. */
  ghost predicate Reported(before: Audit, after: Audit, id: string) {
    && |after| == |before| + 1 && after[..|before|] == before
    && var e := after[|before|].body;
    e.transactionId == id && e.action == NoAction && e.note == Reasons([OperatorOverride])
  }

  /** The cap is overridden by hand, the next tick reports it and leaves it alone; the old cap is
      put back, and the tick after that applies its decision. */
  lemma RestoredCapIsActedOn(h: EventDigest, policy: Policy, s: System, st: State, override: Option<Usd>,
                             noticed: Input, later: Input, first: string, second: string)
    requires PolicyOk(policy) && Inv(h, policy, s) && AtRest(s, st, s.d.cap)
    requires CapOk(override) && override != st.lastApplied
    requires Wants(policy, st, noticed) && Wants(policy, st, later)
    requires NewId(s, first) && NewId(s, second) && first != second
    ensures var seen := Run(h, policy, s, [Edit(override), Tick(noticed, first)] + Writes(2));
            var done := Run(h, policy, seen, [Edit(st.lastApplied), Tick(later, second)] + Writes(5));
            && AtRest(seen, st, override) && Reported(s.d.audit, seen.d.audit, first)
            && done.task == Idle && done.d.pending == None
            && done.d.cap == Some(later.decision.value.recommended)
            && done.d.state.Some? && done.d.state.value.revision == st.revision + 1
  {
    hide Run, Recorded, Inv, Trusted, PolicyOk, Reported, Actions;
    var edited := After(h, policy, s, Edit(override));
    StepKeepsInv(h, policy, s, Edit(override));
    OverrideIsReported(h, policy, edited, st, noticed, first);
    assert [Edit(override), Tick(noticed, first)] + Writes(2)
        == [Edit(override)] + ([Tick(noticed, first)] + Writes(2));
    RunFrom(h, policy, s, Edit(override), [Tick(noticed, first)] + Writes(2));
    var seen := Run(h, policy, edited, [Tick(noticed, first)] + Writes(2));
    OwnCapIsActedOn(h, policy, seen, st, later, second);
  }

  lemma OwnCapIsOk(h: EventDigest, policy: Policy, s: System, st: State)
    requires PolicyOk(policy) && Inv(h, policy, s) && s.d.state == Some(st)
    ensures CapOk(st.lastApplied)
  {
    hide Verified, DistinctIds, Recorded;
  }

  lemma TickAppliesAtOwnCap(h: EventDigest, policy: Policy, s: System, st: State, input: Input, id: string)
    requires PolicyOk(policy) && Inv(h, policy, s) && AtRest(s, st, st.lastApplied) && CapOk(st.lastApplied)
    requires Wants(policy, st, input) && NewId(s, id)
    ensures var done := Run(h, policy, s, [Tick(input, id)] + Writes(5));
            && done.task == Idle && done.d.pending == None
            && done.d.cap == Some(input.decision.value.recommended)
            && done.d.state.Some? && done.d.state.value.revision == st.revision + 1
  {
    hide Run, Recorded, Inv, Trusted, PolicyOk, Actions, PerformTimes, After;
    TickAtCap(h, policy, s, st, input, id);
    StepKeepsInv(h, policy, s, Tick(input, id));
    var ticked := After(h, policy, s, Tick(input, id));
    AppliedIsWritten(h, policy, ticked, st);
    RunFrom(h, policy, s, Tick(input, id), Writes(5));
    RunWrites(h, policy, ticked, 5);
  }

  lemma OwnCapIsActedOn(h: EventDigest, policy: Policy, s: System, st: State, input: Input, id: string)
    requires PolicyOk(policy) && Inv(h, policy, s) && AtRest(s, st, s.d.cap)
    requires Wants(policy, st, input) && NewId(s, id)
    ensures var done := Run(h, policy, s, [Edit(st.lastApplied), Tick(input, id)] + Writes(5));
            && done.task == Idle && done.d.pending == None
            && done.d.cap == Some(input.decision.value.recommended)
            && done.d.state.Some? && done.d.state.value.revision == st.revision + 1
  {
    OwnCapIsOk(h, policy, s, st);
    hide Run, Recorded, Inv, Wants, PolicyOk, RecoveryTask, TickTask;
    var own := Edit(st.lastApplied);
    StepKeepsInv(h, policy, s, own);
    TickAppliesAtOwnCap(h, policy, After(h, policy, s, own), st, input, id);
    assert [own, Tick(input, id)] + Writes(5) == [own] + ([Tick(input, id)] + Writes(5));
    RunFrom(h, policy, s, own, [Tick(input, id)] + Writes(5));
  }

  lemma AppliedIsWritten(h: EventDigest, policy: Policy, s: System, st: State)
    requires Inv(h, policy, s) && s.task.Journal? && s.d.state == Some(st) && s.d.pending == None
    ensures var p, done := s.task.pending, PerformTimes(s, 5);
            && done.task == Idle && done.d.pending == None && done.d.cap == p.to
            && done.d.state == Some(p.nextState) && p.nextState.revision == st.revision + 1
  {
    hide Recorded, Earned, Verified, DistinctIds, Agrees, Settled, StateOk;
    assert PerformTimes(s, 5) == Perform(Perform(Perform(Perform(Perform(s)))));
  }
}
