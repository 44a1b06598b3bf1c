/** What a tick and a recovery leave in the files, told from the policy, the files and the input. */
module ControlTicks {
  import opened Money
  import opened BudgetControl
  import opened DigestChain
  import opened ControlJournal
  import opened ControlRecovery

  /** The state a tick goes on from: the stored one, or one just armed. */
  ghost function Going(policy: Policy, d: Durable, now: int): State {
    if d.state.Some? then d.state.value
    else State(policy.id, policy.version, policy.digest, Armed, 0, policy.safeBaseline, None, now)
  }

  /** The record goes behind the last one of the audit and tells this. */
  ghost predicate Records(h: EventDigest, audit: Audit, e: Link<Event>, body: Event) {
    && e.sequence == |audit| + 1 && e.body == body
    && e.previous == (if audit == [] then None else Some(audit[|audit| - 1].digest))
    && e.digest == h(e.sequence, e.body, e.previous)
  }

  /** Why the event of a plan says it was made. */
  ghost function Noted(plan: Plan): Note { if plan.action == ApplyRecommended then Applied else Reasons(plan.reasons) }

  /** The files behind a tick with this plan: its cap and state, no open journal, and one more event that
      names the transaction, the policy, both caps, the time, the reasons and the decision. */
  ghost predicate Filed(h: EventDigest, policy: Policy, before: Durable, after: Durable, plan: Plan, now: int,
                        id: string) {
    && after.cap == plan.next && after.state == Some(plan.nextState) && after.pending == None
    && |after.audit| == |before.audit| + 1 && after.audit[..|before.audit|] == before.audit
    && Records(h, before.audit, after.audit[|before.audit|],
               Event(id, policy.id, policy.version, policy.digest, plan.nextState.revision, plan.action,
                     before.cap, plan.next, now, Noted(plan), plan.decisionId))
  }

  /** A tick may begin: the journal is clear and the transaction id new. */
  ghost predicate MayTick(s: System, id: string) {
    s.task == Idle && s.d.pending == None && id !in s.journaled && !Recorded(s.d.audit, id)
  }

  lemma GoingIsLoaded(policy: Policy, d: Durable, now: int)
    requires PolicyOk(policy) && (d.state.Some? ==> Earned(policy, d.state.value))
    ensures LoadState(policy, d, now).Ok? <==> d.state.Some? || d.cap == Some(policy.safeBaseline)
    ensures LoadState(policy, d, now).Ok? ==> LoadState(policy, d, now).value == Going(policy, d, now)
    ensures Earned(policy, Going(policy, d, now)) && StateOk(policy, Going(policy, d, now))
  {
    EarnedIsOk(policy, Going(policy, d, now));
  }

  /** The event that is appended, once the plan's state and caps pass the checks of an append. */
  lemma EventIsAppended(h: EventDigest, policy: Policy, d: Durable, plan: Plan, now: int, id: string)
    requires Verified(h, None, d.audit) && !Recorded(d.audit, id)
    requires StateOk(policy, plan.nextState) && CapOk(d.cap) && CapOk(plan.next)
    ensures var r := AppendEvent(h, d.audit, policy, plan.nextState, id, plan.action, d.cap, plan.next, now,
                                 Noted(plan), plan.decisionId);
            r.Ok? && Records(h, d.audit, r.value,
                             Event(id, policy.id, policy.version, policy.digest, plan.nextState.revision, plan.action,
                                   d.cap, plan.next, now, Noted(plan), plan.decisionId))
  {
    hide Verified, Recorded, StateOk, CapOk;
  }

  lemma PlanBegins(h: EventDigest, policy: Policy, d: Durable, st: State, plan: Plan, input: Input, id: string)
    requires LoadState(policy, d, input.now) == Ok(st) && PlanControl(policy, st, input.(current := d.cap)) == Ok(plan)
    requires Verified(h, None, d.audit) && !Recorded(d.audit, id)
    requires StateOk(policy, plan.nextState) && CapOk(d.cap) && CapOk(plan.next) && NoteOf(plan) == Noted(plan)
    requires plan.action == NoAction ==> plan.next == d.cap
    ensures var task := TickTask(h, policy, d, input, id);
            && task.Ok? && (plan.action == NoAction <==> task.value.Store?)
            && Begun(h, policy, d, task.value, plan, st, input.now, id)
  {
    EventIsAppended(h, policy, d, plan, input.now, id);
    hide Verified, Recorded, StateOk, CapOk, LoadState, PlanControl, AppendEvent, Records, NoteOf, Noted;
  }

  /** The task a tick begins with, or none. */
  lemma TickBegins(h: EventDigest, policy: Policy, s: System, input: Input, id: string)
    requires PolicyOk(policy) && Inv(h, policy, s) && MayTick(s, id)
    ensures var st, live := Going(policy, s.d, input.now), input.(current := s.d.cap);
            var task := TickTask(h, policy, s.d, input, id);
            && (task.Ok? <==> (s.d.state.Some? || s.d.cap == Some(policy.safeBaseline)) && Readable(policy, st, live))
            && (task.Ok? ==>
                  PlanControl(policy, st, live).Ok? &&
                  var plan := PlanControl(policy, st, live).value;
                  && Answers(policy, st, live, plan) && (plan.action == NoAction <==> task.value.Store?)
                  && Begun(h, policy, s.d, task.value, plan, st, input.now, id))
  {
    var st, live := Going(policy, s.d, input.now), input.(current := s.d.cap);
    hide Readable, Verified, Recorded, PlanControl, LoadState, DistinctIds, Counted, Settled, Earned, PolicyOk, StateOk,
         Answers, AppendEvent, Begun, TaskOk, PendingOk, Going, CapOk, NoteOf, Noted;
    GoingIsLoaded(policy, s.d, input.now);
    PlanIsDetermined(policy, st, live);
    if (s.d.state.Some? || s.d.cap == Some(policy.safeBaseline)) && Readable(policy, st, live) {
      var plan := PlanControl(policy, st, live).value;
      PlanKeepsEarned(policy, st, live);
      EarnedIsOk(policy, plan.nextState);
      PlanIsFit(policy, st, live, plan);
      PlanBegins(h, policy, s.d, st, plan, input, id);
    }
  }

  lemma PlanIsFit(policy: Policy, st: State, live: Input, plan: Plan)
    requires Answers(policy, st, live, plan) && Readable(policy, st, live) && PolicyOk(policy)
    ensures CapOk(live.current) && CapOk(plan.next) && NoteOf(plan) == Noted(plan)
    ensures plan.action == NoAction ==> plan.nextState == st && plan.next == live.current
  {
    hide Because, Moved, Trusted, Reached;
    if live.current.Some? {
      PositiveValue(live.current.value);
    }
    if plan.next.Some? {
      PositiveValue(plan.next.value);
    }
    if plan.action == ApplyRecommended {
      AppliedIsPositive(policy, st, live);
    }
  }

  lemma AppliedIsPositive(policy: Policy, st: State, live: Input)
    requires Trusted(policy, st, live)
    ensures Positive(live.decision.value.recommended)
  {
  }

  /** The journal entry and the event of a tick, before any write. */
  ghost predicate Begun(h: EventDigest, policy: Policy, d: Durable, task: Task, plan: Plan, st: State, now: int,
                        id: string) {
    var body := Event(id, policy.id, policy.version, policy.digest, plan.nextState.revision, plan.action, d.cap,
                      plan.next, now, Noted(plan), plan.decisionId);
    match task
    case Store(next, e, journaled) =>
      !journaled && next == plan.nextState && plan.next == d.cap && Records(h, d.audit, e, body)
    case Journal(p, e) =>
      && Records(h, d.audit, e, body)
      && p == Pending(id, policy.id, policy.version, policy.digest, st, plan.nextState, plan.action, d.cap, plan.next,
                      now, Noted(plan), plan.decisionId)
    case _ => false
  }

  /** Exactly when a tick begins, and what its five writes leave: the files of the one plan that the policy,
      the stored state, the live cap and the input call for. */
  lemma TickIsFiled(h: EventDigest, policy: Policy, s: System, input: Input, id: string)
    requires PolicyOk(policy) && Inv(h, policy, s) && MayTick(s, id)
    ensures var st, live := Going(policy, s.d, input.now), input.(current := s.d.cap);
            var done := Run(h, policy, s, [Tick(input, id)] + Writes(5));
            if (s.d.state.Some? || s.d.cap == Some(policy.safeBaseline)) && Readable(policy, st, live) then
              && done.task == Idle
              && exists plan :: Answers(policy, st, live, plan) && Filed(h, policy, s.d, done.d, plan, input.now, id)
            else done == s
  {
    hide Run, Inv, Recorded, Answers, Readable, TickTask, PolicyOk, Going, PerformTimes;
    var st, live := Going(policy, s.d, input.now), input.(current := s.d.cap);
    TickBegins(h, policy, s, input, id);
    var ticked := After(h, policy, s, Tick(input, id));
    RunFrom(h, policy, s, Tick(input, id), Writes(5));
    RunWrites(h, policy, ticked, 5);
    if TickTask(h, policy, s.d, input, id).Ok? {
      var plan := PlanControl(policy, st, live).value;
      BegunIsFiled(h, policy, s.d, ticked, plan, st, input.now, id);
      assert Filed(h, policy, s.d, PerformTimes(ticked, 5).d, plan, input.now, id);
    } else {
      FromIdle(s, 5);
    }
  }

  lemma BegunIsFiled(h: EventDigest, policy: Policy, d: Durable, s: System, plan: Plan, st: State, now: int, id: string)
    requires s.d == d && d.pending == None && Begun(h, policy, d, s.task, plan, st, now, id)
    ensures PerformTimes(s, 5).task == Idle && Filed(h, policy, d, PerformTimes(s, 5).d, plan, now, id)
  {
    hide Records, Noted;
    var p2 := Perform(Perform(s));
    assert PerformTimes(s, 5) == Perform(Perform(Perform(p2)));
    if s.task.Store? {
      FromIdle(p2, 3);
    }
  }

  /** On everything but a trusted decision, a controlling state that owns the live cap journals the return
      to its baseline, and the five writes restore it. */
  lemma UntrustedTickRestores(h: EventDigest, policy: Policy, s: System, st: State, input: Input, id: string)
    requires PolicyOk(policy) && Inv(h, policy, s) && MayTick(s, id)
    requires s.d.state == Some(st) && st.phase == Controlling && s.d.cap == st.lastApplied
    requires policy.issuedAt <= input.now && !Trusted(policy, st, input.(current := s.d.cap))
    requires Readable(policy, st, input.(current := s.d.cap))
    ensures var task := After(h, policy, s, Tick(input, id)).task;
            && task.Journal? && task.pending.action == RollbackToBaseline && task.pending.from == st.lastApplied
            && task.pending.to == Some(policy.safeBaseline) && task.pending.nextState.phase == RolledBack
    ensures var done := Run(h, policy, s, [Tick(input, id)] + Writes(5));
            && done.d.cap == Some(policy.safeBaseline) && done.d.state.Some? && done.d.state.value.phase == RolledBack
  {
    hide Run, Inv, Recorded, Readable, TickTask, PolicyOk, Trusted, Because;
    TickBegins(h, policy, s, input, id);
    TickIsFiled(h, policy, s, input, id);
    var live := input.(current := s.d.cap);
    var plan :| Answers(policy, st, live, plan)
                && Filed(h, policy, s.d, Run(h, policy, s, [Tick(input, id)] + Writes(5)).d, plan, input.now, id);
  }

  // ---------------------------------------------------------------- recoveries

  /** The files behind a recovery, as the live cap has it: the transaction is recorded as done with its new
      state, or as not done with the state of before. */
  ghost predicate Resolved(h: EventDigest, policy: Policy, before: Durable, after: Durable, p: Pending) {
    var done := before.cap == p.to;
    && after.cap == before.cap && after.pending == None
    && after.state == Some(if done then p.nextState else p.previousState)
    && |after.audit| == |before.audit| + 1 && after.audit[..|before.audit|] == before.audit
    && Records(h, before.audit, after.audit[|before.audit|],
               if done then
                 Event(p.transactionId, policy.id, policy.version, policy.digest, p.nextState.revision, p.action,
                       p.from, p.to, p.at, AfterCommit(p.note), p.decisionId)
               else
                 Event(p.transactionId, policy.id, policy.version, policy.digest, p.previousState.revision, NoAction,
                       p.from, p.from, p.at, BeforeCommit, p.decisionId))
  }

  /** What a recovery does, exactly: it finishes or takes back an open transaction whose cap is live, clears
      one that is recorded, and otherwise changes nothing. */
  lemma RecoveryIsFiled(h: EventDigest, policy: Policy, s: System)
    requires PolicyOk(policy) && Inv(h, policy, s) && s.task == Idle
    ensures var r := Recovered(h, policy, s);
            && r.task == Idle
            && (if s.d.pending == None then r.d == s.d
                else if Recorded(s.d.audit, s.d.pending.value.transactionId) then r.d == s.d.(pending := None)
                else if s.d.cap == s.d.pending.value.to || s.d.cap == s.d.pending.value.from then
                  Resolved(h, policy, s.d, r.d, s.d.pending.value)
                else r.d == s.d)
  {
    hide PolicyOk, PerformTimes, Earned, Verified, Recorded, StateOk, InEnvelope, DistinctIds, Settled, Counted;
    RecoveredIs(h, policy, s);
    var started := After(h, policy, s, Recover);
    if s.d.pending.Some? {
      RefusedOnlyForForeignCap(h, policy, s);
    }
    if started.task.Store? {
      FromStore(started, 3);
    } else if started.task == Clear {
      FromClear(started, 3);
    } else {
      FromIdle(started, 3);
    }
  }
}
