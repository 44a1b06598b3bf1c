/** What every run of ticks, edits, crashes and recoveries keeps. */
module ControlJournal {
  // The driver writes journal, live cap, state, audit, clear, in this order. A step writes one of these
  // files; a crash loses everything else.

  import opened Money
  import opened BudgetControl
  import opened DigestChain

  datatype Note =
    | Reasons(reasons: seq<Reason>) | Applied | Restored | Unchanged
    | AfterCommit(note: Note) | BeforeCommit

  datatype Event = Event(
    transactionId: string, policyId: string, policyVersion: int, policyDigest: string,
    stateRevision: int, action: Action, from: Option<Usd>, to: Option<Usd>, at: int,
    note: Note, decisionId: Option<string>)

  type Audit = seq<Link<Event>>

  type EventDigest = Digest<Event>

  datatype Pending = Pending(
    transactionId: string, policyId: string, policyVersion: int, policyDigest: string,
    previousState: State, nextState: State, action: Action, from: Option<Usd>, to: Option<Usd>,
    at: int, note: Note, decisionId: Option<string>)

  /** What survives a crash. */
  datatype Durable = Durable(cap: Option<Usd>, state: Option<State>, pending: Option<Pending>, audit: Audit)

  /** The write the running process will perform next. */
  datatype Task =
    | Idle
    | Journal(pending: Pending, event: Link<Event>)
    | Commit(pending: Pending, event: Link<Event>)
    | Store(state: State, event: Link<Event>, journaled: bool)
    | Log(event: Link<Event>, journaled: bool)
    | Clear

  /** `edited` and `journaled` only record history: whether the cap was edited since the last
      audit event, and which transactions ever reached the journal. */
  datatype System = System(d: Durable, task: Task, edited: bool, journaled: set<string>)

  datatype Step = Tick(input: Input, transactionId: string) | Execute | Crash | Edit(cap: Option<Usd>) | Recover

  // ---------------------------------------------------------------- audit

  ghost predicate Recorded(audit: Audit, transactionId: string) {
    exists i :: 0 <= i < |audit| && audit[i].body.transactionId == transactionId
  }

  ghost predicate DistinctIds(audit: Audit) {
    forall i, j :: 0 <= i < j < |audit| ==> audit[i].body.transactionId != audit[j].body.transactionId
  }

  function Bump(action: Action): nat { if action == NoAction then 0 else 1 }

  /** How many recorded events changed the cap. */
  function Actions(audit: Audit): nat {
    if audit == [] then 0
    else Actions(audit[..|audit| - 1]) + Bump(audit[|audit| - 1].body.action)
  }

  /** Every refusal the append makes; otherwise the next link of the chain. */
  ghost function AppendEvent(h: EventDigest, audit: Audit, policy: Policy, s: State, transactionId: string,
                             action: Action, from: Option<Usd>, to: Option<Usd>, at: int, note: Note,
                             id: Option<string>): Result<Link<Event>> {
    if !Verified(h, None, audit) then Err("cannot append to invalid audit chain")
    else if !StateOk(policy, s) then Err("state does not belong to this policy")
    else if !CapOk(from) || !CapOk(to) then Err("must be a finite positive number")
    else if Recorded(audit, transactionId) then Err("transaction already recorded")
    else
      Ok(NewLink(h, None, audit, Event(transactionId, policy.id, policy.version, policy.digest,
                                       s.revision, action, from, to, at, note, id)))
  }

  lemma AppendKeepsDistinct(audit: Audit, link: Link<Event>)
    requires DistinctIds(audit) && !Recorded(audit, link.body.transactionId)
    ensures DistinctIds(audit + [link])
    ensures forall t :: Recorded(audit + [link], t) <==> Recorded(audit, t) || t == link.body.transactionId
    ensures Actions(audit + [link]) == Actions(audit) + Bump(link.body.action)
  {
    var longer := audit + [link];
    assert longer[..|longer| - 1] == audit;
    forall t ensures Recorded(longer, t) <==> Recorded(audit, t) || t == link.body.transactionId {
      if Recorded(audit, t) {
        var i :| 0 <= i < |audit| && audit[i].body.transactionId == t;
        assert longer[i].body.transactionId == t;
      }
      assert longer[|audit|] == link;
    }
  }

  // ---------------------------------------------------------------- recovery decision

  datatype Status = Complete | Abort | Conflict | AlreadyRecorded

  predicate PendingBelongs(policy: Policy, p: Pending) {
    && p.policyId == policy.id && p.policyVersion == policy.version && p.policyDigest == policy.digest
    && StateOk(policy, p.previousState) && StateOk(policy, p.nextState)
    && p.action != NoAction
    && CapOk(p.from) && CapOk(p.to)
  }

  ghost function Resolve(h: EventDigest, p: Pending, policy: Policy, current: Option<Usd>,
                         audit: Audit): Result<Status> {
    if !PendingBelongs(policy, p) then Err("pending mutation is invalid")
    else if !Verified(h, None, audit) then Err("audit chain is invalid")
    else if Recorded(audit, p.transactionId) then Ok(AlreadyRecorded)
    else if !CapOk(current) then Err("currentDailyUsd must be positive")
    else if SameAmount(current, p.to) then Ok(Complete)
    else if SameAmount(current, p.from) then Ok(Abort)
    else Ok(Conflict)
  }

  /** The next task of a recovery: where the driver goes after resolving the journal. */
  ghost function RecoveryTask(h: EventDigest, policy: Policy, d: Durable): Result<Task> {
    if d.pending == None then Ok(Idle)
    else
      var p := d.pending.value;
      match Resolve(h, p, policy, d.cap, d.audit)
      case Err(e) => Err(e)
      case Ok(Conflict) => Err("recovery conflict")
      case Ok(AlreadyRecorded) => Ok(Clear)
      case Ok(Complete) =>
        (match AppendEvent(h, d.audit, policy, p.nextState, p.transactionId, p.action, p.from, p.to, p.at,
                           AfterCommit(p.note), p.decisionId)
         case Err(e) => Err(e)
         case Ok(link) => Ok(Store(p.nextState, link, true)))
      case Ok(Abort) =>
        (match AppendEvent(h, d.audit, policy, p.previousState, p.transactionId, NoAction, p.from, p.from, p.at,
                           BeforeCommit, p.decisionId)
         case Err(e) => Err(e)
         case Ok(link) => Ok(Store(p.previousState, link, true)))
  }

  // ---------------------------------------------------------------- one tick

  function LoadState(policy: Policy, d: Durable, now: int): Result<State> {
    if d.state == None then InitialState(policy, d.cap, now)
    else ReconcileState(policy, d.state.value, d.cap, now)
  }

  function NoteOf(plan: Plan): Note {
    if plan.reasons != [] then Reasons(plan.reasons)
    else match plan.action
         case NoAction => Unchanged
         case ApplyRecommended => Applied
         case RollbackToBaseline => Restored
  }

  /** The first task of a tick, or the error that ends it before anything is written. */
  ghost function TickTask(h: EventDigest, policy: Policy, d: Durable, input: Input,
                          transactionId: string): Result<Task> {
    match LoadState(policy, d, input.now)
    case Err(e) => Err(e)
    case Ok(s) =>
      match PlanControl(policy, s, input.(current := d.cap))
      case Err(e) => Err(e)
      case Ok(plan) =>
        match AppendEvent(h, d.audit, policy, plan.nextState, transactionId, plan.action, d.cap, plan.next,
                          input.now, NoteOf(plan), plan.decisionId)
        case Err(e) => Err(e)
        case Ok(link) =>
          if plan.action == NoAction then Ok(Store(plan.nextState, link, false))
          else
            Ok(Journal(Pending(transactionId, policy.id, policy.version, policy.digest, s, plan.nextState,
                               plan.action, d.cap, plan.next, input.now, NoteOf(plan), plan.decisionId), link))
  }

  // ---------------------------------------------------------------- steps

  /** Perform the task's write and move on to the next one. */
  function Perform(s: System): System {
    match s.task
    case Idle => s
    case Journal(p, e) =>
      s.(d := s.d.(pending := Some(p)), task := Commit(p, e), journaled := s.journaled + {p.transactionId})
    case Commit(p, e) => s.(d := s.d.(cap := p.to), task := Store(p.nextState, e, true))
    case Store(st, e, journaled) => s.(d := s.d.(state := Some(st)), task := Log(e, journaled))
    case Log(e, journaled) =>
      s.(d := s.d.(audit := s.d.audit + [e]), task := if journaled then Clear else Idle, edited := false)
    case Clear => s.(d := s.d.(pending := None), task := Idle)
  }

  /** One step. A process that is running holds both locks, so an edit, a tick or a recovery
      needs an idle system; a tick refuses to start over an unresolved journal; transaction
      ids are fresh. A step that is not possible changes nothing. */
  ghost function After(h: EventDigest, policy: Policy, s: System, step: Step): System {
    match step
    case Execute => Perform(s)
    case Crash => s.(task := Idle)
    case Edit(cap) => if s.task == Idle then s.(d := s.d.(cap := cap), edited := true) else s
    case Recover =>
      if s.task == Idle && RecoveryTask(h, policy, s.d).Ok? then s.(task := RecoveryTask(h, policy, s.d).value) else s
    case Tick(input, id) =>
      if s.task == Idle && s.d.pending == None && id !in s.journaled && TickTask(h, policy, s.d, input, id).Ok?
      then s.(task := TickTask(h, policy, s.d, input, id).value) else s
  }

  ghost function Run(h: EventDigest, policy: Policy, s: System, steps: seq<Step>): System
    decreases |steps|
  {
    if steps == [] then s
    else After(h, policy, Run(h, policy, s, steps[..|steps| - 1]), steps[|steps| - 1])
  }

  function Fresh(cap: Option<Usd>): System {
    System(Durable(cap, None, None, []), Idle, false, {})
  }

  // ---------------------------------------------------------------- what every run keeps

  ghost predicate PendingOk(policy: Policy, p: Pending) {
    && PendingBelongs(policy, p)
    && Earned(policy, p.previousState) && Earned(policy, p.nextState)
    && p.nextState.revision == p.previousState.revision + 1
    && p.from.Some? && p.from == Owned(policy, p.previousState)
    && p.to.Some? && p.to == Owned(policy, p.nextState)
    && InEnvelope(policy, p.to.value)
    && (p.action == RollbackToBaseline <==> p.nextState.phase == RolledBack)
    && p.previousState.phase != RolledBack
  }

  /** Live cap, stored state and last audit event tell one story. */
  ghost predicate Agrees(policy: Policy, d: Durable, journaled: set<string>) {
    d.audit != [] && d.state.Some? &&
    var last := d.audit[|d.audit| - 1].body;
    && d.cap == last.to
    && d.state.value.revision == last.stateRevision
    && (last.transactionId in journaled ==> d.cap == Owned(policy, d.state.value))
  }

  ghost predicate Settled(policy: Policy, s: System) {
    s.edited || s.d.audit == [] || Agrees(policy, s.d, s.journaled)
  }

  /** The event is the next link of the chain and tells of this state and the live cap. */
  ghost predicate NextEvent(h: EventDigest, d: Durable, e: Link<Event>, id: string, to: Option<Usd>, revision: int) {
    && e == NewLink(h, None, d.audit, e.body)
    && e.body.transactionId == id && !Recorded(d.audit, id)
    && e.body.to == to && e.body.stateRevision == revision
    && revision == Actions(d.audit) + Bump(e.body.action)
  }

  /** An event about to be stored or logged, of a journaled transaction or of a plain tick. */
  ghost predicate EventReady(h: EventDigest, policy: Policy, s: System, st: State, e: Link<Event>, journaled: bool) {
    && NextEvent(h, s.d, e, e.body.transactionId, s.d.cap, st.revision)
    && Earned(policy, st)
    && (if journaled then
          && IsPending(s.d, e.body.transactionId)
          && s.d.cap == Owned(policy, st)
        else
          && s.d.pending == None && e.body.transactionId !in s.journaled && Settled(policy, s)
          && e.body.action == NoAction)
  }

  ghost predicate TaskOk(h: EventDigest, policy: Policy, s: System) {
    match s.task
    case Idle =>
      s.d.pending == None || Recorded(s.d.audit, s.d.pending.value.transactionId) ==> Settled(policy, s)
    case Journal(p, e) =>
      && s.d.pending == None && PendingOk(policy, p) && p.transactionId !in s.journaled
      && s.d.cap == p.from && Settled(policy, s) && e.body.action == p.action
      && NextEvent(h, s.d, e, p.transactionId, p.to, p.nextState.revision)
    case Commit(p, e) =>
      && s.d.pending == Some(p) && s.d.cap == p.from && e.body.action == p.action
      && NextEvent(h, s.d, e, p.transactionId, p.to, p.nextState.revision)
    case Store(st, e, journaled) =>
      && EventReady(h, policy, s, st, e, journaled)
      && (journaled || s.d.state == Some(st) || s.d.audit == [])
    case Log(e, journaled) =>
      s.d.state.Some? && EventReady(h, policy, s, s.d.state.value, e, journaled)
    case Clear =>
      s.d.pending.Some? && Recorded(s.d.audit, s.d.pending.value.transactionId) && Settled(policy, s)
  }

  /** The journaled transaction has no audit event yet. */
  ghost predicate Open(d: Durable) {
    d.pending.Some? && !Recorded(d.audit, d.pending.value.transactionId)
  }

  /** The revision counts recorded actions; an open transaction counts from its previous state. */
  ghost predicate Counted(d: Durable) {
    if Open(d) then d.pending.value.previousState.revision == Actions(d.audit)
    else if d.state.Some? then d.state.value.revision == Actions(d.audit)
    else Actions(d.audit) == 0
  }

  ghost predicate Inv(h: EventDigest, policy: Policy, s: System) {
    && Verified(h, None, s.d.audit) && DistinctIds(s.d.audit)
    && (s.d.state.Some? ==> Earned(policy, s.d.state.value))
    && (s.d.audit != [] ==> s.d.state.Some?)
    && (s.d.pending.Some? ==> PendingOk(policy, s.d.pending.value) && s.d.pending.value.transactionId in s.journaled)
    && Counted(s.d)
    && (forall t | t in s.journaled :: Recorded(s.d.audit, t) || IsPending(s.d, t))
    && TaskOk(h, policy, s)
  }

  ghost predicate IsPending(d: Durable, t: string) {
    d.pending.Some? && d.pending.value.transactionId == t
  }

  lemma EarnedIsOk(policy: Policy, s: State)
    requires PolicyOk(policy) && Earned(policy, s)
    ensures StateOk(policy, s)
    ensures Owned(policy, s).Some? && CapOk(Owned(policy, s))
  {
  }

  lemma LogKeepsInv(h: EventDigest, policy: Policy, s: System)
    requires Inv(h, policy, s) && s.task.Log?
    ensures Inv(h, policy, Perform(s))
  {
    hide Earned, PendingOk, Verified, DistinctIds, Recorded, Owned, NewLink;
    var e, journaled, r := s.task.event, s.task.journaled, Perform(s);
    AppendKeepsVerified(h, None, s.d.audit, e.body);
    AppendKeepsDistinct(s.d.audit, e);
    assert r.d.audit[|r.d.audit| - 1] == e;
    assert Agrees(policy, r.d, r.journaled);
  }

  lemma JournalKeepsInv(h: EventDigest, policy: Policy, s: System)
    requires Inv(h, policy, s) && s.task.Journal?
    ensures Inv(h, policy, Perform(s))
  {
    hide Earned, Verified, DistinctIds, Recorded, NewLink, InEnvelope;
  }

  lemma CommitKeepsInv(h: EventDigest, policy: Policy, s: System)
    requires Inv(h, policy, s) && s.task.Commit?
    ensures Inv(h, policy, Perform(s))
  {
    hide Earned, Verified, DistinctIds, Recorded, NewLink, InEnvelope;
  }

  lemma StoreKeepsInv(h: EventDigest, policy: Policy, s: System)
    requires Inv(h, policy, s) && s.task.Store?
    ensures Inv(h, policy, Perform(s))
  {
    hide Earned, Verified, DistinctIds, Recorded, NewLink, InEnvelope;
  }

  lemma ClearKeepsInv(h: EventDigest, policy: Policy, s: System)
    requires Inv(h, policy, s) && s.task.Clear?
    ensures Inv(h, policy, Perform(s))
  {
    hide Earned, Verified, DistinctIds, Recorded, NewLink, InEnvelope;
  }

  lemma PerformKeepsInv(h: EventDigest, policy: Policy, s: System)
    requires Inv(h, policy, s)
    ensures Inv(h, policy, Perform(s))
  {
    hide Inv;
    match s.task
    case Idle =>
    case Journal(_, _) => JournalKeepsInv(h, policy, s);
    case Commit(_, _) => CommitKeepsInv(h, policy, s);
    case Store(_, _, _) => StoreKeepsInv(h, policy, s);
    case Log(_, _) => LogKeepsInv(h, policy, s);
    case Clear => ClearKeepsInv(h, policy, s);
  }

  lemma RecoverKeepsInv(h: EventDigest, policy: Policy, s: System)
    requires Inv(h, policy, s) && s.task == Idle
    requires RecoveryTask(h, policy, s.d).Ok?
    ensures Inv(h, policy, s.(task := RecoveryTask(h, policy, s.d).value))
  {
    hide Earned, Verified, DistinctIds, Recorded, InEnvelope, StateOk;
  }

  lemma LoadedStateIsEarned(policy: Policy, d: Durable, now: int)
    requires PolicyOk(policy) && LoadState(policy, d, now).Ok?
    requires d.state.Some? ==> Earned(policy, d.state.value)
    ensures Earned(policy, LoadState(policy, d, now).value)
    ensures d.state.Some? ==> d.state == Some(LoadState(policy, d, now).value)
  {
  }

  lemma TickKeepsInv(h: EventDigest, policy: Policy, s: System, input: Input, id: string)
    requires PolicyOk(policy) && Inv(h, policy, s)
    requires s.task == Idle && s.d.pending == None && id !in s.journaled
    requires TickTask(h, policy, s.d, input, id).Ok?
    ensures Inv(h, policy, s.(task := TickTask(h, policy, s.d, input, id).value))
  {
    hide Earned, Verified, DistinctIds, Recorded, PlanControl, LoadState, PolicyOk, Owned, StateOk, InEnvelope;
    LoadedStateIsEarned(policy, s.d, input.now);
    var st := LoadState(policy, s.d, input.now).value;
    var plan := PlanControl(policy, st, input.(current := s.d.cap)).value;
    PlanKeepsEarned(policy, st, input.(current := s.d.cap));
    LoadedRevision(policy, s, st, input.now);
    EarnedIsOk(policy, st);
    EarnedIsOk(policy, plan.nextState);
    if plan.action != NoAction {
      NextCapIsOwned(policy, st, s.d.cap, plan);
    }
  }

  lemma LoadedRevision(policy: Policy, s: System, st: State, now: int)
    requires LoadState(policy, s.d, now) == Ok(st) && s.d.pending == None && Counted(s.d)
    requires s.d.state.Some? ==> s.d.state == Some(st)
    ensures st.revision == Actions(s.d.audit)
  {
  }

  lemma NextCapIsOwned(policy: Policy, s: State, current: Option<Usd>, plan: Plan)
    requires Sound(policy, s, current, plan) && plan.action != NoAction
    ensures current == Owned(policy, s) && plan.next == Owned(policy, plan.nextState) && plan.next.Some?
    ensures InEnvelope(policy, plan.next.value) && plan.nextState.revision == s.revision + 1
    ensures s.phase != RolledBack && (plan.action == RollbackToBaseline <==> plan.nextState.phase == RolledBack)
  {
  }

  /** Every step of every kind keeps the invariant. */
  lemma StepKeepsInv(h: EventDigest, policy: Policy, s: System, step: Step)
    requires PolicyOk(policy) && Inv(h, policy, s)
    ensures Inv(h, policy, After(h, policy, s, step))
  {
    hide Earned, Verified, DistinctIds, Recorded, PendingOk, TickTask, RecoveryTask, PolicyOk;
    match step
    case Execute => PerformKeepsInv(h, policy, s);
    case Crash =>
    case Edit(_) =>
    case Recover =>
      if s.task == Idle && RecoveryTask(h, policy, s.d).Ok? {
        RecoverKeepsInv(h, policy, s);
      }
    case Tick(input, id) =>
      if s.task == Idle && s.d.pending == None && id !in s.journaled && TickTask(h, policy, s.d, input, id).Ok? {
        TickKeepsInv(h, policy, s, input, id);
      }
  }

  /** Ticks, edits, crashes between any two writes and recoveries, in any order and number. */
  lemma {:induction false} RunKeepsInv(h: EventDigest, policy: Policy, cap: Option<Usd>, steps: seq<Step>)
    requires PolicyOk(policy)
    ensures Inv(h, policy, Run(h, policy, Fresh(cap), steps))
    decreases |steps|
  {
    if steps != [] {
      var init := steps[..|steps| - 1];
      RunKeepsInv(h, policy, cap, init);
      StepKeepsInv(h, policy, Run(h, policy, Fresh(cap), init), steps[|steps| - 1]);
    }
  }

  // ---------------------------------------------------------------- main results

  /** In every run, a transaction that reached the journal has exactly one audit event as soon
      as the journal is clear, and never more than one. */
  lemma EveryTransactionRecordedOnce(h: EventDigest, policy: Policy, cap: Option<Usd>, steps: seq<Step>, t: string)
    requires PolicyOk(policy)
    ensures var s := Run(h, policy, Fresh(cap), steps);
            && Verified(h, None, s.d.audit) && DistinctIds(s.d.audit)
            && (t in s.journaled ==> Recorded(s.d.audit, t) || IsPending(s.d, t))
  {
    RunKeepsInv(h, policy, cap, steps);
  }

  /** In every run, once the journal is clear and nobody has edited the cap since the last event,
      live cap, stored state and audit agree; and the revision counts the recorded actions. */
  lemma FilesAgree(h: EventDigest, policy: Policy, cap: Option<Usd>, steps: seq<Step>)
    requires PolicyOk(policy)
    ensures var s := Run(h, policy, Fresh(cap), steps);
            && (s.d.pending == None && s.task == Idle && !s.edited && s.d.audit != [] ==>
                  Agrees(policy, s.d, s.journaled))
            && (s.d.pending == None && s.d.state.Some? ==>
                  Earned(policy, s.d.state.value) && s.d.state.value.revision == Actions(s.d.audit))
  {
    RunKeepsInv(h, policy, cap, steps);
  }

  /** A step that is no edit changes the cap only when it commits a journaled action. */
  lemma OnlyCommitWrites(h: EventDigest, policy: Policy, s: System, step: Step)
    requires !step.Edit? && After(h, policy, s, step).d.cap != s.d.cap
    ensures step == Execute && s.task.Commit? && After(h, policy, s, step).d.cap == s.task.pending.to
  {
    hide TickTask, RecoveryTask;
  }

  /** In every run, the only step but an edit that changes the cap is the commit of a journaled
      action: it replaces the cap the controller owns, by one inside the envelope. */
  lemma OnlyOwnedCapsAreOverwritten(h: EventDigest, policy: Policy, cap: Option<Usd>, steps: seq<Step>, step: Step)
    requires PolicyOk(policy) && !step.Edit?
    ensures var s := Run(h, policy, Fresh(cap), steps);
            After(h, policy, s, step).d.cap != s.d.cap ==>
              && step == Execute && s.task.Commit?
              && s.d.cap == Owned(policy, s.task.pending.previousState)
              && After(h, policy, s, step).d.cap.Some?
              && InEnvelope(policy, After(h, policy, s, step).d.cap.value)
  {
    hide Run, After, Earned, InEnvelope, PolicyOk, Verified, DistinctIds, Recorded, Owned, NewLink;
    RunKeepsInv(h, policy, cap, steps);
    var s := Run(h, policy, Fresh(cap), steps);
    if After(h, policy, s, step).d.cap != s.d.cap {
      OnlyCommitWrites(h, policy, s, step);
    }
  }

  /** In every run, the cap a controller writes is the baseline, or lies within as many compounded
      steps of it as there are recorded actions, itself included. */
  lemma WrittenCapsCompound(h: EventDigest, policy: Policy, cap: Option<Usd>, steps: seq<Step>, step: Step,
                            baseline: real, relative: real)
    requires PolicyOk(policy) && !step.Edit?
    requires baseline == Value(policy.safeBaseline) && relative == Value(policy.maxRelativeStep)
    ensures var s := Run(h, policy, Fresh(cap), steps);
            var written := After(h, policy, s, step).d.cap;
            written != s.d.cap ==>
              written.Some? && CapCompounds(policy, written.value, Actions(s.d.audit) + 1, baseline, relative)
  {
    hide Run, After, PolicyOk, Inv, CapCompounds, Value;
    RunKeepsInv(h, policy, cap, steps);
    var s := Run(h, policy, Fresh(cap), steps);
    if After(h, policy, s, step).d.cap != s.d.cap {
      OnlyCommitWrites(h, policy, s, step);
      CommittedCapCompounds(h, policy, s, baseline, relative);
    }
  }

  /** The baseline, or within n compounded steps of it. */
  ghost predicate CapCompounds(policy: Policy, a: Usd, n: nat, baseline: real, relative: real) {
    || a == policy.safeBaseline
    || Compounded(baseline, 1.0 - relative, n) <= Value(a) <= Compounded(baseline, 1.0 + relative, n)
  }

  lemma CommittedCapCompounds(h: EventDigest, policy: Policy, s: System, baseline: real, relative: real)
    requires PolicyOk(policy) && Inv(h, policy, s) && s.task.Commit?
    requires baseline == Value(policy.safeBaseline) && relative == Value(policy.maxRelativeStep)
    ensures s.task.pending.to.Some?
    ensures CapCompounds(policy, s.task.pending.to.value, Actions(s.d.audit) + 1, baseline, relative)
  {
    hide Compounded, Value, WithinSteps, PolicyOk, Verified, DistinctIds, Recorded, Actions, NewLink, InEnvelope,
         StateOk;
    var p := s.task.pending;
    assert PendingOk(policy, p) && p.previousState.revision == Actions(s.d.audit);
    if p.nextState.phase == Controlling {
      StepsCompound(policy, p.to.value, Actions(s.d.audit) + 1, baseline, relative);
    }
  }

  // ---------------------------------------------------------------- recovery

  function PerformTimes(s: System, k: nat): System
    decreases k
  {
    if k == 0 then s else PerformTimes(Perform(s), k - 1)
  }

  /** A recovery that nothing interrupts. */
  ghost function RecoverFully(h: EventDigest, policy: Policy, d: Durable): Durable {
    match RecoveryTask(h, policy, d)
    case Ok(Store(st, e, _)) => d.(state := Some(st), audit := d.audit + [e], pending := None)
    case Ok(Clear) => d.(pending := None)
    case _ => d
  }

  lemma AppendedIsRecorded(audit: Audit, e: Link<Event>)
    ensures Recorded(audit + [e], e.body.transactionId)
  {
    assert (audit + [e])[|audit|] == e;
  }

  /** Recovery can be interrupted after any of its writes and run again: the outcome is that of
      one uninterrupted recovery, which the driver's three writes reach; and recovering twice is
      recovering once. Nothing here asks the two caps of the transaction to differ. */
  lemma RecoveryRestarts(h: EventDigest, policy: Policy, s: System, k: nat)
    requires PolicyOk(policy) && Inv(h, policy, s) && s.task == Idle
    ensures var started := After(h, policy, s, Recover);
            var once := RecoverFully(h, policy, s.d);
            && RecoverFully(h, policy, PerformTimes(started, k).d) == once
            && PerformTimes(started, 3).d == once && PerformTimes(started, 3).task == Idle
            && RecoverFully(h, policy, once) == once
  {
    hide Inv, Resolve, AppendEvent, NewLink;
    var started, d := After(h, policy, s, Recover), s.d;
    match RecoveryTask(h, policy, d)
    case Ok(Store(st, e, _)) =>
      StoreRestarts(h, policy, d, st, e);
      FromStore(started, k);
      FromStore(started, 3);
    case Ok(Clear) =>
      FromClear(started, k);
      FromClear(started, 3);
    case Ok(Idle) =>
      FromIdle(started, k);
      FromIdle(started, 3);
    case Err(_) =>
      FromIdle(started, k);
      FromIdle(started, 3);
  }

  lemma StoreRestarts(h: EventDigest, policy: Policy, d: Durable, st: State, e: Link<Event>)
    requires RecoveryTask(h, policy, d) == Ok(Store(st, e, true))
    ensures var d1 := d.(state := Some(st));
            && RecoveryTask(h, policy, d1) == Ok(Store(st, e, true))
            && RecoveryTask(h, policy, d1.(audit := d.audit + [e])) == Ok(Clear)
  {
    hide Verified, Recorded, StateOk;
    AppendKeepsVerified(h, None, d.audit, e.body);
    AppendedIsRecorded(d.audit, e);
  }

  lemma FromIdle(s: System, k: nat)
    requires s.task == Idle
    ensures PerformTimes(s, k) == s
  {
  }

  lemma FromClear(s: System, k: nat)
    requires s.task == Clear
    ensures PerformTimes(s, k).d == if k == 0 then s.d else s.d.(pending := None)
    ensures k > 0 ==> PerformTimes(s, k).task == Idle
  {
    if k > 0 {
      FromIdle(Perform(s), k - 1);
    }
  }

  lemma FromStore(s: System, k: nat)
    requires s.task.Store? && s.task.journaled
    ensures var d1 := s.d.(state := Some(s.task.state));
            var d2 := d1.(audit := s.d.audit + [s.task.event]);
            PerformTimes(s, k).d == (if k == 0 then s.d else if k == 1 then d1
                                     else if k == 2 then d2 else d2.(pending := None))
    ensures k > 2 ==> PerformTimes(s, k).task == Idle
  {
    if k >= 2 {
      FromClear(Perform(Perform(s)), k - 2);
    }
  }

  /** The cap and state of before the tick, and a recorded no-action. */
  ghost predicate Aborted(before: Durable, p: Pending, r: Durable) {
    && r.pending == None && r.cap == p.from && r.state == Some(p.previousState)
    && |r.audit| == |before.audit| + 1
    && r.audit[|before.audit|].body.transactionId == p.transactionId
    && r.audit[|before.audit|].body.action == NoAction
  }

  /** The new cap and state, and the recorded action. */
  ghost predicate Committed(before: Durable, p: Pending, r: Durable) {
    && r.pending == None && r.cap == p.to && r.state == Some(p.nextState)
    && |r.audit| == |before.audit| + 1
    && r.audit[|before.audit|].body.transactionId == p.transactionId
    && r.audit[|before.audit|].body.action == p.action
  }

  /** A mutating tick is atomic: after a crash behind any number of its writes, recovery leaves
      it aborted or committed, and which one depends only on whether the live cap already has
      its new value. */
  lemma CrashIsAtomic(h: EventDigest, policy: Policy, s: System, k: nat)
    requires PolicyOk(policy) && Inv(h, policy, s) && s.task.Journal?
    ensures var p, r := s.task.pending, RecoverFully(h, policy, PerformTimes(s, k).d);
            if k == 0 then r == s.d
            else if k == 1 && p.from != p.to then Aborted(s.d, p, r)
            else Committed(s.d, p, r)
  {
    if k == 1 {
      CrashBeforeCommit(h, policy, s);
    } else if k > 1 {
      CrashAfterCommit(h, policy, s, k);
    }
  }

  lemma CrashBeforeCommit(h: EventDigest, policy: Policy, s: System)
    requires PolicyOk(policy) && Inv(h, policy, s) && s.task.Journal?
    ensures var p, r := s.task.pending, RecoverFully(h, policy, Perform(s).d);
            if p.from != p.to then Aborted(s.d, p, r) else Committed(s.d, p, r)
  {
    hide Earned, Verified, Recorded, StateOk, Owned, InEnvelope;
  }

  lemma CrashAfterCommit(h: EventDigest, policy: Policy, s: System, k: nat)
    requires PolicyOk(policy) && Inv(h, policy, s) && s.task.Journal? && k >= 2
    ensures Committed(s.d, s.task.pending, RecoverFully(h, policy, PerformTimes(s, k).d))
  {
    hide Earned, Verified, Recorded, StateOk, Owned, InEnvelope, RecoveryTask, DistinctIds, Counted, Settled;
    var committed, p := Perform(Perform(s)), s.task.pending;
    var e := CompletesAfterCommit(h, policy, committed.d, p);
    FromStore(committed, k - 2);
    StoreRestarts(h, policy, committed.d, p.nextState, e);
    LoggedOnce(h, policy, committed.d, p, s.task.event);
    NothingToRecover(h, policy, PerformTimes(committed, k - 2).d);
  }

  lemma NothingToRecover(h: EventDigest, policy: Policy, d: Durable)
    ensures d.pending == None ==> RecoveryTask(h, policy, d) == Ok(Idle)
  {
  }

  lemma CompletesAfterCommit(h: EventDigest, policy: Policy, d: Durable, p: Pending) returns (e: Link<Event>)
    requires d.pending == Some(p) && PendingOk(policy, p) && Open(d) && Verified(h, None, d.audit) && d.cap == p.to
    ensures RecoveryTask(h, policy, d) == Ok(Store(p.nextState, e, true))
    ensures e.body.transactionId == p.transactionId && e.body.action == p.action
  {
    hide Earned, Verified, Recorded, StateOk, Owned, InEnvelope;
    e := RecoveryTask(h, policy, d).value.event;
  }

  lemma LoggedOnce(h: EventDigest, policy: Policy, d: Durable, p: Pending, e: Link<Event>)
    requires d.pending == Some(p) && PendingOk(policy, p) && Verified(h, None, d.audit)
    requires e == NewLink(h, None, d.audit, e.body) && e.body.transactionId == p.transactionId
    ensures RecoveryTask(h, policy, d.(state := Some(p.nextState), audit := d.audit + [e])) == Ok(Clear)
  {
    hide Earned, Verified, Recorded, StateOk, Owned, InEnvelope;
    AppendKeepsVerified(h, None, d.audit, e.body);
    AppendedIsRecorded(d.audit, e);
  }

  /** Recovery is refused exactly when the open transaction's two caps are both different from
      the live one: an operator's edit is never overwritten, and never taken for the controller's. */
  lemma RefusedOnlyForForeignCap(h: EventDigest, policy: Policy, s: System)
    requires PolicyOk(policy) && Inv(h, policy, s) && s.d.pending.Some?
    ensures RecoveryTask(h, policy, s.d).Err?
       <==> Open(s.d) && s.d.cap != s.d.pending.value.from && s.d.cap != s.d.pending.value.to
  {
    hide Earned, Verified, Recorded;
  }

  // ---------------------------------------------------------------- rolled back

  /** A rollback has been recorded: nothing the controller is in the middle of will change the cap. */
  ghost predicate Finished(s: System, st: State) {
    && st.phase == RolledBack && s.d.state == Some(st) && !Open(s.d)
    && !s.task.Journal? && !s.task.Commit?
    && (s.task.Store? ==> !s.task.journaled && s.task.state == st)
    && (s.task.Log? ==> !s.task.journaled)
  }

  /** Once its event is recorded, a rollback is final under its policy: no later run of any kind
      moves the stored state, and no step but an edit changes the cap. */
  lemma {:induction false} RolledBackIsTerminal(h: EventDigest, policy: Policy, s: System, st: State, steps: seq<Step>)
    requires PolicyOk(policy) && Inv(h, policy, s) && Finished(s, st)
    ensures var r := Run(h, policy, s, steps);
            && Inv(h, policy, r) && Finished(r, st)
            && (forall step: Step :: !step.Edit? ==> After(h, policy, r, step).d.cap == r.d.cap)
    decreases |steps|
  {
    hide Inv, RecoveryTask, TickTask, Open;
    if steps != [] {
      var init := steps[..|steps| - 1];
      RolledBackIsTerminal(h, policy, s, st, init);
      var mid := Run(h, policy, s, init);
      StepKeepsInv(h, policy, mid, steps[|steps| - 1]);
      StepStaysFinished(h, policy, mid, st, steps[|steps| - 1]);
    }
  }

  lemma StepStaysFinished(h: EventDigest, policy: Policy, s: System, st: State, step: Step)
    requires PolicyOk(policy) && Inv(h, policy, s) && Finished(s, st)
    ensures Finished(After(h, policy, s, step), st)
  {
    hide Earned, Verified, PlanCertified, Rollback, DistinctIds, Counted, Settled, Recorded, PolicyOk;
    EarnedIsOk(policy, st);
    if step.Tick? && TickTask(h, policy, s.d, step.input, step.transactionId).Ok? {
      TickLeavesState(h, policy, s.d, st, step.input, step.transactionId);
    }
    if s.task.Log? {
      AppendKeepsDistinct(s.d.audit, s.task.event);
    }
  }

  lemma TickLeavesState(h: EventDigest, policy: Policy, d: Durable, st: State, input: Input, id: string)
    requires st.phase == RolledBack && d.state == Some(st) && StateOk(policy, st)
    requires TickTask(h, policy, d, input, id).Ok?
    ensures var task := TickTask(h, policy, d, input, id).value;
            task.Store? && task.state == st && !task.journaled
  {
    hide Verified, Recorded;
  }
}
