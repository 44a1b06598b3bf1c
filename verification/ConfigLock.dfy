/** The lock file, over every interleaving of processes. */
module ConfigLock {
  // It protects read-modify-write transactions of any number of processes, each of which may crash between
  // any two effects. Only the atomic effects of the file system are modelled: exclusive create, write,
  // rename, unlink. The owner's name may reach the file although its write is reported to fail, and an
  // unlink may fail and leave the file.

  import opened Money

  /** Where one process is between acquiring the lock and giving it back. */
  datatype Process<C> =
    | Idle
    | Created(token: nat)              // the file exists exclusively, its owner is not written yet
    | Holding(token: nat)
    | Loaded(token: nat, base: C)      // has read the configuration it will change
    | Releasing(token: nat)            // has read its own token in the file

  /** A committed replacement of the configuration, and the one it was computed from if it read one. */
  datatype Commit<C> = Commit(base: Option<C>, next: C)

  /** The lock file, if present, names its owner once that has been written. */
  datatype World<C> = World(
    lockFile: Option<Option<nat>>, config: C, processes: map<nat, Process<C>>, commits: seq<Commit<C>>)

  datatype Step<C> =
    | Acquire(pid: nat, token: nat)
    | WriteOwner(pid: nat)
    | WriteFails(pid: nat, written: bool, unlinked: bool)
    | Load(pid: nat)
    | Persist(pid: nat, next: C)
    | Replace(pid: nat, next: C)
    | ReadOwner(pid: nat)
    | Unlink(pid: nat, unlinked: bool)
    | Crash(pid: nat)

  function At<C>(w: World<C>, pid: nat): Process<C> {
    if pid in w.processes then w.processes[pid] else Idle
  }

  function Become<C>(w: World<C>, pid: nat, p: Process<C>): World<C> {
    w.(processes := w.processes[pid := p])
  }

  predicate HasToken<C>(p: Process<C>) { !p.Idle? }

  /** One effect of one process; an effect its position does not allow changes nothing. */
  function After<C>(w: World<C>, step: Step<C>): World<C> {
    var p := At(w, step.pid);
    match step
    case Acquire(pid, token) =>
      if p.Idle? && w.lockFile == None then Become(w, pid, Created(token)).(lockFile := Some(None)) else w
    case WriteOwner(pid) =>
      if p.Created? then Become(w, pid, Holding(p.token)).(lockFile := Some(Some(p.token))) else w
    case WriteFails(pid, written, unlinked) =>
      if p.Created? then
        var left := if written then Some(p.token) else None;
        Become(w, pid, Idle).(lockFile := if unlinked then None else Some(left))
      else w
    case Load(pid) =>
      if p.Holding? then Become(w, pid, Loaded(p.token, w.config)) else w
    case Persist(pid, next) =>
      if p.Loaded? then
        Become(w, pid, Holding(p.token)).(config := next, commits := w.commits + [Commit(Some(p.base), next)])
      else w
    case Replace(pid, next) =>
      if p.Holding? then
        w.(config := next, commits := w.commits + [Commit(None, next)])
      else w
    case ReadOwner(pid) =>
      if p.Holding? || p.Loaded? then
        Become(w, pid, if w.lockFile == Some(Some(p.token)) then Releasing(p.token) else Idle)
      else w
    case Unlink(pid, unlinked) =>
      if p.Releasing? then Become(w, pid, Idle).(lockFile := if unlinked then None else w.lockFile) else w
    case Crash(pid) => Become(w, pid, Idle)
  }

  function Run<C>(w: World<C>, steps: seq<Step<C>>): World<C>
    decreases |steps|
  {
    if steps == [] then w else After(Run(w, steps[..|steps| - 1]), steps[|steps| - 1])
  }

  function Start<C>(config: C): World<C> { World(None, config, map[], []) }

  // ---------------------------------------------------------------- what every interleaving keeps

  ghost predicate OneHolder<C>(w: World<C>) {
    forall p: nat, q: nat | HasToken(At(w, p)) && HasToken(At(w, q)) :: p == q
  }

  /** A process past its create finds its own generation of the file; a loaded base is current. */
  ghost predicate Owns<C>(w: World<C>, pid: nat) {
    match At(w, pid)
    case Idle => true
    case Created(_) => w.lockFile == Some(None)
    case Holding(t) => w.lockFile == Some(Some(t))
    case Loaded(t, base) => w.lockFile == Some(Some(t)) && base == w.config
    case Releasing(t) => w.lockFile == Some(Some(t))
  }

  /** The configuration just before commit i. */
  function Before<C>(initial: C, commits: seq<Commit<C>>, i: nat): C
    requires i <= |commits|
  {
    if i == 0 then initial else commits[i - 1].next
  }

  ghost predicate NoLostUpdate<C(!new)>(initial: C, commits: seq<Commit<C>>) {
    forall i: nat | i < |commits| && commits[i].base.Some? :: commits[i].base.value == Before(initial, commits, i)
  }

  ghost predicate Inv<C(!new)>(initial: C, w: World<C>) {
    && OneHolder(w)
    && (forall p: nat :: Owns(w, p))
    && w.config == Before(initial, w.commits, |w.commits|)
    && NoLostUpdate(initial, w.commits)
  }

  lemma StepKeepsInv<C(!new)>(initial: C, w: World<C>, step: Step<C>)
    requires Inv(initial, w)
    ensures Inv(initial, After(w, step))
  {
    var r := After(w, step);
    assert Owns(w, step.pid);
    forall p: nat ensures Owns(r, p) {
      assert Owns(w, p);
    }
    forall p: nat, q: nat | HasToken(At(r, p)) && HasToken(At(r, q)) ensures p == q {
      assert Owns(w, p) && Owns(w, q);
    }
  }

  /** In every interleaving at most one process is past its create, and every configuration
      computed from one it read was computed from the one committed immediately before it. */
  lemma {:induction false} RunKeepsInv<C(!new)>(initial: C, steps: seq<Step<C>>)
    ensures Inv(initial, Run(Start(initial), steps))
    decreases |steps|
  {
    if steps != [] {
      RunKeepsInv(initial, steps[..|steps| - 1]);
      StepKeepsInv(initial, Run(Start(initial), steps[..|steps| - 1]), steps[|steps| - 1]);
    }
  }

  /** The ownership check before a save under a held lock never refuses the holder. */
  lemma HolderProvesOwnership<C(!new)>(initial: C, steps: seq<Step<C>>, pid: nat)
    ensures var w := Run(Start(initial), steps);
            At(w, pid).Holding? || At(w, pid).Loaded? ==> w.lockFile == Some(Some(At(w, pid).token))
  {
    RunKeepsInv(initial, steps);
    assert Owns(Run(Start(initial), steps), pid);
  }

  /** Only a lock's own generation removes it: the file vanishes in a step of the process that
      created it, while that is the only process holding anything. */
  lemma OnlyOwnLockIsRemoved<C(!new)>(initial: C, steps: seq<Step<C>>, step: Step<C>)
    ensures var w := Run(Start(initial), steps);
            w.lockFile != None && After(w, step).lockFile == None ==>
              && (step.WriteFails? || step.Unlink?)
              && HasToken(At(w, step.pid))
              && (w.lockFile == Some(None) || w.lockFile == Some(Some(At(w, step.pid).token)))
              && (forall q: nat | q != step.pid :: !HasToken(At(w, q)))
  {
    RunKeepsInv(initial, steps);
    var w := Run(Start(initial), steps);
    assert Owns(w, step.pid);
  }

  /** Fail closed: once the lock file is there and its creator is gone, no step of any process
      ever changes the configuration again. */
  lemma {:induction false} StaleLockFreezes<C(!new)>(w: World<C>, steps: seq<Step<C>>)
    requires w.lockFile != None && forall p: nat :: At(w, p) == Idle
    ensures var r := Run(w, steps);
            && r.lockFile == w.lockFile && r.config == w.config && r.commits == w.commits
            && forall p: nat :: At(r, p) == Idle
    decreases |steps|
  {
    if steps != [] {
      StaleLockFreezes(w, steps[..|steps| - 1]);
      var r := Run(w, steps[..|steps| - 1]);
      var step := steps[|steps| - 1];
      assert At(r, step.pid) == Idle;
      var next := After(r, step);
      forall p: nat ensures At(next, p) == Idle {
        assert At(r, p) == Idle;
      }
    }
  }

  // ---------------------------------------------------------------- an undisturbed transaction

  lemma RunOn<C>(w: World<C>, steps: seq<Step<C>>, step: Step<C>)
    ensures Run(w, steps + [step]) == After(Run(w, steps), step)
  {
    assert (steps + [step])[..|steps|] == steps;
  }

  /** The steps of one transaction: acquire, read, replace, and give back, where the unlink may fail. */
  ghost function Transaction<C>(pid: nat, token: nat, next: C, unlinked: bool): seq<Step<C>> {
    [Acquire(pid, token)] + [WriteOwner(pid)] + [Load(pid)] + [Persist(pid, next)] + [ReadOwner(pid)]
    + [Unlink(pid, unlinked)]
  }

  /** With the lock free and no step of another process between, a transaction commits what it computed from
      what it read, and leaves the lock free, or only its file if the unlink fails. */
  lemma TransactionCompletes<C(!new)>(w: World<C>, pid: nat, token: nat, next: C, unlinked: bool)
    requires w.lockFile == None && At(w, pid) == Idle
    ensures var r := Run(w, Transaction(pid, token, next, unlinked));
            && r.config == next && r.commits == w.commits + [Commit(Some(w.config), next)]
            && r.lockFile == (if unlinked then None else Some(Some(token)))
            && forall q: nat :: At(r, q) == At(w, q)
  {
    var a: seq<Step<C>> := [Acquire(pid, token)];
    var b := a + [WriteOwner(pid)];
    var c := b + [Load(pid)];
    var d := c + [Persist(pid, next)];
    var e := d + [ReadOwner(pid)];
    RunOn(w, [], Acquire(pid, token));
    assert [] + [Acquire(pid, token)] == a;
    RunOn(w, a, WriteOwner(pid));
    RunOn(w, b, Load(pid));
    RunOn(w, c, Persist(pid, next));
    RunOn(w, d, ReadOwner(pid));
    RunOn(w, e, Unlink(pid, unlinked));
  }
}
