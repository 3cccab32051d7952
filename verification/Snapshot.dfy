/** Stopped-state snapshots, and the coherence of RAM and disk over runs that mix all operations. */
module Snapshot {
  import opened Wrappers
  import opened Libvirt
  import opened Lifecycle
  import opened LifecycleProperties
  import Config

  datatype SnapshotError =
    | LifecycleError(error: Error)
    | InvalidName(name: string)
    | NotStopped(state: VmState)

  datatype SnapOp = Create | Revert | Delete

  function CommandOf(op: SnapOp, name: string): Cmd {
    match op
    case Create => SnapshotCreate(name)
    case Revert => SnapshotRevert(name)
    case Delete => SnapshotDelete(name)
  }

  predicate ValidSnapshotName(name: string) { Config.ValidName(name, 63, true) }

  // What one snapshot operation does: the name is checked before any call, the state before the command.
  function Perform(op: SnapOp, name: string, h: Host, env: Env): (Result<(), SnapshotError>, Host) {
    if !ValidSnapshotName(name) then (Err(InvalidName(name)), h)
    else
      var (s, h') := StateOf(h, env);
      if s.Err? then (Err(LifecycleError(s.error)), h')
      else if s.value != Stopped then (Err(NotStopped(s.value)), h')
      else
        var (a, h'') := Issue(h', env, CommandOf(op, name));
        (if a == Failed then Err(LifecycleError(VirshFailed(CommandOf(op, name)))) else Ok(()), h'')
  }

  method RequireStopped(session: Session) returns (r: Result<(), SnapshotError>)
    modifies session
    ensures var (s, h') := StateOf(old(session.host), session.env);
            && session.host == h'
            && r == if s.Err? then Err(LifecycleError(s.error))
                    else if s.value != Stopped then Err(NotStopped(s.value)) else Ok(())
  {
    var state := session.GetState();
    if state.Err? {
      return Err(LifecycleError(state.error));
    }
    r := if state.value != Stopped then Err(NotStopped(state.value)) else Ok(());
  }

  method Operate(session: Session, op: SnapOp, name: string) returns (r: Result<(), SnapshotError>)
    modifies session
    ensures (r, session.host) == Perform(op, name, old(session.host), session.env)
  {
    if !ValidSnapshotName(name) {
      return Err(InvalidName(name));
    }
    r := RequireStopped(session);
    if r.Err? {
      return;
    }
    var a := session.Run(CommandOf(op, name));
    r := if a == Failed then Err(LifecycleError(VirshFailed(CommandOf(op, name)))) else Ok(());
  }

  // A domain found Stopped has no saved RAM and stays off until the next command.
  lemma StoppedIsSafe(h: Host, env: Env)
    requires Coherent(h.dom)
    ensures var (s, h') := StateOf(h, env);
            && Coherent(h'.dom) && h'.dom.snapshots == h.dom.snapshots
            && (s == Ok(Stopped) ==> h'.dom.raw == ShutOff && h'.dom.save.None?)
  {
    var (a, h1) := Issue(h, env, DomState);
    IssueKeepsCoherent(h, env, DomState);
    ActsKeepSnapshots(h.dom, env(h.pos).guest);
    IssueKeepsCoherent(h1, env, DomInfo);
    ActsKeepSnapshots(h1.dom, env(h1.pos).guest);
    ActsKeepCoherent(h1.dom, env(h1.pos).guest);
  }

  lemma {:induction false} ActsKeepSnapshots(d: Domain, acts: seq<GuestAct>)
    ensures Acts(d, acts).snapshots == d.snapshots
    decreases |acts|
  {
    if acts != [] {
      ActsKeepSnapshots(Act(d, acts[0]), acts[1..]);
    }
  }

  // What the stopped-state check is for: without it, a revert followed by a start mixes RAM and disk
  // exactly when there is saved RAM of another disk content than the snapshot's.
  lemma UnguardedRevertMixesIff(d: Domain, name: string)
    requires Coherent(d) && d.definition.Some? && name in d.snapshots
    ensures Execute(Execute(d, SnapshotRevert(name)).1, Start).1.mixed <==>
            d.save.Some? && d.save.value != d.snapshots[name]
  {
    if d.save.Some? && d.save.value != d.snapshots[name] {
      RevertUnderSaveMixes(d, name);
    }
  }

  // A snapshot operation keeps RAM and disk together, touches no other snapshot, and when it succeeds
  // the domain is off without saved RAM; a revert then stands on the disk the snapshot was made of.
  lemma PerformIsSafe(op: SnapOp, name: string, h: Host, env: Env)
    requires Coherent(h.dom)
    ensures var (r, h') := Perform(op, name, h, env);
            && Coherent(h'.dom)
            && (r == Err(InvalidName(name)) <==> !Config.IsIdentifier(name)) && (!Config.IsIdentifier(name) ==> h' == h)
            && (forall n :: n != name ==> (n in h'.dom.snapshots <==> n in h.dom.snapshots)
                                          && (n in h.dom.snapshots ==> h'.dom.snapshots[n] == h.dom.snapshots[n]))
            && (op != Delete && name in h.dom.snapshots ==> h'.dom.snapshots == h.dom.snapshots)
            && (r.Ok? ==>
                  && h'.dom.raw == ShutOff && h'.dom.save.None?
                  && (op == Create ==> name !in h.dom.snapshots && name in h'.dom.snapshots
                                       && h'.dom.snapshots[name] == h'.dom.gen)
                  && (op == Revert ==> name in h.dom.snapshots && h'.dom.gen == h.dom.snapshots[name])
                  && (op == Delete ==> name in h.dom.snapshots && name !in h'.dom.snapshots))
  {
    StoppedIsSafe(h, env);
    var (s, h1) := StateOf(h, env);
    if ValidSnapshotName(name) && s == Ok(Stopped) {
      IssueKeepsCoherent(h1, env, CommandOf(op, name));
      ActsKeepCoherent(h1.dom, env(h1.pos).guest);
    }
  }

  // Why a snapshot operation fails: the name, the state it reports, a query that failed, or its command.
  lemma SnapshotErrors(op: SnapOp, name: string, h: Host, env: Env)
    ensures var (r, s) := (Perform(op, name, h, env).0, StateOf(h, env).0);
            var h1 := StateOf(h, env).1;
            && (r == Err(InvalidName(name)) <==> !Config.IsIdentifier(name))
            && (forall state :: r == Err(NotStopped(state)) <==>
                  Config.IsIdentifier(name) && s == Ok(state) && state in {Up, Hibernated})
            && (Config.IsIdentifier(name) && s.Err? ==> r == Err(LifecycleError(s.error)))
            && (Config.IsIdentifier(name) && s == Ok(Stopped) ==>
                  && (r.Ok? || r == Err(LifecycleError(VirshFailed(CommandOf(op, name)))))
                  && (r.Ok? <==> env(h1.pos).ok && Accepts(op, name, Tick(h1, env).dom)))
  {
  }

  // When libvirt carries out a snapshot command on a domain.
  predicate Accepts(op: SnapOp, name: string, d: Domain) {
    d.definition.Some? && (op == Create <==> name !in d.snapshots)
  }

  /* ---- runs ---- */

  datatype Action = Life(op: Op) | Snap(snapOp: SnapOp, name: string) | Guest

  function RunAction(a: Action, h: Host, env: Env): Host {
    match a
    case Life(op) => Complete(Entry(op), h, env).1
    case Snap(op, name) => Perform(op, name, h, env).1
    case Guest => Tick(h, env)
  }

  function RunAll(actions: seq<Action>, h: Host, env: Env): Host {
    if actions == [] then h
    else RunAction(actions[|actions| - 1], RunAll(actions[..|actions| - 1], h, env), env)
  }

  // In every run of lifecycle and snapshot operations, guest steps and failing commands, a managed-save
  // image exists only while the domain is off and belongs to the current disk, and no start ever
  // restored RAM onto another disk.
  lemma {:induction false} RunsKeepCoherent(actions: seq<Action>, h: Host, env: Env)
    requires Coherent(h.dom)
    ensures Coherent(RunAll(actions, h, env).dom)
  {
    if actions != [] {
      var before := RunAll(actions[..|actions| - 1], h, env);
      RunsKeepCoherent(actions[..|actions| - 1], h, env);
      match actions[|actions| - 1]
      case Life(op) => OutcomeIsTrue(Entry(op), before, env);
      case Snap(op, name) => PerformIsSafe(op, name, before, env);
      case Guest => ActsKeepCoherent(before.dom, env(before.pos).guest);
    }
  }

  lemma {:induction false} CompleteKeepsSnapshots(pc: Pc, h: Host, env: Env)
    requires PcOk(pc, h.now) && Truthful(pc, h.dom) && Coherent(h.dom)
    ensures Complete(pc, h, env).1.dom.snapshots == h.dom.snapshots
    decreases Measure(pc, h.now)
  {
    if !pc.Finished? {
      ActsKeepSnapshots(h.dom, env(h.pos).guest);
      StepTruthful(pc, h, env);
      StepProgress(pc, h, env);
      var (pc', h') := Step(pc, h, env);
      CompleteKeepsSnapshots(pc', h', env);
    }
  }

  // A snapshot, once made, stands for the same disk until it is deleted, whatever happens in between.
  lemma {:induction false} SnapshotsAreFixed(actions: seq<Action>, h: Host, env: Env, name: string)
    requires Coherent(h.dom) && name in h.dom.snapshots
    requires forall a :: a in actions ==> a != Snap(Delete, name)
    ensures var h' := RunAll(actions, h, env);
            name in h'.dom.snapshots && h'.dom.snapshots[name] == h.dom.snapshots[name]
  {
    if actions != [] {
      var front, last := actions[..|actions| - 1], actions[|actions| - 1];
      var before := RunAll(front, h, env);
      assert forall a :: a in front ==> a in actions;
      assert last in actions;
      SnapshotsAreFixed(front, h, env, name);
      RunsKeepCoherent(front, h, env);
      match last
      case Life(op) => CompleteKeepsSnapshots(Entry(op), before, env);
      case Snap(op, n) => PerformIsSafe(op, n, before, env);
      case Guest => ActsKeepSnapshots(before.dom, env(before.pos).guest);
    }
  }

  // Create and revert are inverse over runs: a successful revert stands on the disk of the creation.
  lemma RevertUndoes(name: string, h: Host, env: Env, between: seq<Action>)
    requires Coherent(h.dom) && Perform(Create, name, h, env).0.Ok?
    requires forall a :: a in between ==> a != Snap(Delete, name)
    ensures var made := Perform(Create, name, h, env).1;
            var (r, h') := Perform(Revert, name, RunAll(between, made, env), env);
            r.Ok? ==> h'.dom.gen == made.dom.gen && h'.dom.raw == ShutOff && h'.dom.save.None?
  {
    PerformIsSafe(Create, name, h, env);
    var made := Perform(Create, name, h, env).1;
    SnapshotsAreFixed(between, made, env, name);
    RunsKeepCoherent(between, made, env);
    PerformIsSafe(Revert, name, RunAll(between, made, env), env);
  }

  /* ---- without a lock ---- */

  // Snapshot commands take no lock: other operations can fall between the state check and the command.
  function Interleaved(op: SnapOp, name: string, h: Host, env: Env, between: seq<Action>):
    (Result<(), SnapshotError>, Host)
  {
    if !ValidSnapshotName(name) then (Err(InvalidName(name)), h)
    else
      var (s, h1) := StateOf(h, env);
      if s.Err? then (Err(LifecycleError(s.error)), h1)
      else if s.value != Stopped then (Err(NotStopped(s.value)), h1)
      else
        var h2 := RunAll(between, h1, env);
        var (a, h3) := Issue(h2, env, CommandOf(op, name));
        (if a == Failed then Err(LifecycleError(VirshFailed(CommandOf(op, name)))) else Ok(()), h3)
  }

  lemma AloneIsPerform(op: SnapOp, name: string, h: Host, env: Env)
    ensures Interleaved(op, name, h, env, []) == Perform(op, name, h, env)
  {
  }

  // What decides is the domain the command meets: only a revert that is carried out can separate RAM and
  // disk, and it does exactly when there is saved RAM of another content than the snapshot's.
  lemma CommandKeepsCoherentIff(op: SnapOp, name: string, h: Host, env: Env)
    requires Coherent(h.dom)
    ensures var d := Tick(h, env).dom;
            Coherent(Issue(h, env, CommandOf(op, name)).1.dom) <==>
            (op == Revert && env(h.pos).ok && d.definition.Some? && name in d.snapshots && d.save.Some? ==>
               d.save.value == d.snapshots[name])
  {
    ActsKeepCoherent(h.dom, env(h.pos).guest);
    ExecuteKeepsCoherentIff(Tick(h, env).dom, CommandOf(op, name));
  }

  predicate Hibernates(actions: seq<Action>) { Life(Hibernate) in actions }

  // Without a hibernation no RAM is saved.
  predicate SavesNothing(pc: Pc) {
    match pc
    case AskState(after) => !after.DecideHibernate?
    case AskSave(after) => !after.DecideHibernate?
    case Order(cmd, _, _) => cmd in {Start, ManagedSaveRemove, Destroy}
    case _ => true
  }

  lemma {:induction false} ActsSaveNothing(d: Domain, acts: seq<GuestAct>)
    ensures Acts(d, acts).save == d.save
    decreases |acts|
  {
    if acts != [] {
      ActsSaveNothing(Act(d, acts[0]), acts[1..]);
    }
  }

  lemma {:induction false} CompleteSavesNothing(pc: Pc, h: Host, env: Env)
    requires PcOk(pc, h.now) && SavesNothing(pc) && h.dom.save.None?
    ensures Complete(pc, h, env).1.dom.save.None?
    decreases Measure(pc, h.now)
  {
    if !pc.Finished? {
      ActsSaveNothing(h.dom, env(h.pos).guest);
      StepProgress(pc, h, env);
      var (pc', h') := Step(pc, h, env);
      CompleteSavesNothing(pc', h', env);
    }
  }

  lemma PerformSavesNothing(op: SnapOp, name: string, h: Host, env: Env)
    requires h.dom.save.None?
    ensures Perform(op, name, h, env).1.dom.save.None?
  {
    ActsSaveNothing(h.dom, env(h.pos).guest);
    var h1 := Issue(h, env, DomState).1;
    ActsSaveNothing(h1.dom, env(h1.pos).guest);
    var h2 := StateOf(h, env).1;
    ActsSaveNothing(h2.dom, env(h2.pos).guest);
  }

  lemma {:induction false} RunSavesNothing(actions: seq<Action>, h: Host, env: Env)
    requires h.dom.save.None? && !Hibernates(actions)
    ensures RunAll(actions, h, env).dom.save.None?
  {
    if actions != [] {
      var front, last := actions[..|actions| - 1], actions[|actions| - 1];
      assert last in actions && forall a :: a in front ==> a in actions;
      RunSavesNothing(front, h, env);
      var before := RunAll(front, h, env);
      match last
      case Life(op) => CompleteSavesNothing(Entry(op), before, env);
      case Snap(op, name) => PerformSavesNothing(op, name, before, env);
      case Guest => ActsSaveNothing(before.dom, env(before.pos).guest);
    }
  }

  lemma InterleavedIsSafe(op: SnapOp, name: string, h: Host, env: Env, between: seq<Action>)
    requires Coherent(h.dom) && !Hibernates(between)
    ensures Coherent(Interleaved(op, name, h, env, between).1.dom)
  {
    StoppedIsSafe(h, env);
    var (s, h1) := StateOf(h, env);
    if ValidSnapshotName(name) && s == Ok(Stopped) {
      RunsKeepCoherent(between, h1, env);
      RunSavesNothing(between, h1, env);
      var h2 := RunAll(between, h1, env);
      ActsSaveNothing(h2.dom, env(h2.pos).guest);
      CommandKeepsCoherentIff(op, name, h2, env);
    }
  }

  /* ---- the race that loses ---- */

  // Everything succeeds, and the guest writes its disk once, just before it is hibernated.
  function RaceEnv(): Env { n => Turn(if n == 5 then [WriteDisk] else [], 0, true) }

  predicate Quiet(t: Turn) { t.guest == [] && t.ok }

  predicate Off(d: Domain) { d.definition.Some? && d.raw == ShutOff && d.save.None? }

  lemma FoundStopped(h: Host, env: Env)
    requires Off(h.dom) && Quiet(env(h.pos)) && Quiet(env(h.pos + 1))
    ensures var (s, h') := StateOf(h, env); s == Ok(Stopped) && h'.dom == h.dom && h'.pos == h.pos + 2
  {
  }

  lemma StartsUp(h: Host, env: Env)
    requires Off(h.dom) && Quiet(env(h.pos)) && Quiet(env(h.pos + 1)) && Quiet(env(h.pos + 2))
    ensures var h' := RunAction(Life(StartVm(0)), h, env);
            h'.dom == h.dom.(raw := Running) && h'.pos == h.pos + 3
  {
    AskingIsStateOf(DecideStart(0), h, env);
    FoundStopped(h, env);
    OrderEnds(Start, Up, StateOf(h, env).1, env);
  }

  lemma HibernatesAfterWrite(h: Host, env: Env)
    requires h.dom.definition.Some? && h.dom.raw == Running && env(h.pos).guest == [WriteDisk] && env(h.pos).ok
    requires Quiet(env(h.pos + 1))
    ensures var h' := RunAction(Life(Hibernate), h, env);
            && h'.pos == h.pos + 2
            && h'.dom == h.dom.(raw := ShutOff, gen := h.dom.unused, unused := h.dom.unused + 1, save := Some(h.dom.unused))
  {
    AskingIsStateOf(DecideHibernate, h, env);
    assert [WriteDisk][1..] == [];
    assert Acts(h.dom, [WriteDisk]) == Act(h.dom, WriteDisk);
    OrderEnds(ManagedSave, Hibernated, StateOf(h, env).1, env);
  }

  lemma RaceLoses(d: Domain, name: string)
    requires Coherent(d) && Off(d) && name in d.snapshots && ValidSnapshotName(name)
    ensures var h := Host(d, 0, 0, []);
            var between := [Life(StartVm(0)), Life(Hibernate)];
            !Coherent(Interleaved(Revert, name, h, RaceEnv(), between).1.dom)
  {
    var (h, env) := (Host(d, 0, 0, []), RaceEnv());
    var (a, b) := (Life(StartVm(0)), Life(Hibernate));
    FoundStopped(h, env);
    var h1 := StateOf(h, env).1;
    StartsUp(h1, env);
    HibernatesAfterWrite(RunAction(a, h1, env), env);
    RunTwo(a, b, h1, env);
    var h3 := RunAll([a, b], h1, env);
    assert h3.dom.save == Some(d.unused) && h3.dom.snapshots == d.snapshots && Quiet(env(h3.pos));
    RunsKeepCoherent([a, b], h1, env);
    CommandKeepsCoherentIff(Revert, name, h3, env);
  }

  lemma RunTwo(a: Action, b: Action, h: Host, env: Env)
    ensures RunAll([a, b], h, env) == RunAction(b, RunAction(a, h, env), env)
  {
    assert [a, b][..1] == [a] && [a][..0] == [];
    assert RunAll([a], h, env) == RunAction(a, RunAll([], h, env), env);
  }

  // Reverting a stopped VM without a lock keeps its RAM and disk together, whatever falls between check
  // and command, exactly when no hibernation can.
  lemma UnlockedRevertIsSafeIff(d: Domain, name: string, mayHibernate: bool)
    requires Coherent(d) && Off(d) && name in d.snapshots && ValidSnapshotName(name)
    ensures (forall h: Host, env: Env, between ::
               h.dom == d && (Hibernates(between) ==> mayHibernate) ==>
                 Coherent(Interleaved(Revert, name, h, env, between).1.dom))
            <==> !mayHibernate
  {
    if mayHibernate {
      RaceLoses(d, name);
      var between := [Life(StartVm(0)), Life(Hibernate)];
      assert !Coherent(Interleaved(Revert, name, Host(d, 0, 0, []), RaceEnv(), between).1.dom);
    } else {
      forall h: Host, env: Env, between | h.dom == d && !Hibernates(between)
        ensures Coherent(Interleaved(Revert, name, h, env, between).1.dom)
      {
        InterleavedIsSafe(Revert, name, h, env, between);
      }
    }
  }
}
