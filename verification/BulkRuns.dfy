/** Runs of the bulk executor: every run ends, and its result is that of the sequential map. */
module BulkRuns {
  import opened Wrappers
  import opened Libvirt
  import opened Lifecycle
  import opened LifecycleProperties
  import opened Bulk

  /* ---- every interleaving ---- */

  // The state after the workers of a schedule stepped in turn; a worker that has left cannot step.
  function Run(s0: Sys, schedule: seq<nat>, world: World): Option<Sys> {
    if schedule == [] then Some(s0)
    else
      var w := schedule[|schedule| - 1];
      match Run(s0, schedule[..|schedule| - 1], world)
      case None => None
      case Some(t) => if Shaped(t, world) && Enabled(t, w) then Some(Next(t, w, world)) else None
  }

  lemma {:induction false} RunsKeepInv(s0: Sys, schedule: seq<nat>, world: World)
    requires Inv(s0, world) && Run(s0, schedule, world).Some?
    ensures Inv(Run(s0, schedule, world).value, world)
  {
    if schedule != [] {
      RunsKeepInv(s0, schedule[..|schedule| - 1], world);
      NextInv(Run(s0, schedule[..|schedule| - 1], world).value, schedule[|schedule| - 1], world);
    }
  }

  // In every reachable state of any number of processes: an index is held by at most one worker of its
  // process and only before its row is written, the counter is at most the number of VMs plus the number
  // of workers, no more VMs of a process are in flight than it has workers, and no two workers
  // of any processes operate on the same VM.
  lemma ReachableIsSafe(s0: Sys, schedule: seq<nat>, world: World)
    requires Inv(s0, world) && Run(s0, schedule, world).Some?
    ensures var s := Run(s0, schedule, world).value;
            && Shaped(s, world)
            && (forall p :: 0 <= p < |world.plans| ==> s.next[p] <= |world.plans[p].names| + Size(world.owner, p))
            && (forall v: nat, w: nat, p, i: nat :: 0 <= p < |world.plans| && Holds(s, world, v, p, i) ==>
                  && i < |s.rows[p]| && s.rows[p][i].None?
                  && (Holds(s, world, w, p, i) ==> v == w))
            && (forall v: nat, w: nat, name :: Operates(s, world, v, name) && Operates(s, world, w, name) ==> v == w)
            && (forall p :: 0 <= p < |world.plans| ==> |InFlight(s, world, p)| <= Size(world.owner, p))
  {
    RunsKeepInv(s0, schedule, world);
    var s := Run(s0, schedule, world).value;
    forall p | 0 <= p < |world.plans|
      ensures s.next[p] <= |world.plans[p].names| + Size(world.owner, p)
    {
      assert PoolOk(s, world, p);
      GoneBound(s.workers, world.owner, p);
    }
    forall v: nat, w: nat, p, i: nat | 0 <= p < |world.plans| && Holds(s, world, v, p, i)
      ensures i < |s.rows[p]| && s.rows[p][i].None? && (Holds(s, world, w, p, i) ==> v == w)
    {
      assert WorkerOk(s.workers[v], Names(world, v), s.hosts);
      assert PoolOk(s, world, p) && SlotOk(s, world, p, i);
    }
    forall v: nat, w: nat, name | Operates(s, world, v, name) && Operates(s, world, w, name)
      ensures v == w
    {
      LockExclusion(s, world, v, w, name);
    }
    forall p | 0 <= p < |world.plans|
      ensures |InFlight(s, world, p)| <= Size(world.owner, p)
    {
      HeldBound(s.workers, world.owner, p);
      HeldSlots(s.workers, world.owner, p);
      assert InFlight(s, world, p) <= HeldBy(s.workers, world.owner, p);
      SubsetSize(InFlight(s, world, p), HeldBy(s.workers, world.owner, p));
    }
  }

  ghost predicate Claimed(s: Sys, world: World, p: nat, i: nat)
    requires Shaped(s, world)
  {
    exists w :: Holds(s, world, w, p, i)
  }

  // The VMs of process p that one of its workers has claimed and not yet reported.
  ghost function InFlight(s: Sys, world: World, p: nat): set<nat>
    requires Shaped(s, world) && p < |world.plans|
  {
    set i: nat | i < |world.plans[p].names| && Claimed(s, world, p, i)
  }

  ghost function HeldBy(ws: seq<Worker>, owner: seq<nat>, p: nat): set<nat>
    requires |ws| == |owner|
  {
    if ws == [] then {}
    else
      var last := ws[|ws| - 1];
      HeldBy(ws[..|ws| - 1], owner[..|ws| - 1], p)
      + if owner[|ws| - 1] == p && Slot(last).Some? then {Slot(last).value} else {}
  }

  lemma {:induction false} HeldBound(ws: seq<Worker>, owner: seq<nat>, p: nat)
    requires |ws| == |owner|
    ensures |HeldBy(ws, owner, p)| <= Size(owner, p)
  {
    if ws != [] {
      HeldBound(ws[..|ws| - 1], owner[..|ws| - 1], p);
    }
  }

  lemma {:induction false} HeldSlots(ws: seq<Worker>, owner: seq<nat>, p: nat)
    requires |ws| == |owner|
    ensures forall w :: 0 <= w < |ws| && owner[w] == p && Slot(ws[w]).Some? ==> Slot(ws[w]).value in HeldBy(ws, owner, p)
  {
    if ws != [] {
      HeldSlots(ws[..|ws| - 1], owner[..|ws| - 1], p);
    }
  }

  lemma {:induction false} SubsetSize(a: set<nat>, b: set<nat>)
    requires a <= b
    ensures |a| <= |b|
  {
    if a != {} {
      var x :| x in a;
      SubsetSize(a - {x}, b - {x});
    }
  }

  /* ---- termination ---- */

  // Steps a worker has left before it claims again.
  function Local(s: Sys, world: World, w: nat): nat
    requires Shaped(s, world) && w < |s.workers|
  {
    assert WorkerOk(s.workers[w], Names(world, w), s.hosts);
    match s.workers[w]
    case Locking(_) => Measure(Entry(world.plans[world.owner[w]].op), 0) + 3
    case Working(i, pc) => Measure(pc, s.hosts[Names(world, w)[i]].now) + 2
    case Writing(_, _) => 1
    case _ => 0
  }

  function Total(s: Sys, world: World, k: nat): nat
    requires Shaped(s, world) && k <= |s.workers|
  {
    if k == 0 then 0 else Total(s, world, k - 1) + Local(s, world, k - 1)
  }

  // How often the counter of process p can still be taken.
  function ClaimsLeft(s: Sys, world: World, p: nat): nat
    requires Shaped(s, world) && p < |world.plans|
  {
    var limit := |world.plans[p].names| + Size(world.owner, p);
    if s.next[p] < limit then limit - s.next[p] else 0
  }

  function Budget(s: Sys, world: World, k: nat): nat
    requires Shaped(s, world) && k <= |world.plans|
  {
    if k == 0 then 0 else Budget(s, world, k - 1) + ClaimsLeft(s, world, k - 1)
  }

  lemma NextLocal(s: Sys, w: nat, world: World, v: nat)
    requires Inv(s, world) && Enabled(s, w) && v < |s.workers| && !s.workers[w].Claiming?
    requires Shaped(Next(s, w, world), world)
    ensures v != w ==> Local(Next(s, w, world), world, v) == Local(s, world, v)
    ensures Local(Next(s, w, world), world, w) < Local(s, world, w)
  {
    assert WorkerOk(s.workers[w], Names(world, w), s.hosts);
    assert WorkerOk(s.workers[v], Names(world, v), s.hosts);
    if s.workers[w].Working? && !s.workers[w].pc.Finished? {
      var name := Names(world, w)[s.workers[w].i];
      StepProgress(s.workers[w].pc, s.hosts[name], world.env(name));
      if v != w && s.workers[v].Working? {
        assert s.locks[Names(world, v)[s.workers[v].i]] == By(v);
        assert s.locks[name] == By(w);
      }
    }
  }

  lemma {:induction false} NextTotal(s: Sys, w: nat, world: World, k: nat)
    requires Inv(s, world) && Enabled(s, w) && k <= |s.workers| && !s.workers[w].Claiming?
    requires Shaped(Next(s, w, world), world)
    ensures w < k ==> Total(Next(s, w, world), world, k) < Total(s, world, k)
    ensures w >= k ==> Total(Next(s, w, world), world, k) == Total(s, world, k)
  {
    if k > 0 {
      NextTotal(s, w, world, k - 1);
      NextLocal(s, w, world, k - 1);
    }
  }

  lemma NextClaims(s: Sys, w: nat, world: World, p: nat)
    requires Inv(s, world) && Enabled(s, w) && p < |world.plans| && Shaped(Next(s, w, world), world)
    ensures if s.workers[w].Claiming? && world.owner[w] == p
            then ClaimsLeft(Next(s, w, world), world, p) < ClaimsLeft(s, world, p)
            else ClaimsLeft(Next(s, w, world), world, p) == ClaimsLeft(s, world, p)
  {
    assert PoolOk(s, world, p);
    GoneBound(s.workers, world.owner, p);
  }

  lemma {:induction false} NextBudget(s: Sys, w: nat, world: World, k: nat)
    requires Inv(s, world) && Enabled(s, w) && k <= |world.plans| && Shaped(Next(s, w, world), world)
    ensures if s.workers[w].Claiming? && world.owner[w] < k
            then Budget(Next(s, w, world), world, k) < Budget(s, world, k)
            else Budget(Next(s, w, world), world, k) == Budget(s, world, k)
  {
    if k > 0 {
      NextBudget(s, w, world, k - 1);
      NextClaims(s, w, world, k - 1);
    }
  }

  // Every step brings every process nearer to its end, whoever steps.
  lemma NextDecreases(s: Sys, w: nat, world: World)
    requires Inv(s, world) && Enabled(s, w)
    ensures var s' := Next(s, w, world);
            && Shaped(s', world)
            && (Budget(s', world, |world.plans|) < Budget(s, world, |world.plans|)
                || (Budget(s', world, |world.plans|) == Budget(s, world, |world.plans|)
                    && Total(s', world, |s'.workers|) < Total(s, world, |s.workers|)))
  {
    NextShaped(s, w, world);
    NextBudget(s, w, world, |world.plans|);
    if !s.workers[w].Claiming? {
      NextTotal(s, w, world, |s.workers|);
    }
  }

  predicate Over(s: Sys) { forall w :: 0 <= w < |s.workers| ==> s.workers[w] == Exited }

  // When all workers have left, the counter is the number of VMs plus the number of workers, every slot
  // holds a row with the name of its VM, and the only locks left are those of others.
  lemma EndState(s: Sys, world: World, p: nat)
    requires Inv(s, world) && Over(s) && p < |world.plans| && Size(world.owner, p) > 0
    ensures s.next[p] == |world.plans[p].names| + Size(world.owner, p)
    ensures forall i :: 0 <= i < |s.rows[p]| ==>
              s.rows[p][i].Some? && s.rows[p][i].value.name == world.plans[p].names[i]
    ensures forall name :: name in s.locks ==> s.locks[name] == Outsider
  {
    assert PoolOk(s, world, p);
    GoneBound(s.workers, world.owner, p);
    forall i | 0 <= i < |s.rows[p]|
      ensures s.rows[p][i].Some? && s.rows[p][i].value.name == world.plans[p].names[i]
    {
      assert SlotOk(s, world, p, i);
    }
  }

  /* ---- one VM ---- */

  function RunOne(op: Op, usable: bool, locked: bool, h: Host, env: Env): (RowResult, Host) {
    if !usable then (Err(LockIo), h)
    else if locked then (Err(LockHeld), h)
    else
      var (o, h') := Complete(Entry(op), h, env);
      (ToRow(o), h')
  }

  // A row carries the very state, or the very error, an operation ended with.
  ghost predicate Reports(result: RowResult, o: Outcome) {
    && (forall s :: result == Ok(s) <==> o == Ok(s))
    && (forall e :: result == Err(Failure(e)) <==> o == Err(e))
  }

  lemma RowReports(o: Outcome)
    ensures Reports(ToRow(o), o)
  {
  }

  // What a row says of the domain the operation leaves behind is so. A start with a readiness wait ends in
  // a connection attempt, which says nothing about the domain.
  predicate RowTrue(op: Op, result: RowResult, d: Domain) {
    && (result == Ok(Stopped) ==> d.raw == ShutOff && d.save.None?)
    && (result == Ok(Hibernated) ==> d.raw == ShutOff && d.save == Some(d.gen))
    && (result == Ok(Up) && (op == Status || op == StartVm(0)) ==> d.raw in {Running, Idle, Blocked})
  }

  lemma ReportIsTrue(op: Op, h: Host, env: Env, result: RowResult)
    requires Coherent(h.dom) && Reports(result, Complete(Entry(op), h, env).0)
    ensures RowTrue(op, result, Complete(Entry(op), h, env).1.dom)
    ensures Coherent(Complete(Entry(op), h, env).1.dom)
  {
    OutcomeIsTrue(Entry(op), h, env);
    if result == Ok(Up) && (op == Status || op == StartVm(0)) {
      RunningIsTrue(op, h, env);
    }
  }

  // The row and the domain of one VM, found at h and left at h', in terms of the operation itself.
  ghost predicate RowSays(result: RowResult, h': Host, op: Op, usable: bool, locked: bool, h: Host, env: Env) {
    var (o, end) := Complete(Entry(op), h, env);
    && (result == Err(LockIo) <==> !usable)
    && (result == Err(LockHeld) <==> usable && locked)
    && (usable && !locked ==> Reports(result, o))
    && h' == (if usable && !locked then end else h)
    && (Coherent(h.dom) ==> RowTrue(op, result, h'.dom))
  }

  lemma RowIsTold(op: Op, usable: bool, locked: bool, h: Host, env: Env)
    ensures var (r, h') := RunOne(op, usable, locked, h, env); RowSays(r, h', op, usable, locked, h, env)
  {
    RowReports(Complete(Entry(op), h, env).0);
    if usable && !locked && Coherent(h.dom) {
      ReportIsTrue(op, h, env, RunOne(op, usable, locked, h, env).0);
    }
  }

  // Waiting for readiness happens after, and only after, a successful start.
  lemma StartThenWait(wait: nat, h: Host, env: Env)
    ensures var (o, h') := Complete(Entry(StartVm(0)), h, env);
            && (o.Ok? ==> o == Ok(Up))
            && Complete(Entry(StartVm(wait)), h, env)
               == if o.Err? || wait == 0 then (o, h') else Complete(AdbDeadline(wait), h', env)
  {
    AskingIsStateOf(DecideStart(0), h, env);
    AskingIsStateOf(DecideStart(wait), h, env);
    var (s, h') := StateOf(h, env);
    if s.Ok? && s.value != Up {
      OrderEnds(Start, Up, h', env);
      var (pc, h'') := Step(Order(Start, Up, wait), h', env);
      assert Complete(Order(Start, Up, wait), h', env) == Complete(pc, h'', env);
    }
  }

  // A start that reports Running after a readiness wait had the domain running before the wait.
  lemma RunningBeforeWait(wait: nat, h: Host, env: Env)
    ensures Complete(Entry(StartVm(wait)), h, env).0 == Ok(Up) ==>
              IsUp(Complete(Entry(StartVm(0)), h, env).1.dom.raw)
  {
    if Complete(Entry(StartVm(wait)), h, env).0 == Ok(Up) {
      StartThenWait(wait, h, env);
      RunningIsTrue(StartVm(0), h, env);
    }
  }

  class LockFile {
    var held: bool
  }

  // The operation under the lock. However it ends, a lock that was taken is free again.
  method RunOneVm(session: Session, op: Op, usable: bool, lock: LockFile) returns (r: RowResult)
    modifies session, lock
    ensures (r, session.host) == RunOne(op, usable, old(lock.held), old(session.host), session.env)
    ensures RowSays(r, session.host, op, usable, old(lock.held), old(session.host), session.env)
    ensures lock.held == old(lock.held)
  {
    RowIsTold(op, usable, lock.held, session.host, session.env);
    if !usable {
      return Err(LockIo);
    }
    if lock.held {
      return Err(LockHeld);
    }
    lock.held := true;
    var o := Perform(session, op);
    lock.held := false;
    r := ToRow(o);
  }

  method Perform(session: Session, op: Op) returns (o: Outcome)
    modifies session
    ensures (o, session.host) == Complete(Entry(op), old(session.host), session.env)
  {
    match op {
      case Status =>
        AskingIsStateOf(Report, session.host, session.env);
        o := session.GetState();
      case StartVm(wait) =>
        StartThenWait(wait, session.host, session.env);
        o := session.StartDomain();
        if o.Ok? && wait != 0 {
          o := session.WaitForAdb(wait);
        }
      case StopVm(timeout, force) => o := session.StopDomain(timeout, force);
      case Hibernate => o := session.HibernateDomain();
    }
  }
}
