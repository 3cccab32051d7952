/** The bulk executor: any number of processes, each a pool of workers, stepping in any order. */
module Bulk {
  import opened Wrappers
  import opened Libvirt
  import opened Lifecycle

  datatype RowError = LockIo | LockHeld | Failure(error: Error)
  type RowResult = Result<VmState, RowError>
  datatype Row = Row(name: string, result: RowResult)

  datatype Worker =
    | Claiming
    | Locking(i: nat)
    | Working(i: nat, pc: Pc)
    | Writing(i: nat, result: RowResult)
    | Exited

  // A lock file is held by a worker, or by a program outside the model.
  datatype Holder = By(w: nat) | Outsider

  // What one process was asked to do: the selected names, in order, and the operation.
  datatype Plan = Plan(names: seq<string>, op: Op)

  // What no step changes: the processes, the process of each worker, the script of each VM, and whether
  // a process can create and open the lock file of a VM.
  datatype World = World(plans: seq<Plan>, owner: seq<nat>, env: string -> Env, lockFile: (nat, string) -> bool)

  // Each process has a counter and result slots; the domains and lock files are shared.
  datatype Sys = Sys(next: seq<nat>, rows: seq<seq<Option<Row>>>, workers: seq<Worker>,
                     hosts: map<string, Host>, locks: map<string, Holder>)

  function Slot(a: Worker): Option<nat> {
    match a
    case Locking(i) => Some(i)
    case Working(i, _) => Some(i)
    case Writing(i, _) => Some(i)
    case _ => None
  }

  predicate WorkerOk(a: Worker, names: seq<string>, hosts: map<string, Host>) {
    && (Slot(a).Some? ==> Slot(a).value < |names| && names[Slot(a).value] in hosts)
    && (a.Working? ==> PcOk(a.pc, hosts[names[a.i]].now))
  }

  predicate WorldOk(world: World) { forall w :: 0 <= w < |world.owner| ==> world.owner[w] < |world.plans| }

  function Names(world: World, w: nat): seq<string>
    requires WorldOk(world) && w < |world.owner|
  {
    world.plans[world.owner[w]].names
  }

  predicate Shaped(s: Sys, world: World) {
    && WorldOk(world) && |s.workers| == |world.owner| && |s.next| == |s.rows| == |world.plans|
    && (forall p :: 0 <= p < |world.plans| ==> |s.rows[p]| == |world.plans[p].names|)
    && (forall p, i :: 0 <= p < |world.plans| && 0 <= i < |world.plans[p].names| ==> world.plans[p].names[i] in s.hosts)
    && (forall w :: 0 <= w < |s.workers| ==> WorkerOk(s.workers[w], Names(world, w), s.hosts))
  }

  predicate Enabled(s: Sys, w: nat) { w < |s.workers| && s.workers[w] != Exited }

  /* ---- the steps ---- */

  // fetch_add, then the bounds check.
  function Claim(s: Sys, w: nat, world: World): Sys
    requires Shaped(s, world) && w < |s.workers|
  {
    var p := world.owner[w];
    s.(next := s.next[p := s.next[p] + 1],
       workers := s.workers[w := if s.next[p] < |Names(world, w)| then Locking(s.next[p]) else Exited])
  }

  // Open the lock file and try to lock it, without waiting.
  function TryLock(s: Sys, w: nat, world: World): Sys
    requires Shaped(s, world) && w < |s.workers| && s.workers[w].Locking?
  {
    var i := s.workers[w].i;
    var name := Names(world, w)[i];
    if !world.lockFile(world.owner[w], name) then s.(workers := s.workers[w := Writing(i, Err(LockIo))])
    else if name in s.locks then s.(workers := s.workers[w := Writing(i, Err(LockHeld))])
    else
      s.(workers := s.workers[w := Working(i, Entry(world.plans[world.owner[w]].op))],
         locks := s.locks[name := By(w)])
  }

  function ToRow(o: Outcome): RowResult {
    match o
    case Ok(state) => Ok(state)
    case Err(e) => Err(Failure(e))
  }

  // One interaction of the operation, or its end, where the lock is dropped.
  function Advance(s: Sys, w: nat, world: World): Sys
    requires Shaped(s, world) && w < |s.workers| && s.workers[w].Working?
  {
    var (i, pc) := (s.workers[w].i, s.workers[w].pc);
    var name := Names(world, w)[i];
    if pc.Finished? then s.(workers := s.workers[w := Writing(i, ToRow(pc.outcome))], locks := s.locks - {name})
    else
      var (pc', h') := Step(pc, s.hosts[name], world.env(name));
      s.(workers := s.workers[w := Working(i, pc')], hosts := s.hosts[name := h'])
  }

  // Fill the slot, under the mutex.
  function Publish(s: Sys, w: nat, world: World): Sys
    requires Shaped(s, world) && w < |s.workers| && s.workers[w].Writing?
  {
    var (p, i) := (world.owner[w], s.workers[w].i);
    s.(workers := s.workers[w := Claiming],
       rows := s.rows[p := s.rows[p][i := Some(Row(Names(world, w)[i], s.workers[w].result))]])
  }

  function Next(s: Sys, w: nat, world: World): Sys
    requires Shaped(s, world) && Enabled(s, w)
  {
    match s.workers[w]
    case Claiming => Claim(s, w, world)
    case Locking(_) => TryLock(s, w, world)
    case Working(_, _) => Advance(s, w, world)
    case Writing(_, _) => Publish(s, w, world)
  }

  /* ---- lock exclusion ---- */

  predicate Operates(s: Sys, world: World, w: nat, name: string)
    requires Shaped(s, world)
  {
    w < |s.workers| && s.workers[w].Working? && Names(world, w)[s.workers[w].i] == name
  }

  // A worker operates on a VM exactly while it holds the VM's lock.
  predicate LocksMatch(s: Sys, world: World)
    requires Shaped(s, world)
  {
    && (forall w: nat :: w < |s.workers| && s.workers[w].Working? ==>
          var name := Names(world, w)[s.workers[w].i]; name in s.locks && s.locks[name] == By(w))
    && (forall name :: name in s.locks && s.locks[name].By? ==> Operates(s, world, s.locks[name].w, name))
  }

  // At most one worker, in any process, operates on a VM.
  lemma LockExclusion(s: Sys, world: World, v: nat, w: nat, name: string)
    requires Shaped(s, world) && LocksMatch(s, world) && Operates(s, world, v, name) && Operates(s, world, w, name)
    ensures v == w
  {
  }

  lemma NextShaped(s: Sys, w: nat, world: World)
    requires Shaped(s, world) && LocksMatch(s, world) && Enabled(s, w)
    ensures Shaped(Next(s, w, world), world)
  {
    var s' := Next(s, w, world);
    assert WorkerOk(s.workers[w], Names(world, w), s.hosts);
    if s.workers[w].Working? && !s.workers[w].pc.Finished? {
      var name := Names(world, w)[s.workers[w].i];
      StepProgress(s.workers[w].pc, s.hosts[name], world.env(name));
    }
    forall v | 0 <= v < |s'.workers|
      ensures WorkerOk(s'.workers[v], Names(world, v), s'.hosts)
    {
      assert WorkerOk(s.workers[v], Names(world, v), s.hosts);
      if v != w && s.workers[v].Working? && s.workers[w].Working? {
        assert s.locks[Names(world, v)[s.workers[v].i]] == By(v);
        assert s.locks[Names(world, w)[s.workers[w].i]] == By(w);
      }
    }
  }

  lemma NextLocksMatch(s: Sys, w: nat, world: World)
    requires Shaped(s, world) && LocksMatch(s, world) && Enabled(s, w) && Shaped(Next(s, w, world), world)
    ensures LocksMatch(Next(s, w, world), world)
  {
    var s' := Next(s, w, world);
    forall v: nat | v < |s'.workers| && s'.workers[v].Working?
      ensures var name := Names(world, v)[s'.workers[v].i]; name in s'.locks && s'.locks[name] == By(v)
    {
      if v != w {
        assert s'.workers[v] == s.workers[v];
      }
    }
    forall name | name in s'.locks && s'.locks[name].By?
      ensures Operates(s', world, s'.locks[name].w, name)
    {
      if name in s.locks {
        assert s'.locks[name] == s.locks[name] ==> Operates(s, world, s.locks[name].w, name);
      }
    }
  }

  // Only the holder of a VM's lock acts on the VM. A worker that does not get the lock calls nothing,
  // takes no lock, and reports an error.
  lemma OnlyTheHolderActs(s: Sys, w: nat, world: World, name: string)
    requires Shaped(s, world) && LocksMatch(s, world) && Enabled(s, w) && name in s.hosts
    ensures var s' := Next(s, w, world);
            && name in s'.hosts
            && (s'.hosts[name] != s.hosts[name] ==> name in s.locks && s.locks[name] == By(w))
            && (s.workers[w].Locking? && Names(world, w)[s.workers[w].i] in s.locks ==>
                  s'.hosts == s.hosts && s'.locks == s.locks
                  && s'.workers[w].Writing? && s'.workers[w].result.Err?)
  {
  }

  /* ---- pool safety ---- */

  // The workers of process p, and how many of them have left.
  function Size(owner: seq<nat>, p: nat): nat {
    if owner == [] then 0 else Size(owner[..|owner| - 1], p) + if owner[|owner| - 1] == p then 1 else 0
  }

  function Gone(ws: seq<Worker>, owner: seq<nat>, p: nat): nat
    requires |ws| == |owner|
  {
    if ws == [] then 0
    else Gone(ws[..|ws| - 1], owner[..|ws| - 1], p)
         + if ws[|ws| - 1] == Exited && owner[|ws| - 1] == p then 1 else 0
  }

  lemma {:induction false} GoneUpdate(ws: seq<Worker>, owner: seq<nat>, p: nat, w: nat, x: Worker)
    requires |ws| == |owner| && w < |ws| && ws[w] != Exited
    ensures Gone(ws[w := x], owner, p) == Gone(ws, owner, p) + if x == Exited && owner[w] == p then 1 else 0
  {
    if w == |ws| - 1 {
      assert ws[w := x][..|ws| - 1] == ws[..|ws| - 1];
    } else {
      GoneUpdate(ws[..|ws| - 1], owner[..|ws| - 1], p, w, x);
      assert ws[w := x][..|ws| - 1] == ws[..|ws| - 1][w := x];
    }
  }

  lemma {:induction false} GoneBound(ws: seq<Worker>, owner: seq<nat>, p: nat)
    requires |ws| == |owner|
    ensures Gone(ws, owner, p) <= Size(owner, p)
    ensures (forall w :: 0 <= w < |ws| ==> ws[w] == Exited) ==> Gone(ws, owner, p) == Size(owner, p)
    ensures (exists w :: 0 <= w < |ws| && owner[w] == p && ws[w] != Exited) ==> Gone(ws, owner, p) < Size(owner, p)
  {
    if ws != [] {
      GoneBound(ws[..|ws| - 1], owner[..|ws| - 1], p);
    }
  }

  // The counter passes the end once for every worker that has left.
  predicate CounterOk(s: Sys, world: World, p: nat)
    requires Shaped(s, world) && p < |world.plans|
  {
    var n := |world.plans[p].names|;
    Gone(s.workers, world.owner, p) == if s.next[p] > n then s.next[p] - n else 0
  }

  predicate Holds(s: Sys, world: World, w: nat, p: nat, i: nat)
    requires Shaped(s, world)
  {
    w < |s.workers| && world.owner[w] == p && Slot(s.workers[w]) == Some(i)
  }

  // A claimed slot is held by one worker until its row is written; a row carries the name of its slot.
  ghost predicate SlotOk(s: Sys, world: World, p: nat, i: nat)
    requires Shaped(s, world) && p < |world.plans| && i < |world.plans[p].names|
  {
    && (forall w :: Holds(s, world, w, p, i) ==> i < s.next[p] && s.rows[p][i].None?)
    && (forall v, w :: Holds(s, world, v, p, i) && Holds(s, world, w, p, i) ==> v == w)
    && (i < s.next[p] && s.rows[p][i].None? ==> exists w :: Holds(s, world, w, p, i))
    && (i >= s.next[p] ==> s.rows[p][i].None?)
    && (s.rows[p][i].Some? ==> s.rows[p][i].value.name == world.plans[p].names[i])
  }

  ghost function HolderOf(s: Sys, world: World, p: nat, i: nat): (w: nat)
    requires Shaped(s, world) && exists w :: Holds(s, world, w, p, i)
    ensures Holds(s, world, w, p, i)
  {
    var w :| Holds(s, world, w, p, i);
    w
  }

  ghost predicate PoolOk(s: Sys, world: World, p: nat)
    requires Shaped(s, world) && p < |world.plans|
  {
    CounterOk(s, world, p) && forall i :: 0 <= i < |world.plans[p].names| ==> SlotOk(s, world, p, i)
  }

  ghost predicate Inv(s: Sys, world: World) {
    Shaped(s, world) && LocksMatch(s, world) && forall p :: 0 <= p < |world.plans| ==> PoolOk(s, world, p)
  }

  lemma NextCounter(s: Sys, w: nat, world: World, p: nat)
    requires Inv(s, world) && Enabled(s, w) && Shaped(Next(s, w, world), world) && p < |world.plans|
    ensures CounterOk(Next(s, w, world), world, p)
  {
    var s' := Next(s, w, world);
    assert PoolOk(s, world, p);
    GoneUpdate(s.workers, world.owner, p, w, s'.workers[w]);
    assert s'.workers == s.workers[w := s'.workers[w]];
  }

  // Who holds a slot after a step.
  lemma HoldsAfter(s: Sys, w: nat, world: World, v: nat, p: nat, i: nat)
    requires Inv(s, world) && Enabled(s, w) && Shaped(Next(s, w, world), world)
    requires p < |world.plans| && i < |world.plans[p].names|
    ensures Holds(Next(s, w, world), world, v, p, i) <==>
            if v != w then Holds(s, world, v, p, i)
            else if s.workers[w].Claiming? then world.owner[w] == p && i == s.next[p]
            else Holds(s, world, w, p, i) && !s.workers[w].Writing?
  {
  }

  lemma NextSlot(s: Sys, w: nat, world: World, p: nat, i: nat)
    requires Inv(s, world) && Enabled(s, w) && Shaped(Next(s, w, world), world)
    requires p < |world.plans| && i < |world.plans[p].names|
    ensures SlotOk(Next(s, w, world), world, p, i)
  {
    var s' := Next(s, w, world);
    assert PoolOk(s, world, p) && SlotOk(s, world, p, i);
    forall v
      ensures Holds(s', world, v, p, i) <==>
              if v != w then Holds(s, world, v, p, i)
              else if s.workers[w].Claiming? then world.owner[w] == p && i == s.next[p]
              else Holds(s, world, w, p, i) && !s.workers[w].Writing?
    {
      HoldsAfter(s, w, world, v, p, i);
    }
    NextSlotData(s, w, world, p, i);
    if i < s'.next[p] && s'.rows[p][i].None? {
      var v: nat := if i < s.next[p] then HolderOf(s, world, p, i) else w;
      assert Holds(s', world, v, p, i);
    }
  }

  // How the counter and the row of a slot change.
  lemma NextSlotData(s: Sys, w: nat, world: World, p: nat, i: nat)
    requires Inv(s, world) && Enabled(s, w) && Shaped(Next(s, w, world), world)
    requires p < |world.plans| && i < |world.plans[p].names|
    ensures var s' := Next(s, w, world);
            && s'.next[p] == s.next[p] + (if s.workers[w].Claiming? && world.owner[w] == p then 1 else 0)
            && s'.rows[p][i] == if s.workers[w].Writing? && Holds(s, world, w, p, i)
                                then Some(Row(world.plans[p].names[i], s.workers[w].result)) else s.rows[p][i]
  {
  }

  lemma NextInv(s: Sys, w: nat, world: World)
    requires Inv(s, world) && Enabled(s, w)
    ensures Inv(Next(s, w, world), world)
  {
    NextShaped(s, w, world);
    NextLocksMatch(s, w, world);
    forall p | 0 <= p < |world.plans|
      ensures PoolOk(Next(s, w, world), world, p)
    {
      NextCounter(s, w, world, p);
      forall i | 0 <= i < |world.plans[p].names|
        ensures SlotOk(Next(s, w, world), world, p, i)
      {
        NextSlot(s, w, world, p, i);
      }
    }
  }
}
