/** The rows and the domains a bulk run leaves behind are those of handling the VMs one after another. */
module BulkRefinement {
  import opened Wrappers
  import opened Libvirt
  import opened Lifecycle
  import opened Bulk
  import opened BulkRuns
  import Config
  import Inventory

  // No VM is selected twice, by any process.
  ghost predicate Disjoint(world: World) {
    forall p, i, q, j | 0 <= p < |world.plans| && 0 <= q < |world.plans|
      && 0 <= i < |world.plans[p].names| && 0 <= j < |world.plans[q].names|
      :: world.plans[p].names[i] == world.plans[q].names[j] ==> p == q && i == j
  }

  // Where a run starts: the domains and lock files as they are found.
  datatype Outset = Outset(hosts: map<string, Host>, locks: map<string, Holder>)

  // What handling one VM alone would give.
  function Solo(p: nat, op: Op, name: string, world: World, st: Outset): (RowResult, Host)
    requires name in st.hosts
  {
    RunOne(op, world.lockFile(p, name), name in st.locks, st.hosts[name], world.env(name))
  }

  // What a row about a VM says, and how it leaves its domain, in terms of the operation itself.
  ghost predicate SoloSays(result: RowResult, h': Host, p: nat, op: Op, name: string, world: World, st: Outset)
    requires name in st.hosts
  {
    RowSays(result, h', op, world.lockFile(p, name), name in st.locks, st.hosts[name], world.env(name))
  }

  lemma SoloIsTold(p: nat, op: Op, name: string, world: World, st: Outset)
    requires name in st.hosts
    ensures var (r, h') := Solo(p, op, name, world, st); SoloSays(r, h', p, op, name, world, st)
  {
    RowIsTold(op, world.lockFile(p, name), name in st.locks, st.hosts[name], world.env(name));
  }

  function Alone(world: World, st: Outset, p: nat, i: nat): (RowResult, Host)
    requires p < |world.plans| && i < |world.plans[p].names| && world.plans[p].names[i] in st.hosts
  {
    Solo(p, world.plans[p].op, world.plans[p].names[i], world, st)
  }

  predicate Selected(world: World, n: string) {
    exists p, i :: 0 <= p < |world.plans| && 0 <= i < |world.plans[p].names| && world.plans[p].names[i] == n
  }

  ghost predicate Grounded(s: Sys, world: World, st: Outset)
    requires Shaped(s, world)
  {
    && s.hosts.Keys == st.hosts.Keys
    && (forall n :: n in s.hosts && !Selected(world, n) ==> s.hosts[n] == st.hosts[n])
    && (forall n :: n in st.locks <==> n in s.locks && s.locks[n] == Outsider)
    && (forall n :: n in st.locks ==> st.locks[n] == Outsider)
  }

  // A VM not yet claimed is as it was found; a VM with a row is as handling it alone leaves it.
  predicate SlotTrue(s: Sys, world: World, st: Outset, p: nat, i: nat)
    requires Shaped(s, world) && s.hosts.Keys == st.hosts.Keys && p < |world.plans| && i < |world.plans[p].names|
  {
    var name := world.plans[p].names[i];
    && (i >= s.next[p] ==> s.hosts[name] == st.hosts[name])
    && (s.rows[p][i].Some? ==> (s.rows[p][i].value.result, s.hosts[name]) == Alone(world, st, p, i))
  }

  // What a worker still has to do to its VM, now at h, leads to where handling the VM alone leads.
  predicate LeadsThere(a: Worker, p: nat, name: string, h: Host, world: World, st: Outset)
    requires p < |world.plans| && name in st.hosts && (a.Working? ==> PcOk(a.pc, h.now))
  {
    match a
    case Locking(_) => h == st.hosts[name]
    case Working(_, pc) =>
      && world.lockFile(p, name) && name !in st.locks
      && Complete(pc, h, world.env(name)) == Complete(Entry(world.plans[p].op), st.hosts[name], world.env(name))
    case Writing(_, result) => (result, h) == Solo(p, world.plans[p].op, name, world, st)
    case _ => true
  }

  predicate WorkerTrue(s: Sys, world: World, st: Outset, w: nat)
    requires Shaped(s, world) && s.hosts.Keys == st.hosts.Keys && w < |s.workers|
  {
    assert WorkerOk(s.workers[w], Names(world, w), s.hosts);
    Slot(s.workers[w]).Some? ==>
      var name := Names(world, w)[Slot(s.workers[w]).value];
      LeadsThere(s.workers[w], world.owner[w], name, s.hosts[name], world, st)
  }

  ghost predicate Faithful(s: Sys, world: World, st: Outset) {
    && Inv(s, world) && Grounded(s, world, st)
    && (forall p, i :: 0 <= p < |world.plans| && 0 <= i < |world.plans[p].names| ==> SlotTrue(s, world, st, p, i))
    && (forall w :: 0 <= w < |s.workers| ==> WorkerTrue(s, world, st, w))
  }

  // A step leaves the domain of every slot alone but the one its worker holds.
  lemma OtherSlots(s: Sys, w: nat, world: World, p: nat, i: nat)
    requires Inv(s, world) && Disjoint(world) && Enabled(s, w) && p < |world.plans| && i < |world.plans[p].names|
    requires Shaped(Next(s, w, world), world) && !Holds(s, world, w, p, i)
    ensures Next(s, w, world).hosts[world.plans[p].names[i]] == s.hosts[world.plans[p].names[i]]
  {
    assert WorkerOk(s.workers[w], Names(world, w), s.hosts);
  }

  lemma NextGrounded(s: Sys, w: nat, world: World, st: Outset)
    requires Faithful(s, world, st) && Enabled(s, w) && Shaped(Next(s, w, world), world)
    ensures Grounded(Next(s, w, world), world, st)
  {
    var s' := Next(s, w, world);
    HostsGrounded(s, w, world);
    OutsideLocks(s, w, world);
  }

  lemma HostsGrounded(s: Sys, w: nat, world: World)
    requires Shaped(s, world) && Enabled(s, w)
    ensures var s' := Next(s, w, world);
            && s'.hosts.Keys == s.hosts.Keys
            && forall n :: n in s.hosts && !Selected(world, n) ==> s'.hosts[n] == s.hosts[n]
  {
    assert WorkerOk(s.workers[w], Names(world, w), s.hosts);
    assert Next(s, w, world).hosts.Keys == s.hosts.Keys;
  }

  // Workers take and free only locks that no outsider holds.
  lemma OutsideLocks(s: Sys, w: nat, world: World)
    requires Shaped(s, world) && LocksMatch(s, world) && Enabled(s, w)
    ensures var s' := Next(s, w, world);
            forall n :: n in s'.locks && s'.locks[n] == Outsider <==> n in s.locks && s.locks[n] == Outsider
  {
    if s.workers[w].Working? {
      assert s.locks[Names(world, w)[s.workers[w].i]] == By(w);
    }
  }

  lemma NextSlotTrue(s: Sys, w: nat, world: World, st: Outset, p: nat, i: nat)
    requires Faithful(s, world, st) && Disjoint(world) && Enabled(s, w) && Shaped(Next(s, w, world), world)
    requires Next(s, w, world).hosts.Keys == st.hosts.Keys && p < |world.plans| && i < |world.plans[p].names|
    ensures SlotTrue(Next(s, w, world), world, st, p, i)
  {
    assert SlotTrue(s, world, st, p, i) && WorkerTrue(s, world, st, w) && PoolOk(s, world, p) && SlotOk(s, world, p, i);
    NextSlotData(s, w, world, p, i);
    if !Holds(s, world, w, p, i) {
      OtherSlots(s, w, world, p, i);
    }
  }

  lemma SameNameSameWorker(s: Sys, world: World, v: nat, w: nat, j: nat, i: nat)
    requires Inv(s, world) && Disjoint(world) && v < |s.workers| && w < |s.workers|
    requires Slot(s.workers[v]) == Some(j) && Slot(s.workers[w]) == Some(i)
    requires j < |Names(world, v)| && i < |Names(world, w)| && Names(world, v)[j] == Names(world, w)[i]
    ensures v == w
  {
    var p := world.owner[w];
    assert world.owner[v] == p && j == i;
    assert PoolOk(s, world, p) && SlotOk(s, world, p, i);
    assert Holds(s, world, v, p, i) && Holds(s, world, w, p, i);
  }

  // A lock found taken was taken before the run: no other worker can want it.
  lemma TakenBefore(s: Sys, w: nat, world: World, st: Outset)
    requires Faithful(s, world, st) && Disjoint(world) && w < |s.workers| && s.workers[w].Locking?
    requires WorkerOk(s.workers[w], Names(world, w), s.hosts)
    ensures var name := Names(world, w)[s.workers[w].i]; name in s.locks <==> name in st.locks
  {
    var i := s.workers[w].i;
    var name := Names(world, w)[i];
    if name in s.locks && s.locks[name].By? {
      var v := s.locks[name].w;
      assert Operates(s, world, v, name);
      assert WorkerOk(s.workers[v], Names(world, v), s.hosts);
      SameNameSameWorker(s, world, v, w, s.workers[v].i, i);
    }
  }

  lemma OwnWorkerTrue(s: Sys, w: nat, world: World, st: Outset)
    requires Faithful(s, world, st) && Disjoint(world) && Enabled(s, w) && Shaped(Next(s, w, world), world)
    requires Next(s, w, world).hosts.Keys == st.hosts.Keys
    ensures WorkerTrue(Next(s, w, world), world, st, w)
  {
    var p := world.owner[w];
    assert WorkerTrue(s, world, st, w) && WorkerOk(s.workers[w], Names(world, w), s.hosts) && PoolOk(s, world, p);
    match s.workers[w]
    case Claiming =>
      if s.next[p] < |Names(world, w)| { assert SlotTrue(s, world, st, p, s.next[p]); }
    case Locking(i) => TakenBefore(s, w, world, st);
    case Working(i, pc) =>
      var name := Names(world, w)[i];
      if !pc.Finished? {
        StepProgress(pc, s.hosts[name], world.env(name));
      }
    case Writing(_, _) =>
  }

  lemma NextWorkerTrue(s: Sys, w: nat, world: World, st: Outset, v: nat)
    requires Faithful(s, world, st) && Disjoint(world) && Enabled(s, w) && Shaped(Next(s, w, world), world)
    requires Next(s, w, world).hosts.Keys == st.hosts.Keys && v < |s.workers|
    ensures WorkerTrue(Next(s, w, world), world, st, v)
  {
    if v == w {
      OwnWorkerTrue(s, w, world, st);
    } else {
      OtherWorkers(s, w, world, v);
      UntouchedHost(s, w, world, v);
      assert WorkerTrue(s, world, st, v);
      WorkerTrueFrame(s, Next(s, w, world), world, st, v);
    }
  }

  lemma UntouchedHost(s: Sys, w: nat, world: World, v: nat)
    requires Inv(s, world) && Disjoint(world) && Enabled(s, w)
    requires v < |s.workers| && v != w && Shaped(Next(s, w, world), world)
    ensures WorkerOk(s.workers[v], Names(world, v), s.hosts)
    ensures Slot(s.workers[v]).Some? ==>
              var name := Names(world, v)[Slot(s.workers[v]).value];
              name in Next(s, w, world).hosts && Next(s, w, world).hosts[name] == s.hosts[name]
  {
    assert WorkerOk(s.workers[v], Names(world, v), s.hosts);
    if Slot(s.workers[v]).Some? {
      var p, i := world.owner[v], Slot(s.workers[v]).value;
      assert PoolOk(s, world, p) && SlotOk(s, world, p, i) && Holds(s, world, v, p, i);
      OtherSlots(s, w, world, p, i);
    }
  }

  lemma WorkerTrueFrame(s: Sys, s': Sys, world: World, st: Outset, v: nat)
    requires Shaped(s, world) && Shaped(s', world) && s.hosts.Keys == s'.hosts.Keys == st.hosts.Keys && v < |s.workers|
    requires s'.workers[v] == s.workers[v] && WorkerTrue(s, world, st, v)
    requires WorkerOk(s.workers[v], Names(world, v), s.hosts)
    requires Slot(s.workers[v]).Some? ==>
               s'.hosts[Names(world, v)[Slot(s.workers[v]).value]] == s.hosts[Names(world, v)[Slot(s.workers[v]).value]]
    ensures WorkerTrue(s', world, st, v)
  {
  }

  lemma OtherWorkers(s: Sys, w: nat, world: World, v: nat)
    requires Shaped(s, world) && Enabled(s, w) && v < |s.workers| && v != w
    ensures v < |Next(s, w, world).workers| && Next(s, w, world).workers[v] == s.workers[v]
  {
  }

  lemma NextFaithful(s: Sys, w: nat, world: World, st: Outset)
    requires Faithful(s, world, st) && Disjoint(world) && Enabled(s, w)
    ensures Faithful(Next(s, w, world), world, st)
  {
    NextInv(s, w, world);
    NextGrounded(s, w, world, st);
    var s' := Next(s, w, world);
    forall p, i | 0 <= p < |world.plans| && 0 <= i < |world.plans[p].names|
      ensures SlotTrue(s', world, st, p, i)
    {
      NextSlotTrue(s, w, world, st, p, i);
    }
    forall v | 0 <= v < |s'.workers|
      ensures WorkerTrue(s', world, st, v)
    {
      NextWorkerTrue(s, w, world, st, v);
    }
  }

  lemma {:induction false} RunsAreFaithful(s0: Sys, schedule: seq<nat>, world: World, st: Outset)
    requires Faithful(s0, world, st) && Disjoint(world) && Run(s0, schedule, world).Some?
    ensures Faithful(Run(s0, schedule, world).value, world, st)
  {
    if schedule != [] {
      RunsAreFaithful(s0, schedule[..|schedule| - 1], world, st);
      NextFaithful(Run(s0, schedule[..|schedule| - 1], world).value, schedule[|schedule| - 1], world, st);
    }
  }

  lemma OverIsAlone(s: Sys, world: World, st: Outset)
    requires Faithful(s, world, st) && Over(s) && forall p :: 0 <= p < |world.plans| ==> Size(world.owner, p) > 0
    ensures s.locks == st.locks
    ensures forall p, i :: 0 <= p < |world.plans| && 0 <= i < |world.plans[p].names| ==>
              && s.rows[p][i] == Some(Row(world.plans[p].names[i], Alone(world, st, p, i).0))
              && s.hosts[world.plans[p].names[i]] == Alone(world, st, p, i).1
  {
    forall name | name in s.locks
      ensures s.locks[name] == Outsider
    {
      assert s.locks[name].By? ==> Operates(s, world, s.locks[name].w, name);
    }
    assert s.locks == st.locks;
    forall p, i | 0 <= p < |world.plans| && 0 <= i < |world.plans[p].names|
      ensures s.rows[p][i] == Some(Row(world.plans[p].names[i], Alone(world, st, p, i).0))
      ensures s.hosts[world.plans[p].names[i]] == Alone(world, st, p, i).1
    {
      EndState(s, world, p);
      assert s.rows[p][i].Some?;
      assert SlotTrue(s, world, st, p, i);
    }
  }

  /* ---- one process ---- */

  // The sequential reference: the VMs in inventory order, one after another.
  function Sequential(names: seq<string>, op: Op, world: World, st: Outset): (seq<Row>, map<string, Host>)
    requires forall n :: n in names ==> n in st.hosts
    ensures forall n :: n in names ==> n in Sequential(names, op, world, st).1
    ensures Sequential(names, op, world, st).1.Keys == st.hosts.Keys
  {
    if names == [] then ([], st.hosts)
    else
      var name := names[|names| - 1];
      var (rows, hosts) := Sequential(names[..|names| - 1], op, world, st);
      var (r, h) := RunOne(op, world.lockFile(0, name), name in st.locks, hosts[name], world.env(name));
      (rows + [Row(name, r)], hosts[name := h])
  }

  ghost predicate Distinct(names: seq<string>) {
    forall i, j :: 0 <= i < j < |names| ==> names[i] != names[j]
  }

  lemma {:induction false} SequentialIsSolo(names: seq<string>, op: Op, world: World, st: Outset)
    requires (forall n :: n in names ==> n in st.hosts) && Distinct(names)
    ensures var (rows, hosts) := Sequential(names, op, world, st);
            && |rows| == |names|
            && (forall i :: 0 <= i < |names| ==>
                  rows[i] == Row(names[i], Solo(0, op, names[i], world, st).0)
                  && hosts[names[i]] == Solo(0, op, names[i], world, st).1)
            && (forall n :: n in hosts && n !in names ==> hosts[n] == st.hosts[n])
  {
    if names != [] {
      var front := names[..|names| - 1];
      SequentialIsSolo(front, op, world, st);
      var last := names[|names| - 1];
      assert names == front + [last];
      assert last !in front;
      assert Sequential(front, op, world, st).1[last] == st.hosts[last];
    }
  }

  // Handling the VMs one after another gives each the row and the domain of handling it alone.
  lemma SequentialIsAlone(names: seq<string>, op: Op, world: World, st: Outset)
    requires (forall n :: n in names ==> n in st.hosts) && Distinct(names)
    ensures var (rows, hosts) := Sequential(names, op, world, st);
            && |rows| == |names|
            && (forall i :: 0 <= i < |names| ==>
                  rows[i].name == names[i]
                  && SoloSays(rows[i].result, hosts[names[i]], 0, op, names[i], world, st))
            && (forall n :: n in hosts && n !in names ==> hosts[n] == st.hosts[n])
  {
    SequentialIsSolo(names, op, world, st);
    forall i | 0 <= i < |names|
      ensures var (rows, hosts) := Sequential(names, op, world, st);
              SoloSays(rows[i].result, hosts[names[i]], 0, op, names[i], world, st)
    {
      SoloIsTold(0, op, names[i], world, st);
    }
  }

  function Single(names: seq<string>, op: Op, jobs: nat, env: string -> Env, lockFile: string -> bool): World {
    World([Plan(names, op)], seq(if jobs < |names| then jobs else |names|, _ => 0), env, (_, name) => lockFile(name))
  }

  function Begin(world: World, st: Outset): Sys {
    Sys(seq(|world.plans|, _ => 0),
        seq(|world.plans|, p => if 0 <= p < |world.plans| then seq(|world.plans[p].names|, _ => None) else []),
        seq(|world.owner|, _ => Claiming), st.hosts, st.locks)
  }

  // Every selected VM has a domain record, and no worker of the run holds a lock yet.
  predicate Covers(world: World, st: Outset) {
    && (forall p, i :: 0 <= p < |world.plans| && 0 <= i < |world.plans[p].names| ==> world.plans[p].names[i] in st.hosts)
    && (forall n :: n in st.locks ==> st.locks[n] == Outsider)
  }

  lemma BeginFaithful(world: World, st: Outset)
    requires WorldOk(world) && Covers(world, st)
    ensures Faithful(Begin(world, st), world, st)
  {
    var s := Begin(world, st);
    assert Shaped(s, world);
    forall p | 0 <= p < |world.plans|
      ensures PoolOk(s, world, p)
    {
      NoneGone(s.workers, world.owner, p);
    }
  }

  // Whatever the number of processes and workers and whatever the interleaving, as long as no VM is
  // selected twice: every row and every domain is what handling that VM alone gives, other domains are
  // as they were, and the lock files too.
  lemma EveryRunEndsTheSame(world: World, st: Outset, schedule: seq<nat>)
    requires WorldOk(world) && Disjoint(world) && Covers(world, st)
    requires forall p :: 0 <= p < |world.plans| ==> Size(world.owner, p) > 0
    requires Run(Begin(world, st), schedule, world).Some? && Over(Run(Begin(world, st), schedule, world).value)
    ensures var s := Run(Begin(world, st), schedule, world).value;
            && s.locks == st.locks && s.hosts.Keys == st.hosts.Keys && |s.rows| == |world.plans|
            && (forall n :: n in st.hosts && !Selected(world, n) ==> s.hosts[n] == st.hosts[n])
            && (forall p, i :: 0 <= p < |world.plans| && 0 <= i < |world.plans[p].names| ==>
                  && |s.rows[p]| == |world.plans[p].names| && world.plans[p].names[i] in st.hosts
                  && s.rows[p][i] == Some(Row(world.plans[p].names[i], Alone(world, st, p, i).0))
                  && s.hosts[world.plans[p].names[i]] == Alone(world, st, p, i).1
                  && SoloSays(s.rows[p][i].value.result, s.hosts[world.plans[p].names[i]], p, world.plans[p].op,
                              world.plans[p].names[i], world, st))
  {
    BeginFaithful(world, st);
    RunsAreFaithful(Begin(world, st), schedule, world, st);
    OverIsAlone(Run(Begin(world, st), schedule, world).value, world, st);
    forall p, i | 0 <= p < |world.plans| && 0 <= i < |world.plans[p].names|
      ensures SoloSays(Alone(world, st, p, i).0, Alone(world, st, p, i).1, p, world.plans[p].op,
                       world.plans[p].names[i], world, st)
    {
      SoloIsTold(p, world.plans[p].op, world.plans[p].names[i], world, st);
    }
  }

  lemma {:induction false} NoneGone(ws: seq<Worker>, owner: seq<nat>, p: nat)
    requires |ws| == |owner| && forall w :: 0 <= w < |ws| ==> ws[w] == Claiming
    ensures Gone(ws, owner, p) == 0
  {
    if ws != [] {
      NoneGone(ws[..|ws| - 1], owner[..|owner| - 1], p);
    }
  }

  lemma {:induction false} AllOwned(n: nat)
    ensures Size(seq(n, _ => 0), 0) == n
  {
    if n > 0 {
      AllOwned(n - 1);
      assert seq(n, _ => 0)[..n - 1] == seq(n - 1, _ => 0);
    }
  }

  // At no moment of a run are more VMs in flight than there are jobs.
  lemma AtMostJobsAtOnce(names: seq<string>, op: Op, jobs: nat, env: string -> Env, lockFile: string -> bool,
                         st: Outset, schedule: seq<nat>)
    requires (forall n :: n in names ==> n in st.hosts) && forall n :: n in st.locks ==> st.locks[n] == Outsider
    ensures var world := Single(names, op, jobs, env, lockFile);
            var r := Run(Begin(world, st), schedule, world);
            r.Some? ==> Shaped(r.value, world) && |InFlight(r.value, world, 0)| <= jobs
  {
    var world := Single(names, op, jobs, env, lockFile);
    if Run(Begin(world, st), schedule, world).Some? {
      BeginFaithful(world, st);
      ReachableIsSafe(Begin(world, st), schedule, world);
      AllOwned(|world.owner|);
      assert world.owner == seq(|world.owner|, _ => 0);
    }
  }

  function Filled(rows: seq<Option<Row>>): seq<Row>
    requires forall i :: 0 <= i < |rows| ==> rows[i].Some?
  {
    seq(|rows|, i requires 0 <= i < |rows| => rows[i].value)
  }

  // The executor, with a scheduler that may choose any worker at any time: it ends, no slot is left
  // empty, and the rows and the domains are those of the sequential reference.
  method Execute(names: seq<string>, op: Op, jobs: nat, env: string -> Env, lockFile: string -> bool, st: Outset)
    returns (rows: seq<Row>, hosts: map<string, Host>)
    requires jobs > 0 && Distinct(names) && (forall n :: n in names ==> n in st.hosts)
    requires forall n :: n in st.locks ==> st.locks[n] == Outsider
    ensures (rows, hosts) == Sequential(names, op, Single(names, op, jobs, env, lockFile), st)
    ensures |rows| == |names|
    ensures forall i :: 0 <= i < |names| ==>
              var name := names[i];
              && name in hosts && rows[i].name == name
              && RowSays(rows[i].result, hosts[name], op, lockFile(name), name in st.locks, st.hosts[name], env(name))
  {
    var world := Single(names, op, jobs, env, lockFile);
    var s := Begin(world, st);
    BeginFaithful(world, st);
    while exists w: nat :: w < |s.workers| && Enabled(s, w)
      invariant Faithful(s, world, st)
      decreases Budget(s, world, |world.plans|), Total(s, world, |s.workers|)
    {
      var w: nat :| w < |s.workers| && Enabled(s, w);
      NextFaithful(s, w, world, st);
      NextDecreases(s, w, world);
      s := Next(s, w, world);
    }
    OverIsSequential(s, world, st);
    rows := Filled(s.rows[0]);
    hosts := s.hosts;
    SequentialIsAlone(names, op, world, st);
  }

  lemma OverIsSequential(s: Sys, world: World, st: Outset)
    requires |world.plans| == 1 && world.owner == seq(|world.owner|, _ => 0)
    requires (|world.owner| > 0 || world.plans[0].names == [])
    requires Faithful(s, world, st) && Distinct(world.plans[0].names)
    requires forall w: nat :: w < |s.workers| ==> !Enabled(s, w)
    ensures forall i :: 0 <= i < |s.rows[0]| ==> s.rows[0][i].Some?
    ensures (Filled(s.rows[0]), s.hosts)
            == Sequential(world.plans[0].names, world.plans[0].op, world, st)
  {
    var names := world.plans[0].names;
    AllOwned(|world.owner|);
    assert Over(s) by {
      forall w: nat | w < |s.workers| ensures s.workers[w] == Exited { assert !Enabled(s, w); }
    }
    if names != [] {
      OverIsAlone(s, world, st);
    }
    SameAsSequential(s, world, st);
  }

  lemma SameAsSequential(s: Sys, world: World, st: Outset)
    requires |world.plans| == 1 && Shaped(s, world) && s.hosts.Keys == st.hosts.Keys
    requires (forall n :: n in world.plans[0].names ==> n in st.hosts)
    requires forall n :: n in st.hosts && !Selected(world, n) ==> s.hosts[n] == st.hosts[n]
    requires Distinct(world.plans[0].names)
    requires forall i :: 0 <= i < |world.plans[0].names| ==>
               && s.rows[0][i] == Some(Row(world.plans[0].names[i], Alone(world, st, 0, i).0))
               && s.hosts[world.plans[0].names[i]] == Alone(world, st, 0, i).1
    ensures (Filled(s.rows[0]), s.hosts) == Sequential(world.plans[0].names, world.plans[0].op, world, st)
  {
    var names := world.plans[0].names;
    var (rows, hosts) := Sequential(names, world.plans[0].op, world, st);
    SequentialIsSolo(names, world.plans[0].op, world, st);
    forall n | n in hosts && n !in names
      ensures s.hosts[n] == hosts[n]
    {
      assert !Selected(world, n);
    }
    SameHosts(names, s.hosts, hosts);
    SameRows(s.rows[0], rows);
  }

  lemma SameHosts(names: seq<string>, a: map<string, Host>, b: map<string, Host>)
    requires a.Keys == b.Keys && (forall n :: n in names ==> n in a)
    requires forall i :: 0 <= i < |names| ==> a[names[i]] == b[names[i]]
    requires forall n :: n in b && n !in names ==> a[n] == b[n]
    ensures a == b
  {
  }

  lemma SameRows(filled: seq<Option<Row>>, rows: seq<Row>)
    requires |filled| == |rows| && forall i :: 0 <= i < |rows| ==> filled[i] == Some(rows[i])
    ensures Filled(filled) == rows
  {
  }

  /* ---- the command line ---- */

  datatype BulkError = BadJobs | Selection(error: Inventory.SelectorError)

  function NamesOf(vms: seq<Config.Vm>): seq<string> { seq(|vms|, i requires 0 <= i < |vms| => vms[i].name) }

  // A bulk command: between 1 and 32 jobs, a selection, and then the rows of the selected VMs in
  // inventory order, each as handling that VM alone would give.
  method RunBulk(c: Config.Config, selector: Inventory.Selector, op: Op, jobs: nat, env: string -> Env,
                 lockFile: string -> bool, st: Outset)
    returns (r: Result<seq<Row>, BulkError>, hosts: map<string, Host>)
    requires Config.WellFormed(c) && (forall e :: e in c.vms ==> e.key in st.hosts)
    requires forall n :: n in st.locks ==> st.locks[n] == Outsider
    ensures !(1 <= jobs <= 32) ==> r == Err(BadJobs) && hosts == st.hosts
    ensures 1 <= jobs <= 32 && Inventory.Select(c, selector).Err? ==>
              r == Err(Selection(Inventory.Select(c, selector).error)) && hosts == st.hosts
    ensures 1 <= jobs <= 32 && Inventory.Select(c, selector).Ok? ==>
              var vms := Inventory.Select(c, selector).value;
              && r.Ok? && |r.value| == |vms| && hosts.Keys == st.hosts.Keys
              && (forall n :: n in hosts && (forall vm :: vm in vms ==> vm.name != n) ==> hosts[n] == st.hosts[n])
              && forall i :: 0 <= i < |vms| ==>
                   var name := vms[i].name;
                   && name in st.hosts && r.value[i].name == name
                   && RowSays(r.value[i].result, hosts[name], op, lockFile(name), name in st.locks, st.hosts[name],
                              env(name))
  {
    if jobs < 1 || jobs > 32 {
      return Err(BadJobs), st.hosts;
    }
    var selected := Inventory.Select(c, selector);
    if selected.Err? {
      return Err(Selection(selected.error)), st.hosts;
    }
    Inventory.SelectionIsInventoryOrder(c, selector);
    var names := NamesOf(selected.value);
    assert forall i :: 0 <= i < |names| ==> selected.value[i] in selected.value && names[i] in st.hosts;
    var rows;
    rows, hosts := Execute(names, op, jobs, env, lockFile, st);
    SequentialIsAlone(names, op, Single(names, op, jobs, env, lockFile), st);
    r := Ok(rows);
  }
}
