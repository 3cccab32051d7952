/** Processes that select the same VM: whatever the interleaving, the VM goes through whole operations, one
    after another, and every row is a lock error or the outcome of one of them. */
module BulkShared {
  import opened Wrappers
  import opened Libvirt
  import opened Lifecycle
  import opened LifecycleProperties
  import opened Bulk
  import opened BulkRuns
  import opened BulkRefinement

  // A slot of a process: whose operation it was.
  type Who = (nat, nat)

  predicate IsSlotOf(world: World, name: string, who: Who) {
    who.0 < |world.plans| && who.1 < |world.plans[who.0].names| && world.plans[who.0].names[who.1] == name
  }

  predicate OnVm(world: World, name: string, history: seq<Who>) {
    forall k :: 0 <= k < |history| ==> IsSlotOf(world, name, history[k])
  }

  // The VM after whole operations of the given slots in turn.
  function Played(world: World, st: Outset, name: string, history: seq<Who>): Host
    requires name in st.hosts && OnVm(world, name, history)
  {
    if history == [] then st.hosts[name]
    else
      var last := history[|history| - 1];
      Complete(Entry(world.plans[last.0].op), Played(world, st, name, history[..|history| - 1]), world.env(name)).1
  }

  // The outcome of operation k of a history.
  function OutcomeOf(world: World, st: Outset, name: string, history: seq<Who>, k: nat): Outcome
    requires name in st.hosts && OnVm(world, name, history) && k < |history|
  {
    Complete(Entry(world.plans[history[k].0].op), Played(world, st, name, history[..k]), world.env(name)).0
  }

  // A slot's result is a lock error, or the outcome of the slot's own operation in the history.
  ghost predicate Explained(world: World, st: Outset, name: string, history: seq<Who>, who: Who, result: RowResult)
    requires name in st.hosts && OnVm(world, name, history)
  {
    || result == Err(LockIo) || result == Err(LockHeld)
    || exists k :: 0 <= k < |history| && history[k] == who && Reports(result, OutcomeOf(world, st, name, history, k))
  }

  lemma ExplainedStays(world: World, st: Outset, name: string, history: seq<Who>, next: Who, who: Who, result: RowResult)
    requires name in st.hosts && OnVm(world, name, history) && IsSlotOf(world, name, next)
    requires Explained(world, st, name, history, who, result)
    ensures OnVm(world, name, history + [next]) && Explained(world, st, name, history + [next], who, result)
  {
    if k :| 0 <= k < |history| && history[k] == who && Reports(result, OutcomeOf(world, st, name, history, k)) {
      assert (history + [next])[..k] == history[..k];
      assert Reports(result, OutcomeOf(world, st, name, history + [next], k));
    }
  }

  // The operations on a VM, in the order in which they gave its lock back.
  function Finishes(t: Sys, w: nat, world: World, name: string): bool
    requires Shaped(t, world)
  {
    Operates(t, world, w, name) && t.workers[w].pc.Finished?
  }

  function History(s0: Sys, schedule: seq<nat>, world: World, name: string): seq<Who> {
    if schedule == [] then []
    else
      var front, w := schedule[..|schedule| - 1], schedule[|schedule| - 1];
      var before := History(s0, front, world, name);
      match Run(s0, front, world)
      case None => before
      case Some(t) =>
        if Shaped(t, world) && Finishes(t, w, world, name) then before + [(world.owner[w], t.workers[w].i)] else before
  }

  /* ---- the invariant ---- */

  predicate NameOf(s: Sys, world: World, w: nat, name: string)
    requires Shaped(s, world) && w < |s.workers|
  {
    assert WorkerOk(s.workers[w], Names(world, w), s.hosts);
    Slot(s.workers[w]).Some? && Names(world, w)[Slot(s.workers[w]).value] == name
  }

  // A worker at work on the VM is on the way to where a whole operation leads; what it is about to
  // report is explained.
  ghost predicate WorkerShared(s: Sys, world: World, st: Outset, name: string, history: seq<Who>, w: nat)
    requires Shaped(s, world) && name in st.hosts && name in s.hosts && OnVm(world, name, history) && w < |s.workers|
  {
    NameOf(s, world, w, name) ==>
      assert WorkerOk(s.workers[w], Names(world, w), s.hosts);
      var (p, env) := (world.owner[w], world.env(name));
      match s.workers[w]
      case Locking(i) => (p, i) !in history
      case Working(i, pc) =>
        && (p, i) !in history
        && Complete(pc, s.hosts[name], env) == Complete(Entry(world.plans[p].op), Played(world, st, name, history), env)
      case Writing(i, result) => Explained(world, st, name, history, (p, i), result)
      case _ => true
  }

  ghost predicate SlotShared(s: Sys, world: World, st: Outset, name: string, history: seq<Who>, who: Who)
    requires Shaped(s, world) && name in st.hosts && OnVm(world, name, history) && IsSlotOf(world, name, who)
  {
    && (who.1 >= s.next[who.0] ==> who !in history)
    && (s.rows[who.0][who.1].Some? ==>
          Explained(world, st, name, history, who, s.rows[who.0][who.1].value.result))
  }

  ghost predicate Shared(s: Sys, world: World, st: Outset, name: string, history: seq<Who>) {
    && Inv(s, world) && name in st.hosts && name in s.hosts && OnVm(world, name, history)
    && (forall j, k :: 0 <= j < k < |history| ==> history[j] != history[k])
    && ((name in s.locks ==> s.locks[name] == Outsider) ==> s.hosts[name] == Played(world, st, name, history))
    && (forall w :: 0 <= w < |s.workers| ==> WorkerShared(s, world, st, name, history, w))
    && (forall who: Who :: IsSlotOf(world, name, who) ==> SlotShared(s, world, st, name, history, who))
  }

  /* ---- a step that does not end an operation on the VM ---- */

  lemma HostOfOthers(s: Sys, w: nat, world: World, name: string)
    requires Inv(s, world) && Enabled(s, w) && name in s.hosts && !Operates(s, world, w, name)
    ensures name in Next(s, w, world).hosts && Next(s, w, world).hosts[name] == s.hosts[name]
    ensures (name in s.locks ==> s.locks[name] == Outsider) <==
            (name in Next(s, w, world).locks ==> Next(s, w, world).locks[name] == Outsider)
  {
    if s.workers[w].Working? {
      assert s.locks[Names(world, w)[s.workers[w].i]] == By(w);
    }
  }

  lemma OwnWorkerShared(s: Sys, w: nat, world: World, st: Outset, name: string, history: seq<Who>)
    requires Shared(s, world, st, name, history) && Enabled(s, w) && Shaped(Next(s, w, world), world)
    requires !Finishes(s, w, world, name) && name in Next(s, w, world).hosts
    ensures WorkerShared(Next(s, w, world), world, st, name, history, w)
  {
    assert WorkerShared(s, world, st, name, history, w) && WorkerOk(s.workers[w], Names(world, w), s.hosts);
    match s.workers[w]
    case Claiming =>
      var p := world.owner[w];
      if s.next[p] < |Names(world, w)| && Names(world, w)[s.next[p]] == name {
        assert IsSlotOf(world, name, (p, s.next[p])) && SlotShared(s, world, st, name, history, (p, s.next[p]));
      }
    case Locking(i) =>
    case Working(i, pc) =>
      if Names(world, w)[i] == name {
        StepProgress(pc, s.hosts[name], world.env(name));
      }
    case Writing(_, _) =>
  }

  // Another worker does not notice: while it is at work on the VM, no one else is.
  lemma OtherWorkerShared(s: Sys, w: nat, world: World, st: Outset, name: string, history: seq<Who>, v: nat)
    requires Shared(s, world, st, name, history) && Enabled(s, w) && Shaped(Next(s, w, world), world)
    requires v < |s.workers| && v != w && name in Next(s, w, world).hosts
    ensures WorkerShared(Next(s, w, world), world, st, name, history, v)
  {
    var s' := Next(s, w, world);
    OtherWorkers(s, w, world, v);
    assert WorkerShared(s, world, st, name, history, v) && WorkerOk(s.workers[v], Names(world, v), s.hosts);
    if s.workers[v].Working? && NameOf(s, world, v, name) {
      if Operates(s, world, w, name) { LockExclusion(s, world, v, w, name); }
      HostOfOthers(s, w, world, name);
    }
    OtherWorkerFrame(s, s', world, st, name, history, v);
  }

  lemma OtherWorkerFrame(s: Sys, s': Sys, world: World, st: Outset, name: string, history: seq<Who>, v: nat)
    requires Shaped(s, world) && Shaped(s', world) && v < |s.workers| && s'.workers[v] == s.workers[v]
    requires name in st.hosts && name in s.hosts && name in s'.hosts && OnVm(world, name, history)
    requires s.workers[v].Working? && NameOf(s, world, v, name) ==> s'.hosts[name] == s.hosts[name]
    requires WorkerShared(s, world, st, name, history, v)
    ensures WorkerShared(s', world, st, name, history, v)
  {
  }

  lemma SlotStaysShared(s: Sys, w: nat, world: World, st: Outset, name: string, history: seq<Who>, who: Who)
    requires Shared(s, world, st, name, history) && Enabled(s, w) && Shaped(Next(s, w, world), world)
    requires IsSlotOf(world, name, who)
    ensures SlotShared(Next(s, w, world), world, st, name, history, who)
  {
    var (p, i) := who;
    assert SlotShared(s, world, st, name, history, who) && WorkerShared(s, world, st, name, history, w);
    NextSlotData(s, w, world, p, i);
  }

  lemma PlainStep(s: Sys, w: nat, world: World, st: Outset, name: string, history: seq<Who>)
    requires Shared(s, world, st, name, history) && Enabled(s, w) && !Finishes(s, w, world, name)
    ensures Shared(Next(s, w, world), world, st, name, history)
  {
    var s' := Next(s, w, world);
    NextInv(s, w, world);
    assert WorkerOk(s.workers[w], Names(world, w), s.hosts);
    assert name in s'.hosts;
    if !Operates(s, world, w, name) {
      HostOfOthers(s, w, world, name);
    } else {
      assert s'.locks[name] == By(w);
    }
    forall v | 0 <= v < |s'.workers|
      ensures WorkerShared(s', world, st, name, history, v)
    {
      if v == w { OwnWorkerShared(s, w, world, st, name, history); }
      else { OtherWorkerShared(s, w, world, st, name, history, v); }
    }
    forall who: Who | IsSlotOf(world, name, who)
      ensures SlotShared(s', world, st, name, history, who)
    {
      SlotStaysShared(s, w, world, st, name, history, who);
    }
  }

  /* ---- the step that ends an operation on the VM ---- */

  lemma FinishPlays(s: Sys, w: nat, world: World, st: Outset, name: string, history: seq<Who>)
    requires Shared(s, world, st, name, history) && Finishes(s, w, world, name)
    ensures var who := (world.owner[w], s.workers[w].i);
            && IsSlotOf(world, name, who) && OnVm(world, name, history + [who]) && who !in history
            && Played(world, st, name, history + [who]) == s.hosts[name]
            && Explained(world, st, name, history + [who], who, ToRow(s.workers[w].pc.outcome))
  {
    var who := (world.owner[w], s.workers[w].i);
    assert WorkerShared(s, world, st, name, history, w) && WorkerOk(s.workers[w], Names(world, w), s.hosts);
    assert (history + [who])[..|history|] == history;
    RowReports(s.workers[w].pc.outcome);
    assert OutcomeOf(world, st, name, history + [who], |history|) == s.workers[w].pc.outcome;
  }

  lemma OthersAfterFinish(s: Sys, w: nat, world: World, st: Outset, name: string, history: seq<Who>, v: nat)
    requires Shared(s, world, st, name, history) && Finishes(s, w, world, name) && v < |s.workers| && v != w
    requires Shaped(Next(s, w, world), world) && name in Next(s, w, world).hosts
    requires OnVm(world, name, history + [(world.owner[w], s.workers[w].i)])
    ensures WorkerShared(Next(s, w, world), world, st, name, history + [(world.owner[w], s.workers[w].i)], v)
  {
    var (p, i) := (world.owner[w], s.workers[w].i);
    assert WorkerOk(s.workers[w], Names(world, w), s.hosts);
    OtherWorkers(s, w, world, v);
    assert WorkerShared(s, world, st, name, history, v) && WorkerOk(s.workers[v], Names(world, v), s.hosts);
    if NameOf(s, world, v, name) {
      assert PoolOk(s, world, p) && SlotOk(s, world, p, i) && Holds(s, world, w, p, i);
      assert world.owner[v] == p && Slot(s.workers[v]) == Some(i) ==> Holds(s, world, v, p, i);
      match s.workers[v]
      case Working(_, _) => LockExclusion(s, world, v, w, name);
      case Writing(j, result) => ExplainedStays(world, st, name, history, (p, i), (world.owner[v], j), result);
      case _ =>
    }
  }

  lemma SlotAfterFinish(s: Sys, w: nat, world: World, st: Outset, name: string, history: seq<Who>, who: Who)
    requires Shared(s, world, st, name, history) && Finishes(s, w, world, name) && IsSlotOf(world, name, who)
    requires Shaped(Next(s, w, world), world)
    requires OnVm(world, name, history + [(world.owner[w], s.workers[w].i)])
    ensures SlotShared(Next(s, w, world), world, st, name, history + [(world.owner[w], s.workers[w].i)], who)
  {
    var (p, i) := (world.owner[w], s.workers[w].i);
    assert WorkerOk(s.workers[w], Names(world, w), s.hosts);
    assert SlotShared(s, world, st, name, history, who);
    NextSlotData(s, w, world, who.0, who.1);
    assert PoolOk(s, world, p) && SlotOk(s, world, p, i) && Holds(s, world, w, p, i);
    if s.rows[who.0][who.1].Some? {
      ExplainedStays(world, st, name, history, (p, i), who, s.rows[who.0][who.1].value.result);
    }
  }

  lemma FinishStep(s: Sys, w: nat, world: World, st: Outset, name: string, history: seq<Who>)
    requires Shared(s, world, st, name, history) && Enabled(s, w) && Finishes(s, w, world, name)
    ensures Shared(Next(s, w, world), world, st, name, history + [(world.owner[w], s.workers[w].i)])
  {
    var s' := Next(s, w, world);
    var who := (world.owner[w], s.workers[w].i);
    var longer := history + [who];
    NextInv(s, w, world);
    FinishPlays(s, w, world, st, name, history);
    assert s'.hosts == s.hosts && s'.workers[w] == Writing(who.1, ToRow(s.workers[w].pc.outcome));
    forall v | 0 <= v < |s'.workers|
      ensures WorkerShared(s', world, st, name, longer, v)
    {
      if v != w { OthersAfterFinish(s, w, world, st, name, history, v); }
    }
    forall slot: Who | IsSlotOf(world, name, slot)
      ensures SlotShared(s', world, st, name, longer, slot)
    {
      SlotAfterFinish(s, w, world, st, name, history, slot);
    }
  }

  /* ---- runs ---- */

  lemma BeginShared(world: World, st: Outset, name: string)
    requires WorldOk(world) && Covers(world, st) && name in st.hosts
    ensures Shared(Begin(world, st), world, st, name, [])
  {
    BeginFaithful(world, st);
  }

  lemma {:induction false} RunsAreShared(world: World, st: Outset, schedule: seq<nat>, name: string)
    requires WorldOk(world) && Covers(world, st) && name in st.hosts && Run(Begin(world, st), schedule, world).Some?
    ensures Shared(Run(Begin(world, st), schedule, world).value, world, st, name,
                   History(Begin(world, st), schedule, world, name))
  {
    var s0 := Begin(world, st);
    if schedule == [] {
      BeginShared(world, st, name);
    } else {
      var front, w := schedule[..|schedule| - 1], schedule[|schedule| - 1];
      RunsAreShared(world, st, front, name);
      var (t, history) := (Run(s0, front, world).value, History(s0, front, world, name));
      if Finishes(t, w, world, name) {
        FinishStep(t, w, world, st, name, history);
      } else {
        PlainStep(t, w, world, st, name, history);
      }
    }
  }

  ghost predicate Serial(s: Sys, world: World, st: Outset, name: string, history: seq<Who>) {
    && Shaped(s, world) && name in st.hosts && name in s.hosts && OnVm(world, name, history)
    && (forall j, k :: 0 <= j < k < |history| ==> history[j] != history[k])
    && (Over(s) ==> s.hosts[name] == Played(world, st, name, history))
    && (forall who: Who | IsSlotOf(world, name, who) ::
          s.rows[who.0][who.1].Some? ==> Explained(world, st, name, history, who, s.rows[who.0][who.1].value.result))
  }

  lemma SharedIsSerial(s: Sys, world: World, st: Outset, name: string, history: seq<Who>)
    requires Shared(s, world, st, name, history)
    ensures Serial(s, world, st, name, history)
  {
    forall who: Who | IsSlotOf(world, name, who) && s.rows[who.0][who.1].Some?
      ensures Explained(world, st, name, history, who, s.rows[who.0][who.1].value.result)
    {
      assert SlotShared(s, world, st, name, history, who);
    }
    if Over(s) {
      NoneHeld(s, world, name);
    }
  }

  lemma NoneHeld(s: Sys, world: World, name: string)
    requires Inv(s, world) && Over(s)
    ensures name in s.locks ==> s.locks[name] == Outsider
  {
    assert name in s.locks && s.locks[name].By? ==> Operates(s, world, s.locks[name].w, name);
  }

  // However many processes select a VM, and however their workers interleave: the VM goes through whole
  // operations of distinct slots, one after another, and when all workers have left it is where these
  // operations lead; every row about it is a lock error, or the outcome of its own operation among them.
  lemma SharedVmIsSerial(world: World, st: Outset, schedule: seq<nat>, name: string)
    requires WorldOk(world) && Covers(world, st) && name in st.hosts
    ensures var r := Run(Begin(world, st), schedule, world);
            r.Some? ==> Serial(r.value, world, st, name, History(Begin(world, st), schedule, world, name))
  {
    var r := Run(Begin(world, st), schedule, world);
    if r.Some? {
      RunsAreShared(world, st, schedule, name);
      SharedIsSerial(r.value, world, st, name, History(Begin(world, st), schedule, world, name));
    }
  }

  lemma {:induction false} PlayedIsCoherent(world: World, st: Outset, name: string, history: seq<Who>)
    requires name in st.hosts && OnVm(world, name, history) && Coherent(st.hosts[name].dom)
    ensures Coherent(Played(world, st, name, history).dom)
  {
    if history != [] {
      var front, last := history[..|history| - 1], history[|history| - 1];
      PlayedIsCoherent(world, st, name, front);
      OutcomeIsTrue(Entry(world.plans[last.0].op), Played(world, st, name, front), world.env(name));
    }
  }

  // A row is a lock error, or there is a moment at which the operation of its slot had just ended and the
  // row was true of the domain.
  ghost predicate TrueWhenEnded(world: World, st: Outset, name: string, history: seq<Who>, who: Who, result: RowResult)
    requires name in st.hosts && OnVm(world, name, history) && IsSlotOf(world, name, who)
  {
    || result == Err(LockIo) || result == Err(LockHeld)
    || exists k :: 0 <= k < |history| && history[k] == who
                   && RowTrue(world.plans[who.0].op, result, Played(world, st, name, history[..k + 1]).dom)
  }

  // Whatever else selects the VM: a row that says Stopped, Hibernated, or Running by status or a start
  // without a wait, was true of the domain when its own operation ended.
  lemma SharedRowsAreTrue(world: World, st: Outset, schedule: seq<nat>, name: string, who: Who)
    requires WorldOk(world) && Covers(world, st) && name in st.hosts && Coherent(st.hosts[name].dom)
    requires IsSlotOf(world, name, who)
    ensures var (r, history) := (Run(Begin(world, st), schedule, world), History(Begin(world, st), schedule, world, name));
            r.Some? && Shaped(r.value, world) && r.value.rows[who.0][who.1].Some? ==>
              && OnVm(world, name, history)
              && TrueWhenEnded(world, st, name, history, who, r.value.rows[who.0][who.1].value.result)
  {
    var (r, history) := (Run(Begin(world, st), schedule, world), History(Begin(world, st), schedule, world, name));
    SharedVmIsSerial(world, st, schedule, name);
    if r.Some? && r.value.rows[who.0][who.1].Some? {
      var result := r.value.rows[who.0][who.1].value.result;
      ExplainedIsTrue(world, st, name, history, who, result);
    }
  }

  lemma ExplainedIsTrue(world: World, st: Outset, name: string, history: seq<Who>, who: Who, result: RowResult)
    requires name in st.hosts && OnVm(world, name, history) && IsSlotOf(world, name, who)
    requires Coherent(st.hosts[name].dom) && Explained(world, st, name, history, who, result)
    ensures TrueWhenEnded(world, st, name, history, who, result)
  {
    if k :| 0 <= k < |history| && history[k] == who && Reports(result, OutcomeOf(world, st, name, history, k)) {
      assert history[..k + 1][..k] == history[..k] && history[..k + 1][k] == who;
      PlayedIsCoherent(world, st, name, history[..k]);
      ReportIsTrue(world.plans[who.0].op, Played(world, st, name, history[..k]), world.env(name), result);
      assert RowTrue(world.plans[who.0].op, result, Played(world, st, name, history[..k + 1]).dom);
    }
  }

  /* ---- what the lock errors mean ---- */

  predicate LockUsable(world: World, who: Who)
    requires who.0 < |world.plans| && who.1 < |world.plans[who.0].names|
  {
    world.lockFile(who.0, world.plans[who.0].names[who.1])
  }

  // At step k of the schedule the slot's worker tried the lock, and someone else held it.
  ghost predicate RefusedAt(s0: Sys, schedule: seq<nat>, world: World, who: Who, k: nat) {
    && k < |schedule|
    && var r := Run(s0, schedule[..k], world);
       && r.Some? && Shaped(r.value, world)
       && var (t, w) := (r.value, schedule[k]);
          && w < |t.workers| && world.owner[w] == who.0 && t.workers[w] == Locking(who.1)
          && WorkerOk(t.workers[w], Names(world, w), t.hosts) && LockUsable(world, who)
          && var name := Names(world, w)[who.1];
             name in t.locks && t.locks[name] != By(w)
  }

  // A lock file that cannot be used gives LockIo and nothing else does; LockHeld means the lock was held
  // by another worker or program when it was tried.
  ghost predicate Told(s0: Sys, schedule: seq<nat>, world: World, who: Who, result: RowResult)
    requires who.0 < |world.plans| && who.1 < |world.plans[who.0].names|
  {
    && (result == Err(LockIo) <==> !LockUsable(world, who))
    && (result == Err(LockHeld) ==> exists k :: RefusedAt(s0, schedule, world, who, k))
  }

  lemma ToldStays(s0: Sys, schedule: seq<nat>, w: nat, world: World, who: Who, result: RowResult)
    requires who.0 < |world.plans| && who.1 < |world.plans[who.0].names| && Told(s0, schedule, world, who, result)
    ensures Told(s0, schedule + [w], world, who, result)
  {
    if k: nat :| RefusedAt(s0, schedule, world, who, k) {
      assert (schedule + [w])[..k] == schedule[..k];
      assert RefusedAt(s0, schedule + [w], world, who, k);
    }
  }

  ghost predicate WorkerTold(s0: Sys, schedule: seq<nat>, s: Sys, world: World, w: nat)
    requires Shaped(s, world) && w < |s.workers|
  {
    assert WorkerOk(s.workers[w], Names(world, w), s.hosts);
    match s.workers[w]
    case Working(i, _) => LockUsable(world, (world.owner[w], i))
    case Writing(i, result) => Told(s0, schedule, world, (world.owner[w], i), result)
    case _ => true
  }

  ghost predicate RowTold(s0: Sys, schedule: seq<nat>, s: Sys, world: World, p: nat, i: nat)
    requires Shaped(s, world) && p < |world.plans| && i < |world.plans[p].names|
  {
    s.rows[p][i].Some? ==> Told(s0, schedule, world, (p, i), s.rows[p][i].value.result)
  }

  ghost predicate AllTold(s0: Sys, schedule: seq<nat>, s: Sys, world: World) {
    && Inv(s, world)
    && (forall w: nat :: w < |s.workers| ==> WorkerTold(s0, schedule, s, world, w))
    && (forall p: nat, i: nat | p < |world.plans| && i < |world.plans[p].names| :: RowTold(s0, schedule, s, world, p, i))
  }

  lemma TriedLock(s0: Sys, schedule: seq<nat>, s: Sys, world: World, w: nat)
    requires Run(s0, schedule, world) == Some(s) && Inv(s, world) && Enabled(s, w) && s.workers[w].Locking?
    requires Shaped(Next(s, w, world), world)
    ensures WorkerTold(s0, schedule + [w], Next(s, w, world), world, w)
  {
    var i := s.workers[w].i;
    var name := Names(world, w)[i];
    assert WorkerOk(s.workers[w], Names(world, w), s.hosts);
    if LockUsable(world, (world.owner[w], i)) && name in s.locks {
      assert (schedule + [w])[..|schedule|] == schedule;
      assert RefusedAt(s0, schedule + [w], world, (world.owner[w], i), |schedule|);
    }
  }

  lemma OwnWorkerTold(s0: Sys, schedule: seq<nat>, s: Sys, world: World, w: nat)
    requires Run(s0, schedule, world) == Some(s) && AllTold(s0, schedule, s, world) && Enabled(s, w)
    requires Shaped(Next(s, w, world), world)
    ensures WorkerTold(s0, schedule + [w], Next(s, w, world), world, w)
  {
    assert WorkerTold(s0, schedule, s, world, w) && WorkerOk(s.workers[w], Names(world, w), s.hosts);
    match s.workers[w]
    case Locking(_) => TriedLock(s0, schedule, s, world, w);
    case Working(i, pc) =>
      if pc.Finished? {
        assert !ToRow(pc.outcome).Err? || ToRow(pc.outcome).error.Failure?;
      }
    case _ =>
  }

  lemma NextTold(s0: Sys, schedule: seq<nat>, s: Sys, world: World, w: nat)
    requires Run(s0, schedule, world) == Some(s) && AllTold(s0, schedule, s, world) && Enabled(s, w)
    ensures AllTold(s0, schedule + [w], Next(s, w, world), world)
  {
    var s' := Next(s, w, world);
    NextInv(s, w, world);
    forall v: nat | v < |s'.workers|
      ensures WorkerTold(s0, schedule + [w], s', world, v)
    {
      if v == w {
        OwnWorkerTold(s0, schedule, s, world, w);
      } else {
        OtherWorkerTold(s0, schedule, s, world, w, v);
      }
    }
    forall p: nat, i: nat | p < |world.plans| && i < |world.plans[p].names|
      ensures RowTold(s0, schedule + [w], s', world, p, i)
    {
      NextRowTold(s0, schedule, s, world, w, p, i);
    }
  }

  lemma OtherWorkerTold(s0: Sys, schedule: seq<nat>, s: Sys, world: World, w: nat, v: nat)
    requires AllTold(s0, schedule, s, world) && Enabled(s, w) && v < |s.workers| && v != w
    requires Shaped(Next(s, w, world), world)
    ensures WorkerTold(s0, schedule + [w], Next(s, w, world), world, v)
  {
    OtherWorkers(s, w, world, v);
    assert WorkerTold(s0, schedule, s, world, v) && WorkerOk(s.workers[v], Names(world, v), s.hosts);
    if s.workers[v].Writing? {
      ToldStays(s0, schedule, w, world, (world.owner[v], s.workers[v].i), s.workers[v].result);
    }
  }

  lemma NextRowTold(s0: Sys, schedule: seq<nat>, s: Sys, world: World, w: nat, p: nat, i: nat)
    requires AllTold(s0, schedule, s, world) && Enabled(s, w) && p < |world.plans| && i < |world.plans[p].names|
    requires Shaped(Next(s, w, world), world)
    ensures RowTold(s0, schedule + [w], Next(s, w, world), world, p, i)
  {
    NextSlotData(s, w, world, p, i);
    assert RowTold(s0, schedule, s, world, p, i) && WorkerTold(s0, schedule, s, world, w);
    if s.workers[w].Writing? && Holds(s, world, w, p, i) {
      ToldStays(s0, schedule, w, world, (p, i), s.workers[w].result);
    } else if s.rows[p][i].Some? {
      ToldStays(s0, schedule, w, world, (p, i), s.rows[p][i].value.result);
    }
  }

  lemma {:induction false} RunsTell(world: World, st: Outset, schedule: seq<nat>)
    requires WorldOk(world) && Covers(world, st) && Run(Begin(world, st), schedule, world).Some?
    ensures AllTold(Begin(world, st), schedule, Run(Begin(world, st), schedule, world).value, world)
  {
    var s0 := Begin(world, st);
    if schedule == [] {
      BeginFaithful(world, st);
    } else {
      var front, w := schedule[..|schedule| - 1], schedule[|schedule| - 1];
      RunsTell(world, st, front);
      NextTold(s0, front, Run(s0, front, world).value, world, w);
      assert front + [w] == schedule;
    }
  }

  // In every run, a row says LockIo exactly when the lock file could not be used, and LockHeld only when
  // the lock was held by someone else at the slot's own attempt.
  lemma LockRowsAreTrue(world: World, st: Outset, schedule: seq<nat>, p: nat, i: nat)
    requires WorldOk(world) && Covers(world, st) && p < |world.plans| && i < |world.plans[p].names|
    ensures var r := Run(Begin(world, st), schedule, world);
            r.Some? ==> Shaped(r.value, world) && RowTold(Begin(world, st), schedule, r.value, world, p, i)
  {
    if Run(Begin(world, st), schedule, world).Some? {
      RunsTell(world, st, schedule);
    }
  }
}
