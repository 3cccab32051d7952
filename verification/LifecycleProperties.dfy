/** What every lifecycle operation guarantees, for every guest behaviour and every pattern of failures. */
module LifecycleProperties {
  import opened Wrappers
  import opened Libvirt
  import opened Lifecycle

  /* ---- the reported state is true ---- */

  // What is known of the domain between two interactions of an operation.
  predicate Truthful(pc: Pc, d: Domain) {
    match pc
    case Finished(Ok(Stopped)) => d.raw == ShutOff && d.save.None?
    case Finished(Ok(Hibernated)) => d.raw == ShutOff && d.save == Some(d.gen)
    case AskSave(_) => d.raw == ShutOff
    case Order(cmd, state, _) =>
      || (cmd == Start && state == Up)
      || (cmd == ManagedSave && state == Hibernated)
      || (cmd == ManagedSaveRemove && state == Stopped && d.raw == ShutOff)
      || (cmd == Destroy && state == Stopped)
    case _ => true
  }

  lemma StepTruthful(pc: Pc, h: Host, env: Env)
    requires !pc.Finished? && Coherent(h.dom) && Truthful(pc, h.dom)
    ensures var (pc', h') := Step(pc, h, env); Coherent(h'.dom) && Truthful(pc', h'.dom)
  {
    ActsKeepCoherent(h.dom, env(h.pos).guest);
    var d := Tick(h, env).dom;
    match pc
    case AskState(_) => ExecuteKeepsCoherentIff(d, DomState);
    case AskSave(_) => ExecuteKeepsCoherentIff(d, DomInfo);
    case Order(cmd, _, _) => ExecuteKeepsCoherentIff(d, cmd);
    case OrderShutdown(_, _) => ExecuteKeepsCoherentIff(d, Shutdown);
    case _ =>
  }

  // Saved RAM stays tied to its disk through every operation, and a success means what it says:
  // Stopped is off without saved RAM, Hibernated is off with RAM of the current disk.
  lemma {:induction false} OutcomeIsTrue(pc: Pc, h: Host, env: Env)
    requires PcOk(pc, h.now) && Coherent(h.dom) && Truthful(pc, h.dom)
    ensures var (o, h') := Complete(pc, h, env); Coherent(h'.dom) && Truthful(Finished(o), h'.dom)
    decreases Measure(pc, h.now)
  {
    if !pc.Finished? {
      StepTruthful(pc, h, env);
      StepProgress(pc, h, env);
      var (pc', h') := Step(pc, h, env);
      OutcomeIsTrue(pc', h', env);
    }
  }

  // Without a readiness wait, a reported Running was observed or brought about by the last command.
  lemma RunningIsTrue(op: Op, h: Host, env: Env)
    requires op == Status || op == StartVm(0)
    requires Complete(Entry(op), h, env).0 == Ok(Up)
    ensures IsUp(Complete(Entry(op), h, env).1.dom.raw)
  {
    AskingIsStateOf(if op == Status then Report else DecideStart(0), h, env);
    var (s, h') := StateOf(h, env);
    if s.Ok? && s.value != Up && op != Status {
      OrderEnds(Start, Up, h', env);
    }
  }

  // What a state query answers, for every domain it can meet: the domain as it is at the first question,
  // and, if it is off, its saved RAM.
  lemma StateIsExact(h: Host, env: Env)
    ensures var (r, d) := (StateOf(h, env).0, Acts(h.dom, env(h.pos).guest));
            var asked := env(h.pos).ok && d.definition.Some?;
            var looked := asked && d.raw == ShutOff && env(h.pos + 1).ok;
            && (r == Ok(Up) <==> asked && d.raw in {Running, Idle, Blocked})
            && (r == Ok(Hibernated) <==> looked && d.save.Some?)
            && (r == Ok(Stopped) <==> looked && d.save.None?)
            && (forall raw :: r == Err(UnsupportedState(raw)) <==>
                  asked && d.raw == raw && raw in {Paused, InShutdown, Crashed, PmSuspended})
            && (r == Err(VirshFailed(DomState)) <==> !asked)
            && (r == Err(VirshFailed(DomInfo)) <==> asked && d.raw == ShutOff && !looked)
  {
    var h1 := Issue(h, env, DomState).1;
    if h1.dom.raw == ShutOff {
      OffStays(h1.dom, env(h1.pos).guest);
    }
  }

  lemma {:induction false} OffStays(d: Domain, acts: seq<GuestAct>)
    requires d.raw == ShutOff
    ensures Acts(d, acts) == d
    decreases |acts|
  {
    if acts != [] {
      OffStays(Act(d, acts[0]), acts[1..]);
    }
  }

  /* ---- waiting for readiness ---- */

  // How the connection attempts of an operation ended, in order.
  function Attempts(pc: Pc, h: Host, env: Env): seq<bool>
    requires PcOk(pc, h.now)
    decreases Measure(pc, h.now)
  {
    if pc.Finished? then []
    else
      StepProgress(pc, h, env);
      var (pc', h') := Step(pc, h, env);
      (if pc.AdbConnect? then [env(h.pos).ok] else []) + Attempts(pc', h', env)
  }

  // Waiting, with a deadline not before `floor`.
  predicate Awaiting(pc: Pc, floor: nat) {
    match pc
    case AdbClock(deadline) => deadline >= floor
    case AdbConnect(deadline) => deadline >= floor
    case AdbSleep(deadline) => deadline >= floor
    case _ => false
  }

  // All attempts failed but the last, and that one connected; or all failed.
  predicate ConnectedLast(tries: seq<bool>) {
    tries != [] && tries[|tries| - 1] && forall i :: 0 <= i < |tries| - 1 ==> !tries[i]
  }

  predicate NeverConnected(tries: seq<bool>) { forall i :: 0 <= i < |tries| ==> !tries[i] }

  predicate WaitTold(o: Outcome, end: Host, start: Host, floor: nat, tries: seq<bool>) {
    && (o == Ok(Up) || o == Err(ReadinessTimeout)) && end.log == start.log
    && (o == Ok(Up) <==> ConnectedLast(tries))
    && (o == Err(ReadinessTimeout) ==> NeverConnected(tries) && end.now >= floor)
  }

  lemma {:induction false} WaitIsTold(pc: Pc, h: Host, env: Env, floor: nat)
    requires PcOk(pc, h.now) && Awaiting(pc, floor)
    ensures var (o, h') := Complete(pc, h, env); WaitTold(o, h', h, floor, Attempts(pc, h, env))
    decreases Measure(pc, h.now)
  {
    StepProgress(pc, h, env);
    var (pc', h') := Step(pc, h, env);
    if pc'.Finished? {
      assert Attempts(pc', h', env) == [] && Complete(pc', h', env) == (pc'.outcome, h');
    } else {
      WaitIsTold(pc', h', env, floor);
      TriesCons(pc.AdbConnect?, Attempts(pc', h', env));
    }
  }

  lemma TriesCons(tried: bool, rest: seq<bool>)
    ensures var tries := (if tried then [false] else []) + rest;
            (ConnectedLast(tries) <==> ConnectedLast(rest)) && (NeverConnected(tries) <==> NeverConnected(rest))
  {
    var tries := (if tried then [false] else []) + rest;
    assert tried ==> forall i :: 0 <= i < |rest| ==> tries[i + 1] == rest[i];
    assert !tried ==> tries == rest;
    if tried && ConnectedLast(rest) {
      assert forall i :: 1 <= i < |tries| ==> tries[i] == rest[i - 1];
    }
    if tried && NeverConnected(rest) {
      assert forall i :: 1 <= i < |tries| ==> tries[i] == rest[i - 1];
    }
  }

  // Waiting ends with a connection, the first that was made, or reports a timeout after failing attempts
  // only and at least `wait` since it began. It makes no virsh call.
  lemma ReadinessIsTrue(wait: nat, h: Host, env: Env)
    ensures var (o, h') := Complete(AdbDeadline(wait), h, env);
            WaitTold(o, h', h, h.now + wait, Attempts(AdbDeadline(wait), h, env))
  {
    StepProgress(AdbDeadline(wait), h, env);
    var (pc, h1) := Step(AdbDeadline(wait), h, env);
    WaitIsTold(pc, h1, env, h.now + wait);
    assert Complete(AdbDeadline(wait), h, env) == Complete(pc, h1, env);
    assert Attempts(AdbDeadline(wait), h, env) == [] + Attempts(pc, h1, env) == Attempts(pc, h1, env);
  }

  /* ---- the calls `stop` makes ---- */

  const OFF := Call(DomState, State(ShutOff))
  const SAVED := Call(DomInfo, Info(true))
  const NOT_SAVED := Call(DomInfo, Info(false))

  predicate SaysUp(c: Call) { c.cmd == DomState && c.answer.State? && IsUp(c.answer.raw) }

  // Poll rounds that found the domain neither stopped nor in error.
  predicate Rounds(s: seq<Call>) {
    || s == []
    || (SaysUp(s[|s| - 1]) && Rounds(s[..|s| - 1]))
    || (|s| >= 2 && s[|s| - 1] == SAVED && s[|s| - 2] == OFF && Rounds(s[..|s| - 2]))
  }

  // The domain was up, took the shutdown request, and every poll since was inconclusive.
  predicate Polling(s: seq<Call>) {
    |s| >= 2 && SaysUp(s[0]) && s[1] == Call(Shutdown, Done) && Rounds(s[2..])
  }

  predicate EndsWith(s: seq<Call>, last: Call) { s != [] && s[|s| - 1] == last }
  function Front(s: seq<Call>): seq<Call> requires s != [] { s[..|s| - 1] }

  predicate PollingThenOff(s: seq<Call>) { EndsWith(s, OFF) && Polling(Front(s)) }

  // Every sequence of virsh calls a run of `stop` can make, with its outcome.
  predicate StopTrace(s: seq<Call>, force: bool, o: Outcome) {
    match o
    case Ok(Stopped) =>
      || s == [OFF, NOT_SAVED]
      || s == [OFF, SAVED, Call(ManagedSaveRemove, Done)]
      || (EndsWith(s, NOT_SAVED) && PollingThenOff(Front(s)))
      || (force && EndsWith(s, Call(Destroy, Done)) && Polling(Front(s)))
    case Err(StopTimeout) => !force && Polling(s)
    case Err(UnsupportedState(raw)) =>
      && EndsWith(s, Call(DomState, State(raw))) && !IsUp(raw) && raw != ShutOff
      && (|s| == 1 || Polling(Front(s)))
    case Err(VirshFailed(cmd)) =>
      && EndsWith(s, Call(cmd, Failed))
      && (match cmd
         case DomState => |s| == 1 || Polling(Front(s))
         case DomInfo => Front(s) == [OFF] || PollingThenOff(Front(s))
         case ManagedSaveRemove => Front(s) == [OFF, SAVED]
         case Shutdown => |s| == 2 && SaysUp(s[0])
         case Destroy => force && Polling(Front(s))
         case _ => false)
    case _ => false
  }

  predicate StopSoFar(pc: Pc, s: seq<Call>, force: bool) {
    match pc
    case AskState(DecideStop(_, f)) => s == [] && f == force
    case AskSave(DecideStop(_, f)) => s == [OFF] && f == force
    case Order(ManagedSaveRemove, Stopped, wait) => s == [OFF, SAVED] && wait == 0
    case OrderShutdown(_, f) => |s| == 1 && SaysUp(s[0]) && f == force
    case SetDeadline(_, f) => Polling(s) && f == force
    case PollClock(_, f) => Polling(s) && f == force
    case PollSleep(_, f) => Polling(s) && f == force
    case AskState(DecidePoll(_, f)) => Polling(s) && f == force
    case AskSave(DecidePoll(_, f)) => PollingThenOff(s) && f == force
    case Order(Destroy, Stopped, wait) => Polling(s) && force && wait == 0
    case Finished(o) => StopTrace(s, force, o)
    case _ => false
  }

  // The calls made from position k of the log on.
  function Since(h: Host, k: nat): seq<Call> requires k <= |h.log| { h.log[k..] }

  lemma IssueAppends(h: Host, env: Env, cmd: Cmd, k: nat)
    requires k <= |h.log|
    ensures var (a, h') := Issue(h, env, cmd); Since(h', k) == Since(h, k) + [Call(cmd, a)]
    ensures cmd == DomState ==> Issue(h, env, cmd).0 == Failed || Issue(h, env, cmd).0.State?
    ensures cmd == DomInfo ==> Issue(h, env, cmd).0 == Failed || Issue(h, env, cmd).0.Info?
    ensures cmd in {ManagedSaveRemove, Shutdown, Destroy} ==> Issue(h, env, cmd).0 in {Failed, Done}
  {
  }

  lemma AppendFacts(s: seq<Call>, c: Call)
    ensures EndsWith(s + [c], c) && Front(s + [c]) == s
  {
  }

  lemma PollingUp(s: seq<Call>, c: Call)
    requires Polling(s) && SaysUp(c)
    ensures Polling(s + [c])
  {
    assert (s + [c])[2..] == s[2..] + [c];
    assert (s[2..] + [c])[..|s[2..]|] == s[2..];
  }

  lemma PollingSaved(s: seq<Call>)
    requires PollingThenOff(s)
    ensures Polling(s + [SAVED])
  {
    var rounds := (s + [SAVED])[2..];
    assert rounds[..|rounds| - 2] == Front(s)[2..];
  }

  lemma FirstAskStep(timeout: nat, h: Host, env: Env, k: nat, force: bool)
    requires k <= |h.log| && Since(h, k) == []
    ensures var (pc', h') := Step(AskState(DecideStop(timeout, force)), h, env);
            k <= |h'.log| && StopSoFar(pc', Since(h', k), force)
  {
    IssueAppends(h, env, DomState, k);
    var s := Since(Issue(h, env, DomState).1, k);
    assert s == [Call(DomState, Issue(h, env, DomState).0)];
  }

  lemma PollStepTrace(deadline: nat, h: Host, env: Env, k: nat, force: bool)
    requires k <= |h.log| && Polling(Since(h, k))
    ensures var (pc', h') := Step(AskState(DecidePoll(deadline, force)), h, env);
            k <= |h'.log| && StopSoFar(pc', Since(h', k), force)
  {
    var s := Since(h, k);
    IssueAppends(h, env, DomState, k);
    var c := Call(DomState, Issue(h, env, DomState).0);
    AppendFacts(s, c);
    if SaysUp(c) { PollingUp(s, c); }
  }

  lemma SaveStep(t: Then, h: Host, env: Env, k: nat, force: bool)
    requires k <= |h.log| && StopSoFar(AskSave(t), Since(h, k), force)
    ensures var (pc', h') := Step(AskSave(t), h, env); k <= |h'.log| && StopSoFar(pc', Since(h', k), force)
  {
    var s := Since(h, k);
    IssueAppends(h, env, DomInfo, k);
    var c := Call(DomInfo, Issue(h, env, DomInfo).0);
    AppendFacts(s, c);
    if t.DecidePoll? && c == SAVED { PollingSaved(s); }
  }

  function Verdict(c: Call): Outcome { if c.answer == Failed then Err(VirshFailed(c.cmd)) else Ok(Stopped) }

  lemma RemoveTrace(c: Call, force: bool)
    requires c.cmd == ManagedSaveRemove && c.answer in {Failed, Done}
    ensures StopTrace([OFF, SAVED] + [c], force, Verdict(c))
  {
    AppendFacts([OFF, SAVED], c);
  }

  lemma DestroyTrace(s: seq<Call>, c: Call)
    requires Polling(s) && c.cmd == Destroy && c.answer in {Failed, Done}
    ensures StopTrace(s + [c], true, Verdict(c))
  {
    AppendFacts(s, c);
  }

  lemma OrderStep(cmd: Cmd, h: Host, env: Env, k: nat, force: bool)
    requires k <= |h.log| && StopSoFar(Order(cmd, Stopped, 0), Since(h, k), force)
    ensures var (pc', h') := Step(Order(cmd, Stopped, 0), h, env); k <= |h'.log| && StopSoFar(pc', Since(h', k), force)
  {
    IssueAppends(h, env, cmd, k);
    var c := Call(cmd, Issue(h, env, cmd).0);
    assert Step(Order(cmd, Stopped, 0), h, env).0 == Finished(Verdict(c));
    if cmd == ManagedSaveRemove {
      RemoveTrace(c, force);
    } else {
      DestroyTrace(Since(h, k), c);
    }
  }

  lemma ShutdownStep(timeout: nat, f: bool, h: Host, env: Env, k: nat, force: bool)
    requires k <= |h.log| && StopSoFar(OrderShutdown(timeout, f), Since(h, k), force)
    ensures var (pc', h') := Step(OrderShutdown(timeout, f), h, env);
            k <= |h'.log| && StopSoFar(pc', Since(h', k), force)
  {
    IssueAppends(h, env, Shutdown, k);
    AppendFacts(Since(h, k), Call(Shutdown, Issue(h, env, Shutdown).0));
  }

  lemma StopStep(pc: Pc, h: Host, env: Env, k: nat, force: bool)
    requires k <= |h.log| && !pc.Finished? && StopSoFar(pc, Since(h, k), force)
    ensures var (pc', h') := Step(pc, h, env); k <= |h'.log| && StopSoFar(pc', Since(h', k), force)
  {
    match pc
    case AskState(DecideStop(timeout, _)) => FirstAskStep(timeout, h, env, k, force);
    case AskState(DecidePoll(deadline, _)) => PollStepTrace(deadline, h, env, k, force);
    case AskSave(t) => SaveStep(t, h, env, k, force);
    case Order(cmd, _, _) => OrderStep(cmd, h, env, k, force);
    case OrderShutdown(timeout, f) => ShutdownStep(timeout, f, h, env, k, force);
    case SetDeadline(_, _) =>
    case PollClock(_, _) =>
    case PollSleep(_, _) =>
  }

  lemma {:induction false} StopTraces(pc: Pc, h: Host, env: Env, k: nat, force: bool)
    requires PcOk(pc, h.now) && k <= |h.log| && StopSoFar(pc, Since(h, k), force)
    ensures var (o, h') := Complete(pc, h, env); k <= |h'.log| && StopTrace(Since(h', k), force, o)
    decreases Measure(pc, h.now)
  {
    if !pc.Finished? {
      StopStep(pc, h, env, k, force);
      StepProgress(pc, h, env);
      var (pc', h') := Step(pc, h, env);
      StopTraces(pc', h', env, k, force);
    }
  }

  /* ---- how long `stop` waits before it gives up ---- */

  // When the shutdown request was taken.
  function ShutdownTaken(pc: Pc, h: Host, env: Env): Option<nat>
    requires PcOk(pc, h.now)
    decreases Measure(pc, h.now)
  {
    if pc.Finished? then None
    else
      StepProgress(pc, h, env);
      var (pc', h') := Step(pc, h, env);
      if pc.OrderShutdown? && pc'.SetDeadline? then Some(h'.now) else ShutdownTaken(pc', h', env)
  }

  // When it was decided to cut the power.
  function PowerCut(pc: Pc, h: Host, env: Env): Option<nat>
    requires PcOk(pc, h.now)
    decreases Measure(pc, h.now)
  {
    if pc.Finished? then None
    else if pc.Order? && pc.cmd == Destroy then Some(h.now)
    else
      StepProgress(pc, h, env);
      var (pc', h') := Step(pc, h, env);
      PowerCut(pc', h', env)
  }

  // While polling, the deadline is not before `floor`; after it, the clock is not.
  predicate NotBefore(pc: Pc, now: nat, floor: nat) {
    match pc
    case PollClock(deadline, _) => deadline >= floor
    case PollSleep(deadline, _) => deadline >= floor
    case AskState(DecidePoll(deadline, _)) => deadline >= floor
    case AskSave(DecidePoll(deadline, _)) => deadline >= floor
    case Order(cmd, _, wait) => cmd == Destroy && wait == 0 && now >= floor
    case Finished(o) => o == Err(StopTimeout) ==> now >= floor
    case _ => false
  }

  lemma {:induction false} PollsUntilFloor(pc: Pc, h: Host, env: Env, floor: nat)
    requires PcOk(pc, h.now) && NotBefore(pc, h.now, floor)
    ensures PowerCut(pc, h, env).Some? ==> PowerCut(pc, h, env).value >= floor
    ensures var (o, h') := Complete(pc, h, env); o == Err(StopTimeout) ==> h'.now >= floor
    decreases Measure(pc, h.now)
  {
    if !pc.Finished? {
      StepProgress(pc, h, env);
      var (pc', h') := Step(pc, h, env);
      PollsUntilFloor(pc', h', env, floor);
    }
  }

  // `stop` before the shutdown request.
  predicate BeforeShutdown(pc: Pc, timeout: nat) {
    match pc
    case AskState(DecideStop(t, _)) => t == timeout
    case AskSave(DecideStop(t, _)) => t == timeout
    case Order(cmd, _, wait) => cmd == ManagedSaveRemove && wait == 0
    case OrderShutdown(t, _) => t == timeout
    case Finished(o) => o != Err(StopTimeout)
    case _ => false
  }

  ghost predicate WaitedOut(pc: Pc, h: Host, env: Env, timeout: nat)
    requires PcOk(pc, h.now)
  {
    var (o, h') := Complete(pc, h, env);
    var (taken, cut) := (ShutdownTaken(pc, h, env), PowerCut(pc, h, env));
    && (cut.Some? ==> taken.Some? && cut.value >= taken.value + timeout)
    && (o == Err(StopTimeout) ==> taken.Some? && h'.now >= taken.value + timeout)
  }

  lemma {:induction false} StopWaitsOut(pc: Pc, h: Host, env: Env, timeout: nat)
    requires PcOk(pc, h.now) && BeforeShutdown(pc, timeout)
    ensures WaitedOut(pc, h, env, timeout)
    decreases Measure(pc, h.now)
  {
    if !pc.Finished? {
      StepProgress(pc, h, env);
      var (pc', h') := Step(pc, h, env);
      if pc'.SetDeadline? {
        var (pc'', h'') := Step(pc', h', env);
        PollsUntilFloor(pc'', h'', env, h'.now + timeout);
        assert PowerCut(pc', h', env) == PowerCut(pc'', h'', env);
        assert Complete(pc', h', env) == Complete(pc'', h'', env);
      } else {
        StopWaitsOut(pc', h', env, timeout);
      }
    }
  }

  predicate HasDestroy(s: seq<Call>) { exists i :: 0 <= i < |s| && s[i].cmd == Destroy }

  // Power is cut in the log exactly when it was decided to.
  lemma {:induction false} DestroyIsLogged(pc: Pc, h: Host, env: Env, k: nat)
    requires PcOk(pc, h.now) && k <= |h.log|
    ensures var h' := Complete(pc, h, env).1;
            && k <= |h'.log|
            && (HasDestroy(Since(h', k)) ==> HasDestroy(Since(h, k)) || PowerCut(pc, h, env).Some?)
    decreases Measure(pc, h.now)
  {
    if !pc.Finished? {
      StepProgress(pc, h, env);
      var (pc', h') := Step(pc, h, env);
      OneCall(pc, h, env, k);
      DestroyIsLogged(pc', h', env, k);
    }
  }

  lemma OneCall(pc: Pc, h: Host, env: Env, k: nat)
    requires !pc.Finished? && k <= |h.log|
    ensures var h' := Step(pc, h, env).1;
            && k <= |h'.log|
            && (HasDestroy(Since(h', k)) ==> HasDestroy(Since(h, k)) || (pc.Order? && pc.cmd == Destroy))
  {
    var h' := Step(pc, h, env).1;
    if h'.log != h.log {
      var c := h'.log[|h.log|];
      assert Since(h', k) == Since(h, k) + [c];
      DestroySnoc(Since(h, k), c);
    }
  }

  lemma DestroySnoc(s: seq<Call>, c: Call)
    ensures HasDestroy(s + [c]) <==> HasDestroy(s) || c.cmd == Destroy
  {
    if i :| 0 <= i < |s| && s[i].cmd == Destroy {
      assert (s + [c])[i] == s[i];
    }
    assert (s + [c])[|s|] == c;
  }

  // For every guest and every failure: the shutdown request is sent at most once and only to a running
  // domain; power is cut only under `force`, as the last call, after a taken shutdown request, polls that
  // never reported Stopped or an error, and at least `timeout` since the request; giving up takes as
  // long; nothing else changes the domain, save dropping saved RAM.
  lemma StopDiscipline(h: Host, env: Env, timeout: nat, force: bool)
    ensures var (o, h') := Complete(Entry(StopVm(timeout, force)), h, env);
            && |h.log| <= |h'.log|
            && var s := Since(h', |h.log|);
               && StopTrace(s, force, o)
               && (forall i :: 0 <= i < |s| && s[i].cmd == Shutdown ==> i == 1 && SaysUp(s[0]))
               && (forall i :: 0 <= i < |s| && s[i].cmd == Destroy ==>
                     force && i == |s| - 1 && Polling(s[..i]))
               && (forall i :: 0 <= i < |s| ==>
                     s[i].cmd in {DomState, DomInfo, Shutdown, Destroy, ManagedSaveRemove})
               && WaitedOut(Entry(StopVm(timeout, force)), h, env, timeout)
               && (HasDestroy(s) ==> PowerCut(Entry(StopVm(timeout, force)), h, env).Some?)
  {
    StopWaitsOut(Entry(StopVm(timeout, force)), h, env, timeout);
    DestroyIsLogged(Entry(StopVm(timeout, force)), h, env, |h.log|);
    assert Since(h, |h.log|) == [];
    StopTraces(Entry(StopVm(timeout, force)), h, env, |h.log|, force);
    var (o, h') := Complete(Entry(StopVm(timeout, force)), h, env);
    TraceDiscipline(Since(h', |h.log|), force, o);
  }

  lemma {:induction false} RoundsOnlyAsk(s: seq<Call>)
    requires Rounds(s)
    ensures forall i :: 0 <= i < |s| ==> s[i].cmd in {DomState, DomInfo}
  {
    if s == [] {
    } else if SaysUp(s[|s| - 1]) && Rounds(s[..|s| - 1]) {
      RoundsOnlyAsk(s[..|s| - 1]);
      assert forall i :: 0 <= i < |s| - 1 ==> s[i] == s[..|s| - 1][i];
    } else {
      RoundsOnlyAsk(s[..|s| - 2]);
      assert forall i :: 0 <= i < |s| - 2 ==> s[i] == s[..|s| - 2][i];
    }
  }

  lemma PollingOnlyAsks(s: seq<Call>)
    requires Polling(s)
    ensures forall i :: 0 <= i < |s| && i != 1 ==> s[i].cmd in {DomState, DomInfo}
  {
    RoundsOnlyAsk(s[2..]);
    assert forall i :: 2 <= i < |s| ==> s[i] == s[2..][i - 2];
  }

  lemma TraceDiscipline(s: seq<Call>, force: bool, o: Outcome)
    requires StopTrace(s, force, o)
    ensures forall i :: 0 <= i < |s| && s[i].cmd == Shutdown ==> i == 1 && SaysUp(s[0])
    ensures forall i :: 0 <= i < |s| && s[i].cmd == Destroy ==> force && i == |s| - 1 && Polling(s[..i])
    ensures forall i :: 0 <= i < |s| ==> s[i].cmd in {DomState, DomInfo, Shutdown, Destroy, ManagedSaveRemove}
  {
    if Polling(s) { PollingOnlyAsks(s); }
    if s != [] && Polling(Front(s)) {
      PollingOnlyAsks(Front(s));
      assert forall i :: 0 <= i < |s| - 1 ==> s[i] == Front(s)[i];
    }
    if |s| >= 2 && PollingThenOff(Front(s)) {
      PollingOnlyAsks(Front(Front(s)));
      assert forall i :: 0 <= i < |s| - 2 ==> s[i] == Front(Front(s))[i];
    }
  }

  /* ---- the calls `start` and `hibernate` make ---- */

  // The calls of one state query, with its result.
  predicate StateTrace(s: seq<Call>, r: Outcome) {
    match r
    case Ok(Up) => |s| == 1 && SaysUp(s[0])
    case Ok(Hibernated) => s == [OFF, SAVED]
    case Ok(Stopped) => s == [OFF, NOT_SAVED]
    case Err(UnsupportedState(raw)) => s == [Call(DomState, State(raw))] && !IsUp(raw) && raw != ShutOff
    case Err(VirshFailed(cmd)) =>
      || (cmd == DomState && s == [Call(DomState, Failed)])
      || (cmd == DomInfo && s == [OFF, Call(DomInfo, Failed)])
    case _ => false
  }

  lemma QueryTrace(h: Host, env: Env)
    ensures var (r, h') := StateOf(h, env); |h.log| <= |h'.log| && StateTrace(Since(h', |h.log|), r)
  {
    var k := |h.log|;
    var (a, h1) := Issue(h, env, DomState);
    IssueAppends(h, env, DomState, k);
    assert Since(h, k) == [] && Since(h1, k) == [Call(DomState, a)];
    IssueAppends(h1, env, DomInfo, k);
  }

  // `start` on a domain that is up issues nothing more; otherwise one start command decides. `hibernate`
  // refuses a stopped domain, leaves a hibernated one, and saves only a domain that is up.
  predicate StartTrace(s: seq<Call>, o: Outcome) {
    match o
    case Ok(state) =>
      && state == Up
      && (|| (|s| == 1 && SaysUp(s[0]))
          || s == [OFF, SAVED, Call(Start, Done)]
          || s == [OFF, NOT_SAVED, Call(Start, Done)])
    case Err(e) =>
      if e == VirshFailed(Start) then
        s == [OFF, SAVED, Call(Start, Failed)] || s == [OFF, NOT_SAVED, Call(Start, Failed)]
      else StateTrace(s, o)
  }

  predicate HibernateTrace(s: seq<Call>, o: Outcome) {
    match o
    case Ok(state) =>
      state == Hibernated
      && (s == [OFF, SAVED] || (|s| == 2 && SaysUp(s[0]) && s[1] == Call(ManagedSave, Done)))
    case Err(HibernateStopped) => s == [OFF, NOT_SAVED]
    case Err(e) =>
      if e == VirshFailed(ManagedSave) then |s| == 2 && SaysUp(s[0]) && s[1] == Call(ManagedSave, Failed)
      else StateTrace(s, o)
  }

  lemma OneCallMore(h: Host, env: Env, cmd: Cmd, k: nat)
    requires k <= |h.log| && cmd in {Start, ManagedSave}
    ensures var (a, h') := Issue(h, env, cmd);
            Since(h', k) == Since(h, k) + [Call(cmd, a)] && a in {Failed, Done}
  {
    IssueAppends(h, env, cmd, k);
  }

  lemma StartTraces(h: Host, env: Env)
    ensures var (o, h') := Complete(Entry(StartVm(0)), h, env);
            |h.log| <= |h'.log| && StartTrace(Since(h', |h.log|), o)
  {
    AskingIsStateOf(DecideStart(0), h, env);
    QueryTrace(h, env);
    var (r, h1) := StateOf(h, env);
    if r.Ok? && r.value != Up {
      OrderEnds(Start, Up, h1, env);
      OneCallMore(h1, env, Start, |h.log|);
    }
  }

  lemma HibernateTraces(h: Host, env: Env)
    ensures var (o, h') := Complete(Entry(Hibernate), h, env);
            |h.log| <= |h'.log| && HibernateTrace(Since(h', |h.log|), o)
  {
    AskingIsStateOf(DecideHibernate, h, env);
    QueryTrace(h, env);
    var (r, h1) := StateOf(h, env);
    var s := Since(h1, |h.log|);
    if r == Ok(Up) {
      OrderEnds(ManagedSave, Hibernated, h1, env);
      OneCallMore(h1, env, ManagedSave, |h.log|);
      SaveTrace(s, Issue(h1, env, ManagedSave).0);
    } else {
      NoSaveTrace(s, r);
    }
  }

  lemma SaveTrace(s: seq<Call>, a: Answer)
    requires StateTrace(s, Ok(Up)) && a in {Failed, Done}
    ensures HibernateTrace(s + [Call(ManagedSave, a)],
                           if a == Failed then Err(VirshFailed(ManagedSave)) else Ok(Hibernated))
  {
  }

  lemma NoSaveTrace(s: seq<Call>, r: Outcome)
    requires StateTrace(s, r) && r != Ok(Up)
    ensures HibernateTrace(s, if r == Ok(Stopped) then Err(HibernateStopped) else r)
  {
  }

  /* ---- how often `stop` polls ---- */

  function StateQueries(s: seq<Call>): nat {
    if s == [] then 0 else StateQueries(s[..|s| - 1]) + if s[|s| - 1].cmd == DomState then 1 else 0
  }

  function CeilDiv(n: nat, d: nat): nat requires d > 0 { (n + d - 1) / d }

  // How many more times the domain state can be asked.
  function PollsLeft(pc: Pc, now: nat): nat {
    match pc
    case AskState(DecideStop(timeout, _)) => 1 + CeilDiv(timeout, POLL_SLEEP)
    case AskSave(DecideStop(timeout, _)) => CeilDiv(timeout, POLL_SLEEP)
    case OrderShutdown(timeout, _) => CeilDiv(timeout, POLL_SLEEP)
    case SetDeadline(timeout, _) => CeilDiv(timeout, POLL_SLEEP)
    case PollClock(deadline, _) => CeilDiv(Left(deadline, now), POLL_SLEEP)
    case AskState(DecidePoll(deadline, _)) => 1 + CeilDiv(Left(deadline, now + POLL_SLEEP), POLL_SLEEP)
    case AskSave(DecidePoll(deadline, _)) => CeilDiv(Left(deadline, now + POLL_SLEEP), POLL_SLEEP)
    case PollSleep(deadline, _) => CeilDiv(Left(deadline, now + POLL_SLEEP), POLL_SLEEP)
    case _ => 0
  }

  predicate StopPc(pc: Pc) {
    match pc
    case AskState(t) => t.DecideStop? || t.DecidePoll?
    case AskSave(t) => t.DecideStop? || t.DecidePoll?
    case Order(cmd, _, wait) => cmd != DomState && wait == 0
    case OrderShutdown(_, _) => true
    case SetDeadline(_, _) => true
    case PollClock(_, _) => true
    case PollSleep(_, _) => true
    case Finished(_) => true
    case _ => false
  }

  lemma CeilMonotone(a: nat, b: nat)
    requires a <= b
    ensures CeilDiv(a, POLL_SLEEP) <= CeilDiv(b, POLL_SLEEP)
  {
  }

  // One poll and one sleep cost at least 250 ms of what is left.
  lemma PollCosts(deadline: nat, now: nat)
    requires now < deadline
    ensures 1 + CeilDiv(Left(deadline, now + POLL_SLEEP), POLL_SLEEP) == CeilDiv(Left(deadline, now), POLL_SLEEP)
  {
  }

  lemma PollStep(pc: Pc, h: Host, env: Env, k: nat)
    requires k <= |h.log| && StopPc(pc) && !pc.Finished? && PcOk(pc, h.now)
    ensures var (pc', h') := Step(pc, h, env);
            && k <= |h'.log| && StopPc(pc')
            && StateQueries(Since(h', k)) + PollsLeft(pc', h'.now) <= StateQueries(Since(h, k)) + PollsLeft(pc, h.now)
  {
    var (pc', h') := Step(pc, h, env);
    var s := Since(h, k);
    match pc
    case AskState(t) => AskPollStep(t, h, env, k);
    case AskSave(t) => SavePollStep(t, h, env, k);
    case Order(cmd, _, _) => QueryCount(h, env, cmd, k);
    case OrderShutdown(_, _) => QueryCount(h, env, Shutdown, k);
    case SetDeadline(timeout, _) =>
    case PollClock(deadline, _) =>
      CeilMonotone(Left(deadline, h'.now), Left(deadline, h.now));
      if h'.now < deadline { PollCosts(deadline, h'.now); }
    case PollSleep(deadline, _) =>
      CeilMonotone(Left(deadline, h'.now), Left(deadline, h.now + POLL_SLEEP));
  }

  lemma AskPollStep(t: Then, h: Host, env: Env, k: nat)
    requires k <= |h.log| && StopPc(AskState(t)) && PcOk(AskState(t), h.now)
    ensures var (pc', h') := Step(AskState(t), h, env);
            && k <= |h'.log| && StopPc(pc')
            && StateQueries(Since(h', k)) + PollsLeft(pc', h'.now)
               <= StateQueries(Since(h, k)) + PollsLeft(AskState(t), h.now)
  {
    var h' := Step(AskState(t), h, env).1;
    QueryCount(h, env, DomState, k);
    if t.DecidePoll? {
      CeilMonotone(Left(t.deadline, h'.now + POLL_SLEEP), Left(t.deadline, h.now + POLL_SLEEP));
    }
  }

  lemma SavePollStep(t: Then, h: Host, env: Env, k: nat)
    requires k <= |h.log| && StopPc(AskSave(t))
    ensures var (pc', h') := Step(AskSave(t), h, env);
            && k <= |h'.log| && StopPc(pc')
            && StateQueries(Since(h', k)) + PollsLeft(pc', h'.now)
               <= StateQueries(Since(h, k)) + PollsLeft(AskSave(t), h.now)
  {
    var h' := Step(AskSave(t), h, env).1;
    QueryCount(h, env, DomInfo, k);
    if t.DecidePoll? {
      CeilMonotone(Left(t.deadline, h'.now + POLL_SLEEP), Left(t.deadline, h.now + POLL_SLEEP));
    }
  }

  lemma QueryCount(h: Host, env: Env, cmd: Cmd, k: nat)
    requires k <= |h.log|
    ensures var h' := Issue(h, env, cmd).1;
            && k <= |h'.log|
            && StateQueries(Since(h', k)) == StateQueries(Since(h, k)) + if cmd == DomState then 1 else 0
  {
    var (a, h') := Issue(h, env, cmd);
    assert Since(h', k) == Since(h, k) + [Call(cmd, a)];
    assert Since(h', k)[..|Since(h, k)|] == Since(h, k);
  }

  lemma {:induction false} PollBound(pc: Pc, h: Host, env: Env, k: nat)
    requires PcOk(pc, h.now) && k <= |h.log| && StopPc(pc)
    ensures var h' := Complete(pc, h, env).1;
            k <= |h'.log| && StateQueries(Since(h', k)) <= StateQueries(Since(h, k)) + PollsLeft(pc, h.now)
    decreases Measure(pc, h.now)
  {
    if !pc.Finished? {
      PollStep(pc, h, env, k);
      StepProgress(pc, h, env);
      var (pc', h') := Step(pc, h, env);
      PollBound(pc', h', env, k);
    }
  }

  // `stop` asks for the state once, and then at most ceil(timeout / 250 ms) times.
  lemma StopPollsBounded(h: Host, env: Env, timeout: nat, force: bool)
    ensures var h' := Complete(Entry(StopVm(timeout, force)), h, env).1;
            && |h.log| <= |h'.log|
            && StateQueries(Since(h', |h.log|)) <= 1 + CeilDiv(timeout, 250_000_000)
  {
    PollBound(Entry(StopVm(timeout, force)), h, env, |h.log|);
  }
}
