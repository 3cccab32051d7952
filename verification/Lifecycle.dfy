/** The VM lifecycle operations: as a step machine, one interaction at a time, and as the methods the
    manager runs. */
module Lifecycle {
  import opened Wrappers
  import opened Libvirt

  datatype VmState = Up | Stopped | Hibernated

  datatype Error =
    | VirshFailed(cmd: Cmd)
    | UnsupportedState(raw: Raw)
    | HibernateStopped
    | StopTimeout
    | ReadinessTimeout

  type Outcome = Result<VmState, Error>

  datatype Op = Status | StartVm(waitReady: nat) | StopVm(timeout: nat, force: bool) | Hibernate

  // 250 milliseconds.
  const POLL_SLEEP: nat := 250_000_000

  // The raw states that count as Running; every other state but "shut off" is an error.
  predicate IsUp(raw: Raw) { raw in {Running, Idle, Blocked} }

  /* ---- the step machine ---- */

  // What to do once the state of the domain is known.
  datatype Then =
    | Report
    | DecideStart(wait: nat)
    | DecideHibernate
    | DecideStop(timeout: nat, force: bool)
    | DecidePoll(deadline: nat, force: bool)

  // Where an operation is, between two interactions with the world.
  datatype Pc =
    | AskState(after: Then)
    | AskSave(after: Then)
    | Order(cmd: Cmd, state: VmState, wait: nat)
    | OrderShutdown(timeout: nat, force: bool)
    | SetDeadline(timeout: nat, force: bool)
    | PollClock(deadline: nat, force: bool)
    | PollSleep(deadline: nat, force: bool)
    | AdbDeadline(wait: nat)
    | AdbClock(deadline: nat)
    | AdbConnect(deadline: nat)
    | AdbSleep(deadline: nat)
    | Finished(outcome: Outcome)

  function Entry(op: Op): Pc {
    match op
    case Status => AskState(Report)
    case StartVm(wait) => AskState(DecideStart(wait))
    case StopVm(timeout, force) => AskState(DecideStop(timeout, force))
    case Hibernate => AskState(DecideHibernate)
  }

  // After a successful start, readiness is awaited only if a nonzero wait was asked for.
  function Started(state: VmState, wait: nat): Pc {
    if wait == 0 then Finished(Ok(state)) else AdbDeadline(wait)
  }

  function Resume(t: Then, s: VmState): Pc {
    match t
    case Report => Finished(Ok(s))
    case DecideStart(wait) => if s == Up then Started(Up, wait) else Order(Start, Up, wait)
    case DecideHibernate =>
      (match s
       case Hibernated => Finished(Ok(Hibernated))
       case Stopped => Finished(Err(HibernateStopped))
       case Up => Order(ManagedSave, Hibernated, 0))
    case DecideStop(timeout, force) =>
      (match s
       case Stopped => Finished(Ok(Stopped))
       case Hibernated => Order(ManagedSaveRemove, Stopped, 0)
       case Up => OrderShutdown(timeout, force))
    case DecidePoll(deadline, force) => if s == Stopped then Finished(Ok(Stopped)) else PollSleep(deadline, force)
  }

  function Step(pc: Pc, h: Host, env: Env): (Pc, Host)
    requires !pc.Finished?
  {
    match pc
    case AskState(t) =>
      var (a, h') := Issue(h, env, DomState);
      (if !a.State? then Finished(Err(VirshFailed(DomState)))
       else if IsUp(a.raw) then Resume(t, Up)
       else if a.raw == ShutOff then AskSave(t)
       else Finished(Err(UnsupportedState(a.raw))), h')
    case AskSave(t) =>
      var (a, h') := Issue(h, env, DomInfo);
      (if !a.Info? then Finished(Err(VirshFailed(DomInfo)))
       else Resume(t, if a.managedSave then Hibernated else Stopped), h')
    case Order(cmd, state, wait) =>
      var (a, h') := Issue(h, env, cmd);
      (if a == Failed then Finished(Err(VirshFailed(cmd))) else Started(state, wait), h')
    case OrderShutdown(timeout, force) =>
      var (a, h') := Issue(h, env, Shutdown);
      (if a == Failed then Finished(Err(VirshFailed(Shutdown))) else SetDeadline(timeout, force), h')
    case SetDeadline(timeout, force) =>
      var h' := Tick(h, env);
      (PollClock(h'.now + timeout, force), h')
    case PollClock(deadline, force) =>
      var h' := Tick(h, env);
      (if h'.now < deadline then AskState(DecidePoll(deadline, force))
       else if force then Order(Destroy, Stopped, 0)
       else Finished(Err(StopTimeout)), h')
    case PollSleep(deadline, force) => (PollClock(deadline, force), Slept(h, env))
    case AdbDeadline(wait) =>
      var h' := Tick(h, env);
      (AdbClock(h'.now + wait), h')
    case AdbClock(deadline) =>
      var h' := Tick(h, env);
      (if h'.now < deadline then AdbConnect(deadline) else Finished(Err(ReadinessTimeout)), h')
    case AdbConnect(deadline) =>
      (if env(h.pos).ok then Finished(Ok(Up)) else AdbSleep(deadline), Tick(h, env))
    case AdbSleep(deadline) => (AdbClock(deadline), Slept(h, env))
  }

  // A sleep lasts at least 250 ms.
  function Slept(h: Host, env: Env): (r: Host)
    ensures r.now >= h.now + POLL_SLEEP && r.log == h.log
  {
    var t := Tick(h, env);
    t.(now := t.now + POLL_SLEEP)
  }

  function Left(deadline: nat, now: nat): nat { if now < deadline then deadline - now else 0 }

  function Max(a: int, b: int): int { if a < b then b else a }

  function Wait(t: Then): nat {
    match t
    case DecideStart(wait) => wait
    case DecideStop(timeout, _) => timeout
    case _ => 0
  }

  // How much longer an operation can take, in steps.
  function Measure(pc: Pc, now: nat): nat {
    match pc
    case AskState(DecidePoll(deadline, _)) => if now < deadline then 5 * Left(deadline, now) + 1 else 5
    case AskState(t) => 5 * Wait(t) + 7
    case AskSave(DecidePoll(deadline, _)) => Max(5 * Left(deadline, now), 4)
    case AskSave(t) => 5 * Wait(t) + 6
    case Order(_, _, wait) => if wait == 0 then 1 else 5 * wait + 4
    case OrderShutdown(timeout, _) => 5 * timeout + 4
    case SetDeadline(timeout, _) => 5 * timeout + 3
    case PollClock(deadline, _) => 5 * Left(deadline, now) + 2
    case PollSleep(deadline, _) => Max(5 * Left(deadline, now) - 1, 3)
    case AdbDeadline(wait) => 5 * wait + 3
    case AdbClock(deadline) => 5 * Left(deadline, now) + 2
    case AdbConnect(deadline) => Max(5 * Left(deadline, now), 4)
    case AdbSleep(deadline) => Max(5 * Left(deadline, now) - 1, 3)
    case Finished(_) => 0
  }

  // A poll is only entered before its deadline.
  predicate PcOk(pc: Pc, now: nat) {
    match pc
    case AskState(DecidePoll(deadline, _)) => now < deadline
    case AdbConnect(deadline) => now < deadline
    case _ => true
  }

  lemma StepProgress(pc: Pc, h: Host, env: Env)
    requires !pc.Finished? && PcOk(pc, h.now)
    ensures var (pc', h') := Step(pc, h, env);
            PcOk(pc', h'.now) && Measure(pc', h'.now) < Measure(pc, h.now)
  {
    match pc
    case AskState(t) => AskProgress(t, h, env);
    case AskSave(t) => SaveProgress(t, h, env);
    case _ =>
  }

  lemma AskProgress(t: Then, h: Host, env: Env)
    requires PcOk(AskState(t), h.now)
    ensures var (pc', h') := Step(AskState(t), h, env);
            PcOk(pc', h'.now) && Measure(pc', h'.now) < Measure(AskState(t), h.now)
  {
  }

  lemma SaveProgress(t: Then, h: Host, env: Env)
    ensures var (pc', h') := Step(AskSave(t), h, env);
            PcOk(pc', h'.now) && Measure(pc', h'.now) < Measure(AskSave(t), h.now)
  {
  }

  // Running an operation to its end.
  function Complete(pc: Pc, h: Host, env: Env): (Outcome, Host)
    requires PcOk(pc, h.now)
    decreases Measure(pc, h.now)
  {
    if pc.Finished? then (pc.outcome, h)
    else
      StepProgress(pc, h, env);
      var (pc', h') := Step(pc, h, env);
      Complete(pc', h', env)
  }

  /* ---- the operations as the manager runs them ---- */

  function StateOf(h: Host, env: Env): (Result<VmState, Error>, Host) {
    var (a, h') := Issue(h, env, DomState);
    if !a.State? then (Err(VirshFailed(DomState)), h')
    else if IsUp(a.raw) then (Ok(Up), h')
    else if a.raw != ShutOff then (Err(UnsupportedState(a.raw)), h')
    else
      var (b, h'') := Issue(h', env, DomInfo);
      if !b.Info? then (Err(VirshFailed(DomInfo)), h'') else (Ok(if b.managedSave then Hibernated else Stopped), h'')
  }

  function Continue(t: Then, r: Result<VmState, Error>, h: Host, env: Env): (Outcome, Host) {
    match r
    case Err(e) => (Err(e), h)
    case Ok(s) => Complete(Resume(t, s), h, env)
  }

  lemma AskingIsStateOf(t: Then, h: Host, env: Env)
    requires PcOk(AskState(t), h.now)
    ensures Complete(AskState(t), h, env) == Continue(t, StateOf(h, env).0, StateOf(h, env).1, env)
  {
    var (pc, h') := Step(AskState(t), h, env);
    assert Complete(AskState(t), h, env) == Complete(pc, h', env);
    if pc == AskSave(t) {
      var (pc', h'') := Step(pc, h', env);
      assert Complete(pc, h', env) == Complete(pc', h'', env);
    }
  }

  lemma OrderEnds(cmd: Cmd, state: VmState, h: Host, env: Env)
    ensures Complete(Order(cmd, state, 0), h, env) ==
            (if Issue(h, env, cmd).0 == Failed then Err(VirshFailed(cmd)) else Ok(state), Issue(h, env, cmd).1)
  {
    var (pc, h') := Step(Order(cmd, state, 0), h, env);
    assert Complete(Order(cmd, state, 0), h, env) == Complete(pc, h', env);
  }

  class Session {
    var host: Host
    const env: Env

    constructor (h: Host, e: Env)
      ensures host == h && env == e
    {
      host := h;
      env := e;
    }

    method Run(cmd: Cmd) returns (a: Answer)
      modifies this
      ensures (a, host) == Issue(old(host), env, cmd)
    {
      var r := Issue(host, env, cmd);
      a, host := r.0, r.1;
    }

    method ReadClock() returns (now: nat)
      modifies this
      ensures host == Tick(old(host), env) && now == host.now
    {
      host := Tick(host, env);
      now := host.now;
    }

    method GetState() returns (r: Result<VmState, Error>)
      modifies this
      ensures (r, host) == StateOf(old(host), env)
    {
      var raw := Run(DomState);
      if !raw.State? {
        return Err(VirshFailed(DomState));
      }
      if IsUp(raw.raw) {
        return Ok(Up);
      }
      if raw.raw != ShutOff {
        return Err(UnsupportedState(raw.raw));
      }
      var info := Run(DomInfo);
      if !info.Info? {
        return Err(VirshFailed(DomInfo));
      }
      r := Ok(if info.managedSave then Hibernated else Stopped);
    }

    // `start`, without the readiness wait.
    method StartDomain() returns (r: Outcome)
      modifies this
      ensures (r, host) == Complete(Entry(StartVm(0)), old(host), env)
    {
      AskingIsStateOf(DecideStart(0), host, env);
      var state := GetState();
      if state.Err? {
        return state;
      }
      if state.value == Up {
        return Ok(Up);
      }
      ghost var before := host;
      var a := Run(Start);
      OrderEnds(Start, Up, before, env);
      if a == Failed {
        return Err(VirshFailed(Start));
      }
      r := Ok(Up);
    }

    method HibernateDomain() returns (r: Outcome)
      modifies this
      ensures (r, host) == Complete(Entry(Hibernate), old(host), env)
    {
      AskingIsStateOf(DecideHibernate, host, env);
      var state := GetState();
      if state.Err? {
        return state;
      }
      match state.value {
        case Hibernated => r := Ok(Hibernated);
        case Stopped => r := Err(HibernateStopped);
        case Up =>
          ghost var before := host;
          var a := Run(ManagedSave);
          OrderEnds(ManagedSave, Hibernated, before, env);
          r := if a == Failed then Err(VirshFailed(ManagedSave)) else Ok(Hibernated);
      }
    }

    method StopDomain(timeout: nat, force: bool) returns (r: Outcome)
      modifies this
      ensures (r, host) == Complete(Entry(StopVm(timeout, force)), old(host), env)
    {
      ghost var goal := Complete(Entry(StopVm(timeout, force)), host, env);
      AskingIsStateOf(DecideStop(timeout, force), host, env);
      var state := GetState();
      if state.Err? {
        return state;
      }
      if state.value == Stopped {
        return Ok(Stopped);
      }
      ghost var before := host;
      if state.value == Hibernated {
        var a := Run(ManagedSaveRemove);
        OrderEnds(ManagedSaveRemove, Stopped, before, env);
        return if a == Failed then Err(VirshFailed(ManagedSaveRemove)) else Ok(Stopped);
      }
      var a := Run(Shutdown);
      assert goal == Complete(Step(OrderShutdown(timeout, force), before, env).0, host, env);
      if a == Failed {
        return Err(VirshFailed(Shutdown));
      }
      r := AwaitStop(timeout, force);
    }

    // The polling loop of `stop`, after the shutdown request was taken.
    method AwaitStop(timeout: nat, force: bool) returns (r: Outcome)
      modifies this
      ensures (r, host) == Complete(SetDeadline(timeout, force), old(host), env)
    {
      ghost var goal := Complete(SetDeadline(timeout, force), host, env);
      var start := ReadClock();
      var deadline := start + timeout;
      assert goal == Complete(PollClock(deadline, force), host, env);
      ghost var before := host;
      var now := ReadClock();
      while now < deadline
        invariant now == host.now && host == Tick(before, env) && goal == Complete(PollClock(deadline, force), before, env)
        decreases Left(deadline, now)
      {
        assert goal == Complete(AskState(DecidePoll(deadline, force)), host, env);
        AskingIsStateOf(DecidePoll(deadline, force), host, env);
        var state := GetState();
        if state.Err? {
          return state;
        }
        if state.value == Stopped {
          return Ok(Stopped);
        }
        assert goal == Complete(PollSleep(deadline, force), host, env);
        host := Slept(host, env);
        before := host;
        now := ReadClock();
      }
      if force {
        before := host;
        var a := Run(Destroy);
        OrderEnds(Destroy, Stopped, before, env);
        r := if a == Failed then Err(VirshFailed(Destroy)) else Ok(Stopped);
      } else {
        r := Err(StopTimeout);
      }
    }

    method WaitForAdb(wait: nat) returns (r: Outcome)
      modifies this
      ensures (r, host) == Complete(AdbDeadline(wait), old(host), env)
    {
      ghost var goal := Complete(AdbDeadline(wait), host, env);
      var start := ReadClock();
      var deadline := start + wait;
      ghost var before := host;
      assert goal == Complete(AdbClock(deadline), host, env);
      var now := ReadClock();
      while now < deadline
        invariant now == host.now && host == Tick(before, env) && goal == Complete(AdbClock(deadline), before, env)
        decreases Left(deadline, now)
      {
        assert goal == Complete(AdbConnect(deadline), host, env);
        var connected := env(host.pos).ok;
        before := host;
        host := Tick(host, env);
        assert goal == Complete(Step(AdbConnect(deadline), before, env).0, host, env);
        if connected {
          return Ok(Up);
        }
        assert goal == Complete(AdbSleep(deadline), host, env);
        host := Slept(host, env);
        before := host;
        now := ReadClock();
      }
      r := Err(ReadinessTimeout);
    }
  }
}
