/** Reconciling the host with the configuration: the network, the router, then every VM in turn. */
module Reconcile {
  import opened Wrappers
  import opened Text
  import opened Config
  import opened Provision
  import opened Provisioner
  import L = Libvirt
  import Leases

  const ROUTER := "tailnet-android-router"
  const ROUTER_DISK_NAME := "tailnet-router"
  const ROUTER_DISK := "tailnet-router.qcow2"
  const ROUTER_SEED := "tailnet-router-seed.img"

  /* ---- what there is to do ---- */

  datatype Item = Item(name: string, autostart: bool, job: Job)

  datatype Setup = Setup(network: string, disk: string, seed: string, router: L.Definition, items: seq<Item>)

  function ItemsOf(c: Config, vms: seq<Entry<Vm>>, pid: nat): seq<Item> {
    seq(|vms|, i requires 0 <= i < |vms| =>
          Item(vms[i].value.name, vms[i].value.autostart, JobOf(Creator(vms[i].value, pid, true), c)))
  }

  function SetupOf(c: Config, pid: nat): Setup {
    Setup(c.network.guestNetwork, ROUTER_DISK, ROUTER_SEED,
          L.Definition(ROUTER, JoinPath(c.storage.vmDir, ROUTER_DISK), Leases.ROUTER_MAC, c.network.guestNetwork, 1, 512),
          ItemsOf(c, c.vms, pid))
  }

  // Each VM has its own domain, none is the router's, and temporary names are no one's disk.
  ghost predicate Sound(u: Setup) {
    && u.disk != u.seed
    && (forall i :: 0 <= i < |u.items| ==>
          && u.items[i].job.definition.name == u.items[i].name != u.router.name
          && u.items[i].job.temp != u.disk && u.items[i].job.temp != u.seed)
    && (forall i, j :: 0 <= i < j < |u.items| ==>
          u.items[i].name != u.items[j].name && u.items[i].job.disk != u.items[j].job.disk)
    && (forall i, j :: 0 <= i < |u.items| && 0 <= j < |u.items| ==> u.items[i].job.temp != u.items[j].job.disk)
  }

  // Each domain has a disk of its own, and none is a file of the router.
  ghost predicate OwnDisks(u: Setup) {
    && (forall i :: 0 <= i < |u.items| ==>
          && u.items[i].job.disk != u.disk && u.items[i].job.disk != u.seed
          && u.items[i].job.definition.disk != u.router.disk)
    && (forall i, j :: 0 <= i < j < |u.items| ==>
          u.items[i].job.definition.disk != u.items[j].job.definition.disk)
  }

  // Validation forbids neither a VM of the router domain's name nor one of its disk's name. That there
  // is no such VM is exactly what keeps domains and disks apart.
  lemma ValidSetupIsApartIff(c: Config, pid: nat)
    requires WellFormed(c)
    ensures Sound(SetupOf(c, pid)) <==> forall e :: e in c.vms ==> e.key != ROUTER
    ensures OwnDisks(SetupOf(c, pid)) <==> forall e :: e in c.vms ==> e.key != ROUTER_DISK_NAME
  {
    if forall e :: e in c.vms ==> e.key != ROUTER {
      ValidSetupIsSound(c, pid);
    } else {
      var i :| 0 <= i < |c.vms| && c.vms[i].key == ROUTER;
      assert VmOk(c.network.guestSubnet, Keys(c.controllers), c.vms[i]);
      var u := SetupOf(c, pid);
      assert u.items[i].name == u.router.name;
    }
    if forall e :: e in c.vms ==> e.key != ROUTER_DISK_NAME {
      ValidSetupHasOwnDisks(c, pid);
    } else {
      var i :| 0 <= i < |c.vms| && c.vms[i].key == ROUTER_DISK_NAME;
      SharedRouterDisk(c, pid, i);
    }
  }

  // The failing input: a VM of that name gets the router's own disk file.
  lemma SharedRouterDisk(c: Config, pid: nat, i: nat)
    requires WellFormed(c) && i < |c.vms| && c.vms[i].key == ROUTER_DISK_NAME
    ensures var (u, item) := (SetupOf(c, pid), ItemsOf(c, c.vms, pid)[i]);
            u.items[i] == item && item.job.disk == u.disk && item.job.definition.disk == u.router.disk
  {
    assert VmOk(c.network.guestSubnet, Keys(c.controllers), c.vms[i]);
    DiskNamesDiffer(c.vms[i].value, c.vms[i].value);
  }

  lemma DiskNamesDiffer(a: Vm, b: Vm)
    ensures DiskName(a) == DiskName(b) <==> a.name == b.name
    ensures DiskName(a) == ROUTER_DISK <==> a.name == ROUTER_DISK_NAME
    ensures DiskName(a) != ROUTER_SEED
  {
    var (d, e) := (DiskName(a), DiskName(b));
    assert d[..|d| - 6] == a.name && e[..|e| - 6] == b.name;
    assert ROUTER_DISK == ROUTER_DISK_NAME + ".qcow2";
    assert (ROUTER_DISK_NAME + ".qcow2")[..|ROUTER_DISK_NAME|] == ROUTER_DISK_NAME;
    assert d[|d| - 1] == '2' && ROUTER_SEED[|ROUTER_SEED| - 1] == 'g';
  }

  lemma JoinPathInjective(dir: string, a: string, b: string)
    ensures JoinPath(dir, a) == JoinPath(dir, b) <==> a == b
  {
    var slash := dir != "" && dir[|dir| - 1] == '/';
    var front := if slash then dir else dir + "/";
    assert JoinPath(dir, a) == front + a && JoinPath(dir, b) == front + b;
    assert (front + a)[|front|..] == a && (front + b)[|front|..] == b;
  }

  lemma ValidSetupHasOwnDisks(c: Config, pid: nat)
    requires WellFormed(c) && forall e :: e in c.vms ==> e.key != ROUTER_DISK_NAME
    ensures OwnDisks(SetupOf(c, pid))
  {
    KeysDistinct(c.vms);
    var u := SetupOf(c, pid);
    forall i | 0 <= i < |u.items|
      ensures u.items[i].job.disk == DiskName(c.vms[i].value) && c.vms[i].value.name == c.vms[i].key
      ensures u.items[i].job.disk != u.disk && u.items[i].job.disk != u.seed
      ensures u.items[i].job.definition.disk == JoinPath(c.storage.vmDir, u.items[i].job.disk) != u.router.disk
    {
      assert c.vms[i] in c.vms && VmOk(c.network.guestSubnet, Keys(c.controllers), c.vms[i]);
      DiskNamesDiffer(c.vms[i].value, c.vms[i].value);
      JoinPathInjective(c.storage.vmDir, DiskName(c.vms[i].value), ROUTER_DISK);
    }
    forall i, j | 0 <= i < j < |u.items|
      ensures u.items[i].job.definition.disk != u.items[j].job.definition.disk
    {
      DiskNamesDiffer(c.vms[i].value, c.vms[j].value);
      JoinPathInjective(c.storage.vmDir, u.items[i].job.disk, u.items[j].job.disk);
    }
  }

  lemma ValidSetupIsSound(c: Config, pid: nat)
    requires WellFormed(c) && forall e :: e in c.vms ==> e.key != ROUTER
    ensures Sound(SetupOf(c, pid))
  {
    KeysDistinct(c.vms);
    var u := SetupOf(c, pid);
    forall i | 0 <= i < |u.items|
      ensures u.items[i].job.definition.name == u.items[i].name != u.router.name && u.items[i].name == c.vms[i].key
      ensures u.items[i].job.temp != u.disk && u.items[i].job.temp != u.seed
    {
      assert VmOk(c.network.guestSubnet, Keys(c.controllers), c.vms[i]);
      var vm := c.vms[i].value;
      TempNeverDisk(vm, pid, vm.(name := "tailnet-router"));
      assert ROUTER_DISK == DiskName(vm.(name := "tailnet-router"));
      var t := TempName(vm, pid);
      assert t[|t| - 1] == Decimal(pid)[|Decimal(pid)| - 1];
    }
    forall i, j | 0 <= i < |u.items| && 0 <= j < |u.items|
      ensures u.items[i].job.temp != u.items[j].job.disk
      ensures i != j ==> u.items[i].job.disk != u.items[j].job.disk
    {
      TempNeverDisk(c.vms[i].value, pid, c.vms[j].value);
      DiskNamesDiffer(c.vms[i].value, c.vms[j].value);
    }
  }

  /* ---- commands ---- */

  datatype Order =
    | NetDefine(net: string)
    | NetAutostart(net: string)
    | NetInfo(net: string)
    | NetStart(net: string)
    | DefineRouter(router: L.Definition)
    | Autostart(name: string, on: bool)
    | DomState(name: string)
    | StartDomain(name: string)

  datatype Reply = Nothing | NetActive(yes: bool) | State(raw: L.Raw)

  datatype Error =
    | Lock
    | IoFailed
    | MissingRouterArtifact(path: string)
    | Virsh(order: Order)
    | Android(name: string, error: ProvisionError)

  predicate Known(e: Estate, name: string) { name in e.domains && e.domains[name].definition.Some? }

  // What libvirt does with an order that reaches it; None is a refusal.
  function Effect(e: Estate, o: Order): Option<(Reply, Estate)> {
    match o
    case NetDefine(n) =>
      Some((Nothing, e.(networks := e.networks[n := if n in e.networks then e.networks[n] else Net(false, false)])))
    case NetAutostart(n) =>
      if n in e.networks then Some((Nothing, e.(networks := e.networks[n := e.networks[n].(autostart := true)]))) else None
    case NetInfo(n) => if n in e.networks then Some((NetActive(e.networks[n].active), e)) else None
    case NetStart(n) =>
      if n in e.networks && !e.networks[n].active then
        Some((Nothing, e.(networks := e.networks[n := e.networks[n].(active := true)])))
      else None
    case DefineRouter(d) => Some((Nothing, e.(domains := Defined(e.domains, d))))
    case Autostart(n, on) =>
      if Known(e, n) then Some((Nothing, e.(domains := e.domains[n := e.domains[n].(autostart := on)]))) else None
    case DomState(n) => if Known(e, n) then Some((State(e.domains[n].raw), e)) else None
    case StartDomain(n) =>
      if Known(e, n) && !L.Active(e.domains[n].raw) then
        Some((Nothing, e.(domains := e.domains[n := L.Execute(e.domains[n], L.Start).1])))
      else None
  }

  function Call(o: Order, m: Machine, fates: Fates): (Result<Reply, Error>, Machine) {
    var f := fates(m.pos);
    var r := Effect(m.estate, o);
    if f == NotRun then (Err(IoFailed), Machine(m.estate, m.pos + 1))
    else if f != Fine || r.None? then (Err(Virsh(o)), Machine(m.estate, m.pos + 1))
    else (Ok(r.value.0), Machine(r.value.1, m.pos + 1))
  }

  /* ---- the stages ---- */

  type Staged = (Result<(), Error>, Machine)

  // Running some orders, one after another, until one fails.
  function CallAll(orders: seq<Order>, m: Machine, fates: Fates): Staged {
    if orders == [] then (Ok(()), m)
    else
      var (r, m') := Call(orders[0], m, fates);
      if r.Err? then (Err(r.error), m') else CallAll(orders[1..], m', fates)
  }

  lemma CallAllCons(o: Order, rest: seq<Order>, m: Machine, fates: Fates)
    ensures var (r, m') := Call(o, m, fates);
            CallAll([o] + rest, m, fates) == if r.Err? then (Err(r.error), m') else CallAll(rest, m', fates)
  {
    assert ([o] + rest)[1..] == rest;
  }

  // Start a domain unless `domstate` prints exactly "running": idle and blocked domains are started too.
  function KeepRunning(name: string, m: Machine, fates: Fates): Staged {
    var (r, m') := Call(DomState(name), m, fates);
    if r.Err? then (Err(r.error), m')
    else if r.value == State(L.Running) then (Ok(()), m')
    else CallAll([StartDomain(name)], m', fates)
  }

  function NetworkStage(u: Setup, m: Machine, fates: Fates): Staged {
    var (r, m') := CallAll([NetDefine(u.network), NetAutostart(u.network)], m, fates);
    if r.Err? then (r, m')
    else
      var (info, m'') := Call(NetInfo(u.network), m', fates);
      if info.Err? then (Err(info.error), m'')
      else if info.value == NetActive(true) then (Ok(()), m'')
      else CallAll([NetStart(u.network)], m'', fates)
  }

  function Require(path: string, m: Machine, fates: Fates): Staged {
    (if Sees(m.estate, path, fates(m.pos)) then Ok(()) else Err(MissingRouterArtifact(path)), Machine(m.estate, m.pos + 1))
  }

  function RouterStage(u: Setup, m: Machine, fates: Fates): Staged {
    var (r1, m1) := Require(u.disk, m, fates);
    if r1.Err? then (r1, m1)
    else
      var (r2, m2) := Require(u.seed, m1, fates);
      if r2.Err? then (r2, m2) else RouterUp(u, m2, fates)
  }

  function RouterUp(u: Setup, m: Machine, fates: Fates): Staged {
    var (r, m') := CallAll([DefineRouter(u.router), Autostart(u.router.name, true)], m, fates);
    if r.Err? then (r, m') else KeepRunning(u.router.name, m', fates)
  }

  // What a VM's row says: how its disk was found, or why it failed.
  type RowResult = Result<Ensured, Error>

  function ItemStage(site: Site, item: Item, m: Machine, fates: Fates): (RowResult, Machine) {
    var (d, m1) := Ensure(site, item.job, m, fates);
    if d.Err? then (Err(Android(item.name, d.error)), m1)
    else
      var (r, m2) := CallAll([Autostart(item.name, item.autostart)], m1, fates);
      if r.Err? then (Err(r.error), m2)
      else if !item.autostart then (Ok(d.value), m2)
      else
        var (s, m3) := KeepRunning(item.name, m2, fates);
        (if s.Err? then Err(s.error) else Ok(d.value), m3)
  }

  datatype Line = NetworkReady(name: string) | RouterRunning | VmLine(name: string, autostart: bool, result: RowResult)

  datatype Report = Report(lines: seq<Line>, failed: bool)

  // One VM's failure does not keep the others from being handled.
  function ItemsStage(site: Site, items: seq<Item>, m: Machine, fates: Fates): (seq<Line>, Machine) {
    if items == [] then ([], m)
    else
      var item := items[|items| - 1];
      var (lines, m') := ItemsStage(site, items[..|items| - 1], m, fates);
      var (r, m'') := ItemStage(site, item, m', fates);
      (lines + [VmLine(item.name, item.autostart, r)], m'')
  }

  predicate IsFailure(l: Line) { l.VmLine? && l.result.Err? }

  predicate AnyFailed(lines: seq<Line>) { exists l :: l in lines && IsFailure(l) }

  lemma ItemsSnoc(site: Site, items: seq<Item>, item: Item, m: Machine, fates: Fates)
    ensures var (lines, m') := ItemsStage(site, items, m, fates);
            var (r, m'') := ItemStage(site, item, m', fates);
            ItemsStage(site, items + [item], m, fates) == (lines + [VmLine(item.name, item.autostart, r)], m'')
  {
    assert (items + [item])[..|items|] == items;
  }

  lemma FailedSnoc(lines: seq<Line>, line: Line)
    ensures AnyFailed(lines + [line]) <==> AnyFailed(lines) || IsFailure(line)
  {
    assert forall l :: l in lines + [line] <==> l in lines || l == line;
  }

  // With the router stage done, the VMs; with the network stage done, the router and the VMs.
  function WithRouter(site: Site, u: Setup, router: Staged, fates: Fates): (Result<Report, Error>, Machine) {
    if router.0.Err? then (Err(router.0.error), router.1)
    else
      var (rows, m) := ItemsStage(site, u.items, router.1, fates);
      (Ok(Report([NetworkReady(u.network), RouterRunning] + rows, AnyFailed(rows))), m)
  }

  function WithNetwork(site: Site, u: Setup, net: Staged, fates: Fates): (Result<Report, Error>, Machine) {
    if net.0.Err? then (Err(net.0.error), net.1)
    else WithRouter(site, u, RouterStage(u, net.1, fates), fates)
  }

  // The directory and the lock file come first; a lock already held ends the run.
  function Reconciled(site: Site, u: Setup, locked: bool, m: Machine, fates: Fates): (Result<Report, Error>, Machine) {
    if fates(m.pos) != Fine then (Err(IoFailed), Machine(m.estate, m.pos + 1))
    else if fates(m.pos + 1) != Fine then (Err(IoFailed), Machine(m.estate, m.pos + 2))
    else if locked then (Err(Lock), Machine(m.estate, m.pos + 2))
    else WithNetwork(site, u, NetworkStage(u, Machine(m.estate, m.pos + 2), fates), fates)
  }

  /* ---- as the manager runs it ---- */

  class Reconciler {
    const manager: Manager
    var locked: bool

    constructor (m: Manager, l: bool)
      ensures manager == m && locked == l
    {
      manager := m;
      locked := l;
    }

    method Command(o: Order) returns (r: Result<Reply, Error>)
      modifies manager
      ensures (r, manager.Now()) == Call(o, old(manager.Now()), manager.fates)
    {
      var f := manager.Attempt();
      if f == NotRun {
        return Err(IoFailed);
      }
      var effect := Effect(manager.estate, o);
      if f != Fine || effect.None? {
        return Err(Virsh(o));
      }
      manager.estate := effect.value.1;
      r := Ok(effect.value.0);
    }

    method Commands(orders: seq<Order>) returns (r: Result<(), Error>)
      modifies manager
      ensures (r, manager.Now()) == CallAll(orders, old(manager.Now()), manager.fates)
    {
      var i := 0;
      while i < |orders|
        invariant i <= |orders|
        invariant CallAll(orders[i..], manager.Now(), manager.fates) == CallAll(orders, old(manager.Now()), manager.fates)
      {
        assert orders[i..][0] == orders[i] && orders[i..][1..] == orders[i + 1..];
        var one := Command(orders[i]);
        if one.Err? {
          return Err(one.error);
        }
        i := i + 1;
      }
      r := Ok(());
    }

    method KeepUp(name: string) returns (r: Result<(), Error>)
      modifies manager
      ensures (r, manager.Now()) == KeepRunning(name, old(manager.Now()), manager.fates)
    {
      var state := Command(DomState(name));
      if state.Err? {
        return Err(state.error);
      }
      if state.value != State(L.Running) {
        r := Commands([StartDomain(name)]);
      } else {
        r := Ok(());
      }
    }

    method Network(u: Setup) returns (r: Result<(), Error>)
      modifies manager
      ensures (r, manager.Now()) == NetworkStage(u, old(manager.Now()), manager.fates)
    {
      r := Commands([NetDefine(u.network), NetAutostart(u.network)]);
      if r.Err? {
        return;
      }
      var info := Command(NetInfo(u.network));
      if info.Err? {
        return Err(info.error);
      }
      if info.value != NetActive(true) {
        r := Commands([NetStart(u.network)]);
      } else {
        r := Ok(());
      }
    }

    method RequireFile(path: string) returns (r: Result<(), Error>)
      modifies manager
      ensures (r, manager.Now()) == Require(path, old(manager.Now()), manager.fates)
    {
      var f := manager.Attempt();
      r := if Sees(manager.estate, path, f) then Ok(()) else Err(MissingRouterArtifact(path));
    }

    method Router(u: Setup) returns (r: Result<(), Error>)
      modifies manager
      ensures (r, manager.Now()) == RouterStage(u, old(manager.Now()), manager.fates)
    {
      r := RequireFile(u.disk);
      if r.Err? {
        return;
      }
      r := RequireFile(u.seed);
      if r.Err? {
        return;
      }
      r := Commands([DefineRouter(u.router), Autostart(u.router.name, true)]);
      if r.Err? {
        return;
      }
      r := KeepUp(u.router.name);
    }

    method ReconcileVm(item: Item) returns (r: RowResult)
      modifies manager
      ensures (r, manager.Now()) == ItemStage(manager.site, item, old(manager.Now()), manager.fates)
    {
      var ensured := manager.EnsureVm(item.job);
      if ensured.Err? {
        return Err(Android(item.name, ensured.error));
      }
      var enabled := Commands([Autostart(item.name, item.autostart)]);
      if enabled.Err? {
        return Err(enabled.error);
      }
      if item.autostart {
        var up := KeepUp(item.name);
        if up.Err? {
          return Err(up.error);
        }
      }
      r := Ok(ensured.value);
    }

    // The rows of all VMs, and whether one of them failed.
    method Vms(items: seq<Item>) returns (lines: seq<Line>, failed: bool)
      modifies manager
      ensures (lines, manager.Now()) == ItemsStage(manager.site, items, old(manager.Now()), manager.fates)
      ensures failed == AnyFailed(lines)
    {
      lines, failed := [], false;
      for i := 0 to |items|
        invariant (lines, manager.Now()) == ItemsStage(manager.site, items[..i], old(manager.Now()), manager.fates)
        invariant failed == AnyFailed(lines)
      {
        ItemsSnoc(manager.site, items[..i], items[i], old(manager.Now()), manager.fates);
        var row := ReconcileVm(items[i]);
        var line := VmLine(items[i].name, items[i].autostart, row);
        assert items[..i + 1] == items[..i] + [items[i]];
        FailedSnoc(lines, line);
        failed := failed || row.Err?;
        lines := lines + [line];
      }
      assert items[..|items|] == items;
    }

    // Whichever way a run ends, a lock it took is free again.
    method Reconcile(u: Setup) returns (r: Result<Report, Error>)
      modifies this`locked, manager
      ensures (r, manager.Now()) == Reconciled(manager.site, u, old(locked), old(manager.Now()), manager.fates)
      ensures locked == old(locked)
    {
      var dir := manager.Attempt();
      if dir != Fine {
        return Err(IoFailed);
      }
      var file := manager.Attempt();
      if file != Fine {
        return Err(IoFailed);
      }
      if locked {
        return Err(Lock);
      }
      locked := true;
      var net := Network(u);
      if net.Err? {
        locked := false;
        return Err(net.error);
      }
      var router := Router(u);
      if router.Err? {
        locked := false;
        return Err(router.error);
      }
      var rows, failed := Vms(u.items);
      locked := false;
      r := Ok(Report([NetworkReady(u.network), RouterRunning] + rows, failed));
    }
  }
}
