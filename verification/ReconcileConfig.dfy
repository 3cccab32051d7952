/** What a reconciliation does to the VMs of a configuration, said of the configuration itself. */
module ReconcileConfig {
  import opened Wrappers
  import opened Text
  import opened Config
  import opened Provision
  import opened Provisioner
  import opened Reconcile
  import opened ReconcileProperties
  import opened ReconcileSuccess
  import L = Libvirt
  import Leases

  /* ---- what is asked for ---- */

  predicate RouterAsked(c: Config, d: L.Definition) {
    && d.name == "tailnet-android-router" && d.network == c.network.guestNetwork && d.mac == "52:54:00:00:00:02"
    && d.vcpus == 1 && d.memoryMib == 512 && InDirectory(c.storage.vmDir, "tailnet-router.qcow2", d.disk)
  }

  predicate ItemAsked(c: Config, pid: nat, e: Entry<Vm>, item: Item) {
    item.name == e.key == e.value.name && item.autostart == e.value.autostart && WorksOn(c, e.value, pid, item.job)
  }

  // One item per configured VM, in order, made of the fields of that VM and nothing else.
  ghost predicate Follows(c: Config, pid: nat, u: Setup) {
    && u.network == c.network.guestNetwork && RouterAsked(c, u.router)
    && u.disk == "tailnet-router.qcow2" && u.seed == "tailnet-router-seed.img"
    && |u.items| == |c.vms| && forall i :: 0 <= i < |c.vms| ==> ItemAsked(c, pid, c.vms[i], u.items[i])
  }

  lemma SetupFollowsConfig(c: Config, pid: nat)
    requires WellFormed(c)
    ensures Follows(c, pid, SetupOf(c, pid))
  {
    forall i | 0 <= i < |c.vms|
      ensures ItemAsked(c, pid, c.vms[i], SetupOf(c, pid).items[i])
    {
      assert VmOk(c.network.guestSubnet, Keys(c.controllers), c.vms[i]);
      JobFollowsConfig(Creator(c.vms[i].value, pid, true), c);
    }
  }

  // The VM has its disk, its domain is defined as configured and starts at boot or not as configured, and
  // runs if it is to.
  predicate VmAsAsked(c: Config, e: Entry<Vm>, w: Estate) {
    && e.key + ".qcow2" in w.files && e.key in w.domains
    && var d := w.domains[e.key];
       && d.definition.Some? && DefinedAs(c, e.value, d.definition.value)
       && d.autostart == e.value.autostart && (e.value.autostart ==> d.raw == L.Running)
  }

  predicate NetworkAsAsked(c: Config, w: Estate) {
    c.network.guestNetwork in w.networks && w.networks[c.network.guestNetwork] == Net(true, true)
  }

  predicate RouterAsAsked(c: Config, w: Estate) {
    && "tailnet-router.qcow2" in w.files && "tailnet-router-seed.img" in w.files
    && "tailnet-android-router" in w.domains
    && var d := w.domains["tailnet-android-router"];
       d.definition.Some? && RouterAsked(c, d.definition.value) && d.autostart && d.raw == L.Running
  }

  lemma DoneIsAsAsked(c: Config, pid: nat, e: Entry<Vm>, item: Item, w: Estate)
    requires ItemAsked(c, pid, e, item) && VmDone(item, w)
    ensures VmAsAsked(c, e, w)
  {
  }

  lemma RouterDoneIsAsAsked(c: Config, u: Setup, w: Estate)
    requires RouterAsked(c, u.router) && u.disk == "tailnet-router.qcow2" && u.seed == "tailnet-router-seed.img"
    requires RouterDone(u, w)
    ensures RouterAsAsked(c, w)
  {
  }

  ghost predicate NoRouterVm(c: Config) { forall e :: e in c.vms ==> e.key != "tailnet-android-router" }

  /* ---- power: only a VM that is to run is ever started ---- */

  predicate PowerKept(item: Item, a: Estate, b: Estate) {
    RawThen(b, item.name) == RawThen(a, item.name) || (item.autostart && RawThen(b, item.name) == L.Running)
  }

  lemma CallKeepsPower(o: Order, name: string, m: Machine, fates: Fates)
    requires About(o, name) && !o.StartDomain?
    ensures RawThen(Call(o, m, fates).1.estate, name) == RawThen(m.estate, name)
  {
  }

  lemma KeepRunningPower(name: string, m: Machine, fates: Fates)
    ensures var b := KeepRunning(name, m, fates).1.estate;
            RawThen(b, name) == RawThen(m.estate, name) || RawThen(b, name) == L.Running
  {
    CallKeepsPower(DomState(name), name, m, fates);
    CallOne(StartDomain(name), Call(DomState(name), m, fates).1, fates);
  }

  lemma EnsureKeepsPower(site: Site, item: Item, m: Machine, fates: Fates)
    requires item.job.disk != item.job.temp && item.job.definition.name == item.name
    ensures RawThen(Ensure(site, item.job, m, fates).1.estate, item.name) == RawThen(m.estate, item.name)
  {
    var m1 := Machine(m.estate, m.pos + 1);
    EnsureIs(site, item.job, m, fates);
    if !Sees(m.estate, item.job.disk, fates(m.pos)) {
      CompleteAlong(site, item.job, CheckBase, m.estate, m1, fates);
      var (r, m') := Complete(site, item.job, CheckBase, m1, fates);
      OutcomeKeepsPower(site, item, r, m.estate, m'.estate);
    }
  }

  lemma OutcomeKeepsPower(site: Site, item: Item, r: Created, a: Estate, b: Estate)
    requires Outcome(site, item.job, r, a, b) && item.job.definition.name == item.name
    ensures RawThen(b, item.name) == RawThen(a, item.name)
  {
  }

  lemma ItemStagePower(site: Site, item: Item, m: Machine, fates: Fates)
    requires item.job.disk != item.job.temp && item.job.definition.name == item.name
    ensures PowerKept(item, m.estate, ItemStage(site, item, m, fates).1.estate)
  {
    EnsureKeepsPower(site, item, m, fates);
    var m1 := Ensure(site, item.job, m, fates).1;
    var o := Autostart(item.name, item.autostart);
    CallKeepsPower(o, item.name, m1, fates);
    CallOne(o, m1, fates);
    KeepRunningPower(item.name, CallAll([o], m1, fates).1, fates);
  }

  ghost predicate AllPowerKept(items: seq<Item>, a: Estate, b: Estate) {
    forall i :: 0 <= i < |items| ==> PowerKept(items[i], a, b)
  }

  lemma {:induction false} ItemsStagePower(site: Site, items: seq<Item>, m: Machine, fates: Fates)
    requires SoundItems(items)
    ensures AllPowerKept(items, m.estate, ItemsStage(site, items, m, fates).1.estate)
  {
    if items != [] {
      var front, last := items[..|items| - 1], items[|items| - 1];
      SoundPrefix(items);
      ItemsStagePower(site, front, m, fates);
      ItemsStageWorks(site, front, m, fates);
      var m1 := ItemsStage(site, front, m, fates).1;
      ItemStagePower(site, last, m1, fates);
      ItemStageWorks(site, last, m1, fates);
      PowerSnoc(items, m.estate, m1.estate, ItemStage(site, last, m1, fates).1.estate);
    }
  }

  lemma PowerSnoc(items: seq<Item>, a: Estate, b: Estate, c: Estate)
    requires SoundItems(items) && items != [] && AllPowerKept(items[..|items| - 1], a, b)
    requires Gentle(NamesOf(items[..|items| - 1]), TempsOf(items[..|items| - 1]), a, b)
    requires Gentle({items[|items| - 1].name}, {items[|items| - 1].job.temp}, b, c)
    requires PowerKept(items[|items| - 1], b, c)
    ensures AllPowerKept(items, a, c)
  {
    var front, last := items[..|items| - 1], items[|items| - 1];
    assert last.name !in NamesOf(front);
    forall i | 0 <= i < |front|
      ensures PowerKept(items[i], a, c)
    {
      assert front[i] == items[i] && PowerKept(front[i], a, b) && items[i].name != last.name;
    }
  }

  /* ---- disks: which VMs had none ---- */

  lemma ItemStageDisk(site: Site, item: Item, m: Machine, fates: Fates)
    requires item.job.disk != item.job.temp && item.job.definition.name == item.name
    ensures var (r, m') := ItemStage(site, item, m, fates);
            && (r.Ok? ==> (r.value == NewDisk <==> item.job.disk !in m.estate.files))
            && WritesOnly({item.job.disk, item.job.temp}, m.estate, m'.estate)
  {
    EnsureDisk(site, item, m, fates);
    var m1 := Ensure(site, item.job, m, fates).1;
    var o := Autostart(item.name, item.autostart);
    CallIsGentle(o, item.name, m1, fates);
    CallOne(o, m1, fates);
    KeepRunningWorks(item.name, CallAll([o], m1, fates).1, fates);
  }

  predicate WritesOnly(paths: set<string>, a: Estate, b: Estate) {
    && (forall f :: f in a.files && f !in paths ==> f in b.files)
    && (forall f :: f in b.files && f !in paths ==> f in a.files)
  }

  lemma EnsureDisk(site: Site, item: Item, m: Machine, fates: Fates)
    requires item.job.disk != item.job.temp && item.job.definition.name == item.name
    ensures var (r, m') := Ensure(site, item.job, m, fates);
            && (r.Ok? ==> (r.value == NewDisk <==> item.job.disk !in m.estate.files))
            && WritesOnly({item.job.disk, item.job.temp}, m.estate, m'.estate)
  {
    EnsureIs(site, item.job, m, fates);
    if !Sees(m.estate, item.job.disk, fates(m.pos)) {
      CompleteAlong(site, item.job, CheckBase, m.estate, Machine(m.estate, m.pos + 1), fates);
    }
  }

  // Each row without an error says Created exactly when its VM had no disk before the run.
  ghost predicate DisksTold(items: seq<Item>, lines: seq<Line>, a: Estate) {
    && |lines| == |items|
    && forall i :: 0 <= i < |items| && lines[i].VmLine? && lines[i].result.Ok? ==>
                     (lines[i].result.value == NewDisk <==> items[i].job.disk !in a.files)
  }

  lemma {:induction false} ItemsStageDisks(site: Site, items: seq<Item>, m: Machine, fates: Fates)
    requires SoundItems(items)
    ensures var (lines, m') := ItemsStage(site, items, m, fates);
            DisksTold(items, lines, m.estate) && WritesOnly(DisksOf(items) + TempsOf(items), m.estate, m'.estate)
  {
    if items != [] {
      var front, last := items[..|items| - 1], items[|items| - 1];
      SoundPrefix(items);
      ItemsStageDisks(site, front, m, fates);
      var (lines, m1) := ItemsStage(site, front, m, fates);
      ItemStageDisk(site, last, m1, fates);
      PathsSnoc(items);
      assert last.job.disk !in DisksOf(front) && last.job.disk !in TempsOf(front);
      assert forall i :: 0 <= i < |front| ==> front[i] == items[i];
    }
  }

  lemma PathsSnoc(items: seq<Item>)
    requires items != []
    ensures var front, last := items[..|items| - 1], items[|items| - 1];
            && DisksOf(front) + TempsOf(front) <= DisksOf(items) + TempsOf(items)
            && {last.job.disk, last.job.temp} <= DisksOf(items) + TempsOf(items)
  {
    var front := items[..|items| - 1];
    assert forall i :: 0 <= i < |front| ==> front[i] == items[i];
  }

  /* ---- the whole run ---- */

  // What a run that ends with `out` leaves of each VM's power, and what its report says of each VM's disk.
  ghost predicate Told(u: Setup, a: Estate, out: (Result<Report, Error>, Machine)) {
    && AllPowerKept(u.items, a, out.1.estate)
    && (out.0.Ok? ==> |out.0.value.lines| >= 2 && DisksTold(u.items, out.0.value.lines[2..], a))
  }

  lemma WithRouterTells(site: Site, u: Setup, router: Staged, fates: Fates)
    requires Sound(u)
    ensures Told(u, router.1.estate, WithRouter(site, u, router, fates))
  {
    SoundHasSoundItems(u);
    ItemsStagePower(site, u.items, router.1, fates);
    ItemsStageDisks(site, u.items, router.1, fates);
    if router.0.Ok? {
      var rows := ItemsStage(site, u.items, router.1, fates).0;
      assert ([NetworkReady(u.network), RouterRunning] + rows)[2..] == rows;
    }
  }

  lemma ToldFrom(u: Setup, a: Estate, b: Estate, out: (Result<Report, Error>, Machine))
    requires Told(u, b, out) && a.files == b.files
    requires forall i :: 0 <= i < |u.items| ==> RawThen(b, u.items[i].name) == RawThen(a, u.items[i].name)
    ensures Told(u, a, out)
  {
    forall i | 0 <= i < |u.items|
      ensures PowerKept(u.items[i], a, out.1.estate)
    {
      assert PowerKept(u.items[i], b, out.1.estate);
    }
  }

  lemma WithNetworkTells(site: Site, u: Setup, net: Staged, fates: Fates)
    requires Sound(u)
    ensures Told(u, net.1.estate, WithNetwork(site, u, net, fates))
  {
    if net.0.Ok? {
      var router := RouterStage(u, net.1, fates);
      RouterStageWorks(u, net.1, fates);
      RouterKeepsFiles(u, net.1, fates);
      WithRouterTells(site, u, router, fates);
      ToldFrom(u, net.1.estate, router.1.estate, WithRouter(site, u, router, fates));
    }
  }

  lemma RunTells(site: Site, u: Setup, locked: bool, m: Machine, fates: Fates)
    requires Sound(u)
    ensures Told(u, m.estate, Reconciled(site, u, locked, m, fates))
  {
    RunUnfolds(site, u, locked, m, fates);
    var out := Reconciled(site, u, locked, m, fates);
    if !(out.0.Err? && out.1.estate == m.estate) {
      var net := NetworkStage(u, Machine(m.estate, m.pos + 2), fates);
      NetworkStageWorks(u, Machine(m.estate, m.pos + 2), fates);
      WithNetworkTells(site, u, net, fates);
      ToldFrom(u, m.estate, net.1.estate, out);
    }
  }

  // From any world, a run that reports no failure leaves every configured VM defined, started at boot and
  // running as its own entry of the configuration says.
  lemma UnfailedRunFollowsConfig(site: Site, c: Config, pid: nat, locked: bool, m: Machine, fates: Fates)
    requires WellFormed(c) && NoRouterVm(c)
    ensures var (r, m') := Reconciled(site, SetupOf(c, pid), locked, m, fates);
            r.Ok? && !r.value.failed ==> HostAsAsked(c, m'.estate)
  {
    var u := SetupOf(c, pid);
    ValidSetupIsApartIff(c, pid);
    SetupFollowsConfig(c, pid);
    UnfailedRunReachesDesired(site, u, locked, m, fates);
    if Desired(u, Reconciled(site, u, locked, m, fates).1.estate) {
      DesiredIsAsAsked(c, pid, u, Reconciled(site, u, locked, m, fates).1.estate);
    }
  }

  ghost predicate HostAsAsked(c: Config, w: Estate) {
    NetworkAsAsked(c, w) && RouterAsAsked(c, w) && forall e :: e in c.vms ==> VmAsAsked(c, e, w)
  }

  lemma DesiredIsAsAsked(c: Config, pid: nat, u: Setup, w: Estate)
    requires Follows(c, pid, u) && Desired(u, w)
    ensures HostAsAsked(c, w)
  {
    RouterDoneIsAsAsked(c, u, w);
    forall e | e in c.vms
      ensures VmAsAsked(c, e, w)
    {
      var i :| 0 <= i < |c.vms| && c.vms[i] == e;
      assert VmDone(u.items[i], w);
      DoneIsAsAsked(c, pid, e, u.items[i], w);
    }
  }

  ghost predicate PowerFollows(c: Config, a: Estate, b: Estate) {
    forall e :: e in c.vms ==>
      RawThen(b, e.key) == RawThen(a, e.key) || (e.value.autostart && RawThen(b, e.key) == L.Running)
  }

  lemma ToldPowerFollows(c: Config, pid: nat, u: Setup, a: Estate, out: (Result<Report, Error>, Machine))
    requires Follows(c, pid, u) && Told(u, a, out)
    ensures PowerFollows(c, a, out.1.estate)
  {
    forall e | e in c.vms
      ensures || RawThen(out.1.estate, e.key) == RawThen(a, e.key)
              || (e.value.autostart && RawThen(out.1.estate, e.key) == L.Running)
    {
      var i :| 0 <= i < |c.vms| && c.vms[i] == e;
      assert ItemAsked(c, pid, c.vms[i], u.items[i]) && PowerKept(u.items[i], a, out.1.estate);
    }
  }

  // However a run ends, a VM that is not to start at boot is found and left in the same power state, and
  // one that is to is left as found or running.
  lemma PowerFollowsConfig(site: Site, c: Config, pid: nat, locked: bool, m: Machine, fates: Fates)
    requires WellFormed(c) && NoRouterVm(c)
    ensures PowerFollows(c, m.estate, Reconciled(site, SetupOf(c, pid), locked, m, fates).1.estate)
  {
    var u := SetupOf(c, pid);
    ValidSetupIsApartIff(c, pid);
    SetupFollowsConfig(c, pid);
    RunTells(site, u, locked, m, fates);
    ToldPowerFollows(c, pid, u, m.estate, Reconciled(site, u, locked, m, fates));
  }

  // The line of a VM: its name, its flag, and, if it is no error, that the VM is as asked and whether its
  // disk had to be made.
  predicate LineTrue(c: Config, e: Entry<Vm>, l: Line, a: Estate, b: Estate) {
    && l.VmLine? && l.name == e.key && l.autostart == e.value.autostart
    && (l.result.Ok? ==>
          VmAsAsked(c, e, b) && (l.result.value == NewDisk <==> e.key + ".qcow2" !in a.files))
  }

  // A report names the configured network, then has one line per configured VM, in order, each true of it.
  lemma ReportFollowsConfig(site: Site, c: Config, pid: nat, locked: bool, m: Machine, fates: Fates)
    requires WellFormed(c) && NoRouterVm(c)
    ensures var (r, m') := Reconciled(site, SetupOf(c, pid), locked, m, fates);
            r.Ok? ==>
              var lines := r.value.lines;
              && |lines| == |c.vms| + 2 && lines[0] == NetworkReady(c.network.guestNetwork) && lines[1] == RouterRunning
              && (forall i :: 0 <= i < |c.vms| ==> LineTrue(c, c.vms[i], lines[i + 2], m.estate, m'.estate))
              && (r.value.failed <==> exists i :: 2 <= i < |lines| && lines[i].VmLine? && lines[i].result.Err?)
  {
    var u := SetupOf(c, pid);
    ValidSetupIsApartIff(c, pid);
    SetupFollowsConfig(c, pid);
    RunTells(site, u, locked, m, fates);
    ReportIsTrue(site, u, locked, m, fates);
    var (r, m') := Reconciled(site, u, locked, m, fates);
    if r.Ok? {
      forall i | 0 <= i < |c.vms|
        ensures LineTrue(c, c.vms[i], r.value.lines[i + 2], m.estate, m'.estate)
      {
        assert r.value.lines[2..][i] == r.value.lines[i + 2];
        LineFollows(c, pid, c.vms[i], u.items[i], r.value.lines[i + 2], m.estate, m'.estate);
      }
    }
  }

  lemma LineFollows(c: Config, pid: nat, e: Entry<Vm>, item: Item, l: Line, a: Estate, b: Estate)
    requires ItemAsked(c, pid, e, item)
    requires l.VmLine? && l.name == item.name && l.autostart == item.autostart
    requires l.result.Ok? ==> VmDone(item, b) && (l.result.value == NewDisk <==> item.job.disk !in a.files)
    ensures LineTrue(c, e, l, a, b)
  {
    if l.result.Ok? {
      DoneIsAsAsked(c, pid, e, item, b);
    }
  }

  /* ---- when nothing fails ---- */

  // The router's files are there, every VM has a disk or a usable base image with its temporary name free,
  // and no domain that is to run is active in another state.
  ghost predicate HostReady(site: Site, c: Config, pid: nat, w: Estate) {
    && "tailnet-router.qcow2" in w.files && "tailnet-router-seed.img" in w.files
    && Startable(w, "tailnet-android-router")
    && forall e :: e in c.vms ==> VmReady(site, e, pid, w)
  }

  predicate VmReady(site: Site, e: Entry<Vm>, pid: nat, w: Estate) {
    && (|| e.key + ".qcow2" in w.files
        || (e.value.baseImage in site.bases && site.bases[e.value.baseImage] == "qcow2"
            && "." + e.key + ".qcow2.tmp-" + Decimal(pid) !in w.files))
    && (e.value.autostart ==> Startable(w, e.key))
  }

  lemma ReadyFollows(site: Site, c: Config, pid: nat, u: Setup, w: Estate)
    requires Follows(c, pid, u)
    ensures Ready(site, u, w) <==> HostReady(site, c, pid, w)
  {
    forall i | 0 <= i < |c.vms|
      ensures ItemReady(site, u.items[i], w) <==> VmReady(site, c.vms[i], pid, w)
    {
      assert ItemAsked(c, pid, c.vms[i], u.items[i]);
    }
    if HostReady(site, c, pid, w) {
      assert forall i :: 0 <= i < |c.vms| ==> VmReady(site, c.vms[i], pid, w);
    }
    if Ready(site, u, w) {
      forall e | e in c.vms
        ensures VmReady(site, e, pid, w)
      {
        var i :| 0 <= i < |c.vms| && c.vms[i] == e;
        assert ItemReady(site, u.items[i], w);
      }
    }
  }

  // Exactly when a run in which no command goes wrong reports no failure.
  lemma FineRunFollowsConfigIff(site: Site, c: Config, pid: nat, m: Machine, fates: Fates)
    requires WellFormed(c) && NoRouterVm(c) && AllFine(fates)
    ensures var r := Reconciled(site, SetupOf(c, pid), false, m, fates).0;
            r.Ok? && !r.value.failed <==> HostReady(site, c, pid, m.estate)
  {
    var u := SetupOf(c, pid);
    ValidSetupIsApartIff(c, pid);
    SetupFollowsConfig(c, pid);
    FineRunSucceedsIff(site, u, m, fates);
    ReadyFollows(site, c, pid, u, m.estate);
  }
}
