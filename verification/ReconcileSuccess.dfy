/** When a reconciliation in which no command goes wrong reports no failure. */
module ReconcileSuccess {
  import opened Wrappers
  import opened Provision
  import opened Provisioner
  import opened Reconcile
  import opened ReconcileProperties
  import L = Libvirt

  // A domain that is to run can be brought to: it runs, or it is off. One that is idle, blocked or paused
  // is not "running", and starting it is refused.
  predicate Startable(e: Estate, name: string) {
    name in e.domains ==> e.domains[name].raw == L.Running || !L.Active(e.domains[name].raw)
  }

  predicate DiskReady(site: Site, job: Job, e: Estate) {
    job.disk in e.files || (UsableBase(site, job) && job.temp !in e.files)
  }

  predicate ItemReady(site: Site, item: Item, e: Estate) {
    DiskReady(site, item.job, e) && (item.autostart ==> Startable(e, item.name))
  }

  ghost predicate Ready(site: Site, u: Setup, e: Estate) {
    && u.disk in e.files && u.seed in e.files && Startable(e, u.router.name)
    && AllReady(site, u.items, e)
  }

  /* ---- one VM ---- */

  // The state a domain is in once it is defined.
  function RawThen(e: Estate, name: string): L.Raw {
    if name in e.domains then e.domains[name].raw else L.ShutOff
  }

  predicate SameFilesBut(path: string, a: Estate, b: Estate) {
    && (forall f :: f in a.files && f != path ==> f in b.files)
    && (forall f :: f in b.files && f != path ==> f in a.files)
  }

  lemma CreateFine(site: Site, item: Item, m: Machine, fates: Fates)
    requires AllFine(fates) && item.job.disk != item.job.temp && item.job.definition.name == item.name
    requires item.job.disk !in m.estate.files
    ensures var (r, m') := Complete(site, item.job, CheckBase, m, fates);
            && (r.Ok? <==> DiskReady(site, item.job, m.estate))
            && SameFilesBut(item.job.disk, m.estate, m'.estate)
            && (r.Ok? ==> Known(m'.estate, item.name) && m'.estate.domains[item.name].raw == RawThen(m.estate, item.name))
  {
    CreateResultWhenFine(site, item.job, m, fates);
    CompleteAlong(site, item.job, CheckBase, m.estate, m, fates);
  }

  lemma EnsureFine(site: Site, item: Item, m: Machine, fates: Fates)
    requires AllFine(fates) && item.job.disk != item.job.temp && item.job.definition.name == item.name
    ensures var (r, m') := Ensure(site, item.job, m, fates);
            && (r.Ok? <==> DiskReady(site, item.job, m.estate))
            && SameFilesBut(item.job.disk, m.estate, m'.estate)
            && (r.Ok? ==> Known(m'.estate, item.name) && m'.estate.domains[item.name].raw == RawThen(m.estate, item.name))
  {
    if item.job.disk !in m.estate.files {
      CreateFine(site, item, Machine(m.estate, m.pos + 1), fates);
    }
  }

  lemma CallFine(o: Order, m: Machine, fates: Fates)
    requires AllFine(fates)
    ensures var (r, m') := Call(o, m, fates);
            && (r.Ok? <==> Effect(m.estate, o).Some?)
            && (r.Ok? ==> (r.value, m'.estate) == Effect(m.estate, o).value)
            && (r.Err? ==> m'.estate == m.estate)
  {
  }

  lemma KeepRunningFine(name: string, m: Machine, fates: Fates)
    requires AllFine(fates) && Known(m.estate, name)
    ensures KeepRunning(name, m, fates).0.Ok? <==> Startable(m.estate, name)
    ensures KeepRunning(name, m, fates).1.estate.files == m.estate.files
  {
    CallFine(DomState(name), m, fates);
    var m1 := Call(DomState(name), m, fates).1;
    CallFine(StartDomain(name), m1, fates);
    CallOne(StartDomain(name), m1, fates);
  }

  lemma ItemFine(site: Site, item: Item, m: Machine, fates: Fates)
    requires AllFine(fates) && item.job.disk != item.job.temp && item.job.definition.name == item.name
    ensures var (r, m') := ItemStage(site, item, m, fates);
            (r.Ok? <==> ItemReady(site, item, m.estate)) && SameFilesBut(item.job.disk, m.estate, m'.estate)
  {
    EnsureFine(site, item, m, fates);
    var (d, m1) := Ensure(site, item.job, m, fates);
    if d.Ok? {
      var o := Autostart(item.name, item.autostart);
      CallFine(o, m1, fates);
      CallOne(o, m1, fates);
      KeepRunningFine(item.name, CallAll([o], m1, fates).1, fates);
    }
  }

  /* ---- all VMs ---- */

  function DisksOf(items: seq<Item>): set<string> { set i | 0 <= i < |items| :: items[i].job.disk }

  predicate SameFilesOutside(disks: set<string>, a: Estate, b: Estate) {
    && (forall f :: f in a.files && f !in disks ==> f in b.files)
    && (forall f :: f in b.files && f !in disks ==> f in a.files)
  }

  lemma LastReady(site: Site, items: seq<Item>, a: Estate, b: Estate)
    requires SoundItems(items) && items != []
    requires SameFilesOutside(DisksOf(items[..|items| - 1]), a, b)
    requires Gentle(NamesOf(items[..|items| - 1]), TempsOf(items[..|items| - 1]), a, b)
    ensures ItemReady(site, items[|items| - 1], b) <==> ItemReady(site, items[|items| - 1], a)
  {
    var front, last := items[..|items| - 1], items[|items| - 1];
    assert last.job.disk !in DisksOf(front) && last.job.temp !in DisksOf(front) && last.name !in NamesOf(front);
  }

  ghost predicate AllReady(site: Site, items: seq<Item>, e: Estate) {
    forall i :: 0 <= i < |items| ==> ItemReady(site, items[i], e)
  }

  lemma AllReadySnoc(site: Site, items: seq<Item>, e: Estate)
    requires items != []
    ensures AllReady(site, items, e) <==>
            AllReady(site, items[..|items| - 1], e) && ItemReady(site, items[|items| - 1], e)
  {
    var front := items[..|items| - 1];
    assert forall i :: 0 <= i < |front| ==> front[i] == items[i];
    if AllReady(site, front, e) && ItemReady(site, items[|items| - 1], e) {
      forall i | 0 <= i < |items|
        ensures ItemReady(site, items[i], e)
      {
        if i < |front| { assert ItemReady(site, front[i], e); }
      }
    }
  }

  lemma FilesSnoc(items: seq<Item>, a: Estate, b: Estate, c: Estate)
    requires items != [] && SameFilesOutside(DisksOf(items[..|items| - 1]), a, b)
    requires SameFilesBut(items[|items| - 1].job.disk, b, c)
    ensures SameFilesOutside(DisksOf(items), a, c)
  {
    var front, last := items[..|items| - 1], items[|items| - 1];
    assert forall i :: 0 <= i < |front| ==> front[i] == items[i];
    assert DisksOf(front) <= DisksOf(items) && last.job.disk in DisksOf(items);
  }

  lemma {:induction false} ItemsFine(site: Site, items: seq<Item>, m: Machine, fates: Fates)
    requires AllFine(fates) && SoundItems(items)
    ensures var (lines, m') := ItemsStage(site, items, m, fates);
            && (!AnyFailed(lines) <==> AllReady(site, items, m.estate))
            && SameFilesOutside(DisksOf(items), m.estate, m'.estate)
  {
    if items != [] {
      var front, last := items[..|items| - 1], items[|items| - 1];
      SoundPrefix(items);
      ItemsFine(site, front, m, fates);
      ItemsStageWorks(site, front, m, fates);
      var (lines, m1) := ItemsStage(site, front, m, fates);
      LastReady(site, items, m.estate, m1.estate);
      AllReadySnoc(site, items, m.estate);
      ItemFine(site, last, m1, fates);
      var (r, m2) := ItemStage(site, last, m1, fates);
      FailedSnoc(lines, VmLine(last.name, last.autostart, r));
      FilesSnoc(items, m.estate, m1.estate, m2.estate);
    }
  }

  /* ---- the whole run ---- */

  lemma NetworkFine(u: Setup, m: Machine, fates: Fates)
    requires AllFine(fates)
    ensures NetworkStage(u, m, fates).0.Ok?
  {
    var n := u.network;
    CallFine(NetDefine(n), m, fates);
    var m1 := Call(NetDefine(n), m, fates).1;
    CallFine(NetAutostart(n), m1, fates);
    CallPair(NetDefine(n), NetAutostart(n), m, fates);
    var m2 := Call(NetAutostart(n), m1, fates).1;
    CallFine(NetInfo(n), m2, fates);
    var m3 := Call(NetInfo(n), m2, fates).1;
    CallFine(NetStart(n), m3, fates);
    CallOne(NetStart(n), m3, fates);
  }

  lemma RouterUpFine(u: Setup, m: Machine, fates: Fates)
    requires AllFine(fates)
    ensures RouterUp(u, m, fates).0.Ok? <==> Startable(m.estate, u.router.name)
  {
    var name := u.router.name;
    CallFine(DefineRouter(u.router), m, fates);
    var m1 := Call(DefineRouter(u.router), m, fates).1;
    CallFine(Autostart(name, true), m1, fates);
    CallPair(DefineRouter(u.router), Autostart(name, true), m, fates);
    KeepRunningFine(name, Call(Autostart(name, true), m1, fates).1, fates);
  }

  lemma RouterStageFine(u: Setup, m: Machine, fates: Fates)
    requires AllFine(fates)
    ensures RouterStage(u, m, fates).0.Ok? <==>
            u.disk in m.estate.files && u.seed in m.estate.files && Startable(m.estate, u.router.name)
  {
    RouterUpFine(u, Machine(m.estate, m.pos + 2), fates);
  }

  // From any world, a run in which no command goes wrong reports no failure exactly when the router's
  // files are there, every VM has a disk or a usable base with its temporary name free, and no domain
  // that is to run is active in a state other than running.
  lemma FineRunSucceedsIff(site: Site, u: Setup, m: Machine, fates: Fates)
    requires Sound(u) && AllFine(fates)
    ensures var r := Reconciled(site, u, false, m, fates).0;
            r.Ok? && !r.value.failed <==> Ready(site, u, m.estate)
  {
    var m0 := Machine(m.estate, m.pos + 2);
    FineUnfolds(site, u, m, fates);
    NetworkFine(u, m0, fates);
    NetworkStageWorks(u, m0, fates);
    var net := NetworkStage(u, m0, fates);
    FineAfterNetwork(site, u, net, fates);
    ReadyFrame(site, u, m.estate, net.1.estate);
  }

  lemma FineUnfolds(site: Site, u: Setup, m: Machine, fates: Fates)
    requires AllFine(fates)
    ensures Reconciled(site, u, false, m, fates)
            == WithNetwork(site, u, NetworkStage(u, Machine(m.estate, m.pos + 2), fates), fates)
  {
  }

  lemma ReadyFrame(site: Site, u: Setup, a: Estate, b: Estate)
    requires a.files == b.files && a.domains == b.domains
    ensures Ready(site, u, a) <==> Ready(site, u, b)
  {
    forall i | 0 <= i < |u.items|
      ensures ItemReady(site, u.items[i], a) <==> ItemReady(site, u.items[i], b)
    {
    }
  }

  lemma FineAfterNetwork(site: Site, u: Setup, net: Staged, fates: Fates)
    requires Sound(u) && AllFine(fates) && net.0.Ok?
    ensures var r := WithNetwork(site, u, net, fates).0;
            r.Ok? && !r.value.failed <==> Ready(site, u, net.1.estate)
  {
    SoundHasSoundItems(u);
    RouterStageFine(u, net.1, fates);
    RouterStageWorks(u, net.1, fates);
    var router := RouterStage(u, net.1, fates);
    RouterKeepsFiles(u, net.1, fates);
    forall i | 0 <= i < |u.items|
      ensures ItemReady(site, u.items[i], router.1.estate) <==> ItemReady(site, u.items[i], net.1.estate)
    {
      assert u.items[i].name != u.router.name;
    }
    ItemsFine(site, u.items, router.1, fates);
  }

  lemma RouterKeepsFiles(u: Setup, m: Machine, fates: Fates)
    ensures RouterStage(u, m, fates).1.estate.files == m.estate.files
  {
    RouterUpWorks(u, Machine(m.estate, m.pos + 2), fates);
  }

  // The failing input that lifecycle operations would call Running: an autostart VM found idle or blocked.
  lemma IdleAutostartFails(site: Site, item: Item, m: Machine, fates: Fates)
    requires AllFine(fates) && item.job.disk != item.job.temp && item.job.definition.name == item.name
    requires item.autostart && item.name in m.estate.domains && m.estate.domains[item.name].raw in {L.Idle, L.Blocked}
    ensures ItemStage(site, item, m, fates).0.Err?
  {
    ItemFine(site, item, m, fates);
  }
}
