/** Reconciliation and saved RAM: a missing disk is made anew, and RAM saved with the old one no longer
    belongs to it. */
module ReconcileCoherence {
  import opened Wrappers
  import opened Provision
  import opened Provisioner
  import opened Reconcile
  import opened ReconcileProperties
  import L = Libvirt
  import Config

  predicate CoherentAt(e: Estate, name: string) { name in e.domains ==> L.Coherent(e.domains[name]) }

  predicate AllCoherent(e: Estate) { forall name :: name in e.domains ==> L.Coherent(e.domains[name]) }

  // No RAM is saved for a VM whose disk is missing and could be made from its base image.
  predicate KeepsItsDisk(site: Site, item: Item, e: Estate) {
    || item.name !in e.domains
    || e.domains[item.name].save.None?
    || item.job.disk in e.files
    || !UsableBase(site, item.job)
  }

  /* ---- one VM ---- */

  lemma CallKeepsCoherent(o: Order, name: string, m: Machine, fates: Fates)
    requires CoherentAt(m.estate, name) && About(o, name)
    ensures CoherentAt(Call(o, m, fates).1.estate, name)
  {
    if Known(m.estate, name) {
      L.ExecuteKeepsCoherentIff(m.estate.domains[name], L.Start);
    }
  }

  lemma KeepRunningCoherent(name: string, m: Machine, fates: Fates)
    requires CoherentAt(m.estate, name)
    ensures CoherentAt(KeepRunning(name, m, fates).1.estate, name)
  {
    CallKeepsCoherent(DomState(name), name, m, fates);
    var m1 := Call(DomState(name), m, fates).1;
    CallKeepsCoherent(StartDomain(name), name, m1, fates);
    CallOne(StartDomain(name), m1, fates);
  }

  lemma OutcomeCoherent(site: Site, item: Item, r: Created, a: Estate, b: Estate)
    requires Outcome(site, item.job, r, a, b) && item.job.definition.name == item.name
    requires CoherentAt(a, item.name) && KeepsItsDisk(site, item, a)
    ensures CoherentAt(b, item.name)
  {
  }

  lemma EnsureCoherent(site: Site, item: Item, m: Machine, fates: Fates)
    requires item.job.disk != item.job.temp && item.job.definition.name == item.name
    requires CoherentAt(m.estate, item.name) && KeepsItsDisk(site, item, m.estate)
    ensures CoherentAt(Ensure(site, item.job, m, fates).1.estate, item.name)
  {
    var m1 := Machine(m.estate, m.pos + 1);
    if !Sees(m.estate, item.job.disk, fates(m.pos)) {
      CreateCoherent(site, item, m1, fates);
    }
  }

  lemma CreateCoherent(site: Site, item: Item, m: Machine, fates: Fates)
    requires item.job.disk != item.job.temp && item.job.definition.name == item.name
    requires CoherentAt(m.estate, item.name) && KeepsItsDisk(site, item, m.estate)
    ensures CoherentAt(Complete(site, item.job, CheckBase, m, fates).1.estate, item.name)
  {
    CompleteAlong(site, item.job, CheckBase, m.estate, m, fates);
    var (r, m') := Complete(site, item.job, CheckBase, m, fates);
    OutcomeCoherent(site, item, r, m.estate, m'.estate);
  }

  lemma ItemStageCoherent(site: Site, item: Item, m: Machine, fates: Fates)
    requires item.job.disk != item.job.temp && item.job.definition.name == item.name
    requires CoherentAt(m.estate, item.name) && KeepsItsDisk(site, item, m.estate)
    ensures CoherentAt(ItemStage(site, item, m, fates).1.estate, item.name)
  {
    EnsureCoherent(site, item, m, fates);
    var m1 := Ensure(site, item.job, m, fates).1;
    var o := Autostart(item.name, item.autostart);
    CallKeepsCoherent(o, item.name, m1, fates);
    CallOne(o, m1, fates);
    KeepRunningCoherent(item.name, CallAll([o], m1, fates).1, fates);
  }

  /* ---- and exactly then ---- */

  // RAM and disk have come apart, or were mixed already.
  predicate Broken(e: Estate, name: string) {
    && name in e.domains
    && (e.domains[name].mixed || (e.domains[name].save.Some? && e.domains[name].save.value != e.domains[name].gen))
  }

  lemma CallKeepsBroken(o: Order, name: string, m: Machine, fates: Fates)
    requires Broken(m.estate, name) && About(o, name)
    ensures Broken(Call(o, m, fates).1.estate, name)
  {
  }

  lemma KeepRunningBroken(name: string, m: Machine, fates: Fates)
    requires Broken(m.estate, name)
    ensures Broken(KeepRunning(name, m, fates).1.estate, name)
  {
    CallKeepsBroken(DomState(name), name, m, fates);
    var m1 := Call(DomState(name), m, fates).1;
    CallKeepsBroken(StartDomain(name), name, m1, fates);
    CallOne(StartDomain(name), m1, fates);
  }

  lemma {:induction false} CompleteKeepsBroken(site: Site, job: Job, pc: Pc, m: Machine, fates: Fates)
    requires Broken(m.estate, job.definition.name)
    requires pc.RemoveTemp? || pc.DefineDomain? || pc.RollBack? || pc.Finished?
    ensures Broken(Complete(site, job, pc, m, fates).1.estate, job.definition.name)
    decreases Rank(pc)
  {
    if !pc.Finished? {
      var (pc', e) := Step(site, job, pc, m.estate, fates(m.pos));
      CompleteKeepsBroken(site, job, pc', Machine(e, m.pos + 1), fates);
    }
  }

  // Everything goes well, but a leftover temporary file is not seen.
  function BlindTo(k: nat): Fates { n => if n == k then Refused(false) else Fine }

  // With these outcomes, creation gets as far as building the overlay.
  lemma GetsToOverlay(site: Site, job: Job, m: Machine)
    requires UsableBase(site, job) && job.disk !in m.estate.files
    ensures var fates := BlindTo(m.pos + 4);
            Complete(site, job, CheckBase, m, fates) == Complete(site, job, MakeOverlay, Machine(m.estate, m.pos + 5), fates)
  {
    var fates := BlindTo(m.pos + 4);
    FirstChecks(site, job, m, fates);
    OverlayFollows(site, job, Machine(m.estate, m.pos + 3), fates);
  }

  lemma OverlayFollows(site: Site, job: Job, m: Machine, fates: Fates)
    requires UsableBase(site, job) && fates(m.pos) == Fine && fates(m.pos + 1) != Fine
    ensures Complete(site, job, Inspect, m, fates) == Complete(site, job, MakeOverlay, Machine(m.estate, m.pos + 2), fates)
  {
    AtInspect(site, job, m, fates);
    AtCheckTemp(site, job, Machine(m.estate, m.pos + 1), fates);
  }

  lemma CreateBreaks(site: Site, item: Item, m: Machine)
    requires item.job.disk != item.job.temp && item.job.definition.name == item.name
    requires CoherentAt(m.estate, item.name) && !KeepsItsDisk(site, item, m.estate)
    ensures Broken(Complete(site, item.job, CheckBase, m, BlindTo(m.pos + 4)).1.estate, item.name)
  {
    var fates, m5 := BlindTo(m.pos + 4), Machine(m.estate, m.pos + 5);
    GetsToOverlay(site, item.job, m);
    OverlayIsPublished(site, item.job, m5, fates);
    OverlayBreaks(site, item, m.estate);
    var m7 := Machine(WithOverlay(item.job, m.estate), m.pos + 7);
    CompleteKeepsBroken(site, item.job, RemoveTemp(m.estate.unused), m7, fates);
  }

  lemma OverlayBreaks(site: Site, item: Item, e: Estate)
    requires CoherentAt(e, item.name) && !KeepsItsDisk(site, item, e) && item.job.definition.name == item.name
    ensures Broken(WithOverlay(item.job, e), item.name)
  {
  }

  lemma EnsureBreaks(site: Site, item: Item, m: Machine)
    requires item.job.disk != item.job.temp && item.job.definition.name == item.name
    requires CoherentAt(m.estate, item.name) && !KeepsItsDisk(site, item, m.estate)
    ensures Broken(Ensure(site, item.job, m, BlindTo(m.pos + 5)).1.estate, item.name)
  {
    CreateBreaks(site, item, Machine(m.estate, m.pos + 1));
    EnsureCreates(site, item.job, m, BlindTo(m.pos + 5));
  }

  lemma EnsureCreates(site: Site, job: Job, m: Machine, fates: Fates)
    requires !Sees(m.estate, job.disk, fates(m.pos))
    ensures Ensure(site, job, m, fates).1 == Complete(site, job, CheckBase, Machine(m.estate, m.pos + 1), fates).1
  {
  }

  // What follows on ensuring a VM does not put its RAM and disk together again.
  lemma ItemStageBroken(site: Site, item: Item, m: Machine, fates: Fates)
    requires Broken(Ensure(site, item.job, m, fates).1.estate, item.name)
    ensures Broken(ItemStage(site, item, m, fates).1.estate, item.name)
  {
    var m1 := Ensure(site, item.job, m, fates).1;
    var o := Autostart(item.name, item.autostart);
    CallKeepsBroken(o, item.name, m1, fates);
    CallOne(o, m1, fates);
    KeepRunningBroken(item.name, CallAll([o], m1, fates).1, fates);
  }

  lemma ItemStageBreaks(site: Site, item: Item, m: Machine)
    requires item.job.disk != item.job.temp && item.job.definition.name == item.name
    requires CoherentAt(m.estate, item.name) && !KeepsItsDisk(site, item, m.estate)
    ensures Broken(ItemStage(site, item, m, BlindTo(m.pos + 5)).1.estate, item.name)
  {
    EnsureBreaks(site, item, m);
    ItemStageBroken(site, item, m, BlindTo(m.pos + 5));
  }

  // Reconciling a VM keeps its RAM and disk together, whatever fails, exactly when it has no saved RAM,
  // its disk is there, or its disk cannot be made anew.
  lemma ItemKeepsCoherentIff(site: Site, item: Item, m: Machine)
    requires item.job.disk != item.job.temp && item.job.definition.name == item.name && CoherentAt(m.estate, item.name)
    ensures (forall fates: Fates :: CoherentAt(ItemStage(site, item, m, fates).1.estate, item.name))
            <==> KeepsItsDisk(site, item, m.estate)
  {
    if KeepsItsDisk(site, item, m.estate) {
      forall fates: Fates
        ensures CoherentAt(ItemStage(site, item, m, fates).1.estate, item.name)
      {
        ItemStageCoherent(site, item, m, fates);
      }
    } else {
      ItemStageBreaks(site, item, m);
      assert !CoherentAt(ItemStage(site, item, m, BlindTo(m.pos + 5)).1.estate, item.name);
    }
  }

  /* ---- the whole run ---- */

  lemma OthersCoherent(names: set<string>, temps: set<string>, name: string, a: Estate, b: Estate)
    requires Gentle(names, temps, a, b) && names <= {name} && AllCoherent(a) && CoherentAt(b, name)
    ensures AllCoherent(b)
  {
    forall n | n in b.domains
      ensures L.Coherent(b.domains[n])
    {
      if n != name {
        assert n in a.domains && b.domains[n] == a.domains[n];
      }
    }
  }

  lemma {:induction false} ItemsStageCoherent(site: Site, items: seq<Item>, m: Machine, fates: Fates)
    requires SoundItems(items) && AllCoherent(m.estate)
    requires forall i :: 0 <= i < |items| ==> KeepsItsDisk(site, items[i], m.estate)
    ensures AllCoherent(ItemsStage(site, items, m, fates).1.estate)
    decreases |items|
  {
    if items != [] {
      var front, last := items[..|items| - 1], items[|items| - 1];
      SoundPrefix(items);
      ItemsStageCoherent(site, front, m, fates);
      ItemsStageWorks(site, front, m, fates);
      var m1 := ItemsStage(site, front, m, fates).1;
      LastKeepsItsDisk(site, items, m.estate, m1.estate);
      ItemStageCoherent(site, last, m1, fates);
      ItemStageWorks(site, last, m1, fates);
      OthersCoherent({last.name}, {last.job.temp}, last.name, m1.estate, ItemStage(site, last, m1, fates).1.estate);
    }
  }

  lemma LastKeepsItsDisk(site: Site, items: seq<Item>, a: Estate, b: Estate)
    requires SoundItems(items) && items != [] && KeepsItsDisk(site, items[|items| - 1], a)
    requires Gentle(NamesOf(items[..|items| - 1]), TempsOf(items[..|items| - 1]), a, b)
    ensures KeepsItsDisk(site, items[|items| - 1], b)
  {
    var front, last := items[..|items| - 1], items[|items| - 1];
    assert last.name !in NamesOf(front) && last.job.disk !in TempsOf(front);
  }

  // A whole reconciliation, whatever fails, keeps RAM and disk together for every domain, provided no
  // configured VM has saved RAM while its disk is missing and could be made anew.
  lemma RunKeepsCoherent(site: Site, u: Setup, locked: bool, m: Machine, fates: Fates)
    requires Sound(u) && AllCoherent(m.estate)
    requires forall i :: 0 <= i < |u.items| ==> KeepsItsDisk(site, u.items[i], m.estate)
    ensures AllCoherent(Reconciled(site, u, locked, m, fates).1.estate)
  {
    RunUnfolds(site, u, locked, m, fates);
    var m0 := Machine(m.estate, m.pos + 2);
    NetworkStageWorks(u, m0, fates);
    RouterThenItems(site, u, NetworkStage(u, m0, fates), fates);
  }

  lemma RouterThenItems(site: Site, u: Setup, net: Staged, fates: Fates)
    requires Sound(u) && AllCoherent(net.1.estate)
    requires forall i :: 0 <= i < |u.items| ==> KeepsItsDisk(site, u.items[i], net.1.estate)
    ensures AllCoherent(WithNetwork(site, u, net, fates).1.estate)
  {
    var router := RouterStage(u, net.1, fates);
    RouterStageCoherent(u, net.1, fates);
    RouterStageWorks(u, net.1, fates);
    OthersCoherent({u.router.name}, {}, u.router.name, net.1.estate, router.1.estate);
    SoundHasSoundItems(u);
    forall i | 0 <= i < |u.items|
      ensures KeepsItsDisk(site, u.items[i], router.1.estate)
    {
      assert u.items[i].name != u.router.name;
      assert KeepsItsDisk(site, u.items[i], net.1.estate);
    }
    ItemsStageCoherent(site, u.items, router.1, fates);
  }

  lemma RouterStageCoherent(u: Setup, m: Machine, fates: Fates)
    requires CoherentAt(m.estate, u.router.name)
    ensures CoherentAt(RouterStage(u, m, fates).1.estate, u.router.name)
  {
    RouterUpCoherent(u, Machine(m.estate, m.pos + 2), fates);
  }

  lemma RouterUpCoherent(u: Setup, m: Machine, fates: Fates)
    requires CoherentAt(m.estate, u.router.name)
    ensures CoherentAt(RouterUp(u, m, fates).1.estate, u.router.name)
  {
    var name := u.router.name;
    CallPair(DefineRouter(u.router), Autostart(name, true), m, fates);
    CallKeepsCoherent(DefineRouter(u.router), name, m, fates);
    var m1 := Call(DefineRouter(u.router), m, fates).1;
    CallKeepsCoherent(Autostart(name, true), name, m1, fates);
    KeepRunningCoherent(name, CallAll([DefineRouter(u.router), Autostart(name, true)], m, fates).1, fates);
  }

  /* ---- guests that share a disk ---- */

  predicate SameDisk(e: Estate, n: string, k: string)
    requires n in e.domains && k in e.domains
  {
    && e.domains[n].definition.Some? && e.domains[k].definition.Some?
    && e.domains[n].definition.value.disk == e.domains[k].definition.value.disk
  }

  // The guest of an active domain writes its disk: the content changes for every domain defined on it.
  function Wrote(e: Estate, n: string): Estate
    requires n in e.domains
  {
    e.(domains := map k | k in e.domains ::
         if k == n then L.Act(e.domains[k], L.WriteDisk)
         else if SameDisk(e, n, k) then L.ForeignWrite(e.domains[k])
         else e.domains[k])
  }

  // A guest's write keeps RAM and disk together everywhere exactly when no other domain on that disk has
  // saved RAM.
  lemma WriteKeepsCoherentIff(e: Estate, n: string)
    requires AllCoherent(e) && n in e.domains && L.Active(e.domains[n].raw)
    ensures AllCoherent(Wrote(e, n)) <==>
            forall k :: k in e.domains && k != n && SameDisk(e, n, k) ==> e.domains[k].save.None?
  {
    forall k | k in e.domains
      ensures L.Coherent(Wrote(e, n).domains[k]) <==> k == n || !SameDisk(e, n, k) || e.domains[k].save.None?
    {
      L.ForeignWriteKeepsCoherentIff(e.domains[k]);
      L.ActsKeepCoherent(e.domains[k], [L.WriteDisk]);
      assert [L.WriteDisk][1..] == [];
    }
    if k :| k in e.domains && k != n && SameDisk(e, n, k) && e.domains[k].save.Some? {
      assert !L.Coherent(Wrote(e, n).domains[k]);
    }
  }

  // The domains are those of the configuration, as reconciliation leaves them.
  predicate OnlyOurs(u: Setup, e: Estate) {
    forall n :: n in e.domains ==> n == u.router.name || exists i :: 0 <= i < |u.items| && u.items[i].name == n
  }

  lemma WhoseDisk(u: Setup, e: Estate, n: string)
    requires Sound(u) && OwnDisks(u) && Desired(u, e) && OnlyOurs(u, e) && n in e.domains
    ensures e.domains[n].definition.Some?
    ensures e.domains[n].definition.value.disk == u.router.disk <==> n == u.router.name
    ensures n != u.router.name ==>
              exists i :: 0 <= i < |u.items| && u.items[i].name == n
                          && u.items[i].job.definition.disk == e.domains[n].definition.value.disk
  {
    if n != u.router.name {
      var i :| 0 <= i < |u.items| && u.items[i].name == n;
      assert VmDone(u.items[i], e);
    }
  }

  lemma OurDisks(u: Setup, e: Estate, n: string, k: string)
    requires Sound(u) && OwnDisks(u) && Desired(u, e) && OnlyOurs(u, e)
    requires n in e.domains && k in e.domains && SameDisk(e, n, k)
    ensures n == k
  {
    WhoseDisk(u, e, n);
    WhoseDisk(u, e, k);
  }

  // With disks of their own, the guests of a reconciled host cannot separate each other's saved RAM from
  // its disk.
  lemma OwnDisksKeepRam(u: Setup, e: Estate, n: string)
    requires Sound(u) && OwnDisks(u) && Desired(u, e) && OnlyOurs(u, e)
    requires AllCoherent(e) && n in e.domains && L.Active(e.domains[n].raw)
    ensures AllCoherent(Wrote(e, n))
  {
    forall k | k in e.domains && k != n
      ensures !SameDisk(e, n, k)
    {
      if SameDisk(e, n, k) {
        OurDisks(u, e, n, k);
      }
    }
    WriteKeepsCoherentIff(e, n);
  }

  // Without, they can: on a reconciled host with a VM of the router disk's name, the router's own writes
  // separate that VM's saved RAM from the disk.
  lemma RouterWritesLoseRam(c: Config.Config, pid: nat, i: nat, e: Estate)
    requires Config.WellFormed(c) && i < |c.vms| && c.vms[i].key == ROUTER_DISK_NAME
    requires Desired(SetupOf(c, pid), e) && AllCoherent(e)
    requires ROUTER_DISK_NAME in e.domains && e.domains[ROUTER_DISK_NAME].save.Some?
    ensures ROUTER in e.domains && !AllCoherent(Wrote(e, ROUTER))
  {
    var u := SetupOf(c, pid);
    SharedRouterDisk(c, pid, i);
    assert Config.VmOk(c.network.guestSubnet, Config.Keys(c.controllers), c.vms[i]);
    assert VmDone(u.items[i], e) && u.items[i].name == ROUTER_DISK_NAME;
    NamesApart();
    assert SameDisk(e, ROUTER, ROUTER_DISK_NAME);
    WriteKeepsCoherentIff(e, ROUTER);
  }

  lemma NamesApart()
    ensures ROUTER != ROUTER_DISK_NAME
  {
    assert |ROUTER| != |ROUTER_DISK_NAME|;
  }
}
