/** What a reconciliation achieves, and what it never does, however its commands fail. No guest acts
    while it runs. */
module ReconcileProperties {
  import opened Wrappers
  import opened Provision
  import opened Provisioner
  import opened Reconcile
  import L = Libvirt

  /* ---- the desired state ---- */

  predicate NetDone(u: Setup, e: Estate) { u.network in e.networks && e.networks[u.network] == Net(true, true) }

  predicate DomainDone(name: string, d: L.Definition, autostart: bool, up: bool, e: Estate) {
    && name in e.domains && e.domains[name].definition == Some(d) && e.domains[name].autostart == autostart
    && (up ==> e.domains[name].raw == L.Running)
  }

  predicate RouterDone(u: Setup, e: Estate) {
    u.disk in e.files && u.seed in e.files && DomainDone(u.router.name, u.router, true, true, e)
  }

  predicate VmDone(item: Item, e: Estate) {
    item.job.disk in e.files && DomainDone(item.name, item.job.definition, item.autostart, item.autostart, e)
  }

  predicate Desired(u: Setup, e: Estate) {
    NetDone(u, e) && RouterDone(u, e) && forall i :: 0 <= i < |u.items| ==> VmDone(u.items[i], e)
  }

  /* ---- what may change ---- */

  // A running domain keeps everything but its definition and its autostart flag.
  predicate Calm(a: L.Domain, b: L.Domain) {
    L.Active(a.raw) ==> b == a.(definition := b.definition, autostart := b.autostart)
  }

  // Only the named domains and temporary files are affected; no other file goes or changes.
  predicate Gentle(names: set<string>, temps: set<string>, a: Estate, b: Estate) {
    && (forall path :: path in a.files && path !in temps ==> path in b.files && b.files[path] == a.files[path])
    && (forall n :: n in a.domains ==> n in b.domains && Calm(a.domains[n], b.domains[n]))
    && (forall n :: n in a.domains && n !in names ==> b.domains[n] == a.domains[n])
    && (forall n :: n in b.domains && n !in names ==> n in a.domains)
  }

  lemma GentleChain(names: set<string>, temps: set<string>, a: Estate, b: Estate, c: Estate)
    requires Gentle(names, temps, a, b) && Gentle(names, temps, b, c)
    ensures Gentle(names, temps, a, c)
  {
    forall n | n in a.domains
      ensures n in c.domains && Calm(a.domains[n], c.domains[n])
    {
      assert Calm(a.domains[n], b.domains[n]) && Calm(b.domains[n], c.domains[n]);
    }
  }

  lemma GentleWiden(names: set<string>, temps: set<string>, more: set<string>, moreTemps: set<string>, a: Estate, b: Estate)
    requires Gentle(names, temps, a, b) && names <= more && temps <= moreTemps
    ensures Gentle(more, moreTemps, a, b)
  {
  }

  /* ---- one command, one stage ---- */

  predicate About(o: Order, name: string) {
    match o
    case DefineRouter(d) => d.name == name
    case Autostart(n, _) => n == name
    case DomState(n) => n == name
    case StartDomain(n) => n == name
    case _ => false
  }

  lemma CallIsGentle(o: Order, name: string, m: Machine, fates: Fates)
    requires About(o, name)
    ensures var (r, m') := Call(o, m, fates);
            && Gentle({name}, {}, m.estate, m'.estate) && m'.estate.files == m.estate.files
            && m'.estate.networks == m.estate.networks
  {
  }

  lemma CallOne(o: Order, m: Machine, fates: Fates)
    ensures var (r, m') := Call(o, m, fates);
            CallAll([o], m, fates) == (if r.Err? then Err(r.error) else Ok(()), m')
  {
    CallAllCons(o, [], m, fates);
    assert [o] + [] == [o];
  }

  lemma CallPair(o: Order, p: Order, m: Machine, fates: Fates)
    ensures var (r1, m1) := Call(o, m, fates);
            var (r2, m2) := Call(p, m1, fates);
            CallAll([o, p], m, fates) ==
            if r1.Err? then (Err(r1.error), m1) else (if r2.Err? then Err(r2.error) else Ok(()), m2)
  {
    CallAllCons(o, [p], m, fates);
    assert [o] + [p] == [o, p];
    CallOne(p, Call(o, m, fates).1, fates);
  }

  lemma KeepRunningWorks(name: string, m: Machine, fates: Fates)
    ensures var (r, m') := KeepRunning(name, m, fates);
            && Gentle({name}, {}, m.estate, m'.estate) && m'.estate.files == m.estate.files
            && m'.estate.networks == m.estate.networks
            && (r.Ok? ==> Known(m.estate, name) && name in m'.estate.domains
                          && m'.estate.domains[name].raw == L.Running
                          && m'.estate.domains[name].definition == m.estate.domains[name].definition
                          && m'.estate.domains[name].autostart == m.estate.domains[name].autostart)
            && (Known(m.estate, name) && m.estate.domains[name].raw == L.Running ==> m'.estate == m.estate)
  {
    CallIsGentle(DomState(name), name, m, fates);
    var (r, m1) := Call(DomState(name), m, fates);
    CallIsGentle(StartDomain(name), name, m1, fates);
    CallOne(StartDomain(name), m1, fates);
    GentleChain({name}, {}, m.estate, m1.estate, Call(StartDomain(name), m1, fates).1.estate);
  }

  lemma NetworkStageWorks(u: Setup, m: Machine, fates: Fates)
    ensures var (r, m') := NetworkStage(u, m, fates);
            && m'.estate.files == m.estate.files && m'.estate.domains == m.estate.domains
            && (r.Ok? ==> NetDone(u, m'.estate))
            && (NetDone(u, m.estate) ==> m'.estate == m.estate)
  {
    var n := u.network;
    NetDefineWorks(n, m, fates);
    var (r, m2) := CallAll([NetDefine(n), NetAutostart(n)], m, fates);
    CallOne(NetStart(n), Call(NetInfo(n), m2, fates).1, fates);
  }

  lemma NetDefineWorks(n: string, m: Machine, fates: Fates)
    ensures var (r, m') := CallAll([NetDefine(n), NetAutostart(n)], m, fates);
            && m'.estate.files == m.estate.files && m'.estate.domains == m.estate.domains
            && (r.Ok? ==> n in m'.estate.networks && m'.estate.networks[n].autostart)
            && (n in m.estate.networks && m.estate.networks[n] == Net(true, true) ==> m'.estate == m.estate)
  {
    if n in m.estate.networks && m.estate.networks[n] == Net(true, true) {
      assert m.estate.networks[n := Net(true, true)] == m.estate.networks;
    }
    CallPair(NetDefine(n), NetAutostart(n), m, fates);
  }

  lemma RouterDefinitionWorks(u: Setup, m: Machine, fates: Fates)
    ensures var (r, m') := CallAll([DefineRouter(u.router), Autostart(u.router.name, true)], m, fates);
            && Gentle({u.router.name}, {}, m.estate, m'.estate) && m'.estate.files == m.estate.files
            && m'.estate.networks == m.estate.networks
            && (r.Ok? ==> DomainDone(u.router.name, u.router, true, false, m'.estate))
            && (DomainDone(u.router.name, u.router, true, false, m.estate) ==> m'.estate == m.estate)
  {
    var name := u.router.name;
    var (r1, m1) := Call(DefineRouter(u.router), m, fates);
    CallPair(DefineRouter(u.router), Autostart(name, true), m, fates);
    CallIsGentle(DefineRouter(u.router), name, m, fates);
    CallIsGentle(Autostart(name, true), name, m1, fates);
    GentleChain({name}, {}, m.estate, m1.estate, Call(Autostart(name, true), m1, fates).1.estate);
    if DomainDone(name, u.router, true, false, m.estate) {
      assert m.estate.domains[name := m.estate.domains[name]] == m.estate.domains;
    }
  }

  lemma RouterUpWorks(u: Setup, m: Machine, fates: Fates)
    ensures var (r, m') := RouterUp(u, m, fates);
            && Gentle({u.router.name}, {}, m.estate, m'.estate) && m'.estate.networks == m.estate.networks
            && m'.estate.files == m.estate.files
            && (r.Ok? ==> DomainDone(u.router.name, u.router, true, true, m'.estate))
            && (DomainDone(u.router.name, u.router, true, true, m.estate) ==> m'.estate == m.estate)
  {
    RouterDefinitionWorks(u, m, fates);
    var (r, m1) := CallAll([DefineRouter(u.router), Autostart(u.router.name, true)], m, fates);
    KeepRunningWorks(u.router.name, m1, fates);
    GentleChain({u.router.name}, {}, m.estate, m1.estate, KeepRunning(u.router.name, m1, fates).1.estate);
  }

  lemma RouterStageWorks(u: Setup, m: Machine, fates: Fates)
    ensures var (r, m') := RouterStage(u, m, fates);
            && Gentle({u.router.name}, {}, m.estate, m'.estate) && m'.estate.networks == m.estate.networks
            && (r.Ok? ==> RouterDone(u, m'.estate))
            && (RouterDone(u, m.estate) ==> m'.estate == m.estate)
  {
    RouterUpWorks(u, Machine(m.estate, m.pos + 2), fates);
  }

  /* ---- one VM ---- */

  // What ensuring a VM guarantees, from world a with result r to world b.
  ghost predicate Ensuring(item: Item, a: Estate, r: Result<Ensured, ProvisionError>, b: Estate) {
    && Gentle({item.name}, {item.job.temp}, a, b) && b.networks == a.networks
    && (r.Ok? ==> item.job.disk in b.files && item.name in b.domains
                  && b.domains[item.name].definition == Some(item.job.definition))
    && (r.Ok? && VmDone(item, a) ==> r == Ok(OldDisk) && b == a)
  }

  lemma SeenIsEnsuring(item: Item, m: Machine, fates: Fates)
    requires item.job.definition.name == item.name && item.job.disk in m.estate.files
    ensures var (r, m') := DefineOnly(item.job, m, fates);
            Ensuring(item, m.estate, if r.Ok? then Ok(OldDisk) else Err(r.error), m'.estate)
  {
    DefineWorks(item, m, fates);
  }

  lemma UnseenIsEnsuring(site: Site, item: Item, m: Machine, fates: Fates)
    requires item.job.disk != item.job.temp && item.job.definition.name == item.name
    ensures var (r, m') := Complete(site, item.job, CheckBase, m, fates);
            Ensuring(item, m.estate, if r.Ok? then Ok(NewDisk) else Err(r.error), m'.estate)
  {
    CreateWorks(site, item, m, fates);
  }

  lemma EnsureWorks(site: Site, item: Item, m: Machine, fates: Fates)
    requires item.job.disk != item.job.temp && item.job.definition.name == item.name
    ensures var (r, m') := Ensure(site, item.job, m, fates); Ensuring(item, m.estate, r, m'.estate)
  {
    var m1 := Machine(m.estate, m.pos + 1);
    if Sees(m.estate, item.job.disk, fates(m.pos)) {
      SeenIsEnsuring(item, m1, fates);
    } else {
      UnseenIsEnsuring(site, item, m1, fates);
    }
  }

  lemma DefineWorks(item: Item, m: Machine, fates: Fates)
    requires item.job.definition.name == item.name
    ensures var (r, m') := DefineOnly(item.job, m, fates);
            && Gentle({item.name}, {item.job.temp}, m.estate, m'.estate)
            && m'.estate.networks == m.estate.networks && m'.estate.files == m.estate.files
            && (r.Ok? ==> item.name in m'.estate.domains
                          && m'.estate.domains[item.name].definition == Some(item.job.definition))
            && (r.Ok? && VmDone(item, m.estate) ==> m'.estate == m.estate)
  {
    if VmDone(item, m.estate) {
      assert m.estate.domains[item.name := m.estate.domains[item.name]] == m.estate.domains;
    }
  }

  lemma CreateWorks(site: Site, item: Item, m: Machine, fates: Fates)
    requires item.job.disk != item.job.temp && item.job.definition.name == item.name
    ensures var (r, m') := Complete(site, item.job, CheckBase, m, fates);
            && Gentle({item.name}, {item.job.temp}, m.estate, m'.estate) && m'.estate.networks == m.estate.networks
            && (r.Ok? ==> item.job.disk !in m.estate.files && item.job.disk in m'.estate.files
                          && item.name in m'.estate.domains
                          && m'.estate.domains[item.name].definition == Some(item.job.definition))
  {
    CompleteAlong(site, item.job, CheckBase, m.estate, m, fates);
    var (r, m') := Complete(site, item.job, CheckBase, m, fates);
    OutcomeIsGentle(site, item, r, m.estate, m'.estate);
  }

  lemma RenewedIsGentle(domains: map<string, L.Domain>, name: string)
    ensures forall n :: n in domains ==> Calm(domains[n], Renewed(domains, name)[n])
  {
  }

  lemma OutcomeIsGentle(site: Site, item: Item, r: Created, a: Estate, b: Estate)
    requires Outcome(site, item.job, r, a, b) && item.job.definition.name == item.name
    ensures Gentle({item.name}, {item.job.temp}, a, b) && b.networks == a.networks
    ensures r.Ok? ==> item.job.disk !in a.files && item.job.disk in b.files && item.name in b.domains
                      && b.domains[item.name].definition == Some(item.job.definition)
  {
    RenewedIsGentle(a.domains, item.name);
    if r.Ok? {
      assert b.domains == Defined(Renewed(a.domains, item.name), item.job.definition);
    } else {
      assert b.domains == a.domains || b.domains == Renewed(a.domains, item.name);
    }
  }

  lemma AutostartWorks(item: Item, m: Machine, fates: Fates)
    ensures var (r, m') := CallAll([Autostart(item.name, item.autostart)], m, fates);
            && Gentle({item.name}, {}, m.estate, m'.estate) && m'.estate.files == m.estate.files
            && m'.estate.networks == m.estate.networks
            && (r.Ok? ==>
                  && Known(m.estate, item.name)
                  && var before := m.estate.domains[item.name];
                     && DomainDone(item.name, before.definition.value, item.autostart, false, m'.estate)
                     && m'.estate.domains[item.name].raw == before.raw)
            && (item.name in m.estate.domains && m.estate.domains[item.name].autostart == item.autostart ==>
                  m'.estate == m.estate)
  {
    var o := Autostart(item.name, item.autostart);
    CallIsGentle(o, item.name, m, fates);
    CallOne(o, m, fates);
    if item.name in m.estate.domains && m.estate.domains[item.name].autostart == item.autostart {
      assert m.estate.domains[item.name := m.estate.domains[item.name]] == m.estate.domains;
    }
  }

  lemma ItemStageWorks(site: Site, item: Item, m: Machine, fates: Fates)
    requires item.job.disk != item.job.temp && item.job.definition.name == item.name
    ensures var (r, m') := ItemStage(site, item, m, fates);
            && Gentle({item.name}, {item.job.temp}, m.estate, m'.estate) && m'.estate.networks == m.estate.networks
            && (r.Ok? ==> VmDone(item, m'.estate))
            && (r.Ok? && VmDone(item, m.estate) ==> r == Ok(OldDisk) && m'.estate == m.estate)
  {
    var names, temps := {item.name}, {item.job.temp};
    EnsureWorks(site, item, m, fates);
    var (d, m1) := Ensure(site, item.job, m, fates);
    AutostartWorks(item, m1, fates);
    var (s, m2) := CallAll([Autostart(item.name, item.autostart)], m1, fates);
    GentleWiden(names, {}, names, temps, m1.estate, m2.estate);
    GentleChain(names, temps, m.estate, m1.estate, m2.estate);
    KeepRunningWorks(item.name, m2, fates);
    var m3 := KeepRunning(item.name, m2, fates).1;
    GentleWiden(names, {}, names, temps, m2.estate, m3.estate);
    GentleChain(names, temps, m.estate, m2.estate, m3.estate);
  }

  /* ---- all VMs ---- */

  function NamesOf(items: seq<Item>): set<string> { set i | 0 <= i < |items| :: items[i].name }
  function TempsOf(items: seq<Item>): set<string> { set i | 0 <= i < |items| :: items[i].job.temp }

  ghost predicate SoundItems(items: seq<Item>) {
    && (forall i :: 0 <= i < |items| ==> items[i].job.definition.name == items[i].name)
    && (forall i, j :: 0 <= i < j < |items| ==>
          items[i].name != items[j].name && items[i].job.disk != items[j].job.disk)
    && (forall i, j :: 0 <= i < |items| && 0 <= j < |items| ==> items[i].job.temp != items[j].job.disk)
  }

  // A VM already done stays done while others are handled.
  lemma DoneStays(item: Item, names: set<string>, temps: set<string>, a: Estate, b: Estate)
    requires Gentle(names, temps, a, b) && item.name !in names && item.job.disk !in temps && VmDone(item, a)
    ensures VmDone(item, b)
  {
  }

  ghost predicate AllDone(items: seq<Item>, e: Estate) { forall i :: 0 <= i < |items| ==> VmDone(items[i], e) }

  // Every VM has its row, in order; a row without an error means the VM is as configured.
  ghost predicate RowsTrue(items: seq<Item>, lines: seq<Line>, e: Estate) {
    && |lines| == |items|
    && forall i :: 0 <= i < |items| ==>
         && lines[i].VmLine? && lines[i].name == items[i].name && lines[i].autostart == items[i].autostart
         && (lines[i].result.Ok? ==> VmDone(items[i], e))
  }

  lemma RowsSnoc(items: seq<Item>, item: Item, lines: seq<Line>, r: RowResult, a: Estate, b: Estate)
    requires RowsTrue(items, lines, a) && SoundItems(items + [item])
    requires Gentle({item.name}, {item.job.temp}, a, b) && (r.Ok? ==> VmDone(item, b))
    ensures RowsTrue(items + [item], lines + [VmLine(item.name, item.autostart, r)], b)
  {
    var all := items + [item];
    assert all[|items|] == item;
    forall i | 0 <= i < |items| && lines[i].result.Ok?
      ensures VmDone(items[i], b)
    {
      assert all[i] == items[i];
      DoneStays(items[i], {item.name}, {item.job.temp}, a, b);
    }
  }

  lemma SoundPrefix(items: seq<Item>)
    requires SoundItems(items) && items != []
    ensures SoundItems(items[..|items| - 1])
    ensures items[|items| - 1].job.disk != items[|items| - 1].job.temp
  {
  }

  lemma {:induction false} ItemsStageWorks(site: Site, items: seq<Item>, m: Machine, fates: Fates)
    requires SoundItems(items)
    ensures var (lines, m') := ItemsStage(site, items, m, fates);
            && RowsTrue(items, lines, m'.estate)
            && Gentle(NamesOf(items), TempsOf(items), m.estate, m'.estate) && m'.estate.networks == m.estate.networks
  {
    if items != [] {
      var front, item := items[..|items| - 1], items[|items| - 1];
      SoundPrefix(items);
      assert front + [item] == items;
      ItemsStageWorks(site, front, m, fates);
      var (lines, m1) := ItemsStage(site, front, m, fates);
      ItemStageWorks(site, item, m1, fates);
      var (r, m2) := ItemStage(site, item, m1, fates);
      RowsSnoc(front, item, lines, r, m1.estate, m2.estate);
      GentleWiden(NamesOf(front), TempsOf(front), NamesOf(items), TempsOf(items), m.estate, m1.estate);
      GentleWiden({item.name}, {item.job.temp}, NamesOf(items), TempsOf(items), m1.estate, m2.estate);
      GentleChain(NamesOf(items), TempsOf(items), m.estate, m1.estate, m2.estate);
    }
  }

  predicate SaysOld(lines: seq<Line>) { forall l :: l in lines ==> l.VmLine? && l.result == Ok(OldDisk) }

  lemma {:induction false} DoneItemsStay(site: Site, items: seq<Item>, m: Machine, fates: Fates)
    requires SoundItems(items) && AllDone(items, m.estate)
    ensures var (lines, m') := ItemsStage(site, items, m, fates);
            !AnyFailed(lines) ==> m'.estate == m.estate && SaysOld(lines)
  {
    if items != [] {
      var front, item := items[..|items| - 1], items[|items| - 1];
      SoundPrefix(items);
      DoneItemsStay(site, front, m, fates);
      var (lines, m1) := ItemsStage(site, front, m, fates);
      ItemStageWorks(site, item, m1, fates);
      var (r, m2) := ItemStage(site, item, m1, fates);
      FailedSnoc(lines, VmLine(item.name, item.autostart, r));
    }
  }

  /* ---- the whole run ---- */

  function Names(u: Setup): set<string> { NamesOf(u.items) + {u.router.name} }

  lemma SoundHasSoundItems(u: Setup)
    requires Sound(u)
    ensures SoundItems(u.items) && u.router.name !in NamesOf(u.items)
    ensures u.disk !in TempsOf(u.items) && u.seed !in TempsOf(u.items)
  {
  }

  // What a report says is true of the world it was made in.
  ghost predicate ReportTrue(u: Setup, report: Report, e: Estate) {
    var lines := report.lines;
    && |lines| == |u.items| + 2 && lines[0] == NetworkReady(u.network) && lines[1] == RouterRunning
    && RowsTrue(u.items, lines[2..], e)
    && (report.failed <==> exists i :: 2 <= i < |lines| && IsFailure(lines[i]))
    && NetDone(u, e) && RouterDone(u, e)
  }

  // What a run from world a guarantees, however it ends.
  ghost predicate Faithful(u: Setup, a: Estate, out: (Result<Report, Error>, Machine)) {
    && (out.0.Ok? ==> ReportTrue(u, out.0.value, out.1.estate))
    && Gentle(Names(u), TempsOf(u.items), a, out.1.estate)
    && (Desired(u, a) && out.0.Ok? && !out.0.value.failed ==>
          out.1.estate == a && |out.0.value.lines| >= 2 && SaysOld(out.0.value.lines[2..]))
  }

  lemma FaithfulFrom(u: Setup, a: Estate, b: Estate, out: (Result<Report, Error>, Machine))
    requires Faithful(u, b, out) && a.files == b.files && a.domains == b.domains && (NetDone(u, a) ==> a == b)
    ensures Faithful(u, a, out)
  {
  }

  lemma WithRouterWorks(site: Site, u: Setup, router: Staged, fates: Fates)
    requires Sound(u)
    requires router.0.Ok? ==> RouterDone(u, router.1.estate) && NetDone(u, router.1.estate)
    ensures Faithful(u, router.1.estate, WithRouter(site, u, router, fates))
  {
    SoundHasSoundItems(u);
    ItemsStageWorks(site, u.items, router.1, fates);
    var (rows, m') := ItemsStage(site, u.items, router.1, fates);
    GentleWiden(NamesOf(u.items), TempsOf(u.items), Names(u), TempsOf(u.items), router.1.estate, m'.estate);
    if router.0.Ok? {
      var lines := [NetworkReady(u.network), RouterRunning] + rows;
      assert lines[2..] == rows;
      RouterStays(u, router.1.estate, m'.estate);
      FailedIndex(rows, lines);
      if Desired(u, router.1.estate) { DoneItemsStay(site, u.items, router.1, fates); }
    }
  }

  lemma WithNetworkWorks(site: Site, u: Setup, net: Staged, fates: Fates)
    requires Sound(u) && (net.0.Ok? ==> NetDone(u, net.1.estate))
    ensures Faithful(u, net.1.estate, WithNetwork(site, u, net, fates))
  {
    RouterStageWorks(u, net.1, fates);
    var router := RouterStage(u, net.1, fates);
    GentleWiden({u.router.name}, {}, Names(u), TempsOf(u.items), net.1.estate, router.1.estate);
    if net.0.Ok? {
      WithRouterWorks(site, u, router, fates);
      GentleChain(Names(u), TempsOf(u.items), net.1.estate, router.1.estate, WithRouter(site, u, router, fates).1.estate);
    }
  }

  // The whole run, whatever fails and wherever it starts.
  lemma RunWorks(site: Site, u: Setup, locked: bool, m: Machine, fates: Fates)
    requires Sound(u)
    ensures Faithful(u, m.estate, Reconciled(site, u, locked, m, fates))
  {
    RunUnfolds(site, u, locked, m, fates);
    var out := Reconciled(site, u, locked, m, fates);
    if out.1.estate == m.estate && out.0.Err? {
      NoRunIsFaithful(u, m.estate, out);
    } else {
      NetworkThenRest(site, u, Machine(m.estate, m.pos + 2), fates);
    }
  }

  lemma RunUnfolds(site: Site, u: Setup, locked: bool, m: Machine, fates: Fates)
    ensures var out := Reconciled(site, u, locked, m, fates);
            || (out.0.Err? && out.1.estate == m.estate)
            || out == WithNetwork(site, u, NetworkStage(u, Machine(m.estate, m.pos + 2), fates), fates)
  {
  }

  lemma NoRunIsFaithful(u: Setup, a: Estate, out: (Result<Report, Error>, Machine))
    requires out.0.Err? && out.1.estate == a
    ensures Faithful(u, a, out)
  {
  }

  lemma NetworkThenRest(site: Site, u: Setup, m: Machine, fates: Fates)
    requires Sound(u)
    ensures Faithful(u, m.estate, WithNetwork(site, u, NetworkStage(u, m, fates), fates))
  {
    var net := NetworkStage(u, m, fates);
    NetworkStageWorks(u, m, fates);
    WithNetworkWorks(site, u, net, fates);
    FaithfulFrom(u, m.estate, net.1.estate, WithNetwork(site, u, net, fates));
  }

  // A report has a line for the network, one for the router and one for every VM in order, and says
  // `failed` exactly when the line of some VM is an error; every VM whose line is not is as configured.
  lemma ReportIsTrue(site: Site, u: Setup, locked: bool, m: Machine, fates: Fates)
    requires Sound(u)
    ensures var (r, m') := Reconciled(site, u, locked, m, fates);
            r.Ok? ==> ReportTrue(u, r.value, m'.estate) && |r.value.lines| == |u.items| + 2
  {
    RunWorks(site, u, locked, m, fates);
  }

  lemma FailedIndex(rows: seq<Line>, lines: seq<Line>)
    requires |lines| == |rows| + 2 && lines[2..] == rows
    ensures AnyFailed(rows) <==> exists i :: 2 <= i < |lines| && IsFailure(lines[i])
  {
    if AnyFailed(rows) {
      var k :| 0 <= k < |rows| && IsFailure(rows[k]);
      assert lines[k + 2] == rows[k];
    }
    if i :| 2 <= i < |lines| && IsFailure(lines[i]) {
      assert rows[i - 2] == lines[i];
    }
  }

  lemma RouterStays(u: Setup, a: Estate, b: Estate)
    requires Sound(u) && RouterDone(u, a) && Gentle(NamesOf(u.items), TempsOf(u.items), a, b)
    ensures RouterDone(u, b)
  {
    SoundHasSoundItems(u);
  }

  // From any world, a run that reports no failure reaches the desired state.
  lemma UnfailedRunReachesDesired(site: Site, u: Setup, locked: bool, m: Machine, fates: Fates)
    requires Sound(u)
    ensures var (r, m') := Reconciled(site, u, locked, m, fates);
            r.Ok? && !r.value.failed ==> Desired(u, m'.estate)
  {
    var (r, m') := Reconciled(site, u, locked, m, fates);
    if r.Ok? && !r.value.failed {
      ReportIsTrue(site, u, locked, m, fates);
      var lines := r.value.lines;
      forall i | 0 <= i < |u.items|
        ensures VmDone(u.items[i], m'.estate)
      {
        assert lines[2..][i] == lines[i + 2];
      }
    }
  }

  // From the desired state, a run that reports no failure changes nothing, and says of every VM that it
  // was there already.
  lemma DesiredIsFixed(site: Site, u: Setup, locked: bool, m: Machine, fates: Fates)
    requires Sound(u) && Desired(u, m.estate)
    ensures var (r, m') := Reconciled(site, u, locked, m, fates);
            r.Ok? && !r.value.failed ==> m'.estate == m.estate && SaysOld(r.value.lines[2..])
  {
    RunWorks(site, u, locked, m, fates);
  }

  // However a run ends: no running domain is touched but for its definition and its autostart flag, no
  // file goes or changes but the temporary ones of this process, no domain but the configured ones and
  // the router is affected, and a run that finds the lock held does nothing.
  lemma NothingIsDisturbed(site: Site, u: Setup, locked: bool, m: Machine, fates: Fates)
    requires Sound(u)
    ensures var (r, m') := Reconciled(site, u, locked, m, fates);
            && Gentle(Names(u), TempsOf(u.items), m.estate, m'.estate)
            && (locked ==> r.Err? && m'.estate == m.estate)
  {
    RunWorks(site, u, locked, m, fates);
  }

  /* ---- when nothing fails ---- */

  ghost predicate AllFine(fates: Fates) { forall n :: fates(n) == Fine }

  lemma DoneItemSucceeds(site: Site, item: Item, m: Machine, fates: Fates)
    requires AllFine(fates) && VmDone(item, m.estate) && item.job.definition.name == item.name
    requires item.job.disk != item.job.temp
    ensures ItemStage(site, item, m, fates).0.Ok?
  {
    EnsureWorks(site, item, m, fates);
    var (d, m1) := Ensure(site, item.job, m, fates);
    assert d == Ok(OldDisk);
    CallOne(Autostart(item.name, item.autostart), m1, fates);
    AutostartWorks(item, m1, fates);
  }

  lemma {:induction false} DoneItemsSucceed(site: Site, items: seq<Item>, m: Machine, fates: Fates)
    requires AllFine(fates) && SoundItems(items) && AllDone(items, m.estate)
    ensures !AnyFailed(ItemsStage(site, items, m, fates).0)
  {
    if items != [] {
      var front, item := items[..|items| - 1], items[|items| - 1];
      SoundPrefix(items);
      DoneItemsSucceed(site, front, m, fates);
      DoneItemsStay(site, front, m, fates);
      var (lines, m1) := ItemsStage(site, front, m, fates);
      DoneItemSucceeds(site, item, m1, fates);
      FailedSnoc(lines, VmLine(item.name, item.autostart, ItemStage(site, item, m1, fates).0));
    }
  }

  lemma NetworkSucceeds(u: Setup, m: Machine, fates: Fates)
    requires AllFine(fates) && NetDone(u, m.estate)
    ensures NetworkStage(u, m, fates).0.Ok?
  {
    var n := u.network;
    assert m.estate.networks[n := Net(true, true)] == m.estate.networks;
    CallPair(NetDefine(n), NetAutostart(n), m, fates);
  }

  lemma RouterUpSucceeds(u: Setup, m: Machine, fates: Fates)
    requires AllFine(fates) && DomainDone(u.router.name, u.router, true, true, m.estate)
    ensures RouterUp(u, m, fates).0.Ok?
  {
    RouterDefinitionWorks(u, m, fates);
    CallPair(DefineRouter(u.router), Autostart(u.router.name, true), m, fates);
  }

  lemma RouterStageSucceeds(u: Setup, m: Machine, fates: Fates)
    requires AllFine(fates) && RouterDone(u, m.estate)
    ensures RouterStage(u, m, fates).0.Ok?
  {
    RouterUpSucceeds(u, Machine(m.estate, m.pos + 2), fates);
  }

  // Reconciling twice is reconciling once: after a run without failure, another run in which no command
  // fails reports no failure, and leaves the world exactly as it is.
  lemma ReconcileIsIdempotent(site: Site, u: Setup, m: Machine, fates: Fates, again: Fates)
    requires Sound(u) && AllFine(again)
    ensures var (r, m') := Reconciled(site, u, false, m, fates);
            r.Ok? && !r.value.failed ==>
              var (r2, m2) := Reconciled(site, u, false, Machine(m'.estate, 0), again);
              r2.Ok? && !r2.value.failed && m2.estate == m'.estate && SaysOld(r2.value.lines[2..])
  {
    var (r, m') := Reconciled(site, u, false, m, fates);
    if r.Ok? && !r.value.failed {
      UnfailedRunReachesDesired(site, u, false, m, fates);
      DesiredSucceeds(site, u, Machine(m'.estate, 0), again);
      DesiredIsFixed(site, u, false, Machine(m'.estate, 0), again);
    }
  }

  lemma DesiredSucceeds(site: Site, u: Setup, m: Machine, fates: Fates)
    requires Sound(u) && AllFine(fates) && Desired(u, m.estate)
    ensures var r := Reconciled(site, u, false, m, fates).0; r.Ok? && !r.value.failed
  {
    SoundHasSoundItems(u);
    var m0 := Machine(m.estate, m.pos + 2);
    NetworkStageWorks(u, m0, fates);
    NetworkSucceeds(u, m0, fates);
    var net := NetworkStage(u, m0, fates);
    RouterStageSucceeds(u, net.1, fates);
    RouterStageWorks(u, net.1, fates);
    RouterSucceeds(site, u, RouterStage(u, net.1, fates), fates);
  }

  lemma RouterSucceeds(site: Site, u: Setup, router: Staged, fates: Fates)
    requires router.0.Ok? && AllFine(fates) && SoundItems(u.items) && AllDone(u.items, router.1.estate)
    ensures var r := WithRouter(site, u, router, fates).0; r.Ok? && !r.value.failed
  {
    DoneItemsSucceed(site, u.items, router.1, fates);
  }
}
