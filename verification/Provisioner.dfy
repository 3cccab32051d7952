/** Creating, defining and ensuring a VM with no other creator at work: what each outcome leaves behind,
    and the operations as the manager runs them. */
module Provisioner {
  import opened Wrappers
  import opened Text
  import opened Provision
  import Config

  // The world together with the number of attempts made so far; a script says how each attempt ends.
  datatype Machine = Machine(estate: Estate, pos: nat)
  type Fates = nat -> Fate

  function Rank(pc: Pc): nat {
    match pc
    case LookFor => 12
    case DefineSeen => 1
    case CheckBase => 11
    case CheckDisk => 10
    case MakeDir => 9
    case Inspect => 8
    case CheckTemp => 7
    case MakeOverlay => 6
    case Link(_) => 5
    case DropTemp(_, _) => 1
    case RemoveTemp(_) => 4
    case DefineDomain(_) => 3
    case RollBack(_, _) => 2
    case Finished(_, _) => 0
  }

  function Complete(site: Site, job: Job, pc: Pc, m: Machine, fates: Fates): (Created, Machine)
    decreases Rank(pc)
  {
    if pc.Finished? then (pc.result, m)
    else
      var (pc', e) := Step(site, job, pc, m.estate, fates(m.pos));
      Complete(site, job, pc', Machine(e, m.pos + 1), fates)
  }

  lemma OneStep(site: Site, job: Job, pc: Pc, m: Machine, fates: Fates)
    requires !pc.Finished?
    ensures var (pc', e) := Step(site, job, pc, m.estate, fates(m.pos));
            Complete(site, job, pc, m, fates) == Complete(site, job, pc', Machine(e, m.pos + 1), fates)
  {
  }

  function DefineOnly(job: Job, m: Machine, fates: Fates): (Created, Machine) {
    var f := fates(m.pos);
    if f == Fine then
      (Ok(()), Machine(m.estate.(domains := Defined(m.estate.domains, job.definition)), m.pos + 1))
    else (Err(DefineError(f)), Machine(m.estate, m.pos + 1))
  }

  datatype Ensured = NewDisk | OldDisk

  // A VM whose disk is there is only defined again.
  function Ensure(site: Site, job: Job, m: Machine, fates: Fates): (Result<Ensured, ProvisionError>, Machine) {
    var m' := Machine(m.estate, m.pos + 1);
    if Sees(m.estate, job.disk, fates(m.pos)) then
      var (r, m'') := DefineOnly(job, m', fates);
      (if r.Ok? then Ok(OldDisk) else Err(r.error), m'')
    else
      var (r, m'') := Complete(site, job, CheckBase, m', fates);
      (if r.Ok? then Ok(NewDisk) else Err(r.error), m'')
  }

  // Ensuring is the step machine from its first look on.
  lemma EnsureIsLookFor(site: Site, job: Job, m: Machine, fates: Fates)
    ensures var (r, m') := Ensure(site, job, m, fates);
            Complete(site, job, LookFor, m, fates) == (if r.Ok? then Ok(()) else Err(r.error), m')
  {
    OneStep(site, job, LookFor, m, fates);
    if Sees(m.estate, job.disk, fates(m.pos)) {
      OneStep(site, job, DefineSeen, Machine(m.estate, m.pos + 1), fates);
    } else {
      UnitResult(Complete(site, job, CheckBase, Machine(m.estate, m.pos + 1), fates).0);
    }
  }

  lemma UnitResult(r: Created)
    ensures r == if r.Ok? then Ok(()) else Err(r.error)
  {
    assert r.Ok? ==> r.value == ();
  }

  /* ---- what an outcome means ---- */

  predicate UsableBase(site: Site, job: Job) { job.base in site.bases && site.bases[job.base] == "qcow2" }

  // Nothing but the two paths of the job changes, and a disk that was there is untouched.
  predicate OnlyOwnPaths(job: Job, a: Estate, b: Estate) {
    && (forall path :: path in a.files && path != job.temp && (path != job.disk || path in b.files) ==>
          path in b.files && b.files[path] == a.files[path])
    && (forall path :: path in b.files && path !in a.files ==> path == job.temp || path == job.disk)
    && (job.disk in a.files ==> job.disk in b.files)
    && b.networks == a.networks && a.unused <= b.unused
  }

  // A new file was put under the disk path, which was free.
  predicate OnlyRenewed(site: Site, job: Job, a: Estate, b: Estate) {
    UsableBase(site, job) && job.disk !in a.files && b.domains == Renewed(a.domains, job.definition.name)
  }

  predicate Outcome(site: Site, job: Job, r: Created, a: Estate, b: Estate) {
    && OnlyOwnPaths(job, a, b)
    && (r.Err? ==> b.domains == a.domains || OnlyRenewed(site, job, a, b))
    && match r
       case Ok(_) =>
         && job.disk !in a.files && UsableBase(site, job)
         && b.files == (a.files - {job.temp})[job.disk := a.unused]
         && b.domains == Defined(Renewed(a.domains, job.definition.name), job.definition)
       case Err(Define) => b.files == a.files - {job.temp} && job.disk !in a.files
       case Err(AlreadyExists(path)) => path in a.files && (path == job.disk || (path == job.temp && b == a))
       case Err(InvalidBase(_)) => b == a
       case Err(ImageInfo) => b == a
       case Err(BaseFormat(_)) => b == a
       case Err(Overlay) => b.files == a.files || b.files == a.files[job.temp := a.unused]
       case Err(Io) => true
  }

  // What holds at each step of a creation that began in world a.
  predicate Along(site: Site, job: Job, pc: Pc, a: Estate, b: Estate) {
    var (disk, temp) := (job.disk, job.temp);
    match pc
    case Link(ino) =>
      UsableBase(site, job) && ino == a.unused && b == a.(files := a.files[temp := ino], unused := ino + 1)
    case DropTemp(ino, error) =>
      && ino == a.unused && b == a.(files := a.files[temp := ino], unused := ino + 1)
      && (error == Io || (error == AlreadyExists(disk) && disk in a.files))
    case RemoveTemp(ino) =>
      && UsableBase(site, job) && disk !in a.files && ino == a.unused
      && b == a.(files := a.files[temp := ino][disk := ino], unused := ino + 1,
                 domains := Renewed(a.domains, job.definition.name))
    case DefineDomain(ino) => UsableBase(site, job) && Published(job, ino, a, b)
    case RollBack(ino, error) =>
      UsableBase(site, job) && Published(job, ino, a, b) && (error == Io || error == ProvisionError.Define)
    case LookFor => false
    case DefineSeen => false
    case Finished(r, _) => Outcome(site, job, r, a, b)
    case CheckTemp => b == a && UsableBase(site, job)
    case MakeOverlay => b == a && UsableBase(site, job)
    case _ => b == a
  }

  predicate Published(job: Job, ino: nat, a: Estate, b: Estate) {
    && job.disk !in a.files && ino == a.unused
    && b == a.(files := (a.files - {job.temp})[job.disk := ino], unused := ino + 1,
               domains := Renewed(a.domains, job.definition.name))
  }

  lemma StepAlong(site: Site, job: Job, pc: Pc, a: Estate, b: Estate, f: Fate)
    requires job.disk != job.temp && !pc.Finished? && Along(site, job, pc, a, b)
    ensures var (pc', b') := Step(site, job, pc, b, f); Along(site, job, pc', a, b')
  {
    match pc
    case Link(ino) => LinkAlong(site, job, ino, a, b, f);
    case DropTemp(ino, error) => DropAlong(site, job, ino, error, a, b, f);
    case RemoveTemp(ino) => RemoveAlong(site, job, ino, a, b, f);
    case DefineDomain(ino) => DefineAlong(site, job, ino, a, b, f);
    case RollBack(ino, error) => RollBackAlong(site, job, ino, error, a, b, f);
    case _ =>
  }

  lemma LinkAlong(site: Site, job: Job, ino: nat, a: Estate, b: Estate, f: Fate)
    requires job.disk != job.temp && Along(site, job, Link(ino), a, b)
    ensures var (pc', b') := Step(site, job, Link(ino), b, f); Along(site, job, pc', a, b')
  {
  }

  lemma RemoveAlong(site: Site, job: Job, ino: nat, a: Estate, b: Estate, f: Fate)
    requires job.disk != job.temp && Along(site, job, RemoveTemp(ino), a, b)
    ensures var (pc', b') := Step(site, job, RemoveTemp(ino), b, f); Along(site, job, pc', a, b')
  {
    assert a.files[job.temp := ino][job.disk := ino] - {job.temp} == (a.files - {job.temp})[job.disk := ino];
  }

  lemma DropAlong(site: Site, job: Job, ino: nat, error: ProvisionError, a: Estate, b: Estate, f: Fate)
    requires job.disk != job.temp && Along(site, job, DropTemp(ino, error), a, b)
    ensures var (pc', b') := Step(site, job, DropTemp(ino, error), b, f); Along(site, job, pc', a, b')
  {
  }

  lemma DefineAlong(site: Site, job: Job, ino: nat, a: Estate, b: Estate, f: Fate)
    requires job.disk != job.temp && Along(site, job, DefineDomain(ino), a, b)
    ensures var (pc', b') := Step(site, job, DefineDomain(ino), b, f); Along(site, job, pc', a, b')
  {
  }

  lemma RollBackAlong(site: Site, job: Job, ino: nat, error: ProvisionError, a: Estate, b: Estate, f: Fate)
    requires job.disk != job.temp && Along(site, job, RollBack(ino, error), a, b)
    ensures var (pc', b') := Step(site, job, RollBack(ino, error), b, f); Along(site, job, pc', a, b')
  {
    assert (a.files - {job.temp})[job.disk := ino] - {job.disk} == a.files - {job.temp};
  }

  lemma {:induction false} CompleteAlong(site: Site, job: Job, pc: Pc, a: Estate, m: Machine, fates: Fates)
    requires job.disk != job.temp && Along(site, job, pc, a, m.estate)
    ensures var (r, m') := Complete(site, job, pc, m, fates); Outcome(site, job, r, a, m'.estate)
    decreases Rank(pc)
  {
    if !pc.Finished? {
      StepAlong(site, job, pc, a, m.estate, fates(m.pos));
      var (pc', e) := Step(site, job, pc, m.estate, fates(m.pos));
      CompleteAlong(site, job, pc', a, Machine(e, m.pos + 1), fates);
    }
  }

  // Whatever fails, a creation run alone succeeds only with the overlay published under a free disk path
  // and the domain defined; and when the definition is refused and the roll-back works, the disk path is
  // free again and no file but the creator's temporary name differs from before.
  lemma CreateOutcome(site: Site, creator: Creator, m: Machine, fates: Fates)
    ensures var job := JobOf(creator, site.config);
            var (r, m') := Complete(site, job, CheckBase, m, fates);
            && Outcome(site, job, r, m.estate, m'.estate)
            && (r == Err(ProvisionError.Define) && job.temp !in m.estate.files ==> m'.estate.files == m.estate.files)
            && (Config.IsIdentifier(creator.vm.name) ==>
                  && (r.Ok? ==> Provisioned(site, creator.vm, m.estate, m'.estate))
                  && SameButOwn(creator, m.estate, m'.estate))
  {
    TempNeverDisk(creator.vm, creator.pid, creator.vm);
    CompleteAlong(site, JobOf(creator, site.config), CheckBase, m.estate, m, fates);
    if Config.IsIdentifier(creator.vm.name) {
      JobFollowsConfig(creator, site.config);
    }
  }

  // The step that ends a creation with an error, going well itself, leaves the files as they were.
  lemma LastStepCleans(site: Site, job: Job, pc: Pc, a: Estate, b: Estate, f: Fate)
    requires job.disk != job.temp && !pc.Finished? && Along(site, job, pc, a, b) && job.temp !in a.files && f == Fine
    ensures var (pc', b') := Step(site, job, pc, b, f);
            pc'.Finished? && pc'.result.Err? ==> b'.files == a.files
  {
    match pc
    case DropTemp(ino, _) => assert a.files[job.temp := ino] - {job.temp} == a.files;
    case RollBack(ino, _) => assert (a.files - {job.temp})[job.disk := ino] - {job.disk} == a.files;
    case _ =>
  }

  lemma {:induction false} CompleteCleans(site: Site, job: Job, pc: Pc, a: Estate, m: Machine, fates: Fates)
    requires job.disk != job.temp && !pc.Finished? && Along(site, job, pc, a, m.estate) && job.temp !in a.files
    ensures var (r, m') := Complete(site, job, pc, m, fates);
            m'.pos > m.pos && (r.Err? && fates(m'.pos - 1) == Fine ==> m'.estate.files == a.files)
    decreases Rank(pc)
  {
    StepAlong(site, job, pc, a, m.estate, fates(m.pos));
    OneStep(site, job, pc, m, fates);
    var (pc', e) := Step(site, job, pc, m.estate, fates(m.pos));
    if pc'.Finished? {
      if fates(m.pos) == Fine { LastStepCleans(site, job, pc, a, m.estate, fates(m.pos)); }
    } else {
      CompleteCleans(site, job, pc', a, Machine(e, m.pos + 1), fates);
    }
  }

  // A creation that fails leaves no file behind if its last attempt goes well: every error after the
  // overlay was built is followed by its clean-up.
  lemma FailureLeavesNothing(site: Site, creator: Creator, m: Machine, fates: Fates)
    requires "." + creator.vm.name + ".qcow2.tmp-" + Decimal(creator.pid) !in m.estate.files
    ensures var (r, m') := Complete(site, JobOf(creator, site.config), CheckBase, m, fates);
            m'.pos > m.pos && (r.Err? && fates(m'.pos - 1) == Fine ==> m'.estate.files == m.estate.files)
  {
    TempNeverDisk(creator.vm, creator.pid, creator.vm);
    CompleteCleans(site, JobOf(creator, site.config), CheckBase, m.estate, m, fates);
  }

  // The VM's domain is defined as its configuration asks.
  predicate Configured(site: Site, vm: Config.Vm, e: Estate) {
    vm.name in e.domains && e.domains[vm.name].definition.Some?
    && DefinedAs(site.config, vm, e.domains[vm.name].definition.value)
  }

  // A disk that was not there was made over the VM's own base image, and the domain is defined.
  predicate Provisioned(site: Site, vm: Config.Vm, a: Estate, b: Estate) {
    && vm.name + ".qcow2" !in a.files && vm.name + ".qcow2" in b.files
    && vm.baseImage in site.bases && site.bases[vm.baseImage] == "qcow2" && Configured(site, vm, b)
  }

  // No path but the VM's disk and this process's temporary name is written.
  predicate SameButOwn(creator: Creator, a: Estate, b: Estate) {
    var (disk, temp) := (creator.vm.name + ".qcow2", "." + creator.vm.name + ".qcow2.tmp-" + Decimal(creator.pid));
    && (forall f :: f in a.files && f != disk && f != temp ==> f in b.files && b.files[f] == a.files[f])
    && (forall f :: f in b.files && f != disk && f != temp ==> f in a.files)
  }

  // Ensuring says Created exactly when it made the disk, and in either case the domain is as configured.
  predicate EnsureTold(site: Site, creator: Creator, a: Estate, r: Result<Ensured, ProvisionError>, b: Estate) {
    var disk := creator.vm.name + ".qcow2";
    && (r.Ok? ==> Configured(site, creator.vm, b) && disk in b.files && (r.value == NewDisk <==> disk !in a.files))
    && (r == Ok(NewDisk) ==> Provisioned(site, creator.vm, a, b))
    && (r == Ok(OldDisk) ==> b.files == a.files)
    && SameButOwn(creator, a, b)
  }

  lemma EnsureFollowsConfig(site: Site, creator: Creator, m: Machine, fates: Fates)
    requires Config.IsIdentifier(creator.vm.name)
    ensures var (r, m') := Ensure(site, JobOf(creator, site.config), m, fates);
            EnsureTold(site, creator, m.estate, r, m'.estate)
  {
    var m1 := Machine(m.estate, m.pos + 1);
    EnsureIs(site, JobOf(creator, site.config), m, fates);
    if Sees(m.estate, JobOf(creator, site.config).disk, fates(m.pos)) {
      SeenTold(site, creator, m1, fates);
    } else {
      UnseenTold(site, creator, m1, fates);
    }
  }

  lemma EnsureIs(site: Site, job: Job, m: Machine, fates: Fates)
    ensures var m1 := Machine(m.estate, m.pos + 1);
            Ensure(site, job, m, fates)
            == if Sees(m.estate, job.disk, fates(m.pos)) then
                 var (r, m') := DefineOnly(job, m1, fates); (if r.Ok? then Ok(OldDisk) else Err(r.error), m')
               else
                 var (r, m') := Complete(site, job, CheckBase, m1, fates);
                 (if r.Ok? then Ok(NewDisk) else Err(r.error), m')
  {
  }

  lemma SeenTold(site: Site, creator: Creator, m: Machine, fates: Fates)
    requires Config.IsIdentifier(creator.vm.name) && creator.vm.name + ".qcow2" in m.estate.files
    ensures var (r, m') := DefineOnly(JobOf(creator, site.config), m, fates);
            EnsureTold(site, creator, m.estate, if r.Ok? then Ok(OldDisk) else Err(r.error), m'.estate)
  {
    JobFollowsConfig(creator, site.config);
  }

  lemma UnseenTold(site: Site, creator: Creator, m: Machine, fates: Fates)
    requires Config.IsIdentifier(creator.vm.name)
    ensures var (r, m') := Complete(site, JobOf(creator, site.config), CheckBase, m, fates);
            EnsureTold(site, creator, m.estate, if r.Ok? then Ok(NewDisk) else Err(r.error), m'.estate)
  {
    CreateOutcome(site, creator, m, fates);
  }

  // A disk that is seen stops the creation before anything is written.
  lemma SeenDiskStopsCreation(site: Site, job: Job, m: Machine, fates: Fates)
    requires job.base in site.bases && job.disk in m.estate.files
    requires fates(m.pos) == Fine && fates(m.pos + 1) == Fine
    ensures Complete(site, job, CheckBase, m, fates) == (Err(AlreadyExists(job.disk)), Machine(m.estate, m.pos + 2))
  {
    AtCheckBase(site, job, m, fates);
    AtCheckDisk(site, job, Machine(m.estate, m.pos + 1), fates);
  }

  // What each check before the overlay leads to.
  lemma AtCheckBase(site: Site, job: Job, m: Machine, fates: Fates)
    ensures var m1 := Machine(m.estate, m.pos + 1);
            Complete(site, job, CheckBase, m, fates)
            == if fates(m.pos) == Fine && job.base in site.bases then Complete(site, job, CheckDisk, m1, fates)
               else (Err(InvalidBase(job.base)), m1)
  {
  }

  lemma AtCheckDisk(site: Site, job: Job, m: Machine, fates: Fates)
    ensures var m1 := Machine(m.estate, m.pos + 1);
            Complete(site, job, CheckDisk, m, fates)
            == if Sees(m.estate, job.disk, fates(m.pos)) then (Err(AlreadyExists(job.disk)), m1)
               else Complete(site, job, MakeDir, m1, fates)
  {
  }

  lemma AtMakeDir(site: Site, job: Job, m: Machine, fates: Fates)
    ensures var m1 := Machine(m.estate, m.pos + 1);
            Complete(site, job, MakeDir, m, fates)
            == if fates(m.pos) == Fine then Complete(site, job, Inspect, m1, fates) else (Err(Io), m1)
  {
  }

  lemma AtInspect(site: Site, job: Job, m: Machine, fates: Fates)
    requires job.base in site.bases
    ensures var m1 := Machine(m.estate, m.pos + 1);
            Complete(site, job, Inspect, m, fates)
            == if fates(m.pos) == NotRun then (Err(Io), m1)
               else if fates(m.pos) != Fine then (Err(ImageInfo), m1)
               else if site.bases[job.base] != "qcow2" then (Err(BaseFormat(site.bases[job.base])), m1)
               else Complete(site, job, CheckTemp, m1, fates)
  {
  }

  lemma AtCheckTemp(site: Site, job: Job, m: Machine, fates: Fates)
    ensures var m1 := Machine(m.estate, m.pos + 1);
            Complete(site, job, CheckTemp, m, fates)
            == if Sees(m.estate, job.temp, fates(m.pos)) then (Err(AlreadyExists(job.temp)), m1)
               else Complete(site, job, MakeOverlay, m1, fates)
  {
  }

  lemma TempStays(site: Site, job: Job, ino: nat, m: Machine, fates: Fates)
    requires fates(m.pos) != Fine || job.temp !in m.estate.files
    ensures Complete(site, job, RemoveTemp(ino), m, fates) == (Err(Io), Machine(m.estate, m.pos + 1))
  {
  }

  lemma TempGoes(site: Site, job: Job, ino: nat, m: Machine, fates: Fates)
    requires fates(m.pos) == Fine && job.temp in m.estate.files
    ensures var e := m.estate.(files := m.estate.files - {job.temp});
            Complete(site, job, RemoveTemp(ino), m, fates)
            == Complete(site, job, DefineDomain(ino), Machine(e, m.pos + 1), fates)
  {
  }

  lemma BaseAndDiskPass(site: Site, job: Job, m: Machine, fates: Fates)
    requires fates(m.pos) == Fine && job.base in site.bases && !Sees(m.estate, job.disk, fates(m.pos + 1))
    ensures Complete(site, job, CheckBase, m, fates) == Complete(site, job, MakeDir, Machine(m.estate, m.pos + 2), fates)
  {
    AtCheckBase(site, job, m, fates);
    AtCheckDisk(site, job, Machine(m.estate, m.pos + 1), fates);
  }

  lemma FirstChecks(site: Site, job: Job, m: Machine, fates: Fates)
    requires fates(m.pos) == Fine && fates(m.pos + 2) == Fine && job.base in site.bases && job.disk !in m.estate.files
    ensures Complete(site, job, CheckBase, m, fates)
            == Complete(site, job, Inspect, Machine(m.estate, m.pos + 3), fates)
  {
    BaseAndDiskPass(site, job, m, fates);
    AtMakeDir(site, job, Machine(m.estate, m.pos + 2), fates);
  }

  // With every attempt going well, the result is that of the first check that objects, in the order of
  // the code; and an objection means nothing was written.
  lemma CreateResultWhenFine(site: Site, job: Job, m: Machine, fates: Fates)
    requires job.disk != job.temp && forall n :: fates(n) == Fine
    ensures var (r, m') := Complete(site, job, CheckBase, m, fates);
            && r == (if job.base !in site.bases then Err(InvalidBase(job.base))
                     else if job.disk in m.estate.files then Err(AlreadyExists(job.disk))
                     else if site.bases[job.base] != "qcow2" then Err(BaseFormat(site.bases[job.base]))
                     else if job.temp in m.estate.files then Err(AlreadyExists(job.temp))
                     else Ok(()))
            && (r.Err? ==> m'.estate == m.estate)
  {
    if job.base !in site.bases {
      AtCheckBase(site, job, m, fates);
    } else if job.disk in m.estate.files {
      SeenDiskStopsCreation(site, job, m, fates);
    } else {
      FirstChecks(site, job, m, fates);
      LastResult(site, job, Machine(m.estate, m.pos + 3), fates);
    }
  }

  lemma LastResult(site: Site, job: Job, m: Machine, fates: Fates)
    requires job.disk != job.temp && (forall n :: fates(n) == Fine)
    requires job.base in site.bases && job.disk !in m.estate.files
    ensures var (r, m') := Complete(site, job, Inspect, m, fates);
            && r == (if site.bases[job.base] != "qcow2" then Err(BaseFormat(site.bases[job.base]))
                     else if job.temp in m.estate.files then Err(AlreadyExists(job.temp))
                     else Ok(()))
            && (r.Err? ==> m'.estate == m.estate)
  {
    AtInspect(site, job, m, fates);
    if UsableBase(site, job) {
      AtCheckTemp(site, job, Machine(m.estate, m.pos + 1), fates);
      if job.temp !in m.estate.files {
        PublishSucceeds(site, job, Machine(m.estate, m.pos + 2), fates);
      }
    }
  }

  // The world with the overlay built and published, before the temporary name is removed.
  function WithOverlay(job: Job, e: Estate): Estate {
    e.(files := e.files[job.temp := e.unused][job.disk := e.unused], unused := e.unused + 1,
       domains := Renewed(e.domains, job.definition.name))
  }

  lemma OverlayIsPublished(site: Site, job: Job, m: Machine, fates: Fates)
    requires fates(m.pos) == Fine && fates(m.pos + 1) == Fine
    requires job.disk !in m.estate.files && job.disk != job.temp
    ensures Complete(site, job, MakeOverlay, m, fates)
            == Complete(site, job, RemoveTemp(m.estate.unused), Machine(WithOverlay(job, m.estate), m.pos + 2), fates)
  {
    var e, n := m.estate, m.pos;
    OneStep(site, job, MakeOverlay, m, fates);
    var e1 := e.(files := e.files[job.temp := e.unused], unused := e.unused + 1);
    OneStep(site, job, Link(e.unused), Machine(e1, n + 1), fates);
  }

  lemma PublishSucceeds(site: Site, job: Job, m: Machine, fates: Fates)
    requires job.disk != job.temp && (forall n :: fates(n) == Fine) && job.disk !in m.estate.files
    ensures Complete(site, job, MakeOverlay, m, fates).0 == Ok(())
  {
    var n, ino := m.pos, m.estate.unused;
    OverlayIsPublished(site, job, m, fates);
    var e2 := WithOverlay(job, m.estate);
    OneStep(site, job, RemoveTemp(ino), Machine(e2, n + 2), fates);
    var e3 := e2.(files := e2.files - {job.temp});
    OneStep(site, job, DefineDomain(ino), Machine(e3, n + 3), fates);
  }

  /* ---- the operations as the manager runs them ---- */

  class Manager {
    var estate: Estate
    var pos: nat
    const site: Site
    const fates: Fates

    constructor (e: Estate, s: Site, f: Fates)
      ensures estate == e && pos == 0 && site == s && fates == f
    {
      estate := e;
      pos := 0;
      site := s;
      fates := f;
    }

    function Now(): Machine
      reads this
    {
      Machine(estate, pos)
    }

    method Attempt() returns (f: Fate)
      modifies this`pos
      ensures f == fates(old(pos)) && pos == old(pos) + 1
    {
      f := fates(pos);
      pos := pos + 1;
    }

    method DefineVm(job: Job) returns (r: Created)
      modifies this
      ensures (r, Now()) == DefineOnly(job, old(Now()), fates)
      ensures r.Ok? <==> fates(old(pos)) == Fine
      ensures r == Err(Io) <==> fates(old(pos)) == NotRun
      ensures r == Err(ProvisionError.Define) <==> fates(old(pos)).Refused?
      ensures forall c, vm: Config.Vm :: r.Ok? && Config.IsIdentifier(vm.name) && job.definition == DefinitionOf(c, vm) ==>
                vm.name in estate.domains && estate.domains[vm.name].definition.Some?
                && DefinedAs(c, vm, estate.domains[vm.name].definition.value)
    {
      forall c, vm: Config.Vm | Config.IsIdentifier(vm.name)
        ensures DefinedAs(c, vm, DefinitionOf(c, vm))
      {
        DefinitionFollowsConfig(c, vm);
      }
      var f := Attempt();
      if f == Fine {
        estate := estate.(domains := Defined(estate.domains, job.definition));
        return Ok(());
      }
      r := Err(DefineError(f));
    }

    // The checks before anything is written.
    method Prepare(job: Job) returns (r: Created)
      modifies this
      ensures r.Ok? ==> Complete(site, job, CheckBase, old(Now()), fates) == Complete(site, job, MakeOverlay, Now(), fates)
      ensures r.Err? ==> Complete(site, job, CheckBase, old(Now()), fates) == (r, Now())
    {
      r := CheckBaseAndDisk(job);
      if r.Err? {
        return;
      }
      r := InspectBase(job);
      if r.Err? {
        return;
      }
      r := CheckTempFree(job);
    }

    method CheckTempFree(job: Job) returns (r: Created)
      modifies this
      ensures r.Ok? ==> Complete(site, job, CheckTemp, old(Now()), fates) == Complete(site, job, MakeOverlay, Now(), fates)
      ensures r.Err? ==> Complete(site, job, CheckTemp, old(Now()), fates) == (r, Now())
    {
      AtCheckTemp(site, job, Now(), fates);
      var stale := Attempt();
      r := if Sees(estate, job.temp, stale) then Err(AlreadyExists(job.temp)) else Ok(());
    }

    method InspectBase(job: Job) returns (r: Created)
      requires job.base in site.bases
      modifies this
      ensures r.Ok? ==> Complete(site, job, MakeDir, old(Now()), fates) == Complete(site, job, CheckTemp, Now(), fates)
      ensures r.Err? ==> Complete(site, job, MakeDir, old(Now()), fates) == (r, Now())
    {
      AtMakeDir(site, job, Now(), fates);
      var dir := Attempt();
      if dir != Fine {
        return Err(Io);
      }
      AtInspect(site, job, Now(), fates);
      var info := Attempt();
      if info == NotRun {
        return Err(Io);
      }
      if info != Fine {
        return Err(ImageInfo);
      }
      if site.bases[job.base] != "qcow2" {
        return Err(BaseFormat(site.bases[job.base]));
      }
      r := Ok(());
    }

    method CheckBaseAndDisk(job: Job) returns (r: Created)
      modifies this
      ensures r.Ok? ==> job.base in site.bases
      ensures r.Ok? ==> Complete(site, job, CheckBase, old(Now()), fates) == Complete(site, job, MakeDir, Now(), fates)
      ensures r.Err? ==> Complete(site, job, CheckBase, old(Now()), fates) == (r, Now())
    {
      AtCheckBase(site, job, Now(), fates);
      var base := Attempt();
      if base != Fine || job.base !in site.bases {
        return Err(InvalidBase(job.base));
      }
      AtCheckDisk(site, job, Now(), fates);
      var seen := Attempt();
      r := if Sees(estate, job.disk, seen) then Err(AlreadyExists(job.disk)) else Ok(());
    }

    method Discard(job: Job, ino: nat, error: ProvisionError)
      modifies this
      ensures Complete(site, job, DropTemp(ino, error), old(Now()), fates) == (Err(error), Now())
    {
      OneStep(site, job, DropTemp(ino, error), Now(), fates);
      var drop := Attempt();
      if drop == Fine {
        estate := estate.(files := estate.files - {job.temp});
      }
    }

    // The hard link is what makes the overlay the VM's disk.
    method Publish(job: Job, ino: nat) returns (r: Created)
      modifies this
      ensures r.Ok? ==>
                Complete(site, job, Link(ino), old(Now()), fates) == Complete(site, job, DefineDomain(ino), Now(), fates)
      ensures r.Err? ==> Complete(site, job, Link(ino), old(Now()), fates) == (r, Now())
    {
      OneStep(site, job, Link(ino), Now(), fates);
      var link := Attempt();
      if link != Fine || job.temp !in estate.files {
        Discard(job, ino, Io);
        return Err(Io);
      }
      if job.disk in estate.files {
        Discard(job, ino, AlreadyExists(job.disk));
        return Err(AlreadyExists(job.disk));
      }
      estate := estate.(files := estate.files[job.disk := estate.files[job.temp]],
                        domains := Renewed(estate.domains, job.definition.name));
      r := DropOwnName(job, ino);
    }

    method DropOwnName(job: Job, ino: nat) returns (r: Created)
      modifies this
      ensures r.Ok? ==>
                Complete(site, job, RemoveTemp(ino), old(Now()), fates)
                == Complete(site, job, DefineDomain(ino), Now(), fates)
      ensures r.Err? ==> Complete(site, job, RemoveTemp(ino), old(Now()), fates) == (r, Now())
    {
      ghost var m := Now();
      var remove := Attempt();
      if remove != Fine || job.temp !in estate.files {
        TempStays(site, job, ino, m, fates);
        return Err(Io);
      }
      TempGoes(site, job, ino, m, fates);
      estate := estate.(files := estate.files - {job.temp});
      r := Ok(());
    }

    // The disk is taken back when the domain could not be defined.
    method DefineOrTakeBack(job: Job, ino: nat) returns (r: Created)
      modifies this
      ensures Complete(site, job, DefineDomain(ino), old(Now()), fates) == (r, Now())
    {
      OneStep(site, job, DefineDomain(ino), Now(), fates);
      r := DefineVm(job);
      if r.Err? {
        OneStep(site, job, RollBack(ino, r.error), Now(), fates);
        var remove := Attempt();
        if remove != Fine || job.disk !in estate.files {
          return Err(Io);
        }
        estate := estate.(files := estate.files - {job.disk});
      }
    }

    // Build the overlay under the temporary name.
    method Build(job: Job) returns (r: Result<nat, ProvisionError>)
      modifies this
      ensures r.Ok? ==>
                Complete(site, job, MakeOverlay, old(Now()), fates) == Complete(site, job, Link(r.value), Now(), fates)
      ensures r.Err? ==> Complete(site, job, MakeOverlay, old(Now()), fates) == (Err(r.error), Now())
    {
      OneStep(site, job, MakeOverlay, Now(), fates);
      var overlay := Attempt();
      var ino := estate.unused;
      if overlay == NotRun {
        return Err(Io);
      }
      if overlay.Fine? || overlay.partial {
        estate := estate.(files := estate.files[job.temp := ino], unused := ino + 1);
      }
      r := if overlay == Fine then Ok(ino) else Err(Overlay);
    }

    method Create(job: Job) returns (r: Created)
      modifies this
      ensures Complete(site, job, CheckBase, old(Now()), fates) == (r, Now())
    {
      r := Prepare(job);
      if r.Err? {
        return;
      }
      var built := Build(job);
      if built.Err? {
        return Err(built.error);
      }
      r := Publish(job, built.value);
      if r.Err? {
        return;
      }
      r := DefineOrTakeBack(job, built.value);
    }

    method EnsureVm(job: Job) returns (r: Result<Ensured, ProvisionError>)
      modifies this
      ensures (r, Now()) == Ensure(site, job, old(Now()), fates)
    {
      var seen := Attempt();
      if Sees(estate, job.disk, seen) {
        var d := DefineVm(job);
        r := if d.Ok? then Ok(OldDisk) else Err(d.error);
      } else {
        var c := Create(job);
        r := if c.Ok? then Ok(NewDisk) else Err(c.error);
      }
    }
  }
}
