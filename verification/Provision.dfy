/** Creating a VM: the overlay is built under a temporary name, published by a hard link, and taken back
    if the domain cannot be defined. Any number of creators may interleave, file operation by file
    operation. */
module Provision {
  import opened Wrappers
  import opened Text
  import opened Config
  import opened Libvirt
  import Leases

  datatype ProvisionError =
    | InvalidBase(path: string)
    | AlreadyExists(path: string)
    | Io
    | ImageInfo
    | BaseFormat(format: string)
    | Overlay
    | Define

  /* ---- names ---- */

  function DiskName(vm: Vm): string { vm.name + ".qcow2" }

  function TempName(vm: Vm, pid: nat): string { "." + vm.name + ".qcow2.tmp-" + Decimal(pid) }

  function PidSuffix(s: string): string {
    if s == [] || !IsDigit(s[|s| - 1]) then [] else PidSuffix(s[..|s| - 1]) + [s[|s| - 1]]
  }

  lemma {:induction false} SuffixIsPid(front: string, digits: string)
    requires front != [] && !IsDigit(front[|front| - 1]) && forall c :: c in digits ==> IsDigit(c)
    ensures PidSuffix(front + digits) == digits
  {
    if digits == [] {
      assert front + digits == front;
    } else {
      var n := |digits| - 1;
      SuffixIsPid(front, digits[..n]);
      assert (front + digits)[..|front + digits| - 1] == front + digits[..n];
      assert digits[..n] + [digits[n]] == digits;
      assert (front + digits)[|front + digits| - 1] == digits[n];
    }
  }

  // A temporary name tells the VM and the process apart from all others.
  lemma TempInjective(a: Vm, p: nat, b: Vm, q: nat)
    requires TempName(a, p) == TempName(b, q)
    ensures a.name == b.name && p == q
  {
    var fa, fb := "." + a.name + ".qcow2.tmp-", "." + b.name + ".qcow2.tmp-";
    SuffixIsPid(fa, Decimal(p));
    SuffixIsPid(fb, Decimal(q));
    DecimalRoundTrip(p);
    DecimalRoundTrip(q);
    assert fa == TempName(a, p)[..|TempName(a, p)| - |Decimal(p)|];
    assert fb == TempName(b, q)[..|TempName(b, q)| - |Decimal(q)|];
    assert a.name == fa[1..|fa| - 11] && b.name == fb[1..|fb| - 11];
  }

  // A disk name ends in "w2", a temporary name in a digit after a digit or a dash.
  lemma TempNeverDisk(a: Vm, p: nat, b: Vm)
    ensures TempName(a, p) != DiskName(b)
  {
    var t, d := TempName(a, p), DiskName(b);
    assert d[|d| - 2] == 'w';
    var n := |Decimal(p)|;
    if n == 1 {
      assert t[|t| - 2] == '-';
    } else {
      assert t[|t| - 2] == Decimal(p)[n - 2];
    }
  }

  /* ---- the world ---- */

  datatype Net = Net(active: bool, autostart: bool)

  // The VM directory (path to inode, with the next unused inode), the domains and the networks.
  datatype Estate = Estate(
    files: map<string, nat>, unused: nat, domains: map<string, Domain>, networks: map<string, Net>)

  // How one attempt ends: as asked, refused by the tool (an image tool may leave a partial file), or
  // never run at all.
  datatype Fate = Fine | Refused(partial: bool) | NotRun

  // The configuration, and the regular files that can serve as base images, with their format.
  datatype Site = Site(config: Config, bases: map<string, string>)

  // A process that creates a VM, or ensures that it exists, and the creation with its paths and its
  // definition worked out.
  datatype Creator = Creator(vm: Vm, pid: nat, ensuring: bool)
  datatype Job = Job(base: string, disk: string, temp: string, definition: Definition)

  function Disk(c: Creator): string { DiskName(c.vm) }
  function Temp(c: Creator): string { TempName(c.vm, c.pid) }

  function JoinPath(dir: string, name: string): string {
    if dir != "" && dir[|dir| - 1] == '/' then dir + name else dir + "/" + name
  }

  function DefinitionOf(c: Config, vm: Vm): Definition {
    Definition(vm.name, JoinPath(c.storage.vmDir, DiskName(vm)), Leases.MacAddress(vm), c.network.guestNetwork,
               vm.vcpus, vm.memoryMib)
  }

  function JobOf(c: Creator, config: Config): Job {
    Job(c.vm.baseImage, Disk(c), Temp(c), DefinitionOf(config, c.vm))
  }

  // The definition a configured VM is to have: on the guest network, with its own disk in the VM directory,
  // its CPUs and memory, and the network card its lease is for.
  predicate DefinedAs(c: Config, vm: Vm, d: Definition) {
    && d.name == vm.name && d.network == c.network.guestNetwork && d.vcpus == vm.vcpus && d.memoryMib == vm.memoryMib
    && InDirectory(c.storage.vmDir, vm.name + ".qcow2", d.disk)
    && Leases.ParseMac(d.mac) == Some(vm.address % 0x100_0000)
    && Split(Leases.LeaseLine(vm), ',')[0] == "dhcp-host=" + d.mac
  }

  predicate InDirectory(dir: string, name: string, path: string) {
    || (dir != "" && dir[|dir| - 1] == '/' && path == dir + name)
    || ((dir == "" || dir[|dir| - 1] != '/') && path == dir + "/" + name)
  }

  lemma DefinitionFollowsConfig(c: Config, vm: Vm)
    requires IsIdentifier(vm.name)
    ensures DefinedAs(c, vm, DefinitionOf(c, vm))
  {
    Leases.MacRoundTrip(vm);
    Leases.LeaseStart(vm);
  }

  // What a creator works with, by its configuration.
  predicate WorksOn(c: Config, vm: Vm, pid: nat, job: Job) {
    && job.base == vm.baseImage && job.disk == vm.name + ".qcow2"
    && job.temp == "." + vm.name + ".qcow2.tmp-" + Decimal(pid) && DefinedAs(c, vm, job.definition)
  }

  lemma JobFollowsConfig(creator: Creator, c: Config)
    requires IsIdentifier(creator.vm.name)
    ensures WorksOn(c, creator.vm, creator.pid, JobOf(creator, c))
  {
    DefinitionFollowsConfig(c, creator.vm);
  }

  // `virsh define`: a new domain is off and not started at boot; a known one keeps its state.
  function Defined(domains: map<string, Domain>, d: Definition): (r: map<string, Domain>)
    ensures d.name in r && r[d.name].definition == Some(d)
    ensures forall n :: n != d.name ==> (n in r <==> n in domains) && (n in domains ==> r[n] == domains[n])
    ensures d.name in domains ==> r[d.name] == domains[d.name].(definition := Some(d))
  {
    domains[d.name := if d.name in domains then domains[d.name].(definition := Some(d))
                      else Domain(Some(d), ShutOff, 0, 1, None, map[], false, false)]
  }

  // A domain that is off will find a new file under its disk: other content than any before. An active
  // one keeps the file it has open.
  function Renewed(domains: map<string, Domain>, name: string): (r: map<string, Domain>)
    ensures r.Keys == domains.Keys
    ensures forall n :: n in domains && n != name ==> r[n] == domains[n]
  {
    if name in domains && !Active(domains[name].raw) then
      domains[name := ForeignWrite(domains[name])]
    else domains
  }

  /* ---- one creation, step by step ---- */

  type Created = Result<(), ProvisionError>

  // Ensuring begins by looking for the disk: a disk that is seen is only defined.
  // `ino` is the inode of the overlay this creator made; `left` is what it leaves at the disk path.
  datatype Pc =
    | LookFor
    | DefineSeen
    | CheckBase
    | CheckDisk
    | MakeDir
    | Inspect
    | CheckTemp
    | MakeOverlay
    | Link(ino: nat)
    | DropTemp(ino: nat, error: ProvisionError)
    | RemoveTemp(ino: nat)
    | DefineDomain(ino: nat)
    | RollBack(ino: nat, error: ProvisionError)
    | Finished(result: Created, left: Option<nat>)

  function Fail(e: ProvisionError): Pc { Finished(Err(e), None) }

  // `virsh define` of the VM: it could not be run, or it was refused.
  function DefineError(f: Fate): ProvisionError { if f == NotRun then Io else Define }

  // Looking for a file can fail, and then reads as the file not being there.
  predicate Sees(e: Estate, path: string, f: Fate) { f == Fine && path in e.files }

  function Step(site: Site, job: Job, pc: Pc, e: Estate, f: Fate): (Pc, Estate)
    requires !pc.Finished?
  {
    var (disk, temp) := (job.disk, job.temp);
    match pc
    case LookFor => (if Sees(e, disk, f) then DefineSeen else CheckBase, e)
    case DefineSeen =>
      if f == Fine then (Finished(Ok(()), None), e.(domains := Defined(e.domains, job.definition)))
      else (Fail(DefineError(f)), e)
    case CheckBase =>
      (if f == Fine && job.base in site.bases then CheckDisk else Fail(InvalidBase(job.base)), e)
    case CheckDisk => (if Sees(e, disk, f) then Fail(AlreadyExists(disk)) else MakeDir, e)
    case MakeDir => (if f == Fine then Inspect else Fail(Io), e)
    case Inspect =>
      (match f
       case NotRun => Fail(Io)
       case Refused(_) => Fail(ImageInfo)
       case Fine =>
         var format := if job.base in site.bases then site.bases[job.base] else "unknown";
         if format == "qcow2" then CheckTemp else Fail(BaseFormat(format)), e)
    case CheckTemp => (if Sees(e, temp, f) then Fail(AlreadyExists(temp)) else MakeOverlay, e)
    case MakeOverlay =>
      (match f
       case NotRun => (Fail(Io), e)
       case Refused(partial) =>
         (Fail(Overlay), if partial then e.(files := e.files[temp := e.unused], unused := e.unused + 1) else e)
       case Fine => (Link(e.unused), e.(files := e.files[temp := e.unused], unused := e.unused + 1)))
    case Link(ino) =>
      if f != Fine || temp !in e.files then (DropTemp(ino, Io), e)
      else if disk in e.files then (DropTemp(ino, AlreadyExists(disk)), e)
      else
        (RemoveTemp(ino), e.(files := e.files[disk := e.files[temp]], domains := Renewed(e.domains, job.definition.name)))
    case DropTemp(_, error) => (Fail(error), if f == Fine then e.(files := e.files - {temp}) else e)
    case RemoveTemp(ino) =>
      if f != Fine || temp !in e.files then (Finished(Err(Io), Some(ino)), e)
      else (DefineDomain(ino), e.(files := e.files - {temp}))
    case DefineDomain(ino) =>
      if f == Fine then
        (Finished(Ok(()), Some(ino)), e.(domains := Defined(e.domains, job.definition)))
      else (RollBack(ino, DefineError(f)), e)
    case RollBack(ino, error) =>
      if f != Fine || disk !in e.files then (Finished(Err(Io), Some(ino)), e)
      else (Fail(error), e.(files := e.files - {disk}))
  }

  /* ---- many creators ---- */

  datatype Sys = Sys(pcs: seq<Pc>, estate: Estate)

  // The inode a creator has at its temporary path, and the one it has at its disk path.
  function AtTemp(pc: Pc): Option<nat> {
    match pc
    case Link(ino) => Some(ino)
    case DropTemp(ino, _) => Some(ino)
    case RemoveTemp(ino) => Some(ino)
    case _ => None
  }

  function AtDisk(pc: Pc): Option<nat> {
    match pc
    case RemoveTemp(ino) => Some(ino)
    case DefineDomain(ino) => Some(ino)
    case RollBack(ino, _) => Some(ino)
    case Finished(_, left) => left
    case _ => None
  }

  function Made(pc: Pc): Option<nat> { if AtTemp(pc).Some? then AtTemp(pc) else AtDisk(pc) }

  predicate DistinctPids(jobs: seq<Creator>) {
    forall j, k :: 0 <= j < k < |jobs| ==> jobs[j].pid != jobs[k].pid
  }

  predicate At(e: Estate, path: string, ino: Option<nat>) {
    ino.Some? ==> path in e.files && e.files[path] == ino.value && ino.value < e.unused
  }

  ghost predicate Inv(s: Sys, jobs: seq<Creator>) {
    && |s.pcs| == |jobs| && DistinctPids(jobs)
    && (forall path :: path in s.estate.files ==> s.estate.files[path] < s.estate.unused)
    && (forall k :: 0 <= k < |jobs| ==> At(s.estate, Temp(jobs[k]), AtTemp(s.pcs[k])))
    && (forall k :: 0 <= k < |jobs| ==> At(s.estate, Disk(jobs[k]), AtDisk(s.pcs[k])))
    && (forall j, k :: 0 <= j < k < |jobs| && Made(s.pcs[j]).Some? ==> Made(s.pcs[j]) != Made(s.pcs[k]))
  }

  predicate Enabled(s: Sys, k: nat) { k < |s.pcs| && !s.pcs[k].Finished? }

  function Next(s: Sys, k: nat, f: Fate, jobs: seq<Creator>, site: Site): Sys
    requires Enabled(s, k) && |s.pcs| == |jobs|
  {
    var (pc, e) := Step(site, JobOf(jobs[k], site.config), s.pcs[k], s.estate, f);
    Sys(s.pcs[k := pc], e)
  }

  // A step writes no path but the creator's own temporary path, the disk path when nothing is there, and
  // the disk path when the creator takes back the very disk it published.
  lemma TouchesOnlyItsOwn(s: Sys, k: nat, f: Fate, jobs: seq<Creator>, site: Site, path: string)
    requires Inv(s, jobs) && Enabled(s, k)
    ensures var (before, after) := (s.estate.files, Next(s, k, f, jobs, site).estate.files);
            || (path in before && path in after && before[path] == after[path])
            || (path !in before && path !in after)
            || path == Temp(jobs[k])
            || (path == Disk(jobs[k]) && path !in before && AtDisk(Next(s, k, f, jobs, site).pcs[k]) == Some(after[path]))
            || (path == Disk(jobs[k]) && path in before && path !in after && s.pcs[k].RollBack?
                && before[path] == s.pcs[k].ino)
  {
    assert At(s.estate, Disk(jobs[k]), AtDisk(s.pcs[k])) && At(s.estate, Temp(jobs[k]), AtTemp(s.pcs[k]));
  }

  // At most one creator has a disk at a path.
  lemma OneOwner(s: Sys, jobs: seq<Creator>, j: nat, k: nat)
    requires Inv(s, jobs) && j < |jobs| && k < |jobs| && Disk(jobs[j]) == Disk(jobs[k])
    requires AtDisk(s.pcs[j]).Some? && AtDisk(s.pcs[k]).Some?
    ensures j == k
  {
    assert At(s.estate, Disk(jobs[j]), AtDisk(s.pcs[j])) && At(s.estate, Disk(jobs[k]), AtDisk(s.pcs[k]));
    assert Made(s.pcs[j]) == AtDisk(s.pcs[j]) && Made(s.pcs[k]) == AtDisk(s.pcs[k]);
  }

  lemma StepFresh(s: Sys, k: nat, f: Fate, jobs: seq<Creator>, site: Site)
    requires Inv(s, jobs) && Enabled(s, k)
    ensures var s' := Next(s, k, f, jobs, site);
            && s.estate.unused <= s'.estate.unused
            && (forall path :: path in s'.estate.files ==> s'.estate.files[path] < s'.estate.unused)
            && (Made(s'.pcs[k]).Some? ==> Made(s'.pcs[k]) == Made(s.pcs[k]) || Made(s'.pcs[k]) == Some(s.estate.unused))
            && At(s'.estate, Temp(jobs[k]), AtTemp(s'.pcs[k])) && At(s'.estate, Disk(jobs[k]), AtDisk(s'.pcs[k]))
  {
    assert At(s.estate, Temp(jobs[k]), AtTemp(s.pcs[k])) && At(s.estate, Disk(jobs[k]), AtDisk(s.pcs[k]));
    TempNeverDisk(jobs[k].vm, jobs[k].pid, jobs[k].vm);
  }

  lemma OthersKeep(s: Sys, k: nat, f: Fate, jobs: seq<Creator>, site: Site, j: nat)
    requires Inv(s, jobs) && Enabled(s, k) && j < |jobs| && j != k
    ensures var s' := Next(s, k, f, jobs, site);
            && s'.pcs[j] == s.pcs[j]
            && At(s'.estate, Temp(jobs[j]), AtTemp(s.pcs[j])) && At(s'.estate, Disk(jobs[j]), AtDisk(s.pcs[j]))
  {
    assert At(s.estate, Temp(jobs[j]), AtTemp(s.pcs[j])) && At(s.estate, Disk(jobs[j]), AtDisk(s.pcs[j]));
    TempNeverDisk(jobs[k].vm, jobs[k].pid, jobs[j].vm);
    TempNeverDisk(jobs[j].vm, jobs[j].pid, jobs[k].vm);
    if Temp(jobs[j]) == Temp(jobs[k]) {
      TempInjective(jobs[j].vm, jobs[j].pid, jobs[k].vm, jobs[k].pid);
    }
    StepFresh(s, k, f, jobs, site);
    TouchesOnlyItsOwn(s, k, f, jobs, site, Temp(jobs[j]));
    TouchesOnlyItsOwn(s, k, f, jobs, site, Disk(jobs[j]));
    if AtDisk(s.pcs[j]).Some? && s.pcs[k].RollBack? && Disk(jobs[j]) == Disk(jobs[k]) {
      OneOwner(s, jobs, j, k);
    }
  }

  lemma NextInv(s: Sys, k: nat, f: Fate, jobs: seq<Creator>, site: Site)
    requires Inv(s, jobs) && Enabled(s, k)
    ensures Inv(Next(s, k, f, jobs, site), jobs)
  {
    var s' := Next(s, k, f, jobs, site);
    StepFresh(s, k, f, jobs, site);
    forall j | 0 <= j < |jobs|
      ensures At(s'.estate, Temp(jobs[j]), AtTemp(s'.pcs[j])) && At(s'.estate, Disk(jobs[j]), AtDisk(s'.pcs[j]))
    {
      if j != k { OthersKeep(s, k, f, jobs, site, j); }
    }
    forall i, j | 0 <= i < j < |jobs| && Made(s'.pcs[i]).Some?
      ensures Made(s'.pcs[i]) != Made(s'.pcs[j])
    {
      assert Made(s.pcs[i]).Some? ==> Made(s.pcs[i]) != Made(s.pcs[j]);
      assert At(s.estate, Temp(jobs[i]), AtTemp(s.pcs[i])) && At(s.estate, Disk(jobs[i]), AtDisk(s.pcs[i]));
      assert At(s.estate, Temp(jobs[j]), AtTemp(s.pcs[j])) && At(s.estate, Disk(jobs[j]), AtDisk(s.pcs[j]));
    }
  }

  /* ---- every interleaving ---- */

  datatype Move = Move(k: nat, fate: Fate)

  function Run(s0: Sys, moves: seq<Move>, jobs: seq<Creator>, site: Site): (r: Option<Sys>)
    requires |s0.pcs| == |jobs|
    ensures r.Some? ==> |r.value.pcs| == |jobs|
  {
    if moves == [] then Some(s0)
    else
      var m := moves[|moves| - 1];
      match Run(s0, moves[..|moves| - 1], jobs, site)
      case None => None
      case Some(t) => if Enabled(t, m.k) then Some(Next(t, m.k, m.fate, jobs, site)) else None
  }

  function Begin(jobs: seq<Creator>, e: Estate): Sys {
    Sys(seq(|jobs|, k => if 0 <= k < |jobs| && jobs[k].ensuring then LookFor else CheckBase), e)
  }

  lemma BeginInv(jobs: seq<Creator>, e: Estate)
    requires DistinctPids(jobs) && forall path :: path in e.files ==> e.files[path] < e.unused
    ensures Inv(Begin(jobs, e), jobs)
  {
  }

  lemma {:induction false} RunsKeepInv(s0: Sys, moves: seq<Move>, jobs: seq<Creator>, site: Site)
    requires Inv(s0, jobs) && Run(s0, moves, jobs, site).Some?
    ensures Inv(Run(s0, moves, jobs, site).value, jobs)
  {
    if moves != [] {
      var m := moves[|moves| - 1];
      RunsKeepInv(s0, moves[..|moves| - 1], jobs, site);
      NextInv(Run(s0, moves[..|moves| - 1], jobs, site).value, m.k, m.fate, jobs, site);
    }
  }

  // In every state that any number of creators can reach, at most one of them has a disk at a path, that
  // disk is the overlay it made itself, and its temporary file is its own.
  lemma OwnershipHolds(jobs: seq<Creator>, e: Estate, moves: seq<Move>, site: Site)
    requires DistinctPids(jobs) && forall path :: path in e.files ==> e.files[path] < e.unused
    ensures var r := Run(Begin(jobs, e), moves, jobs, site);
            r.Some? ==>
              var s := r.value;
              && (forall j, k | 0 <= j < |jobs| && 0 <= k < |jobs| && Disk(jobs[j]) == Disk(jobs[k])
                    :: AtDisk(s.pcs[j]).Some? && AtDisk(s.pcs[k]).Some? ==> j == k)
              && (forall k :: 0 <= k < |jobs| ==>
                    At(s.estate, Disk(jobs[k]), AtDisk(s.pcs[k])) && At(s.estate, Temp(jobs[k]), AtTemp(s.pcs[k])))
  {
    var r := Run(Begin(jobs, e), moves, jobs, site);
    if r.Some? {
      BeginInv(jobs, e);
      RunsKeepInv(Begin(jobs, e), moves, jobs, site);
      forall j, k | 0 <= j < |jobs| && 0 <= k < |jobs| && Disk(jobs[j]) == Disk(jobs[k])
        && AtDisk(r.value.pcs[j]).Some? && AtDisk(r.value.pcs[k]).Some?
        ensures j == k
      {
        OneOwner(r.value, jobs, j, k);
      }
    }
  }

  // A file stays, with its content, through every run of creators, unless it lies at the temporary path
  // of one of them or is the disk of one that is not finished.
  ghost predicate Settled(s: Sys, jobs: seq<Creator>, path: string, ino: nat) {
    && path in s.estate.files && s.estate.files[path] == ino && |s.pcs| == |jobs|
    && (forall k :: 0 <= k < |jobs| ==> path != Temp(jobs[k]))
    && !OwnerAtWork(s, jobs, path)
  }

  ghost predicate OwnerAtWork(s: Sys, jobs: seq<Creator>, path: string)
    requires |s.pcs| == |jobs|
  {
    exists k :: 0 <= k < |jobs| && Disk(jobs[k]) == path && AtDisk(s.pcs[k]).Some? && !s.pcs[k].Finished?
  }

  lemma NextSettled(s: Sys, k: nat, f: Fate, jobs: seq<Creator>, site: Site, path: string, ino: nat)
    requires Inv(s, jobs) && Enabled(s, k) && Settled(s, jobs, path, ino)
    ensures Settled(Next(s, k, f, jobs, site), jobs, path, ino)
  {
    TouchesOnlyItsOwn(s, k, f, jobs, site, path);
    StepFresh(s, k, f, jobs, site);
  }

  lemma {:induction false} FilesStay(s0: Sys, moves: seq<Move>, jobs: seq<Creator>, site: Site, path: string, ino: nat)
    requires Inv(s0, jobs) && Run(s0, moves, jobs, site).Some? && Settled(s0, jobs, path, ino)
    ensures Settled(Run(s0, moves, jobs, site).value, jobs, path, ino)
  {
    if moves != [] {
      var m := moves[|moves| - 1];
      FilesStay(s0, moves[..|moves| - 1], jobs, site, path, ino);
      RunsKeepInv(s0, moves[..|moves| - 1], jobs, site);
      NextSettled(Run(s0, moves[..|moves| - 1], jobs, site).value, m.k, m.fate, jobs, site, path, ino);
    }
  }

  // Once a creator has finished with a disk at its path, that disk stays, whatever the others do.
  lemma PublishedStays(s: Sys, moves: seq<Move>, jobs: seq<Creator>, site: Site, k: nat)
    requires Inv(s, jobs) && Run(s, moves, jobs, site).Some? && k < |jobs|
    requires s.pcs[k].Finished? && s.pcs[k].left.Some?
    ensures var e := Run(s, moves, jobs, site).value.estate;
            Disk(jobs[k]) in e.files && e.files[Disk(jobs[k])] == s.pcs[k].left.value
  {
    var ino := s.pcs[k].left.value;
    assert At(s.estate, Disk(jobs[k]), AtDisk(s.pcs[k]));
    forall j | 0 <= j < |jobs|
      ensures Disk(jobs[k]) != Temp(jobs[j])
      ensures Disk(jobs[j]) == Disk(jobs[k]) && AtDisk(s.pcs[j]).Some? ==> j == k
    {
      TempNeverDisk(jobs[j].vm, jobs[j].pid, jobs[k].vm);
      if Disk(jobs[j]) == Disk(jobs[k]) && AtDisk(s.pcs[j]).Some? {
        OneOwner(s, jobs, j, k);
      }
    }
    FilesStay(s, moves, jobs, site, Disk(jobs[k]), ino);
  }

  // A disk that is there before any creator starts is there, with its content, after any run.
  lemma ExistingDiskStays(jobs: seq<Creator>, e: Estate, moves: seq<Move>, site: Site, vm: Vm)
    requires DistinctPids(jobs) && (forall path :: path in e.files ==> e.files[path] < e.unused)
    requires DiskName(vm) in e.files && Run(Begin(jobs, e), moves, jobs, site).Some?
    ensures var e' := Run(Begin(jobs, e), moves, jobs, site).value.estate;
            DiskName(vm) in e'.files && e'.files[DiskName(vm)] == e.files[DiskName(vm)]
  {
    BeginInv(jobs, e);
    forall j | 0 <= j < |jobs|
      ensures DiskName(vm) != Temp(jobs[j])
    {
      TempNeverDisk(jobs[j].vm, jobs[j].pid, vm);
    }
    FilesStay(Begin(jobs, e), moves, jobs, site, DiskName(vm), e.files[DiskName(vm)]);
  }

  /* ---- the overlay is built under a free name ---- */

  // A creator about to build its overlay finds its temporary name free.
  ghost predicate TempsFree(s: Sys, jobs: seq<Creator>) {
    && |s.pcs| == |jobs|
    && forall k :: 0 <= k < |jobs| && s.pcs[k].MakeOverlay? ==> Temp(jobs[k]) !in s.estate.files
  }

  lemma NextTempsFree(s: Sys, k: nat, f: Fate, jobs: seq<Creator>, site: Site)
    requires Inv(s, jobs) && Enabled(s, k) && TempsFree(s, jobs) && (s.pcs[k].CheckTemp? ==> f == Fine)
    ensures TempsFree(Next(s, k, f, jobs, site), jobs)
  {
    var s' := Next(s, k, f, jobs, site);
    forall j | 0 <= j < |jobs| && s'.pcs[j].MakeOverlay?
      ensures Temp(jobs[j]) !in s'.estate.files
    {
      if j != k {
        TouchesOnlyItsOwn(s, k, f, jobs, site, Temp(jobs[j]));
        TempNeverDisk(jobs[j].vm, jobs[j].pid, jobs[k].vm);
        if Temp(jobs[j]) == Temp(jobs[k]) {
          TempInjective(jobs[j].vm, jobs[j].pid, jobs[k].vm, jobs[k].pid);
        }
      }
    }
  }

  // Unless looking for the temporary name fails, no overlay is ever built over an existing file,
  // whatever the other creators do.
  lemma {:induction false} OverlaysAreNew(jobs: seq<Creator>, e: Estate, moves: seq<Move>, site: Site)
    requires DistinctPids(jobs) && (forall path :: path in e.files ==> e.files[path] < e.unused)
    requires Run(Begin(jobs, e), moves, jobs, site).Some? && LooksWork(Begin(jobs, e), moves, jobs, site)
    ensures TempsFree(Run(Begin(jobs, e), moves, jobs, site).value, jobs)
  {
    BeginInv(jobs, e);
    if moves != [] {
      var front, m := moves[..|moves| - 1], moves[|moves| - 1];
      OverlaysAreNew(jobs, e, front, site);
      RunsKeepInv(Begin(jobs, e), front, jobs, site);
      NextTempsFree(Run(Begin(jobs, e), front, jobs, site).value, m.k, m.fate, jobs, site);
    }
  }

  // No look for a temporary name failed in this run.
  ghost predicate LooksWork(s0: Sys, moves: seq<Move>, jobs: seq<Creator>, site: Site)
    requires |s0.pcs| == |jobs|
  {
    moves == []
    || (var front, m := moves[..|moves| - 1], moves[|moves| - 1];
        && LooksWork(s0, front, jobs, site)
        && var r := Run(s0, front, jobs, site);
           r.Some? && Enabled(r.value, m.k) && r.value.pcs[m.k].CheckTemp? ==> m.fate == Fine)
  }

  /* ---- a disk that was seen can still go ---- */

  lemma {:induction false} RunCons(s: Sys, m: Move, rest: seq<Move>, jobs: seq<Creator>, site: Site)
    requires |s.pcs| == |jobs| && Enabled(s, m.k)
    ensures Run(s, [m] + rest, jobs, site) == Run(Next(s, m.k, m.fate, jobs, site), rest, jobs, site)
  {
    var all := [m] + rest;
    if rest == [] {
      assert all == [m] && all[..0] == [];
      assert Run(s, all[..0], jobs, site) == Some(s);
    } else {
      RunCons(s, m, rest[..|rest| - 1], jobs, site);
      assert all[..|all| - 1] == [m] + rest[..|rest| - 1];
    }
  }

  // A creator at work that has published its disk can still take it back.
  lemma {:induction false} OwnerCanTakeBack(s: Sys, jobs: seq<Creator>, site: Site, j: nat) returns (moves: seq<Move>)
    requires Inv(s, jobs) && j < |jobs| && AtDisk(s.pcs[j]).Some? && !s.pcs[j].Finished?
    ensures var r := Run(s, moves, jobs, site);
            r.Some? && Disk(jobs[j]) !in r.value.estate.files
            && forall k :: 0 <= k < |jobs| && k != j ==> r.value.pcs[k] == s.pcs[k]
    decreases if s.pcs[j].RemoveTemp? then 2 else if s.pcs[j].DefineDomain? then 1 else 0
  {
    assert At(s.estate, Disk(jobs[j]), AtDisk(s.pcs[j])) && At(s.estate, Temp(jobs[j]), AtTemp(s.pcs[j]));
    var m := Move(j, if s.pcs[j].DefineDomain? then Refused(false) else Fine);
    var s' := Next(s, j, m.fate, jobs, site);
    NextInv(s, j, m.fate, jobs, site);
    var rest := [];
    if !s.pcs[j].RollBack? {
      rest := OwnerCanTakeBack(s', jobs, site, j);
    }
    RunCons(s, m, rest, jobs, site);
    moves := [m] + rest;
  }

  // A disk path stays taken in every continuation exactly when no creator is still at work on it.
  lemma DiskStaysIff(s: Sys, jobs: seq<Creator>, site: Site, vm: Vm)
    requires Inv(s, jobs) && DiskName(vm) in s.estate.files
    ensures (forall moves :: Run(s, moves, jobs, site).Some? ==>
               DiskName(vm) in Run(s, moves, jobs, site).value.estate.files)
            <==> !OwnerAtWork(s, jobs, DiskName(vm))
  {
    var path := DiskName(vm);
    if OwnerAtWork(s, jobs, path) {
      var j :| 0 <= j < |jobs| && Disk(jobs[j]) == path && AtDisk(s.pcs[j]).Some? && !s.pcs[j].Finished?;
      var moves := OwnerCanTakeBack(s, jobs, site, j);
    } else {
      forall j | 0 <= j < |jobs|
        ensures path != Temp(jobs[j])
      {
        TempNeverDisk(jobs[j].vm, jobs[j].pid, vm);
      }
      forall moves | Run(s, moves, jobs, site).Some?
        ensures path in Run(s, moves, jobs, site).value.estate.files
      {
        FilesStay(s, moves, jobs, site, path, s.estate.files[path]);
      }
    }
  }

  ghost predicate EnsuredWithoutDisk(s: Sys, moves: seq<Move>, jobs: seq<Creator>, site: Site, k: nat)
    requires |s.pcs| == |jobs| && k < |jobs|
  {
    var r := Run(s, moves, jobs, site);
    r.Some? && r.value.pcs[k] == Finished(Ok(()), None) && Disk(jobs[k]) !in r.value.estate.files
  }

  // The race of an ensuring process with a creator's roll-back: a process that has seen the disk and is
  // about to define the domain can end in success without a disk exactly when the disk is gone already
  // or its creator is still at work.
  lemma EnsureLosesDiskIff(s: Sys, jobs: seq<Creator>, site: Site, k: nat)
    requires Inv(s, jobs) && k < |jobs| && s.pcs[k] == DefineSeen
    ensures (exists moves :: EnsuredWithoutDisk(s, moves, jobs, site, k)) <==>
            Disk(jobs[k]) !in s.estate.files || OwnerAtWork(s, jobs, Disk(jobs[k]))
  {
    var path := Disk(jobs[k]);
    if path !in s.estate.files {
      EnsureOverNoDisk(s, jobs, site, k);
    } else if OwnerAtWork(s, jobs, path) {
      EnsureThenTakeBack(s, jobs, site, k);
    } else {
      DiskStaysIff(s, jobs, site, jobs[k].vm);
      forall moves
        ensures !EnsuredWithoutDisk(s, moves, jobs, site, k)
      {
        assert Run(s, moves, jobs, site).Some? ==> path in Run(s, moves, jobs, site).value.estate.files;
      }
    }
  }

  lemma DefineSeenStep(s: Sys, jobs: seq<Creator>, site: Site, k: nat)
    requires |s.pcs| == |jobs| && k < |jobs| && s.pcs[k] == DefineSeen
    ensures var s' := Next(s, k, Fine, jobs, site);
            s'.pcs == s.pcs[k := Finished(Ok(()), None)] && s'.estate.files == s.estate.files
  {
  }

  lemma EnsureOverNoDisk(s: Sys, jobs: seq<Creator>, site: Site, k: nat)
    requires |s.pcs| == |jobs| && k < |jobs| && s.pcs[k] == DefineSeen && Disk(jobs[k]) !in s.estate.files
    ensures exists moves :: EnsuredWithoutDisk(s, moves, jobs, site, k)
  {
    var m := Move(k, Fine);
    DefineSeenStep(s, jobs, site, k);
    RunCons(s, m, [], jobs, site);
    assert EnsuredWithoutDisk(s, [m] + [], jobs, site, k);
  }

  lemma EnsureThenTakeBack(s: Sys, jobs: seq<Creator>, site: Site, k: nat)
    requires Inv(s, jobs) && k < |jobs| && s.pcs[k] == DefineSeen && OwnerAtWork(s, jobs, Disk(jobs[k]))
    ensures exists moves :: EnsuredWithoutDisk(s, moves, jobs, site, k)
  {
    var m := Move(k, Fine);
    DefineSeenStep(s, jobs, site, k);
    NextInv(s, k, Fine, jobs, site);
    var s' := Next(s, k, Fine, jobs, site);
    var j :| 0 <= j < |jobs| && Disk(jobs[j]) == Disk(jobs[k]) && AtDisk(s.pcs[j]).Some? && !s.pcs[j].Finished?;
    var rest := OwnerCanTakeBack(s', jobs, site, j);
    RunCons(s, m, rest, jobs, site);
    assert EnsuredWithoutDisk(s, [m] + rest, jobs, site, k);
  }
}
