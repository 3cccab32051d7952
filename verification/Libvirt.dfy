/** One libvirt domain, the virsh commands the manager issues on it, and the world around it. */
module Libvirt {
  import opened Wrappers

  // What `virsh domstate` prints.
  datatype Raw = Running | Idle | Blocked | Paused | InShutdown | ShutOff | Crashed | PmSuspended

  predicate Active(raw: Raw) { raw != ShutOff }

  datatype Definition = Definition(name: string, disk: string, mac: string, network: string, vcpus: nat, memoryMib: nat)

  // `gen` names the current content of the disk; a write gives it a name never used before. A
  // managed-save image and a snapshot remember the generation they belong to. `mixed` records that RAM
  // was once restored onto a disk other than the one it was saved with.
  datatype Domain = Domain(
    definition: Option<Definition>, raw: Raw, gen: nat, unused: nat, save: Option<nat>,
    snapshots: map<string, nat>, autostart: bool, mixed: bool)

  datatype GuestAct = WriteDisk | Drift(to: Raw)

  // An active guest may write its disk, or move to any state including off. An inactive one does nothing.
  function Act(d: Domain, a: GuestAct): Domain {
    if !Active(d.raw) then d
    else match a
      case WriteDisk => d.(gen := d.unused, unused := d.unused + 1)
      case Drift(to) => d.(raw := to)
  }

  function Acts(d: Domain, acts: seq<GuestAct>): Domain
    decreases |acts|
  {
    if acts == [] then d else Acts(Act(d, acts[0]), acts[1..])
  }

  datatype Cmd =
    | DomState | DomInfo | Start | ManagedSave | ManagedSaveRemove | Shutdown | Destroy
    | SnapshotCreate(name: string) | SnapshotRevert(name: string) | SnapshotDelete(name: string)

  datatype Answer = Failed | State(raw: Raw) | Info(managedSave: bool) | Done

  // A command that libvirt carries out, or refuses because the domain is in the wrong state.
  function Execute(d: Domain, cmd: Cmd): (Answer, Domain) {
    if d.definition.None? then (Failed, d)
    else match cmd
      case DomState => (State(d.raw), d)
      case DomInfo => (Info(d.save.Some?), d)
      case Start =>
        if Active(d.raw) then (Failed, d)
        else (Done, d.(raw := Running, save := None, mixed := d.mixed || (d.save.Some? && d.save.value != d.gen)))
      case ManagedSave =>
        if !Active(d.raw) then (Failed, d) else (Done, d.(raw := ShutOff, save := Some(d.gen)))
      case ManagedSaveRemove => (Done, d.(save := None))
      case Shutdown => if !Active(d.raw) then (Failed, d) else (Done, d)
      case Destroy => if !Active(d.raw) then (Failed, d) else (Done, d.(raw := ShutOff))
      case SnapshotCreate(name) =>
        if name in d.snapshots then (Failed, d) else (Done, d.(snapshots := d.snapshots[name := d.gen]))
      case SnapshotRevert(name) =>
        if name !in d.snapshots then (Failed, d) else (Done, d.(raw := ShutOff, gen := d.snapshots[name]))
      case SnapshotDelete(name) =>
        if name !in d.snapshots then (Failed, d) else (Done, d.(snapshots := d.snapshots - {name}))
  }

  // What happens at one interaction: first the guest acts, time passes, then the attempt succeeds or
  // fails without effect.
  datatype Turn = Turn(guest: seq<GuestAct>, delay: nat, ok: bool)
  type Env = nat -> Turn

  datatype Call = Call(cmd: Cmd, answer: Answer)

  // A domain with its clock (in nanoseconds), the number of interactions so far and every virsh call made.
  datatype Host = Host(dom: Domain, now: nat, pos: nat, log: seq<Call>)

  function Tick(h: Host, env: Env): (r: Host)
    ensures r.now >= h.now && r.log == h.log
  {
    h.(dom := Acts(h.dom, env(h.pos).guest), now := h.now + env(h.pos).delay, pos := h.pos + 1)
  }

  function Issue(h: Host, env: Env, cmd: Cmd): (r: (Answer, Host))
    ensures r.1.now >= h.now && r.1.log == h.log + [Call(cmd, r.0)]
  {
    var t := Tick(h, env);
    if env(h.pos).ok then
      var (answer, dom) := Execute(t.dom, cmd);
      (answer, t.(dom := dom, log := t.log + [Call(cmd, answer)]))
    else (Failed, t.(log := t.log + [Call(cmd, Failed)]))
  }

  // Someone other than the domain's own guest changes what is on its disk.
  function ForeignWrite(d: Domain): Domain { d.(gen := d.unused, unused := d.unused + 1) }

  /* ---- RAM and disk belong together ---- */

  // A managed-save image exists only while the domain is off, it belongs to the current disk, and no
  // restore ever mixed generations.
  predicate Coherent(d: Domain) {
    && (d.save.Some? ==> d.raw == ShutOff && d.save.value == d.gen)
    && !d.mixed
    && d.gen < d.unused && forall n :: n in d.snapshots ==> d.snapshots[n] < d.unused
  }

  lemma {:induction false} ActsKeepCoherent(d: Domain, acts: seq<GuestAct>)
    requires Coherent(d)
    ensures Coherent(Acts(d, acts))
    ensures !Active(d.raw) ==> Acts(d, acts) == d
    decreases |acts|
  {
    if acts != [] {
      ActsKeepCoherent(Act(d, acts[0]), acts[1..]);
    }
  }

  // Every command but one keeps a domain coherent. Reverting does so exactly when it is refused, when
  // there is no saved RAM, or when the snapshot is of the very disk the RAM was saved with.
  lemma ExecuteKeepsCoherentIff(d: Domain, cmd: Cmd)
    requires Coherent(d)
    ensures Coherent(Execute(d, cmd).1) <==>
            (cmd.SnapshotRevert? ==>
               d.definition.None? || cmd.name !in d.snapshots || d.save.None? || d.save.value == d.snapshots[cmd.name])
  {
  }

  lemma IssueKeepsCoherent(h: Host, env: Env, cmd: Cmd)
    requires Coherent(h.dom) && (cmd.SnapshotRevert? ==> h.dom.save.None? && !Active(h.dom.raw))
    ensures Coherent(Issue(h, env, cmd).1.dom)
  {
    ActsKeepCoherent(h.dom, env(h.pos).guest);
    ExecuteKeepsCoherentIff(Tick(h, env).dom, cmd);
  }

  // A write from outside separates RAM and disk exactly when there is saved RAM.
  lemma ForeignWriteKeepsCoherentIff(d: Domain)
    requires Coherent(d)
    ensures Coherent(ForeignWrite(d)) <==> d.save.None?
  {
  }

  // Reverting under a managed-save image of another generation makes the next start a mixed restore.
  lemma RevertUnderSaveMixes(d: Domain, name: string)
    requires d.definition.Some? && name in d.snapshots && d.save.Some? && d.save.value != d.snapshots[name]
    ensures Execute(Execute(d, SnapshotRevert(name)).1, Start).1.mixed
  {
  }
}
