# Verified model of the tailnet Android VM manager

This project models the core of `manager-core`, the library behind `hostctl` and `routerctl`, and proves
what its parts promise over every input, every run and every failure. One configuration type is shared by
everything: the access policy, the guest addressing, the key bundles, the VM operations and reconciliation.

The parts, from the leaves up:

- `Wrappers`, `Text`, `Fields`, `Answers`: results, the string operations the code uses (trimming, splitting,
  decimal and hexadecimal numbers, `key: value` lines and what is read off them), byte lengths and key order.
- `Address`, `Config`, `Inventory`: IPv4 and CIDR arithmetic, validation proved equivalent to a declarative
  predicate through its loops and mutable sets, the permission relation, and VM selection.
- `Firewall`, `Policy`, `Conntrack`: the policy compiler with an evaluator for the rules it emits and for
  the transaction that installs them on any kernel, facts about the compiled set, and the router over time
  with connection tracking and transactions in any order, each after a listing that may be right or wrong.
- `Base64`, `Adb`, `GuestBootstrap`, `Leases`: the key parser and printer, the per-VM key bundle, MAC
  addresses, DHCP leases and advertised routes.
- `Libvirt`, `Lifecycle`, `LifecycleProperties`, `Snapshot`: one domain with its disk content, managed-save
  image and snapshots; the lifecycle operations both as a machine of single interactions and as the methods
  the manager runs, proved to do the same; what their outcomes mean; and the coherence of saved RAM and disk
  over every run.
- `Bulk`, `BulkRuns`, `BulkRefinement`, `BulkShared`: the worker pool as a step system of any number of
  processes and workers under per-VM lock files; its safety, its end, its refinement to handling the VMs one by
  one, and what processes that select the same VM do to it.
- `Provision`, `Provisioner`: creating and ensuring VMs as file-system steps of any number of interleaved
  processes, and alone, as the methods the manager runs.
- `Reconcile`, `ReconcileProperties`, `ReconcileSuccess`, `ReconcileConfig`, `ReconcileCoherence`: the
  reconciliation run, its convergence, when it succeeds, what both mean for the VMs of the configuration, and when
  saved RAM stays with its disk.

How the outside world appears: a guest may act before each interaction with its domain, time passes, and
each command either happens or fails without effect, all as an arbitrary script per VM (`Libvirt.Env`); image
tools and file operations fail by an arbitrary script too (`Provision.Fate`), and a failing image tool may
leave a partial file. SHA-256 is an arbitrary function; where a converse needs it, that it has no collisions
is a stated hypothesis. Key files and their contents are a map. A TOML table is a sequence of entries in
ascending key order.

Hypotheses the theorems state because validation does not establish them:

- A tailnet interface separate from the other two, for what crosses from the tailnet
  (`Conntrack.TailnetSeparate`); `Firewall.CrossingIff` and `Firewall.NewPacketToGuestIff` say exactly which
  coinciding interfaces cost which guarantee.
- Interface names and routes stay fixed over a run of the router (`Conntrack.Wired`), and entries in the
  tracking table come only from accepted packets. For `Conntrack.GuestReplies`, guests that opened connections to
  the uplink are not routed into the tailnet.
- The table of this project in the kernel is one that its own commands built (`Conntrack.KernelIs`,
  `Firewall.Ours`); `Firewall.ListingEffect` needs no such hypothesis.
- No VM is named `tailnet-android-router`, the router's domain (`Reconcile.Sound`), and for saved RAM to stay valid
  while guests run, none is named `tailnet-router`, the router's disk (`Reconcile.OwnDisks`);
  `Reconcile.ValidSetupIsApartIff` says that these names are all it takes. `Snapshot.RunsKeepCoherent` is about a
  domain with a disk of its own.
- No guest acts while reconciliation runs, and no other process creates files then. Redefining a known network
  or domain is accepted when nothing goes wrong, and keeps its state.
- Concurrent creators have distinct process ids (`Provision.DistinctPids`).
- For bulk runs, every selected VM has a domain record (possibly of an undefined domain), and locks held by
  other programs stay held or free during the run.

Where the documentation and the code differ, the model follows the code:

- `docs/security.md:99-103` says revocation terminates existing ADB sessions. The code removes the pair from
  the firewall set only: packets of the pair towards the guest stop (`Conntrack.RevokedPairStaysOut`), but
  replies on a tracked connection still leave the guest (`Conntrack.RepliesOutliveRevocation`).
- `docs/architecture.md:60-62` speaks of an atomically installed table. The transaction is atomic, but the
  listing before it is not part of it, and any unsuccessful exit of the listing counts as no table. Then a
  successful apply adds to the old policy instead of replacing it: `Firewall.UnlistedTableKeepsOldPolicy` gives the
  input, `Firewall.ListingInstallsIff`, `Conntrack.LastApplyWinsIff` and `Conntrack.RevocationNeedsListing` the exact
  condition.
- Validation asks for a private guest subnet but looks at its network address only, so 10.0.0.0/7 and
  192.168.0.0/13 pass. `Address.AllGuestsPrivateIff` says exactly when all guests are private,
  `Leases.MacInjectiveIff` when VMs cannot share a MAC, and `Leases.GuestMacsDifferIff` when no two cards on the
  guest network do, the router's included.
- `lifecycle::state` calls idle and blocked domains running, reconciliation does not and then fails to start them:
  `ReconcileSuccess.IdleAutostartFails`.
- Snapshot, create and reconcile commands do not take the per-VM lock, so `BulkRuns.ReachableIsSafe` is about bulk
  operations; `Snapshot.RunsKeepCoherent` is about operations that run one after another, and
  `Snapshot.UnlockedRevertIsSafeIff` says exactly what can go wrong between a check and its command.

`dafny verify dfyconfig.toml` checks the whole project.

## Model

| member | source | states |
|---|---|---|
| `Bulk.NextInv` | crates/manager-core/src/bulk.rs:41-64 | Every step of every worker of every process keeps the pool invariant: a claimed index is held by exactly one worker until its row is written, unclaimed slots are empty, rows carry the name of their VM, the counter passes the end once per departed worker, and locks and running operations match one to one |
| `Bulk.OnlyTheHolderActs` | crates/manager-core/src/bulk.rs:72-104 | A step changes a VM only if its worker holds that VM's lock; a worker that loses the lock attempt issues no command, takes no lock and goes on to report an error |
| `BulkRuns.ReachableIsSafe` | crates/manager-core/src/bulk.rs:41-113 | In every state reachable by any interleaving of any processes: writes stay in range and go to empty slots, no index is shared, the counter is bounded by VMs plus workers, no more VMs of a process are in flight than it has workers, and at most one worker operates on a VM |
| `BulkRuns.NextDecreases` | crates/manager-core/src/bulk.rs:45-59 | A lexicographic measure falls at every step of any worker, so no interleaving runs forever |
| `BulkRuns.EndState` | crates/manager-core/src/bulk.rs:60-64 | Once all workers have left, the counter is VMs plus workers and every slot holds the row of its own VM, so the final `expect` cannot fail |
| `BulkRuns.StartThenWait` | crates/manager-core/src/bulk.rs:76-82 | A start with a readiness wait is the plain start, followed by the wait exactly when the start succeeded and the wait is not zero |
| `BulkRuns.RunningBeforeWait` | crates/manager-core/src/bulk.rs:76-82 | A start that reports Running after a readiness wait had the domain running before the wait |
| `BulkRuns.RunOneVm` | crates/manager-core/src/bulk.rs:67-90 | One VM under its lock: an unusable lock file, a held lock, or the very state or error the operation ended with; a Stopped, Hibernated or (by status or a start without a wait) Running row is true of the domain; the lock is as it was found on every exit path |
| `BulkRuns.RowIsTold` | crates/manager-core/src/bulk.rs:67-90 | A row is Ok(s) iff the VM's lifecycle operation ended with Ok(s) and Err(e) iff it ended with Err(e), lock errors apart; what it says of the domain is true of it |
| `BulkRuns.Perform` | crates/manager-core/src/bulk.rs:74-89 | Running an operation with the lifecycle methods is running its step machine to the end |
| `BulkRefinement.EveryRunEndsTheSame` | crates/manager-core/src/bulk.rs:35-65 | For any processes, workers and interleaving in which no VM is selected twice, each row is the outcome of that VM's own operation from where it was found, true of its domain, or a lock error; other domains and all locks are as before |
| `BulkShared.SharedVmIsSerial` | crates/manager-core/src/bulk.rs:67-113 | With any overlap of selections, a VM goes through whole operations of distinct slots one after another and ends where they lead; every row about it is a lock error or carries the state or error of its own operation among them |
| `BulkShared.SharedRowsAreTrue` | crates/manager-core/src/bulk.rs:67-113 | With any overlap of selections, a row that says Stopped, Hibernated, or Running by status or a start without a wait, was true of the domain when its own operation ended |
| `BulkShared.LockRowsAreTrue` | crates/manager-core/src/bulk.rs:72-104 | A row reports an unusable lock file iff the lock file cannot be used, and a held lock only if someone else held it at the attempt of that very slot |
| `BulkRefinement.SequentialIsAlone` | crates/manager-core/src/bulk.rs:60-65 | The sequential map over distinct names gives each VM the row and domain of its own operation from where it was found |
| `BulkRefinement.Execute` | crates/manager-core/src/bulk.rs:35-65 | With a scheduler free to pick any worker at each step, execution ends and returns the rows and domains of the sequential map, in input order, each row the outcome of its VM's own operation |
| `BulkRefinement.AtMostJobsAtOnce` | crates/manager-core/src/bulk.rs:41-59 | At no moment of a run are more VMs in flight than there are jobs |
| `BulkRefinement.RunBulk` | crates/hostctl/src/main.rs:325-342 | Job bounds, selection errors, and otherwise one row per selected VM in inventory order, each with the very state or error of the VM's own operation and true of its domain, or a lock error |
| `Inventory.SelectionIsInventoryOrder` | crates/manager-core/src/inventory.rs:21-54 | A successful selection is nonempty, in ascending name order without repetition, and holds exactly the VMs the selector describes |
| `Inventory.SelectionFailsIff` | crates/manager-core/src/inventory.rs:21-54 | Exactly when a selection is ambiguous, names an unknown VM, or is empty |
| `Libvirt.ExecuteKeepsCoherentIff` | crates/manager-core/src/snapshot.rs:56-65 | Saved RAM stays tied to the disk it was saved with under every command; for a revert, exactly when it is refused, there is no saved RAM, or the snapshot is of the same disk content |
| `Snapshot.UnguardedRevertMixesIff` | crates/manager-core/src/snapshot.rs:78-92 | What the stopped-state check prevents: a revert followed by a start mixes RAM and disk iff there is saved RAM of another disk content than the snapshot |
| `Lifecycle.StepProgress` | crates/manager-core/src/lifecycle.rs:107-152 | Every lifecycle operation ends, for every guest and every failure pattern, because sleeps last at least 250 ms |
| `Lifecycle.AskingIsStateOf` | crates/manager-core/src/lifecycle.rs:59-80 | The step machine's state query classifies as the state function does, including the unsupported raw states |
| `Lifecycle.Session.GetState` | crates/manager-core/src/lifecycle.rs:59-80 | Running for running, idle and blocked; Hibernated or Stopped by the managed-save flag for shut off; an error otherwise |
| `LifecycleProperties.StateIsExact` | crates/manager-core/src/lifecycle.rs:59-80 | Every answer of a state query, iff the domain it meets is in the raw states named for it, and, for a domain that is off, has saved RAM or not |
| `Lifecycle.Session.StartDomain` | crates/manager-core/src/lifecycle.rs:82-90 | `start` leaves the outcome and the domain of its step machine |
| `Lifecycle.Session.HibernateDomain` | crates/manager-core/src/lifecycle.rs:92-105 | `hibernate` leaves the outcome and the domain of its step machine |
| `Lifecycle.Session.StopDomain` | crates/manager-core/src/lifecycle.rs:107-126 | `stop` leaves the outcome and the domain of its step machine |
| `Lifecycle.Session.AwaitStop` | crates/manager-core/src/lifecycle.rs:127-140 | The polling loop of `stop` and its forced end do what the step machine does from the taken shutdown request on |
| `Lifecycle.Session.WaitForAdb` | crates/manager-core/src/lifecycle.rs:142-152 | The readiness loop does what the step machine does |
| `LifecycleProperties.ReadinessIsTrue` | crates/manager-core/src/lifecycle.rs:142-152 | Waiting succeeds iff an attempt connects, namely the last, all before it having failed; a timeout comes after failed attempts only and at least the wait; no virsh call is made |
| `LifecycleProperties.OutcomeIsTrue` | crates/manager-core/src/lifecycle.rs:82-140 | Each operation keeps RAM and disk together, and a reported Stopped or Hibernated is the true state of the domain when the operation ends |
| `LifecycleProperties.RunningIsTrue` | crates/manager-core/src/lifecycle.rs:59-90 | A Running reported by status or by start without a wait is true when it is reported |
| `LifecycleProperties.StartTraces` | crates/manager-core/src/lifecycle.rs:82-90 | `start` issues one start command, only after finding the domain off, and nothing on a running domain; each call sequence has its outcome |
| `LifecycleProperties.HibernateTraces` | crates/manager-core/src/lifecycle.rs:92-105 | `hibernate` saves only a running domain, leaves a hibernated one, and refuses a stopped one without any changing command |
| `LifecycleProperties.StopTraces` | crates/manager-core/src/lifecycle.rs:107-140 | The virsh calls of any run of `stop` form one of the listed sequences, each with its own outcome |
| `LifecycleProperties.StopDiscipline` | crates/manager-core/src/lifecycle.rs:107-140 | `shutdown` is issued at most once, second, after a running state; `destroy` only under forcing, last, after a taken shutdown, polls that never said Stopped or failed, and at least the timeout; a timeout error takes as long; no other changing command but dropping saved RAM |
| `LifecycleProperties.StopWaitsOut` | crates/manager-core/src/lifecycle.rs:127-139 | Power is cut, and StopTimeout returned, only when at least the timeout has passed since the shutdown request was taken |
| `LifecycleProperties.StopPollsBounded` | crates/manager-core/src/lifecycle.rs:127-133 | At most ceil(timeout / 250 ms) polls after the first state query |
| `Fields.FieldsReadBack` | crates/manager-core/src/reconcile.rs:121-126 | On printed `key: value` lines, the yes-test answers yes exactly when a field of that trimmed name has the trimmed value yes; the managed-save test of lifecycle.rs:65-69 is the same code |
| `Answers.DomInfoAnswer` | crates/manager-core/src/lifecycle.rs:64-69 | The managed-save answer the lifecycle operations act on is what the test reads in the printed output |
| `Answers.NetInfoAnswer` | crates/manager-core/src/reconcile.rs:52-53 | The active answer reconciliation acts on is what the test reads in the printed output |
| `Snapshot.RequireStopped` | crates/manager-core/src/snapshot.rs:78-92 | Only Stopped passes; any other state and any state error is returned |
| `Snapshot.Operate` | crates/manager-core/src/snapshot.rs:22-76 | Create, revert and delete check the name, then the state, then issue one command |
| `Snapshot.PerformIsSafe` | crates/manager-core/src/snapshot.rs:22-76 | A snapshot operation keeps RAM and disk together and other snapshots untouched; a name is refused, with nothing done, iff it is not an identifier of 1 to 63 characters; on success the domain is off without saved RAM and the snapshot is created from, restored to, or deleted |
| `Snapshot.SnapshotErrors` | crates/manager-core/src/snapshot.rs:22-104 | Which error a snapshot operation returns: the name, the Running or Hibernated state it found, the error of the state query, or its own command; success iff the command is carried out |
| `Snapshot.RunsKeepCoherent` | crates/manager-core/src/snapshot.rs:22-92 | In every sequence of lifecycle operations, snapshot operations, guest steps and failing commands, saved RAM exists only while the domain is off, for the current disk, and no start ever mixed RAM and disk |
| `Snapshot.CommandKeepsCoherentIff` | crates/manager-core/src/snapshot.rs:22-76 | Of the snapshot commands, meeting whatever domain they meet, only a revert that is carried out separates RAM and disk, and exactly over saved RAM of another content |
| `Snapshot.UnlockedRevertIsSafeIff` | crates/hostctl/src/main.rs:289-311 | Snapshot commands take no lock: reverting a stopped VM keeps RAM and disk together, whatever falls between check and command, iff no hibernation can |
| `Snapshot.SnapshotsAreFixed` | crates/manager-core/src/snapshot.rs:22-76 | A snapshot stands for the same disk content until it is deleted, whatever happens between |
| `Snapshot.RevertUndoes` | crates/manager-core/src/snapshot.rs:56-65 | A successful revert brings back the disk content of the creation, whatever ran in between |
| `Provision.TempInjective` | crates/manager-core/src/provision.rs:75-79 | A temporary name determines the VM name and the process id |
| `Provision.TempNeverDisk` | crates/manager-core/src/provision.rs:75-79 | No temporary name is the disk name of any VM |
| `Provision.DefinitionFollowsConfig` | crates/manager-core/src/android_vm.rs:4-61 | The definition of a VM is on the guest network, with the disk of its name in the VM directory, its own CPUs and memory, and the MAC its lease line begins with, which parses to the low 24 bits of its address |
| `Provision.JobFollowsConfig` | crates/manager-core/src/provision.rs:47-84 | A creation works from the base image, the disk name and the temporary name of its VM and process |
| `Provision.TouchesOnlyItsOwn` | crates/manager-core/src/provision.rs:85-107 | A creator's step writes only its temporary path, a disk path with nothing at it, or removes the very disk it published |
| `Provision.OwnershipHolds` | crates/manager-core/src/provision.rs:85-107 | In every state any number of creators can reach, at most one has a disk at a path, that disk is the overlay it made, and its temporary file is its own |
| `Provision.NextInv` | crates/manager-core/src/provision.rs:47-108 | Every file-system step of every creator keeps the ownership of temporary files and published disks |
| `Provision.OverlaysAreNew` | crates/manager-core/src/provision.rs:75-92 | Unless looking for the temporary name fails, no overlay is built over an existing file, whatever other creators do |
| `Provision.FilesStay` | crates/manager-core/src/provision.rs:93-107 | Through every interleaving, a file stays with its content unless it is at a creator's temporary path or was made by an unfinished creator |
| `Provision.PublishedStays` | crates/manager-core/src/provision.rs:93-108 | A disk a creator has finished with is never replaced or removed by the others |
| `Provision.ExistingDiskStays` | crates/manager-core/src/provision.rs:55-58 | A disk present before any creator starts is present with its content after every interleaving |
| `Provision.DiskStaysIff` | crates/manager-core/src/provision.rs:93-107 | A disk stays in every continuation of any number of creating and ensuring processes iff no creator is still at work on it |
| `Provision.EnsureLosesDiskIff` | crates/manager-core/src/provision.rs:37-45 | A process that saw the disk can end ensuring in success without a disk iff the disk is gone already or its creator is still at work |
| `Provisioner.CreateOutcome` | crates/manager-core/src/provision.rs:47-108 | What each result leaves behind: success means the VM's own base is usable, its disk path was free and now holds the new overlay, and its domain is defined as the configuration asks; a refused definition with a working roll-back leaves no disk and the files as before; no other path is written |
| `Provisioner.FailureLeavesNothing` | crates/manager-core/src/provision.rs:85-107 | A creation that fails leaves the files as they were if its last attempt goes well: every error after the overlay is followed by its clean-up |
| `Provisioner.CreateResultWhenFine` | crates/manager-core/src/provision.rs:47-108 | With no command failing, the result is that of the first check that objects, in the order of the code, with nothing written; success iff none does |
| `Provisioner.EnsureIsLookFor` | crates/manager-core/src/provision.rs:37-45 | Ensuring is the step machine of the interleaved processes, run alone from its first look |
| `Provisioner.EnsureFollowsConfig` | crates/manager-core/src/provision.rs:37-45 | Ensuring says Created iff the disk was not there, and either way the VM has its disk and its domain is defined as the configuration asks |
| `Provisioner.Manager.Prepare` | crates/manager-core/src/provision.rs:48-84 | The checks before anything is written, in the order of the code |
| `Provisioner.Manager.Build` | crates/manager-core/src/provision.rs:85-92 | Building the overlay; a refusal may leave a partial temporary file |
| `Provisioner.Manager.Publish` | crates/manager-core/src/provision.rs:93-101 | The hard link and the removal of the temporary name, with both error paths |
| `Provisioner.Manager.DefineOrTakeBack` | crates/manager-core/src/provision.rs:103-107 | Definition, and the removal of the published disk when it fails |
| `Provisioner.Manager.Create` | crates/manager-core/src/provision.rs:47-108 | The whole creation does what its step machine does alone |
| `Provisioner.Manager.DefineVm` | crates/manager-core/src/provision.rs:110-127 | Definition as the configuration asks; an error of spawning iff the command could not be run, of definition iff it was refused |
| `Provisioner.Manager.EnsureVm` | crates/manager-core/src/provision.rs:37-45 | Define when the disk is seen, create otherwise |
| `Reconcile.ValidSetupIsApartIff` | crates/manager-core/src/reconcile.rs:34-68 | For a valid configuration, domains and temporary paths are kept apart iff no VM has the name of the router domain, and every domain has a disk of its own iff no VM has the name of the router disk |
| `Reconcile.SharedRouterDisk` | crates/manager-core/src/router_vm.rs:4-7 | The input validation lets through: a VM named tailnet-router is given the disk file of the router |
| `Reconcile.Reconciler.Network` | crates/manager-core/src/reconcile.rs:47-56 | The network is defined, autostarted, and started only if not active |
| `Reconcile.Reconciler.Router` | crates/manager-core/src/reconcile.rs:58-66 | The router artifacts are required, the router defined, autostarted and started unless its state is exactly running |
| `Reconcile.Reconciler.ReconcileVm` | crates/manager-core/src/reconcile.rs:81-109 | One VM: ensured, autostart set either way, and started unless running when it autostarts |
| `Reconcile.Reconciler.Vms` | crates/manager-core/src/reconcile.rs:68-76 | One row per VM in order; `failed` iff some row is an error |
| `Reconcile.Reconciler.Reconcile` | crates/manager-core/src/reconcile.rs:34-79 | The whole run equals its reference function, and the reconcile lock is as it was found on every exit path |
| `ReconcileProperties.UnfailedRunReachesDesired` | crates/manager-core/src/reconcile.rs:34-79 | From any world, a run without failure ends with the network active, the router running, every disk present, every domain as configured and every autostart VM running |
| `ReconcileConfig.SetupFollowsConfig` | crates/manager-core/src/reconcile.rs:45-68 | What a run works on is one item per configured VM, in order, with the name, autostart flag, base image, disk and definition of that VM, and the router and network of the configuration |
| `ReconcileConfig.UnfailedRunFollowsConfig` | crates/manager-core/src/reconcile.rs:34-109 | From any world, after a run without failure every configured VM has its disk, is defined on the guest network with its own CPUs, memory, MAC and disk, starts at boot iff its entry says so and then runs; so do the network and the router |
| `ReconcileConfig.PowerFollowsConfig` | crates/manager-core/src/reconcile.rs:81-109 | However a run ends, a VM without autostart is left in the power state it was found in, and one with autostart in that state or running |
| `ReconcileConfig.ReportFollowsConfig` | crates/manager-core/src/reconcile.rs:68-109 | The report has one line per configured VM, in order, with its name and flag; a line without an error is true of the world, and says created iff the VM had no disk before the run |
| `ReconcileConfig.FineRunFollowsConfigIff` | crates/manager-core/src/reconcile.rs:34-109 | The exact condition for a run with no failing command to report no failure, said of the configured VMs |
| `ReconcileProperties.DesiredIsFixed` | crates/manager-core/src/reconcile.rs:34-109 | From the desired state, a run without failure changes nothing and reports every VM as already there |
| `ReconcileProperties.ReconcileIsIdempotent` | crates/manager-core/src/reconcile.rs:34-109 | After a run without failure, a second run in which no command fails succeeds and is the identity on the world |
| `ReconcileSuccess.FineRunSucceedsIff` | crates/manager-core/src/reconcile.rs:34-109 | From any world, a run in which no command goes wrong reports no failure iff the router files are there, every VM has a disk or a usable base with its temporary name free, and no domain that is to run is active in a state other than running |
| `ReconcileSuccess.IdleAutostartFails` | crates/manager-core/src/reconcile.rs:89-95 | An autostart VM found idle or blocked, which lifecycle operations call running, gets an error row though no command goes wrong |
| `ReconcileProperties.ReportIsTrue` | crates/manager-core/src/reconcile.rs:45-78 | Any report has one line per VM in order plus two, `failed` iff a VM line is an error, and every line without an error is true of the world |
| `ReconcileProperties.NothingIsDisturbed` | crates/manager-core/src/reconcile.rs:34-109 | However a run ends, running domains keep all but definition and autostart, no file but this process's temporary ones goes or changes, and a held lock means nothing is done |
| `ReconcileCoherence.ItemKeepsCoherentIff` | crates/manager-core/src/reconcile.rs:81-109 | Reconciling a VM keeps its saved RAM and its disk together, whatever fails, iff it has no saved RAM, its disk is there, or its disk cannot be made anew |
| `ReconcileCoherence.RunKeepsCoherent` | crates/manager-core/src/reconcile.rs:34-79 | A whole run, which itself writes no existing disk, keeps RAM and disk together for every domain when no configured VM has saved RAM and a missing disk that could be made anew |
| `ReconcileCoherence.WriteKeepsCoherentIff` | crates/manager-core/src/android_vm.rs:5-7 | A guest that writes its disk leaves all saved RAM valid iff no other domain defined on that file has saved RAM |
| `ReconcileCoherence.OwnDisksKeepRam` | crates/manager-core/src/reconcile.rs:34-109 | On a reconciled host whose domains have disks of their own, no guest separates the saved RAM of another domain from its disk |
| `ReconcileCoherence.RouterWritesLoseRam` | crates/manager-core/src/router_vm.rs:4-7 | With a VM of the name of the router disk, the router's own writes separate the saved RAM of that VM from its disk |
| `Firewall.Ruleset` | crates/manager-core/src/firewall.rs:21-129 | The command list pushed one by one is the listing whose effect is proved below |
| `Firewall.ListingEffect` | crates/manager-core/src/firewall.rs:21-129 | Carried out as a transaction on any kernel, whatever the listing said: a delete without a table aborts, a delete starts afresh, and otherwise flows and rules are added to the table that is there; other tables are untouched |
| `Firewall.ListingInstallsIff` | crates/manager-core/src/firewall.rs:135-143 | The commands install exactly the compiled table iff the listing told the truth about the kernel the transaction meets |
| `Firewall.ElementsMembers` | crates/manager-core/src/firewall.rs:32-42 | A pair is in the compiled set iff some VM has the destination and some active controller, which the VM's list names unless it is empty, owns the source |
| `Firewall.ForwardVerdict` | crates/manager-core/src/firewall.rs:70-115 | Evaluating the emitted forward chain accepts a packet iff one of four declared cases holds; a packet that is not IPv4 is dropped |
| `Firewall.LayeredVerdict` | crates/manager-core/src/firewall.rs:70-115 | The verdict of a table built from any number of configurations: each keeps its interfaces and subnet, all share their pairs |
| `Firewall.MasqueradedIff` | crates/manager-core/src/firewall.rs:116-125 | A table built from any number of configurations rewrites the source of exactly the packets that leave one's uplink from its guest subnet |
| `Firewall.ControllersAreNotMasqueraded` | crates/manager-core/src/firewall.rs:70-125 | An allowed packet from the tailnet is accepted and reaches the guest with its own source address, whatever interfaces coincide |
| `Firewall.NewPacketToGuestIff` | crates/manager-core/src/firewall.rs:70-104 | New packets reach the guest interface exactly by allowed pairs on TCP 5555 iff the guest interface is not the uplink |
| `Firewall.CrossingIff` | crates/manager-core/src/firewall.rs:70-115 | Tailnet packets, new or established, reach the guests exactly by allowed pairs on TCP 5555 iff the tailnet interface is neither of the other two |
| `Firewall.SharedInterfaceOpens` | crates/manager-core/src/firewall.rs:95-104 | When uplink and guest interface are the same, which validation lets through, new guest packets to the guest side are accepted on any port |
| `Firewall.TailnetSharedCrosses` | crates/manager-core/src/firewall.rs:84-115 | When the tailnet interface is one of the others, an established packet of no pair and on no port crosses |
| `Firewall.Nft.Apply` | crates/manager-core/src/firewall.rs:135-143 | The result for every exit status of the listing and every kernel: an error changes nothing; success installs the compiled table, except over a table that was not listed, which keeps its flows and rules and gets the new ones added |
| `Firewall.UnlistedTableKeepsOldPolicy` | crates/manager-core/src/firewall.rs:136-141 | The input on which a successful apply does not revoke: with the table there and not listed, the set becomes the union of both policies and whatever the old policy accepted is still accepted |
| `Conntrack.TrackedConnections` | crates/manager-core/src/firewall.rs:70-115 | Over every run of packets and transactions from an installed table, with no condition on the interfaces, each tracked connection was opened from the tailnet to port 5555 by a pair the table then in force allowed, or by a guest to the uplink |
| `Conntrack.AllowedSessionWorks` | crates/manager-core/src/firewall.rs:70-94 | The first packet of an allowed pair passes and opens a connection on which the answers of the guest pass back |
| `Conntrack.RunLayers` | crates/manager-core/src/firewall.rs:135-143 | After any run of transactions with any listings, right or wrong, the installed table is that of the configurations added since the last replacement |
| `Conntrack.LastApplyWinsIff` | crates/manager-core/src/firewall.rs:135-143 | The installed table is that of the last configuration taken iff the listing before that transaction was right |
| `Conntrack.CrossingNeedsPermission` | crates/manager-core/src/firewall.rs:70-83 | With a separate tailnet interface, a tailnet-to-guest packet passes iff the installed table allows its pair, even on an established connection |
| `Conntrack.RevocationNeedsListing` | crates/manager-core/src/firewall.rs:135-143 | After a policy without a pair is taken, the pair still crosses iff the table was there, was not listed, and allowed the pair |
| `Conntrack.RevokedPairStaysOut` | crates/manager-core/src/firewall.rs:70-83 | Once no installed layer has a pair, no packet of it crosses to the guest until a policy with it is taken, whatever the listings say |
| `Conntrack.GuestReplies` | crates/manager-core/src/firewall.rs:84-94 | A guest packet passes to the tailnet iff its address is in an installed subnet and conntrack knows it; then it answers a connection opened from the tailnet, or is an error sent to the source of one |
| `Conntrack.RepliesOutliveRevocation` | crates/manager-core/src/firewall.rs:84-94 | Replies of a revoked pair still pass while its connection is tracked |
| `Conntrack.ExpiryEndsAnswers` | crates/manager-core/src/firewall.rs:84-94 | An expired connection lets answers pass only as far as another tracked one belongs to the same endpoints |
| `Policy.FlowProvenance` | crates/manager-core/src/firewall.rs:32-42 | The set of a valid configuration has no repeated pair and each pair determines its VM and its controller |
| `Policy.ElementsLength` | crates/manager-core/src/firewall.rs:32-42 | Its length is the sum over VMs of the permitted active controllers' source counts |
| `Policy.NoDrift` | crates/manager-core/src/config.rs:320-328 | An active controller contributes a flow to a VM iff its key goes into that VM's bundle |
| `Policy.Deactivation` | crates/manager-core/src/config.rs:199-229 | Deactivating a controller keeps the configuration valid and removes exactly its flows, in order |
| `Leases.DeactivationKeepsAddressing` | crates/manager-core/src/guest_bootstrap.rs:53-75 | Deactivating a controller leaves the DHCP text and the advertised routes as they were |
| `Policy.NarrowingFlows` | crates/manager-core/src/config.rs:320-328 | Narrowing a controller list to a nonempty part only removes flows; emptying it grants all active controllers |
| `Config.Validate` | crates/manager-core/src/config.rs:155-318 | Validation succeeds iff the declarative well-formedness predicate holds |
| `Config.ValidateSources` | crates/manager-core/src/config.rs:216-228 | The inner source loop with its mutable set accepts iff every source is a tailnet address and no active one repeats |
| `Config.ValidateControllers` | crates/manager-core/src/config.rs:199-229 | The controller loop accepts iff every controller is well-formed and active sources are globally unique |
| `Config.ValidateVms` | crates/manager-core/src/config.rs:230-278 | The VM loop accepts iff every VM is well-formed and addresses are unique |
| `Config.ValidateLabels` | crates/manager-core/src/config.rs:248-256 | Labels are unique identifiers |
| `Config.ValidateReferences` | crates/manager-core/src/config.rs:269-277 | Controller references are unique and resolve |
| `Config.ValidName` | crates/manager-core/src/config.rs:331-337 | The byte-length and byte-class test is the character-level identifier test |
| `Config.Load` | crates/manager-core/src/config.rs:136-153 | Loading fills in the names from the keys, keeps every other field and the order, and succeeds iff the result is well-formed |
| `Config.FilledInIff` | crates/manager-core/src/config.rs:145-150 | The loaded configuration is the only one with every parsed field and the names of the keys |
| `Config.ControllersForVm` | crates/manager-core/src/config.rs:320-328 | Exactly the active controllers of the configuration that the VM's list names, or all active ones when it is empty |
| `Address.InSubnetIsMaskEquality` | crates/manager-core/src/firewall.rs:173-176 | The range test of validation and the mask test of the prefix match are the same set |
| `Address.GuestBlock` | crates/manager-core/src/config.rs:156-162 | Every address of a validated guest subnet lies in 10.0.0.0/7, 172.16.0.0/12 or 192.168.0.0/13 |
| `Address.GuestNeverTailnetSource` | crates/manager-core/src/config.rs:216-222 | No guest address passes the controller-source test |
| `Address.OctetTestsAreBlocks` | crates/manager-core/src/config.rs:156-222 | The octet tests of validation are 100.64.0.0/10 for controller sources and 10.0.0.0/8, 172.16.0.0/12, 192.168.0.0/16 for guest networks |
| `Address.AllGuestsPrivateIff` | crates/manager-core/src/config.rs:156-162 | All guest addresses are private iff the prefix is at least 8, 12 or 16 bits for its block |
| `Base64.DecodeEncoded` | crates/manager-core/src/adb.rs:48-50 | Decoding what was encoded gives the bytes back |
| `Base64.EncodeDecoded` | crates/manager-core/src/adb.rs:48-50 | The canonical decoder accepts only what the encoder prints |
| `Base64.EncodedShape` | crates/manager-core/src/adb.rs:48-55 | The text of n bytes has 4*ceil(n/3) characters and ends in = unless 3 divides n |
| `Adb.JoinHidesNoMark` | crates/manager-core/src/adb.rs:42-44 | The space printed between key and comment cannot complete the forbidden private-key mark |
| `Adb.ParseIff` | crates/manager-core/src/adb.rs:31-68 | Parsing succeeds iff the trimmed text is a nonempty single line of at most 4096 bytes without PRIVATE KEY whose first field is the canonical base64 of 524 bytes; the parts of the key, and each error with exactly its own inputs |
| `Text.TrimIs` | crates/manager-core/src/adb.rs:32 | Trimming drops whitespace at both ends and nothing else |
| `Adb.LinePasses` | crates/manager-core/src/adb.rs:32-44 | The printed line of a parsed key is again a nonempty single line of at most 4096 bytes without PRIVATE KEY, and trimmed |
| `Adb.RoundTrip` | crates/manager-core/src/adb.rs:31-81 | Whatever parses prints as a line that parses to the same key, comment and fingerprint |
| `Adb.SameMaterialSameText` | crates/manager-core/src/adb.rs:61-73 | Two parsed keys with the same text have the same fingerprint, and conversely if the digest tells their own bytes apart |
| `GuestBootstrap.AdbAuthorizedKeys` | crates/manager-core/src/guest_bootstrap.rs:24-50 | The bundle is the rendering of the first key of each fingerprint in controller order; it fails iff some key file fails, with the first failure |
| `GuestBootstrap.FirstOfEachSelects` | crates/manager-core/src/guest_bootstrap.rs:41-43 | The kept keys are, in order, exactly those at positions whose fingerprint did not occur before |
| `GuestBootstrap.BundleParses` | crates/manager-core/src/guest_bootstrap.rs:24-50 | Splitting the bundle into lines and parsing each gives back exactly the kept keys: in order, none twice, no fingerprint lost |
| `GuestBootstrap.DeactivatedBundle` | crates/manager-core/src/guest_bootstrap.rs:30-43 | After a deactivation a fingerprint is in the bundle iff another permitted active controller brings it |
| `GuestBootstrap.BundleIff` | crates/manager-core/src/guest_bootstrap.rs:30-43 | A fingerprint is in a VM's bundle iff an active controller brings it that the VM's list names, or any active one when the list is empty |
| `GuestBootstrap.UnnamedControllerGetsNothing` | crates/manager-core/src/config.rs:320-328 | A VM that names its controllers gets no flow, no accepted new packet and no bundle key from any other |
| `GuestBootstrap.LoadMeans` | crates/manager-core/src/guest_bootstrap.rs:31-40 | A key file is not taken iff it cannot be read or does not parse, with that error and its path |
| `Leases.MacRoundTrip` | crates/manager-core/src/android_vm.rs:10-16 | A MAC parses back to the low 24 bits of the address |
| `Leases.MacGivesAddress` | crates/manager-core/src/android_vm.rs:10-16 | On a validated subnet of at least eight prefix bits, the parsed MAC gives back the address |
| `Leases.MacInjectiveIff` | crates/manager-core/src/android_vm.rs:10-16 | Among VM addresses of a validated subnet, MAC derivation is injective iff the prefix has at least eight bits |
| `Leases.GuestMacsDifferIff` | crates/manager-core/src/router_vm.rs:51-56 | All network cards on the guest network, the router's included, have different MACs iff the VM addresses differ in their last three octets and none ends in 0.0.2; from eight prefix bits on, only the latter matters |
| `Leases.RouterMacTaken` | crates/manager-core/src/router_vm.rs:51-56 | The input validation lets through: 10.0.0.2 in 10.0.0.0/24 gets the MAC of the router |
| `Leases.DnsmasqConfig` | crates/manager-core/src/guest_bootstrap.rs:53-75 | The output is the header lines followed by one lease line per VM |
| `Leases.LeasesParse` | crates/manager-core/src/guest_bootstrap.rs:58-73 | The host lines parse back to exactly one MAC, address and name per VM, in order |
| `Leases.HeaderReads` | crates/manager-core/src/guest_bootstrap.rs:53-65 | A reader of the text learns the guest interface, the router as gateway and resolver, and a static range that is the guest network with the netmask that tells its members from others |
| `Leases.AdvertisedRoutes` | crates/manager-core/src/tailscale.rs:93-102 | The route text parses to a strictly increasing list of /32 routes: exactly the VM addresses, one per VM, covering every flow destination |

## Left out

- Spawning processes, sockets, files other than the VM directory, and wall-clock time: replaced by scripts of
  outcomes and a clock that only moves forward.
- An error from a command that did take effect: commands fail without effect, except for a partial overlay.
- TOML and JSON parsing and rendering, and the schema types of the `nftables` crate: the model starts from the
  parsed configuration and a small rule language.
- XML text of domains and networks, netplan and cloud-init text: the name, disk path, MAC, network, vcpus and
  memory are carried as fields; the router definition keeps only one of its two network cards.
- SHA-256 itself.
- An overlay built over a leftover temporary file that was not seen is modelled as a new file; the image tool
  reuses the old one, which matters if that is still linked to a published disk. `Provision.OverlaysAreNew` says
  that this takes a failed look.
- An active domain whose disk file was removed under it: a new overlay made then is not counted as other content
  until the domain is off. Snapshots inside an overlay that is made anew are kept in the model.
- Tailscale enrollment, auth-key permission checks, `reconfigure`, preflight, and the command-line programs
  other than the bulk command's job bounds and selection.
- The input and output chains, other nftables tables, and the effect of masquerading on addresses and ports.
- Wording of error messages: only the variant and its data are kept, and a command that could not be spawned
  is the same lifecycle error as one that failed.
- Bit masks of addresses are modelled by division and multiplication.
- Each VM has its own clock; workers do not share one.
- Errors of unlocking a file, and panics: a panicking worker would leave its slot empty.
- Directory creation in bulk and reconcile runs is one attempt that succeeds or fails.
- Snapshot listing: it only trims and filters the output lines.
- Paths are names relative to the VM directory; names that escape it cannot pass validation.
- LifecycleProperties.RunningIsTrue: start with a readiness wait ends in a connection attempt, which says nothing about the domain state at that moment, so the statement is about status and start without a wait; `BulkRuns.RunningBeforeWait` covers the other.
