# Verified models of the virt driver

This project models five parts of the Nomad virt driver and proves properties of them with Dafny
4.11. `dafny verify dfyconfig.toml` checks everything.

- **Sparse image transfer** (`Holes`, `SparsePlan`, `SparseStream`, `SparseWriter`). A file is
  its bytes and an allocation map. Holes are found by seeking; the two copying loops send a file
  around its holes, to a libvirt stream or to a Ceph image. Buffer size, seek faults, read
  faults, refused operations and cancelled contexts are parameters.
- **Address discovery** (`ArpTable`, `ArpProtocol`, `ArpGoroutines`). The shared fields and their
  critical sections, an interleaving step machine of callers, pollers and request handlers with
  an inductive invariant, and the caller's, poller's and handler's code as steps of that machine,
  with the other goroutines acting in between.
- **iptables transactions** (`IptablesRequest`, `IptablesState`, `IptablesRuns`,
  `IptablesDriver`, `IptablesAnyRun`, `IptablesHashing`, `IptablesPackets`, `IptablesTraffic`).
  Requests made of stamped hash sets, applied to and withdrawn from shared chains by many tasks;
  a reading of the rules' words, and what the tables then do with packets.
- **The disk pipeline** (`DiskModel`, `DiskMounts`, `DiskImages`, `DiskNames`, `DiskNamesGiven`,
  `DiskPlan`, `DiskPrepare`, `DiskCheck`, `DiskGenerate`, `DiskContents`, `Disks`,
  `DiskLifecycle`, `DiskTasks`, with `Pools` for the volume store and `Bytes` for sizes). Image
  tools, files and libvirt are oracles; the store counts its calls and may fail at any of them.
- **Volumes, domains and versions** (`Volumes`, `Version`). Volumes become the disks of a domain
  and are found again when it is destroyed; library versions are packed into 32 bits.

`Wrappers` and `Text` hold what all of them share.

Code that changes state step by step is a class or a method with a loop; each is tied by its
postcondition to a function or predicate on values, and the lemmas are about those. A `faults`
function in a class says which of its calls to the outside fail, so every contract holds for
every pattern of failures.

## Results that differ from what is promised

- `ArpProtocol.AcceptedRequestCanLosePolling`: `net/arp/arp.go:14-17` promises addresses for the
  life of the context. A request that was accepted but whose handler has not started is not yet
  counted, so the poller can stop under it; its channel is then closed with nothing delivered and
  no context done. What decides is whether polling is on as the handler enters a select:
  `ArpProtocol.TurnedAwayIffPollingOff` is exact for as long as it stays there, whatever
  everybody else does. `ArpProtocol.SafeIffStartedWhilePolling` tells it at the start of a
  handler: if polling is on no run turns it away, and if polling is off some run does. One that
  starts while polling is off may find the old poller still finishing, and is served after all if
  another caller begins a new generation before it reaches its select.
- `IptablesAnyRun.LeftBehind`: the rules that a Configure applied before it failed are handed to
  nobody, so they outlast other tasks. They stay until a task with the same rules, such as a
  retry, is torn down: `IptablesAnyRun.LeftoverStaysIff` and `IptablesAnyRun.LastCallDecides` are
  exact for every run, and `IptablesAnyRun.RetryAndTeardown` is the retry.
- `IptablesRequest.CollidingRulesAreDropped`: `Hash` is documented as unique but runs its parts
  together, so two rules can collide and one is lost. `IptablesRequest.NothingLostIff`: no rule
  is lost exactly when rules that hash alike are equal. The rules of the example are not the
  driver's; its own never collide (`IptablesHashing.PlannedApart`), so every planned rule is
  applied and kept for removal (`IptablesHashing.PlansLoseNothing`,
  `IptablesHashing.ConfiguredRulesPresent`).
- `Bytes.EibWraps`: a size can overflow; `17eib` (`Bytes.SeventeenEib`) is valid and read as one
  eib. `Bytes.ExactIffProductFits` says exactly when the result is the product.
- `DiskNames.TwoLettersCollide`: with disks named `vdba` and `vdb` the next one is named `vdb`
  again. `DiskNames.NewNameTakenIff` gives the exact condition for one name and
  `DiskNamesGiven.GivenNamesEndDistinctIff` for all names of a task, told by the names given.
- `SparseStream.LostUpload`: an upload can report success with nothing sent, when looking for
  holes leaves the reader at the end of the file. `Holes.LeftAway` says which seek calls have to
  fail, and by `SparseStream.Upload` a success has delivered the file exactly when they do not.
  `SparseWriter.Uploader.Upload` has a size check that excludes this.
- `Volumes.SharedRemoteMisleads`: two Ceph pools may be configured with one remote name (on two
  clusters, say); then destroying some domain of one deletes a volume of the other.
  `Volumes.CephConfigurationIff` and `Volumes.DiscoverInvertsDisksIff` give the condition on the
  configured pools, which is exact.
- `DiskPrepare.HalfFilledParent`: a volume whose upload breaks off stays in its pool. If it is a
  parent, later disks are chained to it as if it held its image.
  `DiskContents.ChainedOnOwnContents` is exact: after a successful Prepare a parent is half filled
  exactly if it was so before.
- `DiskNames.UnderscoresMeet`: two tasks can share a volume, such as `web` with a disk `a_b` and
  `web_a` with a disk `b`. `DiskNames.VolumeNamesMeetIff` gives the condition, which is exact;
  without underscores in device names it does not arise (`DiskTasks.TwoTasks`).
- `DiskLifecycle.CreateAndDestroy`: creating and destroying a task's volumes restores the store
  exactly when none of them existed before; one that did is handed out and then deleted
  (`DiskLifecycle.ExistingVolumeGoes`).
- `Version.SharesNumberIff`: a version shares its number with another one exactly when it is
  outside the bounds of `Version.Separate`. `Version.AlwaysMetIff`: a requirement is met by every
  library exactly when its number is zero, that is when it is malformed or its total is a
  multiple of 2^32; `Version.LargeVersionAlwaysMet` has a well-formed one.
- `Volumes.StrandedVolume`: the domain is removed before its volumes, so a volume that cannot be
  deleted is no longer found through it. `Volumes.Provider.DestroyVM`: with nothing failing
  otherwise this happens exactly when some volume discovered is in a pool that is not configured.

## Model

| member | source | states |
|---|---|---|
| Holes.Reader.Seek | internal/holes/holes_unix.go:14-24 | Answers like lseek on a sparse file, hole and data positions included; a failing call leaves the position alone |
| Holes.Reader.ReadAt | providers/libvirt/shims/stream_unix.go:48-59 | Reads the file's bytes at an offset, short only at the end |
| Holes.RunsAreMaximal | internal/holes/holes_unix.go:93-133 | The runs the seek loop meets are maximal, non-empty, ordered, apart from one another and cover every unallocated byte |
| Holes.MaximalRunsUnique | internal/holes/holes_unix.go:93-133 | No other list has those properties |
| Holes.Collection.Add | internal/holes/collection.go:11-14 | The hole goes last |
| Holes.Collection.Count | internal/holes/collection.go:16-19 | The number of holes left |
| Holes.Collection.Next | internal/holes/collection.go:21-31 | The first hole comes out, none from an empty collection |
| Holes.Collect | internal/holes/holes_unix.go:71-136 | Terminates; without seek faults finds exactly the maximal runs of a non-empty file, ENXIO for an empty one; with faults a prefix of them; the position is restored unless the last seek itself fails |
| Holes.SeekRun | internal/holes/holes_unix.go:94-132 | One round finds the next run, its end being the end of file where no data follows |
| Holes.MakeReader | internal/holes/holes_unix.go:28-68 | Without seek faults, true exactly when some byte is unallocated; when false it has left the reader at the end of the file for exactly the failing calls of LeftAway, else where it was |
| SparsePlan.PlanDecodes | providers/libvirt/shims/stream_unix.go:42-87 | The planned operations decode to the file, for every allocation map and buffer size |
| SparsePlan.PlanCoversAllocated | providers/libvirt/shims/stream_unix.go:62-86 | A position travels as payload exactly when it is allocated |
| SparsePlan.PlanSendsAllocated | providers/libvirt/shims/stream_unix.go:62-86 | The payload is the file's allocated bytes, all of them and in order |
| SparsePlan.RoundKeepsHead | providers/libvirt/shims/stream_unix.go:42-87 | One round goes from loop head to loop head: prefix carried, offset not past the next hole, and further than before |
| SparsePlan.OverlayPlaced | providers/libvirt/storage/plugin/ceph/sparse_writer.go:88-105 | Writing a stream's payload at decoded positions changes the covered positions and no others |
| SparsePlan.OverlayPlan | providers/libvirt/storage/plugin/ceph/sparse_writer.go:62-106 | After the writes an image has the allocated bytes, and holes and everything past the end of file are untouched |
| SparsePlan.ZeroImageEqualsDecoded | providers/libvirt/storage/plugin/ceph/sparse_writer.go:62-106 | A zeroed image given the payload ends equal to what a receiver of the stream holds |
| SparsePlan.ZeroImageEqualsFile | providers/libvirt/storage/plugin/ceph/sparse_writer.go:62-106 | A zeroed image ends equal to the file |
| SparseStream.LibvirtStream.Forward | providers/libvirt/shims/stream_unix.go:62-86 | One read is sent up to the hole and then the hole; a refusal leaves a beginning of that |
| SparseStream.LibvirtStream.CopySparse | providers/libvirt/shims/stream_unix.go:42-87 | Terminates; success is the plan and returns the size; stopped by context or read failure, the operations carry exactly the file up to the offset returned; refused, a beginning of the file |
| SparseStream.LibvirtStream.CopyDense | providers/libvirt/shims/stream_unix.go:28 | The fallback sends the rest of the file from the reader's position, without holes |
| SparseStream.LibvirtStream.ReadFrom | providers/libvirt/shims/stream_unix.go:23-88 | Whatever fails, what was sent is a stretch of the file: from its beginning in the sparse branch, else from where looking for holes left the reader; success has sent all the rest. Without seek faults the sparse branch is taken exactly for files with a hole and the dense one starts where the reader was |
| SparseStream.Upload | providers/libvirt/storage/pool.go:255-311 | Succeeds if nothing fails; a success has delivered exactly the file precisely when the seek calls to come do not leave the reader at the end; if they do and nothing else fails it succeeds with nothing delivered; without seek faults exactly the announced size goes, with no more payload than the file has data |
| SparseStream.LostUpload | providers/libvirt/storage/pool.go:255-311 | A run: a file all of data, the third and fourth seeks failing, and a success with nothing sent |
| SparseStream.DeliversAllocated | providers/libvirt/storage/pool.go:296-303 | Both branches carry the file with its allocated bytes as payload |
| SparseWriter.Uploader.CopySparse | providers/libvirt/storage/plugin/ceph/sparse_writer.go:57-106 | The writes are the plan's payload at its decoded positions, and the image is overlaid with exactly those, also when stopped early |
| SparseWriter.Uploader.CopyDense | providers/libvirt/storage/plugin/ceph/sparse_writer.go:48 | The fallback appends the rest of the file at the image's position |
| SparseWriter.Uploader.ReadFrom | providers/libvirt/storage/plugin/ceph/sparse_writer.go:43-107 | For one file the same operations as the stream, as writes |
| SparseWriter.Uploader.Upload | providers/libvirt/storage/plugin/ceph/ceph.go:184-211 | Succeeds if nothing fails and the file fits; a success, whatever the seeks did, means the image has the file, a zeroed image exactly the file followed by zeros; refuses when the reader was left at the end |
| ArpTable.Arper.RequestComplete | net/arp/arper_linux.go:180-194 | Uncounts it and, at zero, stops polling and cancels the current context |
| ArpTable.Arper.EnsurePolling | net/arp/arper_linux.go:141-160 | Starts a new generation only when not polling and the one before has closed its channel; giving up on that wait changes nothing |
| ArpTable.Arper.LoadARPs | net/arp/arper_linux.go:311-358 | The entries become the usable neighbours; a failed query leaves them alone |
| ArpTable.UsablesExactly | net/arp/arper_linux.go:326-352 | An entry is loaded exactly when it has a device and is reachable and not stale |
| ArpTable.Arper.Find | net/arp/arper_linux.go:362-375 | The matching entries in order |
| ArpTable.FoundAnswers | net/arp/arper_linux.go:78-82 | For any answer of the kernel and any request: the addresses found among the entries loaded from it are exactly those of its entries on the request's device, with its hardware address, reachable, not stale, and with an address that is not unspecified, each field written out |
| ArpProtocol.RunKeepsInv | net/arp/arper_linux.go:135-298 | The invariant holds along every interleaving |
| ArpProtocol.PollersOwnTheirGeneration | net/arp/arper_linux.go:271-298 | At most one poller is alive and it only touches its own generation; no completion channel is closed twice |
| ArpProtocol.NeverPanics | net/arp/arper_linux.go:199-245 | No missing context is used, no channel closed twice; a request's channel is closed once, when its handler ends |
| ArpProtocol.CounterExact | net/arp/arper_linux.go:170-194 | The counter is the number of handlers between start and completion and never wraps; polling means some handler has not completed; not polling means the context is cancelled |
| ArpProtocol.WaitingPollerAdvances | net/arp/arper_linux.go:144-150 | While a caller waits holding the mutex, the old poller can take a step that brings it closer to closing the channel |
| ArpProtocol.WaitIsReleased | net/arp/arper_linux.go:141-150 | At most six steps of that poller release the wait |
| ArpProtocol.WaitIsNotSetBack | net/arp/arper_linux.go:281-297 | No step of anyone else undoes that progress |
| ArpProtocol.DeliveriesExact | net/arp/arper_linux.go:199-245 | Along every run, delivered addresses differ pairwise, and each is that of an entry some query was answered with, on the request's device, with its hardware address, reachable, not stale and specified; between passes they are exactly the matches of all snapshots found |
| ArpProtocol.SnapshotDelivered | net/arp/arper_linux.go:199-245 | Once a handler has looked through a snapshot and finished the pass, whatever the others did meanwhile, every entry of the snapshot that answers its request has been delivered |
| ArpProtocol.ActiveRequestKeepsPolling | net/arp/arper_linux.go:188-193 | While a counted request stays active, no single step stops polling |
| ArpProtocol.CapturedOpenIffPolling | net/arp/arper_linux.go:217-243 | The context a handler captures as it enters a select is the current one, open exactly when polling is on; then its poller is at work |
| ArpProtocol.TurnedAwayIffPollingOff | net/arp/arper_linux.go:217-243 | However long a handler stays in its select, and along every run of all others with the parent alive, it can be turned away for the polling context exactly when polling was off as it entered |
| ArpProtocol.StartedWhilePollingIsServed | net/arp/arper_linux.go:180-245 | A handler that starts while polling is on is never turned away for the polling context along any run with the parent alive, and polling stays on until it completes |
| ArpProtocol.SafeIffStartedWhilePolling | net/arp/arper_linux.go:180-245 | Polling is on as a handler starts exactly when no run with the parent alive leads to it being turned away for the polling context |
| ArpGoroutines.Trace.PollLoop | net/arp/arper_linux.go:271-298 | The poller's code, whatever the others do between its steps, takes steps of the protocol as the current poller; stopped at a select that finds the context done, by whomever, it ends finished with its channel closed and no entries; nobody else touches the entries meanwhile |
| ArpGoroutines.Trace.HandleRequest | net/arp/arper_linux.go:199-245 | A handler's code over any number of passes, left by either context, whatever the others do between its steps, takes steps of the protocol; what it delivered is what the protocol has for it, differs pairwise, matches, and comes from usable entries; its channel is closed once at most |
| ArpGoroutines.Trace.AddRequest | net/arp/arper_linux.go:135-168 | A caller's code takes the adding steps of the protocol, waiting for the old poller while the others act; accepted, polling is on and a handler is there for the request; refused, the parent's context is done |
| ArpGoroutines.RunKeeps | net/arp/arper_linux.go:135-298 | What no other goroutine changes for a poller, a handler or a caller that waits, along any run of theirs |
| ArpProtocol.AcceptedRequestCanLosePolling | net/arp/arper_linux.go:163-201 | A run in which an accepted request is turned away with nothing delivered and no context done |
| IptablesRequest.FirstsKeepsAllIffDistinct | net/filter/iptables/rules.go:75-84 | A hash set keeps the list of items as it is exactly when no two positions hash alike, repetitions included |
| IptablesRequest.NothingLostIff | net/filter/iptables/rules.go:75-84 | Every item is still there, but for repetitions, exactly when items that hash alike are equal |
| IptablesRequest.CollidingRulesAreDropped | net/filter/iptables/rules.go:227-230 | Two different rules with one hash, of which the second is lost; the hash is not unique on rules in general |
| IptablesRequest.SortedListingUnique | net/filter/iptables/rules.go:98-102 | Sorting by stamp gives one list whatever order the set yields |
| IptablesRequest.StampedItems.Insert | net/filter/iptables/rules.go:147-153 | The set mirrors the first insertions, stamped in order |
| IptablesRequest.Slice | net/filter/iptables/rules.go:178-182 | The distinct items in first-insertion order |
| IptablesRequest.Request.RemovalInstructions | net/filter/iptables/request.go:30-37 | The removable ones among the distinct rules, in order, as stored |
| IptablesRequest.ParsedInstruction | net/filter/iptables/rules.go:23-41 | A stored rule reads back with its table, chain and specification |
| IptablesState.RulesByChain | net/filter/iptables/tables.go:287-298 | Chains do not interfere: each changes by the rules that name it |
| IptablesState.AddedRulesPresent | net/filter/iptables/tables.go:285-298 | After a request that succeeded every rule of it is on its chain |
| IptablesState.AddTwiceIsAddOnce | net/filter/iptables/tables.go:267-301 | Applying a request that succeeded once more changes nothing |
| IptablesState.RemovalOrderIrrelevant | net/filter/iptables/tables.go:320-329 | The state after removal does not depend on the order of the rules |
| IptablesState.RemovalOnlyTakes | net/filter/iptables/tables.go:320-329 | Removing any rules takes rules away and never adds any, and no chain comes or goes |
| IptablesRuns.ConfigureTracks | net/filter/iptables/tables.go:55-200 | Applying a request, or the part of it before a failure, keeps the invariant of all chains |
| IptablesRuns.TeardownTracks | net/filter/iptables/tables.go:203-220 | So does a Teardown, in any order of its rules |
| IptablesRuns.RunTracks | net/filter/iptables/tables.go:203-342 | Along every run of setups, configurings that succeed or fail at any point, and teardowns, nobody being given a removable rule that is installed: each driver chain is what it was, the permanent rules, and exactly the rules of the live tasks and those failed calls left, in order; built-in chains gain at most their own jump; nothing else changes |
| IptablesRuns.LeftoversStay | net/filter/iptables/tables.go:267-301 | In those runs the rules a failed Configure had applied stay |
| IptablesAnyRun.LastCallDecides | net/filter/iptables/tables.go:203-342 | Over every run of calls, whole or in part, retries and shared rules included: a rule that was on its chain at most once still is, and it is there exactly if the last call that names it applied it, or none names it and it was there |
| IptablesAnyRun.LeftoverStaysIff | net/filter/iptables/tables.go:267-342 | A rule a failed Configure left is there after a run exactly if no later call names it or the last one to name it applied it |
| IptablesAnyRun.OthersUntouched | net/filter/iptables/tables.go:267-342 | A chain that no call names is left alone by every such run |
| IptablesAnyRun.LeftBehind | net/filter/iptables/tables.go:203-301 | A run: a rule is left by a failed Configure, another task comes and goes, and the rule is still there |
| IptablesAnyRun.TakenOver | net/filter/iptables/tables.go:203-342 | A run: a task is configured with that rule and torn down, and the rule is gone |
| IptablesAnyRun.RetryAndTeardown | net/filter/iptables/tables.go:55-220 | The calls themselves: a Configure that failed anywhere in its request, a retry that succeeds, and its Teardown leave none of the removable rules |
| IptablesRuns.NoDuplicates | net/filter/iptables/tables.go:287-298 | No rule is twice on a driver chain that started without duplicates |
| IptablesRuns.LiveTasksDetermine | net/filter/iptables/tables.go:203-342 | What task chains hold is settled by what is installed alone |
| IptablesRuns.TeardownUndoesConfigure | net/filter/iptables/tables.go:55-220 | Teardown after Configure leaves the task chains as they were |
| IptablesDriver.PlansShaped | net/filter/iptables/tables.go:79-190 | Every planned rule is a jump, a permanent rule or a removable task rule of the layout |
| IptablesDriver.ApplyRules | net/filter/iptables/tables.go:285-298 | On a failure exactly a beginning of the rules is applied |
| IptablesDriver.RemoveRules | net/filter/iptables/tables.go:307-342 | Removes every rule but those whose removal failed, and reports an error exactly if there are such; missing rules are no error |
| IptablesDriver.VirtTables.Add | net/filter/iptables/tables.go:267-301 | Chains first, then rules in first-insertion order; a failure leaves exactly a beginning; without faults it fails exactly when the kernel refuses a rule |
| IptablesDriver.VirtTables.Setup | net/filter/iptables/tables.go:228-264 | Success has applied the setup request, failure a beginning of it |
| IptablesDriver.VirtTables.Configure | net/filter/iptables/tables.go:55-200 | Refuses without touching the tables, or applies the planned request and hands back its removable rules; a failing command leaves exactly a beginning of the request. What the request does for packets is `IptablesTraffic.ConfigureServes` |
| IptablesDriver.VirtTables.BuildRequest | net/filter/iptables/tables.go:70-190 | The loop over ports, with its interface cache, builds the planned request |
| IptablesDriver.VirtTables.Teardown | net/filter/iptables/tables.go:203-220 | Withdraws the stored rules, whatever order the hash set yields them in; with an error it has withdrawn a part of them and done nothing else |
| IptablesDriver.RemovalRoundTrip | net/filter/iptables/request.go:30-37 | Removing the rules as read back removes the rules that were stored |
| IptablesDriver.ConfigureIsStep | net/filter/iptables/tables.go:55-200 | What Configure does is a configuring step of a run, with the distinct planned rules, which are all of them by `IptablesHashing.PlansLoseNothing` |
| IptablesDriver.FailedConfigureIsStep | net/filter/iptables/tables.go:55-200 | What a Configure left that failed while applying its request is a step of a run too |
| IptablesDriver.SetupIsStep | net/filter/iptables/tables.go:228-264 | So is what Setup applied, whether it failed or not and whenever it is called |
| IptablesHashing.PlannedApart | net/filter/iptables/rules.go:227-230 | Rules the driver makes for addresses and port numbers hash alike only if they are equal, although the hash runs their parts together |
| IptablesHashing.PlansLoseNothing | net/filter/iptables/tables.go:79-190 | No rule planned for a task is lost in the request, and no removable one from what is kept for teardown |
| IptablesHashing.ConfiguredRulesPresent | net/filter/iptables/tables.go:55-200 | After a successful Configure every rule planned from the ports is on its chain |
| IptablesHashing.DefaultNamesPlain | net/filter/iptables/names.go:7-90 | The default names are such that this holds of them |
| IptablesHashing.DefaultConfigure | net/filter/iptables/tables.go:55-200 | With the default names a successful Configure keeps the invariant, every rule planned from the ports is on its chain, and every removable one is kept for teardown |
| IptablesPackets.PreroutingMeans | net/filter/iptables/tables.go:173-180 | Read word by word, the first rule of a forward takes exactly tcp packets to the host address and port on the interface, and gives them the task's address and port |
| IptablesPackets.ForwardMeans | net/filter/iptables/tables.go:181-187 | The second takes exactly new tcp connections to the task's address and port, and accepts them |
| IptablesPackets.OutputMeans | net/filter/iptables/tables.go:160-168 | The rule for a loopback address takes exactly tcp packets from that address to the port leaving by the interface, and gives them the task's address and port |
| IptablesPackets.MasqueradeMeans | net/filter/iptables/tables.go:153-159 | The permanent rule takes exactly local packets leaving by the task's device for a unicast address, and masquerades them |
| IptablesTraffic.PortsServed | net/filter/iptables/tables.go:79-190 | After a successful Configure, for every reserved label: a tcp packet from outside to its host address and port on an interface of that address meets a rule that sends it to the task's address and port, and new connections there meet one that accepts them; for a loopback address the same on the output chain, with the masquerade and both jumps |
| IptablesTraffic.OnlyReservedServed | net/filter/iptables/tables.go:79-190 | A rule that Configure added to a task chain takes only packets of some reserved label, as that label's port has them, and does what that port is for; other labels contribute nothing |
| IptablesTraffic.ConnectionSettled | net/filter/iptables/tables.go:79-190 | If no rule took the connection before and no other label has its port, every rule of the prerouting chain that takes it sends it to the task's port, and there is one, so it does not matter which it meets first |
| IptablesTraffic.PlannedIff | net/filter/iptables/tables.go:79-124 | A request can be built exactly when every reserved label has an interface and a parsable address and, for a loopback one, a device of the task that supports it; the cache answers as the host would |
| IptablesTraffic.PlanAccepted | net/filter/iptables/tables.go:267-301 | A kernel with the built-in chains and those of setup refuses nothing of the request |
| IptablesTraffic.SetupAccepted | net/filter/iptables/tables.go:228-264 | A kernel with the built-in chains refuses nothing of setup, which leaves the driver's two chains there |
| IptablesTraffic.SetupSteers | net/filter/iptables/tables.go:228-264 | After setup every packet on the built-in chains meets the jump to the driver's chain |
| IptablesTraffic.DefaultSetupSteers | net/filter/iptables/names.go:7-90 | So it is with the default names |
| IptablesTraffic.ConfigureServes | net/filter/iptables/tables.go:55-200 | The call itself: a success serves every reserved port of the labels and adds rules to the task chains for nothing else; when no command fails and the chains are there, it succeeds exactly when every such port can be served |
| IptablesDriver.TeardownIsStep | net/filter/iptables/tables.go:203-220 | What Teardown does is that task's releasing step |
| IptablesDriver.SetupTracks | net/filter/iptables/tables.go:228-264 | A run begins with the invariant, before setup and after it, however far it came |
| Bytes.ScanFinds | internal/convert/bytes.go:31-38 | The scan finds the match of the size pattern whenever there is one |
| Bytes.ScanSound | internal/convert/bytes.go:31-38 | What it finds is a match |
| Bytes.TablesCoverUnits | internal/convert/bytes.go:13-29 | The tables have every unit the pattern admits, at its power of 1000 or 1024 |
| Bytes.ToBytesOfMatch | internal/convert/bytes.go:34-67 | The result for any text of the pattern's form, in any case |
| Bytes.ExactIffProductFits | internal/convert/bytes.go:66 | The result is the exact product precisely when that is below 2^64 |
| Bytes.ToBytesOfPrint | internal/convert/bytes.go:40-49 | Reading the decimal print of a 64-bit number gives the number; larger ones are out of range |
| Bytes.ValidIffMatches | internal/convert/bytes.go:81-84 | Valid exactly when the text matches and its digits fit 64 bits |
| Bytes.SuffixAlwaysKnown | internal/convert/bytes.go:62-64 | The unknown-suffix error cannot occur |
| Bytes.ProductWraps | internal/convert/bytes.go:66 | Sixteen eib and n more multiply out to n |
| Bytes.EibWraps | internal/convert/bytes.go:34-84 | Any number of eib below 2^64, as text, is valid and read as what is left of it over sixteen |
| Pools.ResizedHoldsSize | providers/libvirt/storage/pool.go:314-373 | A resized volume is never smaller than asked, and larger exactly for raw volumes with more set aside |
| Pools.Storage.GetVolume | providers/libvirt/storage/pool.go:44-52 | The volume as it is, not found if it is not there |
| Pools.Storage.AddVolumeBase | providers/libvirt/storage/pool.go:67-224 | Adds at most the one volume, at least as large as asked, filled by cases: blank, from a file, a copy of its source or backed by it, and on Ceph a clone; an upload that breaks off leaves it half filled; an existing one is handed back; when no call fails it succeeds exactly if the volume exists, or its source does and it comes out no larger than asked |
| Pools.Storage.CopyVolume | providers/libvirt/storage/ceph.go:216-271 | A full copy at the size asked; when no call fails it succeeds exactly onto a free name from an existing source that is no larger |
| Pools.Storage.AddVolume | providers/libvirt/storage/ceph.go:196-213 | A new volume is blank with neither file nor source, from the file with only a file, a copy of a source that is not chained, backed by one that is; on Ceph a chained one is a clone even if a file is given, and all are sparse |
| Pools.Storage.DeleteVolume | providers/libvirt/storage/pool.go:228-252 | Deletes that volume and no other; a missing one is a success |
| DiskMounts.MountForIsLast | virt/disks/config.go:286-302 | The mount for a path is the last one under /dev/ with it |
| DiskMounts.BaseOfDevice | virt/disks/config.go:328-330 | A device directly under /dev/ lends its name |
| DiskMounts.NotUsedExactly | virt/disks/config.go:333-341 | A mount is handed back exactly when no Nomad disk took it |
| Disks.Disks.ApplyMounts | virt/disks/config.go:279-344 | Each Nomad disk with a mount becomes raw with its path and read-only flag, no other disk changes; the mounts not taken come back in order |
| DiskImages.ResolvedIsFile | virt/disks/config.go:263-274 | An image path is replaced only by that of a file, and that of a file not at all |
| Disks.Disks.ResolveImages | virt/disks/config.go:253-275 | Every local image that is no file is looked for in the directories in order, the search going on from what was found |
| Disks.Disks.ApplyCloudInit | virt/disks/config.go:208-225 | A read-only raw cdrom with the given image goes last |
| DiskNames.GenerateDeviceName | providers/libvirt/storage/storage.go:177-199 | One past the last character of the greatest name with the bus's prefix, or the first letter |
| DiskNames.NewNameIsFresh | providers/libvirt/storage/storage.go:177-199 | With one-letter names and a letter left, the new name differs from all names in any case |
| DiskNames.NamesStayApart | virt/disks/config.go:378-380 | Handing out names disk by disk keeps them apart and the given ones as given |
| DiskNames.NamesEndDistinct | virt/disks/config.go:378-380 | If names given differ up to case, have one letter, and letters suffice, all names end up different up to case |
| DiskNames.NewNameTakenIff | providers/libvirt/storage/storage.go:177-199 | For all names in use: the generated name is taken, up to case, exactly when the greatest valid name has two characters or more after the prefix (or a last one past where the next byte is later) and the prefix with the next character is valid too |
| DiskNames.NamesEndDistinctIff | virt/disks/config.go:378-380 | For any names: all end up different up to case exactly when those given did and no name was generated in such a collision |
| DiskNamesGiven.GivenNamesEndDistinctIff | virt/disks/config.go:378-380 | While character codes last: all names end up different up to case exactly when those given are, and for neither prefix the greatest given name has two characters or more after it and either the name after it is in use, or two are needed and it does not come after the greatest |
| DiskNamesGiven.RoomIsEnough | virt/disks/config.go:378-380 | Names with one letter after the prefix, and letters left for those needed, meet that condition |
| DiskNames.VolumeNamesDistinct | virt/disks/config.go:669 | Then the volume names of a task differ |
| DiskNames.VolumeNamesMeetIff | virt/disks/config.go:669 | Two tasks and devices lead to one volume name exactly when they are the same or one task's name is the other's with an underscore and the beginning of its device name |
| DiskNames.VolumeNameTells | virt/disks/config.go:669 | Without underscores in device names the volume's name tells the task and the device |
| DiskNames.UnderscoresMeet | virt/disks/config.go:669 | Two tasks with one volume name |
| DiskNames.TwoLettersCollide | providers/libvirt/storage/storage.go:177-199 | With `vdba` and `vdb` in use on virtio the name generated is `vdb` |
| DiskPrepare.GenerateDevname | virt/disks/config.go:772-781 | The new name among the names in use |
| DiskPrepare.Fill | virt/disks/config.go:354-389 | Fills in driver, kind, bus and name and detects the image's format; what is filled stays |
| DiskPrepare.EnsureParent | virt/disks/config.go:430-469 | The parent that is there, or a new one holding the image, itself or converted to the disk's format, at the image's size; without faults a present parent costs no conversion and a missing one can be had exactly when image and size can |
| DiskPrepare.HalfFilledParent | virt/disks/config.go:430-469 | A run: a parent's upload breaks off, and the next call takes the half-filled volume as the parent |
| DiskPlan.ParentNameTells | virt/disks/config.go:788-803 | Parents of different contents or formats have different names |
| DiskPrepare.ConvertSource | virt/disks/config.go:481-490 | Converts exactly when the formats differ |
| DiskPrepare.DeriveSize | virt/disks/config.go:493-512 | A missing size is the source volume's, else the image's if it can be told |
| DiskPrepare.PrepareDisk | virt/disks/config.go:353-513 | A success prepares the disk and leaves nothing to prepare; a settled disk is left alone; without faults it succeeds exactly when format, pool, image and source volume can be had |
| DiskPrepare.PreparedImages | virt/disks/config.go:399-491 | After Prepare a disk outside Nomad still holding an image is unchained and the image has its format; one chained from an image has lost it and has a volume of its pool instead, which is there; that it holds the image's contents is `DiskContents.ChainedOnOwnContents` |
| DiskContents.EventKeeps | virt/disks/config.go:402-474 | Preparing, generating and deleting, whether they succeed or fail, leave every parent true to its name: made from an image with the digest in its name, itself or converted to the format in its name |
| DiskContents.CourseKeeps | virt/disks/config.go:402-474 | So does every course of such steps, by any tasks, with images that change in between |
| DiskContents.ChainedOnOwnContents | virt/disks/config.go:402-474 | After a successful Prepare in such a course a disk chained from an image is on a volume made from an image with its own image's digest, in its own format, whatever was prepared before; that volume is half filled exactly if it was so before |
| DiskTasks.PrepareKept | virt/disks/config.go:349-523 | The call itself keeps parents true to their names, and if it succeeds every disk chained from an image is on its own image's contents |
| DiskPrepare.MarkedIsMarked | virt/disks/config.go:515-520 | Marking the primary disk twice is marking it once |
| Disks.Disks.Prepare | virt/disks/config.go:349-523 | Success prepares every disk under the names handed out in order; volumes are only added, each once, none that was there, all of them parents of disks to be chained, filled from those disks' images, and exactly those missing; without faults it succeeds exactly when every disk in turn can be prepared; settled disks change nothing |
| Disks.Disks.PrepareTwice | virt/disks/config.go:349-523 | A second Prepare after a successful one succeeds, changes no disk, adds no volume and converts no image |
| DiskCheck.CheckPooled | virt/disks/config.go:580-640 | Accepts a disk only if it is valid for its pool and, without faults, exactly then; panics exactly on a size that does not parse with a source that is not empty |
| DiskCheck.CheckPool | providers/libvirt/storage/directory.go:67-89 | The pools' own rules, and the sparse default of directory pools |
| Disks.Disks.Validate | virt/disks/config.go:526-659 | Acceptance means every disk is valid and exactly one is primary, and without faults conversely |
| DiskGenerate.WriteNomadVolume | virt/disks/config.go:817-856 | Writes the image to the block device once, converted if the formats differ; fails exactly when the path is missing, the conversion or the write fails |
| DiskGenerate.GenerateDisk | virt/disks/config.go:665-735 | The disk gets its volume, in its pool under the task's name for it; a new one is at least as large as asked, exactly so if sparse, and made from its source, each case written out; without faults it succeeds exactly when pool, size and source can be had, or the image of a Nomad volume can be written |
| Disks.Disks.Generate | virt/disks/config.go:663-738 | Success gives every disk its volume; only volumes asked for are added, each made for its disk; panics only on a size that does not parse; without faults it succeeds exactly when every disk in turn can be generated |
| Disks.Disks.Volumes | virt/disks/config.go:741-750 | The volumes of the disks in order |
| DiskLifecycle.PreparedNamesDistinct | virt/disks/config.go:378-380 | Unless the names given make names collide, prepared disks have different names in any case and different volume names |
| DiskLifecycle.ConfigureDisks | plugin/driver.go:576-612 | The disks before Prepare are those of the task with mounts applied and images resolved, and the cloud-init disk after them if there is one |
| DiskLifecycle.SetupDisks | plugin/driver.go:576-645 | Mounts, image resolution, the cloud-init disk, Prepare, Validate, Generate in turn: volumes are only added, first parents and then the disks' own; after acceptance Generate does not panic; every new volume is filled as a disk's configuration says, one disk is booted from, and unless the names given make names collide no two disks or volumes share a name and each volume is filled for its own disk |
| DiskContents.TaskVolumesFilled | virt/disks/config.go:349-738 | Through Prepare, Validate and Generate: the new volume of a disk chained from an image is backed by the parent for that image, which is there; that of a disk not chained is made from its image or a conversion of it to the disk's format; one with a volume for a source is backed by it or a copy of it; one without is blank |
| DiskTasks.TasksApart | virt/disks/config.go:669 | Two tasks of different names ask for no volume together, device names having no underscore |
| DiskTasks.TwoTasks | virt/disks/config.go:663-738 | The calls themselves, for two such tasks: the second gets every volume new that was not there before both, made for it; destroying the domain of either deletes its volumes and leaves the other's as they were |
| DiskTasks.TaskDomain | plugin/driver.go:576-645 | From configuration to the machine: each disk of the domain has the name, bus, kind, driver, format and source of its disk, exactly one is booted from, and unless the names given make names collide no two share a name in any case |
| DiskPrepare.CdromNotBooted | virt/disks/config.go:515-520 | A cdrom such as the one for cloud-init makes no difference to which disk is marked as the one to boot |
| DiskCheck.DefaultFormatIsRight | providers/libvirt/storage/directory.go:67-101 | A pool's default format is the only one its own rules accept for all disks, chained or not |
| DiskLifecycle.DestroyUndoesGenerateIff | providers/libvirt/libvirt.go:425-474 | Destroying restores the store from before Generate exactly when none of the volumes existed then; all other volumes stay either way |
| DiskLifecycle.CreateAndDestroy | providers/libvirt/libvirt.go:425-474 | The calls themselves: after making the volumes of a task and destroying its domain with success, the store is as before exactly when none of the volumes was there already |
| DiskLifecycle.ExistingVolumeGoes | virt/disks/config.go:663-738 | A run: a volume that was there is handed to the task as it is and is gone when the domain is destroyed |
| Volumes.DomainDisks | providers/libvirt/domain.go:224-247 | One disk per volume, or a refusal exactly when some volume has none |
| Volumes.CephIndex | providers/libvirt/storage/storage.go:320-334 | Every Ceph pool's remote name leads to a pool of that name, whatever the order of pools; fails exactly when some pool cannot be asked |
| Volumes.DiscoverVolumes | providers/libvirt/storage/storage.go:317-376 | Either the index fails or the result is that of the disks under some valid index |
| Volumes.CephRoundTripIff | providers/libvirt/storage/storage.go:279-296 | A Ceph disk leads back to its volume exactly when the remote name has no slash and is indexed to its pool |
| Volumes.CephConfigurationIff | providers/libvirt/storage/storage.go:279-335 | It does so whatever the order of pools exactly when the remote name has no slash and no other Ceph pool is configured with it |
| Volumes.SharedRemoteMisleads | providers/libvirt/storage/storage.go:317-335 | Two pools with one remote name: whatever the index, one of their two domains leads to the volume of the other, and each may be the one |
| Volumes.DiscoverInvertsDisks | providers/libvirt/storage/storage.go:226-376 | If the remote names of the Ceph pools used are slash-free and their own, the disks lead back to exactly the volumes in pools, in order |
| Volumes.DiscoverInvertsDisksIff | providers/libvirt/storage/storage.go:226-376 | The disks of any volumes lead back to exactly those in pools, whatever the order of pools, exactly under that condition |
| Volumes.Provider.DeleteVolumes | providers/libvirt/libvirt.go:459-471 | Deletes in order, stops at the first refusal |
| Volumes.Provider.DestroyVM | providers/libvirt/libvirt.go:425-474 | Success removes the domain and exactly its volumes; failures before that change nothing, failures while deleting leave a prefix deleted and the domain gone; with no failing reply and discovery done, it succeeds exactly when every volume discovered is in a pool there is |
| Volumes.StrandedVolume | providers/libvirt/libvirt.go:425-474 | A domain with its second volume in a pool no longer configured: destroying it deletes the first, leaves the second, and finds no domain the next time |
| Volumes.PooledKnown | providers/libvirt/domain.go:224-247 | The volumes a domain is made from are in pools there are, so destroying it with those pools strands none |
| Volumes.DestroyDeletesExactly | providers/libvirt/libvirt.go:425-474 | Destroying a domain made from volumes deletes those kept in pools and no others |
| Volumes.ParentsStay | providers/libvirt/libvirt.go:459-471 | The parent of a chained volume stays unless it is attached itself |
| Version.GenVersion | providers/libvirt/libvirt.go:1202-1218 | The loop in 32-bit arithmetic computes the version's number |
| Version.CodeInvertsCompute | providers/libvirt/libvirt.go:1222-1229 | Every 32-bit number survives printing and reading |
| Version.ComputeInvertsCodeIff | providers/libvirt/libvirt.go:1202-1229 | A version survives exactly when minor and patch are below 1000 and its number fits |
| Version.RequiresIsLexicographic | providers/libvirt/libvirt.go:1190-1192 | Comparing numbers is comparing components, within those bounds |
| Version.SharesNumberIff | providers/libvirt/libvirt.go:1202-1229 | A version shares its number with another version within those bounds exactly when it is outside them |
| Version.LargePatchCollides | providers/libvirt/libvirt.go:1209-1215 | A patch number of 1000 or more runs into the minor one |
| Version.AlwaysMetIff | providers/libvirt/libvirt.go:1190-1218 | Every library meets a requirement exactly when its number is zero, which is when it is not three integers or their total is a multiple of 2^32 |
| Version.LargeVersionAlwaysMet | providers/libvirt/libvirt.go:1202-1218 | 4294.967.296 is well formed and met by every library |

## Left out

- Transfers: what `Send` reports about bytes before an error, and readers that cannot seek at all (the fallback is the dense branch). `Send`, `SendHole` and `WriteAt` are all or nothing, as the code ignores their counts. `io.Copy` is modelled as reads and writes in turn.
- 64-bit file offsets are unbounded numbers here.
- Discovery: `SetContext`, logging, and the memory model; each step is one critical section, select or channel operation. `ArpProtocol.CounterExact` assumes fewer than 2^64 requests in flight.
- ArpProtocol.WaitIsReleased: shows that steps of the poller release the wait; that the scheduler runs it, and that its query returns, is assumed.
- The branch of `remove` that deletes whole chains, which no caller uses, and Teardown's check of the type of its data.
- IptablesRuns.RunTracks: is about runs in which nobody is given a removable rule that is installed, and whole teardowns; for all other runs `IptablesAnyRun.LastCallDecides` says what is on the chains, but not in which order.
- The error returned by a multi-error is one value; texts, prefixes and logs are left out.
- Disks in the list are values, so two entries of the list that are one object, and the temporary files and their removal by `defer`, are not modelled. A nil list is taken as an empty one, which it behaves like.
- Lower case is modelled for the characters whose lower case is in ASCII; other scripts keep their case in `Text.Lower`.
- `CompatAddImage`, `Copy`, `AllowedPath` and the volume clean-up after a failed start: fixed records, copies and path checks that would only add easy members.
- Packets: addresses and interfaces are compared as they are written, `--to-destination` is read at its last colon, and extensions (`-m`) stand for nothing of their own. What the kernel does with a packet between chains is not modelled.
- IptablesTraffic.ConnectionSettled: takes the task's address not to be one of the host's, because the interface cache answers for it as for either (`net/filter/iptables/tables.go:89-118`); `IptablesTraffic.PlannedIff` and the converse of `IptablesTraffic.ConfigureServes` likewise.
- DiskContents.ChainedOnOwnContents: is about formats without an underscore; the pools accept only qcow2 and raw. Identifiers are those made for images, as a configuration cannot give any, and a file is not changed while one Prepare uses it.
- DiskTasks.TwoTasks: is about device names without underscores; for others `DiskNames.VolumeNamesMeetIff` says when two tasks share a volume.
- IptablesHashing.PlannedApart: takes addresses to have no dash and the ports of the plan not to be negative; `net.ParseIP` gives nothing for any other text, of which no interface is found (`net/filter/iptables/tables.go:91`), and Nomad hands out only such ports.
- libvirt, Ceph, qemu-img and the kernel are oracles; pool setup, secrets, streams' lifetimes, XML and `refreshPool`'s retries are not modelled. A copy on Ceph onto a name in use fails, as cloning there does; libvirt refuses to make a volume smaller, as the code does not allow it to.
- DHCP leases, fingerprinting, mount commands, cloud-init templates and the task lifecycle of the plugin.
