# lkm4ctr: a verified model of the glue layer

This project models the parts of `glue/` that decide whether the module may be unloaded, and
the parts that show its state, in Dafny 4.11, and proves what those parts are for. Check it
with `dafny verify dfyconfig.toml`.

Most of this code is a protocol between CPUs that interleave at single atomic operations. Such
a protocol is a total step function `Next(state, event)`, where an event that is not possible
changes nothing, and a run is any list of events. Every theorem about runs therefore covers
every interleaving, of any length, with any number of calls, inodes, hooks or writers. Next to
the protocols stand the functions as they are written, as classes whose methods update fields,
arrays and maps in place. Where a class and a protocol model the same code, a lemma proves that
one undisturbed call is what the protocol's atomic steps add up to.

| files | what they model |
|---|---|
| `HookEngine`, `HookTheorems`, `ShadowHijack` | the hook engine of `shadow_hijack.c`: enter, return, missed return, install, failed install, remove, quiesce, final teardown; then the same functions in place, with the group registry |
| `PinTable`, `PinTheorems`, `InodePins` | the inode pin tables of the NSFS lifecycle and of procfs, as a protocol and in place |
| `PidnsOps` | attaching operations to an initial pid namespace, and detaching them |
| `ControlledStop`, `StopProof`, `StopTheorems`, `StopReasons`, `StopProgress`, `StopPossible` | the controlled stop, step by step, running against all of the above: what it keeps, why it goes on or is refused, and when it can end |
| `VendorInit` | initialisation with its undo paths |
| `TgidRegistry`, `PidMap` | the two tables that own references to nsproxy and pid objects |
| `DiagfsLifecycle`, `LoadRuns`, `WorkerRuns`, `SafeUnload` | loading and unloading through control files, and the self-unload worker; one undisturbed command; whole runs of the worker; then that worker running against the hook engine |
| `LogRing`, `Log`, `ShowLoop` | the log ring, its renderer, nested renderers and the show loop |
| `Numerals`, `DynDir` | names and listings of the dynamic directories |
| `SeqEscape` | the escaping function for overlay mount options |
| `Options`, `Tally`, `Runs` | an optional value; counters as sums of weights over threads; runs and repeated operations |

Facts about the code that the proofs brought out:

- A return that misses its kretprobe handler is never forgotten. The counts stay positive for
  ever, so a later stop is refused, or waits for ever in its last poll loop, which has no bound
  (`LeakPreventsStop`). A fail-safe pin has the same effect (`PermanentPreventsStop`), and in a
  settled system these two are all that can rule a stop out (`StopIsPossible`).
- Some tests of the stop never refuse: the detach finds no pin, no open gate
  and no foreign pointer where the stop has come that far, so a stop is refused only for live
  nsproxies, a part that is not ready, calls in flight, or a pin seen by the two checks before it
  (`RefusedForAReason`).
- A refused stop that had cancelled the mount work arms it, even if it was not armed before
  (`RefusalRestores`).
- The NSFS hooks survive a failed initialisation without any pin exactly if they had been left
  over from an earlier failure and there is no default IPC namespace or no overlay, so that the
  new failure comes first (the last clause of `VendorKernel.Init`; `LeftOverHooks` does it).
- Lookup in the dynamic directories finds instances under names that are not theirs, for two
  reasons: the digits the parser accepts, and the bits of the key a provider looks at
  (`AliasOrListed`, with `LeadingZeroIsAlias` and `HighBitsAreAlias`).
- A directory position is narrowed to an int, so a seek past 2 to the 32 begins the instances
  again (`PlaceRepeats`).
- A hook array that is registered and deactivated by somebody else while `RegistryAdd` allocates
  stays inactive, although it was just added.
- A log line can be taken apart again exactly if its tag has no closing bracket (`LineReads`); with
  one, two different entries may print alike (`BracketIsAmbiguous`).
- `seq_escape` with a set that lacks the backslash is usually ambiguous; `OneToOneIff` says when.
- After `rmmod` has been started the global state never shows active again, even if the removal
  then fails (`LaunchedIsFinal`).

Assumptions, all about the kernel or about code outside `glue/`: disarming a forward hook returns
only when no thunk of that hook is running; replacement functions are entered only through a
redirect; the real path helper returns a new inode or a live one, never one whose eviction has
begun, and the path it returns holds that inode; the caller of the stop holds a module reference,
and lifecycle operations exclude each other, so that while a stop runs only the stop changes the
quiesce flag and installs or removes hooks; while the unload worker runs only it changes the flag;
the required hooks are in the core array, and the arrays of the initialisation share no hook.

## Model

| member | source | states |
|---|---|---|
| HookEngine.NextInv | glue/shadow_hijack.c:141-157 | every atomic step of any CPU keeps the counter, lock, gate, return-probe and control invariants |
| HookTheorems.ReferencesBackEveryCall | glue/shadow_hijack.c:141-157 | in every reachable state the module references of redirected calls are at least the global and the summed per-hook counts, and all three are equal when no call is mid-enter or mid-return |
| HookTheorems.LeakIsPermanent | glue/shadow_hijack.c:552-565 | after a return without its handler, references and count stay positive and the module cannot be deleted |
| HookTheorems.ReturnProbeLifetime | glue/shadow_hijack.c:581-619 | in every reachable state an armed hook has its return probe, a hook without one has no call in flight, and every registered probe is on the lifetime list |
| HookTheorems.NoneOrphaned | glue/shadow_hijack.c:820-851 | in every reachable state no running call has lost its handler, whatever was installed, rolled back, removed or torn down |
| HookTheorems.TeardownClears | glue/shadow_hijack.c:1137-1145 | the final teardown ends, leaves no return probe registered and touches no call |
| HookTheorems.TeardownRuns | glue/shadow_hijack.c:1137-1145 | in a deleted module it can always be run to that end |
| HookTheorems.DeletedExactly | glue/shadow_hijack.c:141-157 | the module can be deleted exactly when no redirected call and nobody else holds a reference and no lifecycle operation is under way |
| HookTheorems.QuiesceShuts | glue/shadow_hijack.c:635-642 | taking the lock, writing true and releasing it shuts the gate |
| HookTheorems.ShutStep | glue/shadow_hijack.c:141-157 | with the gate shut no step raises the number of ordinary calls let through |
| HookTheorems.QuiesceBarrier | glue/shadow_hijack.c:635-642 | ordinary calls never rise behind the gate, and one read of zero means that no ordinary replacement runs for as long as the gate stays shut, whatever exempt hooks do |
| ShadowHijack.EnterEffect | glue/shadow_hijack.c:141-157 | the seven atomic operations of one undisturbed entry take one reference and count once in each counter, or leave no trace |
| ShadowHijack.ReturnEffect | glue/shadow_hijack.c:552-565 | the operations of one return give back the reference and both counts, or leak all three |
| ShadowHijack.InstallEffect | glue/shadow_hijack.c:788-852 | the operations of one installation, with every error path, leave a redirect with its probe or nothing but a place on the lifetime list |
| ShadowHijack.RemoveEffect | glue/shadow_hijack.c:890-898 | the operations of one removal take the redirect away and leave the return probe |
| ShadowHijack.IdleIsSound | glue/shadow_hijack.c:581-602 | between lifecycle operations every running replacement has the return probe it relies on |
| ShadowHijack.IdleAgrees | glue/shadow_hijack.c:788-898 | between lifecycle operations a hook redirects exactly if it is marked installed |
| ShadowHijack.DeletedIsDeletable | glue/shadow_hijack.c:1122-1145 | when the module can be deleted no call holds a reference and the lifetime list reaches every return probe |
| ShadowHijack.InstalledAllDone | glue/shadow_hijack.c:1069-1093 | a hook whose installation answered 0 is installed when the whole pass is through |
| ShadowHijack.InstalledAllListed | glue/shadow_hijack.c:1069-1093 | a pass changes hooks of its array only, and no in-flight count |
| ShadowHijack.RemovedAllMeans | glue/shadow_hijack.c:1096-1120 | after a removal pass no hook of the array redirects, every other hook is unchanged, and every return probe is still there |
| ShadowHijack.StatusUpdated | glue/shadow_hijack.c:197-208 | changing the flag of a registered array changes the status of that array only |
| ShadowHijack.Engine.RedirectEnter | glue/shadow_hijack.c:141-157 | in place: lets the call through exactly if the gate, the return probe and the module allow it, with the whole new state |
| ShadowHijack.Engine.RetprobeRet | glue/shadow_hijack.c:552-565 | in place: equals four operations of the returning call |
| ShadowHijack.Engine.Quiesce | glue/shadow_hijack.c:635-642 | in place: equals the three operations on the locked flag |
| ShadowHijack.Engine.Install | glue/shadow_hijack.c:788-852 | in place: equals the effect proved for its operations, with the right answer |
| ShadowHijack.Engine.InstallAll | glue/shadow_hijack.c:1069-1093 | skips every hook that answers -ENOENT, whatever step said so, stops at the first other error, and reports how many installations succeeded |
| ShadowHijack.Engine.RemoveAll | glue/shadow_hijack.c:1096-1120 | removes every installed hook of the array and marks the group inactive |
| ShadowHijack.Engine.RegistryAdd | glue/shadow_hijack.c:210-238 | whatever other callers do while the lock is dropped for the allocation, no array is registered twice and no other group changes; one that was registered and deactivated in that window stays inactive |
| ShadowHijack.Engine.RegistryRemove | glue/shadow_hijack.c:240-249 | marks one group inactive and keeps it registered |
| ShadowHijack.Engine.TeardownAllRetprobes | glue/shadow_hijack.c:1137-1145 | with no reference left, unregisters every return probe and orphans no call |
| PinTable.NextInv | glue/vendor_kernel_nsfs_lifecycle.c:72-247 | every step of any helper, eviction or stop keeps counts, mutex, gate, holders and coverage, for both tables |
| PinTheorems.ReferencesBackPins | glue/vendor_kernel_nsfs_lifecycle.c:72-138 | in every reachable state the module references cover the count and the table plus permanent pins; at rest all are equal |
| PinTheorems.CoverageUntilEviction | glue/vendor_kernel_nsfs_lifecycle.c:140-194 | every module-owned inode that the helper returned is covered, and the module referenced, until its real eviction has run |
| PinTheorems.BeginExitShuts | glue/vendor_kernel_nsfs_lifecycle.c:327-332 | the locked write of begin_exit shuts the gate and leaves the count alone |
| PinTheorems.ShutRun | glue/vendor_kernel_nsfs_lifecycle.c:327-339 | after begin_exit the pin count never rises until abort_exit |
| PinTheorems.ZeroStaysZero | glue/vendor_kernel_nsfs_lifecycle.c:341-359 | a count of zero behind the gate means nothing is pinned, stays zero, and every inode is evicted |
| InodePins.CallEffect | glue/vendor_kernel_nsfs_lifecycle.c:148-194 | the operations of one undisturbed helper call cost one reference and one count for a new pin and nothing for a known inode or a declined call |
| InodePins.PinEffect | glue/vendor_kernel_procfs.c:124-154 | the same for pin_inode alone, with the fail-safe pin when there is no inode or no record |
| InodePins.EvictEffect | glue/vendor_kernel_procfs.c:300-306 | the operations of one eviction give back exactly the pin of that inode |
| InodePins.Pins.CallHelper | glue/vendor_kernel_nsfs_lifecycle.c:148-194 | in place: equals the effect proved for the operations of a thread |
| InodePins.Pins.PinInode | glue/vendor_kernel_nsfs_lifecycle.c:72-113 | in place: turns the tentative reference into the pin's, or puts it |
| InodePins.Pins.UnpinInode | glue/vendor_kernel_nsfs_lifecycle.c:115-138 | in place: removes the entry with its count and reference, if there is one |
| InodePins.FlagEffect | glue/vendor_kernel_nsfs_lifecycle.c:327-339 | setting the stopping flag in one go is what the three locked operations add up to |
| InodePins.Pins.BeginExit | glue/vendor_kernel_nsfs_lifecycle.c:327-332 | in place: equals the machine's three locked operations, whatever other threads there are, and leaves the gate shut in the sense of PinTheorems.ShutRun |
| InodePins.Pins.AbortExit | glue/vendor_kernel_nsfs_lifecycle.c:334-339 | in place: equals the machine's three locked operations, and leaves the gate open |
| InodePins.ZeroIsUnpinned | glue/vendor_kernel_nsfs_lifecycle.c:341-359 | with the gate shut a count of zero means no entry, no permanent pin and no inode alive; at rest the converse holds too |
| InodePins.Pins.PrepareExit | glue/vendor_kernel_nsfs_lifecycle.c:341-359 | accepts only if nothing is pinned and no inode is alive, whatever other threads are doing; with all at rest, exactly if the gate is shut and nothing is pinned |
| PidnsOps.OneTarget | glue/vendor_kernel_procfs.c:417-455 | in every reachable state at most one initial pid namespace carries the attached operations, and it is the recorded target |
| PidnsOps.TargetAgrees | glue/vendor_kernel_procfs.c:417-455 | in every reachable state the recorded target is an initial namespace that carries these operations |
| PidnsOps.UndisturbedQuestion | glue/vendor_kernel_procfs.c:417-455 | an undisturbed question is granted if and only if the namespace carries the operations already, or is an initial one without any while no target is recorded; in the second case and no other it carries them then, is the target, and nothing else changes |
| PidnsOps.LockedAnswer | glue/vendor_kernel_procfs.c:441-453 | whatever happened since the unlocked read, the locked section turns a thread away if and only if by then the pointer is foreign or another target is recorded; otherwise the namespace is attached and the target |
| PidnsOps.NextGrant | glue/vendor_kernel_procfs.c:417-455 | whoever was told that the operations are attached can rely on it through every step but a detach |
| PidnsOps.DetachClears | glue/vendor_kernel_procfs.c:620-643 | in every reachable state the locked part of a detach is accepted and clears that one pointer and the target |
| StopProof.NextInv | glue/vendor_kernel_module.c:470-686 | every step of the stop and of everything it runs against keeps the invariant of the whole system |
| StopTheorems.StopIsSafe | glue/vendor_kernel_module.c:626-680 | once all checks are passed, and at every later step, no ordinary call is inside a replacement, both pin counts are zero, both tables are empty and every inode is evicted |
| StopTheorems.StoppedIsSilent | glue/vendor_kernel_module.c:652-680 | after the final drain no hook is armed or installed and no call of any kind is entering, running or counted |
| StopTheorems.RefusalReopens | glue/vendor_kernel_module.c:485-638 | a stop refused at any of the eight points leaves all three creation gates open and everything loaded |
| StopTheorems.RefusalRestores | glue/vendor_kernel_module.c:485-638 | a refused stop leaves the quiesce flag and every hook as it found them; mount work is armed afterwards exactly if the stop cancelled it or found it armed |
| StopReasons.RefusedForAReason | glue/vendor_kernel_module.c:485-638 | a stop backs out or is refused if and only if one of its tests told it a reason: a live nsproxy, an error of a part that is not ready, calls in flight, or a pinned inode |
| StopReasons.DetachIsCleared | glue/vendor_kernel_module.c:485-638 | a stop that has come to the detach has asked for live objects before and after the wait, for the IPC parts and for the message queues, and no answer had a live object or an error |
| StopReasons.NoStageSkipped | glue/vendor_kernel_module.c:485-686 | a stop that has got past a stage has performed it, up to clearing the state |
| StopReasons.PollIsPatient | glue/vendor_kernel_module.c:502-542 | the stop leaves a poll loop only with no call in flight or after exactly 3000 sleeps |
| StopReasons.StagesAreDone | glue/vendor_kernel_module.c:485-681 | at every stage the gates before it are shut and the parts before it are gone: namespace creation, mount work, attached operations, overlay and IPC |
| StopProgress.BackingOutEnds | glue/vendor_kernel_module.c:543-554 | a stop that backs out is refused after at most nine operations of its own, unless a call keeps a lock |
| StopTheorems.CompletionRestoresQuiesce | glue/vendor_kernel_module.c:639-685 | a completed stop leaves the subsystem disabled and the quiesce flag as found |
| StopTheorems.BoundedWait | glue/vendor_kernel_module.c:504-508 | the two bounded poll loops together sleep at most 3000 times |
| StopTheorems.DetachIsSafe | glue/vendor_kernel_procfs.c:620-643 | the attached operations go away in one step only, when no lookup relies on them and no inode or ordinary call could use them |
| StopTheorems.DeletedIsUnpinned | glue/vendor_kernel_nsfs_lifecycle.c:72-138 | when the module can be deleted no inode of either table is alive and no redirected call holds a reference |
| StopTheorems.LeakPreventsStop | glue/vendor_kernel_module.c:655-665 | after one missed return no stop ever finishes |
| StopTheorems.PermanentPreventsStop | glue/vendor_kernel_nsfs_lifecycle.c:341-359 | after one fail-safe pin in either table every stop is refused before it detaches anything |
| StopTheorems.BodiesPin | glue/vendor_kernel_nsfs_lifecycle.c:140-194 | no stage of a stop holds back what a replacement does inside its body: it pins and evicts as the pin tables do on their own |
| StopTheorems.LookupsAsk | glue/vendor_kernel_procfs.c:517-600 | a lookup may always ask for the attached operations, and waits for nothing but the answer |
| StopTheorems.CallsGoOn | glue/shadow_hijack.c:141-157 | calls begin, go on and return as the engine lets them at every stage of a stop, but for a body whose work is not done |
| StopPossible.StopIsPossible | glue/vendor_kernel_module.c:470-686 | in every reachable state where no call, stop or lifecycle operation is under way and the eviction hooks are armed, some continuation completes a stop if and only if no call has leaked and nothing is pinned for good |
| StopPossible.OneLess | glue/vendor_kernel_nsfs_lifecycle.c:115-146 | from such a state every live inode can be let go and evicted, which leads to such a state with exactly that inode less |
| StopProgress.StopEnds | glue/vendor_kernel_module.c:470-686 | a stop that nobody disturbs any more ends successfully, from wherever it is |
| StopProgress.QuietSystemStops | glue/vendor_kernel_module.c:470-686 | a loaded and quiet system can always be stopped |
| VendorInit.VendorKernel.Init | glue/vendor_kernel_module.c:311-468 | succeeds or fails at exactly the step that the hooks before it and the answers of the system determine; loads everything required, or leaves no core, IPC or exit hook, no overlay and no IPC state; NSFS hooks remain exactly under a pin if they were reached, and as found if not; on success every hook of every array is as the pass that comes to it leaves it, and no other hook changes |
| VendorInit.AllIsWell | glue/vendor_kernel_module.c:311-468 | with every answer favourable nothing fails |
| VendorInit.OptionalArmed | glue/vendor_kernel_module.c:389-425 | with every answer favourable all procfs hooks redirect, and those for uids and gids exactly if the kernel has no user namespaces of its own or they did before |
| VendorInit.VendorKernel.InstallOptional | glue/vendor_kernel_module.c:389-425 | the procfs lifecycle hooks are installed up to the first that does not answer 0, the procfs hooks up to a failure, and so the uid and gid hooks exactly if the kernel has no user namespaces; no other hook changes |
| VendorInit.VendorKernel.ProcLifecycleInit | glue/vendor_kernel_procfs.c:481-509 | every hook up to and including the first that does not answer 0 is as its own installation leaves it, and no other changes |
| VendorInit.VendorKernel.InstallGroup | glue/shadow_hijack.c:1069-1093 | every hook that the pass comes to is as its own installation leaves it, told from the hooks before the pass |
| VendorInit.LeftOverHooks | glue/vendor_kernel_nsfs_lifecycle.c:361-374 | two failed initialisations after which the NSFS hooks are live without any pin |
| VendorInit.VendorKernel.NsfsInit | glue/vendor_kernel_nsfs_lifecycle.c:282-325 | succeeds exactly if already active or both hooks end up installed with their return probes, and leaves neither otherwise |
| VendorInit.VendorKernel.NsfsExit | glue/vendor_kernel_nsfs_lifecycle.c:361-374 | removes both hooks unless an inode is pinned, and then changes nothing |
| VendorInit.VendorKernel.InstallLifecycle | glue/vendor_kernel_module.c:333-351 | the NSFS and task-exit hooks: which of the two fails, and what is undone |
| VendorInit.VendorKernel.InstallCore | glue/vendor_kernel_module.c:352-374 | fails exactly if a core hook is refused or a required one does not end up live, and then undoes everything before it |
| VendorInit.VendorKernel.InstallIpc | glue/vendor_kernel_module.c:376-388 | fails exactly if an IPC hook is refused, and then undoes everything before it |
| VendorInit.VendorKernel.ExitHookInit | vendor/kernel/nsproxy.c:1266-1317 | succeeds exactly if every task-exit hook answers 0, and leaves none otherwise |
| VendorInit.VendorKernel.RequiredReady | glue/vendor_kernel_syscalls.c:609-636 | true exactly if every hook that this kernel requires, with or without native user namespaces, is installed with its return probe |
| VendorInit.PassMeans | glue/shadow_hijack.c:1069-1093 | a pass that counts every hook has armed every hook, and touches no other array |
| VendorInit.PassAnswers | glue/shadow_hijack.c:1069-1093 | a pass succeeds exactly if no hook of it fails, told from the hooks before the pass |
| ShadowHijack.PassByHook | glue/shadow_hijack.c:1069-1093 | what a pass does to a hook depends on that hook alone, whatever the order and however often it is listed |
| TgidRegistry.RegistryConservation | glue/vendor_kernel_module.c:91-188 | in every reachable state each nsproxy's count is outside owners plus entries plus references in transit |
| TgidRegistry.EntriesAlive | glue/vendor_kernel_module.c:91-115 | in every reachable state no entry points to a freed object, and its count is at least 1 |
| TgidRegistry.FreedExactly | glue/vendor_kernel_module.c:91-188 | an nsproxy is freed if and only if no outside owner, entry or operation under way has a reference to it |
| TgidRegistry.OneEntryEach | glue/vendor_kernel_module.c:91-188 | in every reachable state each tgid has at most one entry and the count is the size of the table |
| TgidRegistry.SetThenFind | glue/vendor_kernel_module.c:91-115 | a set is what a lookup of that tgid finds, and no other lookup changes |
| TgidRegistry.SetIsFound | glue/vendor_kernel_module.c:91-115 | in a run too, unless there is no memory for a new entry |
| TgidRegistry.ClearEmpties | glue/vendor_kernel_module.c:175-188 | a clear in a run leaves no entry and takes from each count what the entries had |
| TgidRegistry.SelfSetIsNoOp | glue/vendor_kernel_module.c:91-115 | setting an entry to what it holds frees nothing and changes nothing |
| TgidRegistry.CloneShares | glue/vendor_kernel_module.c:156-173 | a clone leaves parent and child with one nsproxy and costs exactly the reference of the child's entry |
| TgidRegistry.ClearedMeans | glue/vendor_kernel_module.c:175-188 | clearing puts exactly the reference of each entry |
| TgidRegistry.Tasks.SetNsproxy | glue/vendor_kernel_module.c:91-115 | in place: equals the section proved above, also without memory |
| TgidRegistry.Tasks.FindLocked | glue/vendor_kernel_module.c:48-55 | the walk finds the entry of that tgid, or the end |
| TgidRegistry.CloneEffect | glue/vendor_kernel_module.c:156-173 | the three sections of an undisturbed clone add up to its one-shot effect |
| TgidRegistry.RemoveEffect | glue/vendor_kernel_module.c:133-142 | so do the two sections of a remove |
| TgidRegistry.TakeEffect | glue/vendor_kernel_module.c:144-154 | so do those of a take, after which the reference is the caller's |
| TgidRegistry.Tasks.CloneTask | glue/vendor_kernel_module.c:156-173 | in place: equals that effect of a clone |
| TgidRegistry.Tasks.TakeNsproxy | glue/vendor_kernel_module.c:144-154 | the entry leaves the table and its reference goes to the caller |
| TgidRegistry.Tasks.RemoveTask | glue/vendor_kernel_module.c:133-142 | the entry leaves the table and its reference is put |
| TgidRegistry.Tasks.ClearTasks | glue/vendor_kernel_module.c:175-188 | in place: equals clearing entry by entry |
| PidMap.PidConservation | glue/vendor_kernel_procfs.c:180-357 | in every reachable state each pid reference belongs to one map entry or to one caller |
| PidMap.CountIsEntries | glue/vendor_kernel_procfs.c:180-298 | in every reachable state the counter is the number of entries and no inode has two |
| PidMap.ClearedAtRest | glue/vendor_kernel_procfs.c:277-298 | after a clear, once every caller is done, no reference is held |
| PidMap.AtRestHeldIsMap | glue/vendor_kernel_procfs.c:318-357 | once all callers are done the references held are exactly the pids of the map |
| PidMap.InsertThenFind | glue/vendor_kernel_procfs.c:180-211 | a mapped inode is found with its new pid, other lookups are unchanged |
| PidMap.DeleteThenFind | glue/vendor_kernel_procfs.c:253-275 | an unmapped inode is not found, other lookups are unchanged |
| PidMap.MadeMeans | glue/vendor_kernel_procfs.c:318-357 | the constructor hook leaves a trace only if both reads agree and there is memory, and then exactly one reference moves into the map |
| PidMap.DropAllMeans | glue/vendor_kernel_procfs.c:277-298 | putting the pid of every removed entry drops exactly those references |
| PidMap.TaskPids.MapTaskPid | glue/vendor_kernel_procfs.c:180-211 | in place: takes over the caller's reference in every case |
| PidMap.TaskPids.UnmapTaskPid | glue/vendor_kernel_procfs.c:253-275 | in place: removes one entry and drops its reference |
| PidMap.MakeEffect | glue/vendor_kernel_procfs.c:318-357 | the operations of one undisturbed constructor call, whichever way it goes, add up to its one-shot effect |
| PidMap.UnmapEffect | glue/vendor_kernel_procfs.c:253-275 | so do those of an eviction |
| PidMap.LookupEffect | glue/vendor_kernel_procfs.c:213-252 | a lookup holds one reference to the pid it finds from inside the lock until it puts it, and leaves the map alone |
| PidMap.ClearEffect | glue/vendor_kernel_procfs.c:277-298 | so do those of a clear, however many entries there are |
| PidMap.TaskPids.MakeInode | glue/vendor_kernel_procfs.c:318-357 | in place: equals that effect of the constructor hook |
| PidMap.TaskPids.ClearTaskPidMap | glue/vendor_kernel_procfs.c:277-298 | empties the map and drops exactly the references of its entries |
| DiagfsLifecycle.LifecycleExclusion | glue/lkm4ctr_diagfs.c:1262-1386 | in every reachable state at most one operation is under way, so at most one thread is inside a lifecycle callback |
| DiagfsLifecycle.NothingLeftBehind | glue/lkm4ctr_diagfs.c:1347-1386 | with nothing under way and no rmmod started the global state is active, no submodule is in transition and no unload is in progress |
| DiagfsLifecycle.LaunchIsEarned | glue/lkm4ctr_diagfs.c:1575-1733 | rmmod is started only after quiescing, a reference count of at most 1, an unload of every submodule with result 0 in this run, and no load since |
| DiagfsLifecycle.BoundedWait | glue/lkm4ctr_diagfs.c:1619-1690 | the worker sleeps at most 600 times |
| DiagfsLifecycle.WorkerEnds | glue/lkm4ctr_diagfs.c:1575-1733 | a worker takes fewer than 8n + 2412 steps of its own for n submodules before it has started rmmod or given up, whatever the writers escalate to and the environment answers |
| WorkerRuns.LaunchesExactly | glue/lkm4ctr_diagfs.c:1575-1733 | over a whole run, forced or not: the worker has started rmmod at its end if and only if every mod_exit it called succeeded, it read a reference count of at most 1, and rmmod could be started |
| WorkerRuns.GivesUpExactly | glue/lkm4ctr_diagfs.c:1575-1733 | it gives up if and only if an unload or rmmod failed, or it slept 600 times and never read such a count |
| WorkerRuns.EverySubmoduleExits | glue/lkm4ctr_diagfs.c:1388-1415 | by the launch mod_exit was called for every submodule that has one, but without force for those that are not registered, and still are not |
| WorkerRuns.EscalationIsObeyed | glue/lkm4ctr_diagfs.c:1619-1650 | an escalation seen in the loop makes the worker unload everything by force next, and stay forced |
| WorkerRuns.EndsClean | glue/lkm4ctr_diagfs.c:1712-1733 | the worker's last step leaves no request behind, and after giving up the global state is active |
| LoadRuns.LoadEffect | glue/lkm4ctr_diagfs.c:1262-1295 | an undisturbed load calls mod_init exactly if there is one and the submodule is not active, and leaves the status that its hooks show |
| LoadRuns.UnloadEffect | glue/lkm4ctr_diagfs.c:1297-1345 | an undisturbed unload calls mod_exit exactly if there is one and the submodule is active or it is forced |
| LoadRuns.LoadAllEffect | glue/lkm4ctr_diagfs.c:1347-1384 | loading everything ends, has called mod_init once for each submodule that has one and was not active and for no other, and leaves the global state active |
| LoadRuns.UnloadModuleStarts | glue/lkm4ctr_diagfs.c:1776-1823 | an accepted unload starts a worker that reads how it was asked; without a thread all is as before but for the two flags |
| LoadRuns.EscalationIsRecorded | glue/lkm4ctr_diagfs.c:1777-1804 | a request while the worker runs changes nothing but the flags the worker looks at, which have it from then on |
| LoadRuns.BusyRefuses | glue/lkm4ctr_diagfs.c:1262-1386 | while a load or unload is under way every other command is refused |
| DiagfsLifecycle.LaunchedIsFinal | glue/lkm4ctr_diagfs.c:1712-1724 | after the launch nothing is loaded or unloaded and the global state never shows active |
| SafeUnload.DrainedReadIsEmpty | glue/lkm4ctr_diagfs.c:1611-1690 | when the worker reads the count that lets it go on, no redirected call of any kind holds a reference or is counted |
| SafeUnload.LaunchIsSilent | glue/lkm4ctr_diagfs.c:1593-1733 | from that read on until the worker gives up, so also when rmmod is started and ever after, no ordinary replacement runs |
| SafeUnload.GateIsGivenBack | glue/lkm4ctr_diagfs.c:1593-1733 | ordinary calls are turned away exactly from the worker's first quiesce call to its second, or for good once rmmod is started |
| LogRing.Ring.Append | glue/lkm4ctr_log.c:48-60 | the history grows by the entry, and the ring holds what is left of the history, in order |
| LogRing.KeepsNewest | glue/lkm4ctr_log.c:41-61 | after any sequence of writes, each of which keeps the newest 512, the newest 512 of all of them are left |
| Log.Write | glue/lkm4ctr_log.c:41-61 | in place: the entry made of the arguments, with tag and message cut to their fields, is added to the history |
| Log.LineReads | glue/lkm4ctr_log.c:165-169 | a reader recovers seconds, microseconds, tag, level and message of a printed line if and only if the tag has no closing bracket |
| Log.BracketIsAmbiguous | glue/lkm4ctr_log.c:165-169 | with one, two different entries print alike |
| Log.LoggedIsRead | glue/lkm4ctr_log.c:41-61 | what is read from the line is what was logged: the time, the level, the tag or its default and the message, cut to 19 and 199 characters |
| Log.FilterMeans | glue/lkm4ctr_log.c:117-134 | a filtered log has exactly the entries with that tag, and without a tag it is the whole log |
| LogRing.Ring.CountFitting | glue/lkm4ctr_log.c:117-134 | pass 1 finds the longest suffix of matching entries whose text is below the buffer size |
| LogRing.Ring.Snprintf | glue/lkm4ctr_log.c:106-174 | the buffer holds exactly the text of that suffix, oldest first, and the result is the size of all matching entries of the ring |
| Log.LineLength | glue/lkm4ctr_log.h:41-45 | a rendered line has at most 249 characters |
| Log.WholeLogFits | glue/lkm4ctr_log.h:41-45 | the whole log, however filtered, has at most 127488 characters |
| Log.Snprintf | glue/lkm4ctr_log.c:106-174 | after any history of log calls: the text of the longest suffix that fits of the matching lines among the newest 512 ever written, and the size of all of these |
| ShowLoop.Render | glue/lkm4ctr_diagfs.c:794-810 | any nesting of renderers fills the buffer with the longest prefix of the flat text that fits, and reports its length |
| ShowLoop.Show | glue/lkm4ctr_diagfs.c:1154-1191 | ends within nine renders and writes the first 2^20-1 bytes of the last rendering; a buffer is given up only if its rendering did not fit |
| ShowLoop.ShowLog | glue/lkm4ctr_diagfs.c:1154-1191 | a log file is written whole within six renders, with no byte that was not rendered |
| Numerals.PrintThenParse | glue/lkm4ctr_diagfs.c:2018-2068 | a printed key parses back to itself |
| Numerals.ParseThenPrint | glue/lkm4ctr_diagfs.c:2018-2068 | a parsed name is the printed form of its key if and only if it is canonical |
| DynDir.ListedIsFound | glue/lkm4ctr_diagfs.c:2018-2143 | every listed name parses back to its own key and is found present |
| DynDir.FoundIsListed | glue/vendor_kernel_diag.c:198-234 | a key found present is listed if and only if it has at most 32 bits; a provider ignores the rest |
| DynDir.AliasOrListed | glue/lkm4ctr_diagfs.c:2018-2143 | a name that lookup finds something under is the name of a live instance if and only if its number is canonical and, for a provider, has at most 32 bits |
| DynDir.NamedIsAccepted | glue/lkm4ctr_diagfs.c:2106-2143 | every live instance is found under its name |
| DynDir.HighBitsAreAlias | glue/vendor_kernel_diag.c:198-234 | every instance of a provider is found under each canonical number with the low half of its key, and none of these is an instance's name |
| DynDir.LeadingZeroIsAlias | glue/lkm4ctr_diagfs.c:2018-2052 | every instance of either kind of directory is found with a zero in front of its number, and that is no instance's name |
| DynDir.IdSurvives | glue/vendor_kernel_diag.c:407-452 | an id survives the way through an unsigned key |
| DynDir.NamesDiffer | glue/lkm4ctr_diagfs.c:2054-2068 | no two instances have the same name |
| DynDir.ListingDistinct | glue/lkm4ctr_diagfs.c:2154-2188 | no name is listed twice |
| DynDir.ResourcesCount | glue/lkm4ctr_diagfs.c:840-866 | with a known reference count the resources directory lists max(mounts + hooks, refcount - 1) entries |
| DynDir.TakeSnapshot | glue/lkm4ctr_diagfs.c:851-866 | reports the total even when the array is too small, and stores the keys in order |
| DynDir.Iterate | glue/lkm4ctr_diagfs.c:2154-2188 | one read from any position delivers exactly the part of the listing that fits, from the place that the position is narrowed to |
| DynDir.PlaceRepeats | glue/lkm4ctr_diagfs.c:2174-2175 | positions that differ by a multiple of 2 to the 32 are the same place |
| DynDir.PartialReads | glue/lkm4ctr_diagfs.c:2154-2188 | reads of any sizes together deliver the listing in order, each name once |
| DynDir.FullRead | glue/lkm4ctr_diagfs.c:2154-2188 | a directory of at most 4096 instances is shown completely |
| DynDir.ReadDirectory | glue/lkm4ctr_diagfs.c:2154-2188 | a reader that goes on from where each read stopped gets what PartialReads and FullRead speak of |
| SeqEscape.WriteEscaped | glue/vendor_kernel_ovl_vfs_compat.c:111-137 | the loop writes the escape of every byte in order |
| SeqEscape.RoundTrip | glue/vendor_kernel_ovl_vfs_compat.c:111-137 | with the backslash in the set a decoder recovers every input |
| SeqEscape.OneToOneIff | glue/vendor_kernel_ovl_vfs_compat.c:111-137 | the output determines the input exactly if the set contains the backslash or every escape contains an escaped byte |
| SeqEscape.CleanIff | glue/vendor_kernel_ovl_vfs_compat.c:111-137 | outputs are free of escaped bytes but the backslash exactly if no escape is spelled with one |
| SeqEscape.AvoidsSpelling | glue/vendor_kernel_ovl_vfs_compat.c:111-137 | a set that avoids `n`, `t` and the octal digits is harmless, and then decodable exactly with the backslash |

## Left out

- The stop on module exit: `__vendor_kernel_exit(true)` ignores every refusal by design, so there is no guarantee to state beyond the final teardown of the return probes.
- The controlled stop, the unload worker and the load and unload functions of the control files as one method each: they interleave with other threads between any two sections, so they are state machines whose program counter is the source's statement order.
- Initialisation inside the controlled stop's machine: there it is one step, and VendorInit models its steps.
- The vendored kernel sources: gates, live counters and prepare_exit calls are answers of the environment, so what a namespace object does is not part of this model.
- Other writers of the quiesce flag while a stop or the unload worker runs: the forced per-module unload, the hook drain of the resources directory and hot reload.
- Hot reload: it proceeds despite live references and hands over to a shell.
- The teardown of return probes after a failed module initialisation, which has no zero-reference guarantee.
- The recursion guard of the thunks: a call from the module itself is an event that is not redirected; how its caller is recognised is not modelled.
- Symbol resolution, ftrace and kprobe registration, CFI attributes and kernel-version variants: each is a call that succeeds or fails.
- The first part of vendor_kernel_init(), before the default IPC namespace: it undoes nothing on failure.
- Deleting an instance of a dynamic directory: killing a thread group or removing an IPC object is left to the kernel.
- The parser of control commands and the status strings: single functions with nothing to prove across them.
- kstrtoull and scnprintf are the kernel's; they are modelled as the kernel documents them.
- The NUL that ends a C string is not part of a modelled string, except where a renderer closes a buffer with it.
- PinTable.Returnable: the contract of the real helper is assumed, not proved, because its source is not part of this model.
- ShadowHijack.Engine.RedirectEnter: covers one undisturbed entry; interleavings are covered by HookEngine.
- VendorInit.VendorKernel.Init: treats initialisation as undisturbed but for the NSFS pins that concurrent helper calls may leave, because no other hook of it can hold a reference while it fails.
