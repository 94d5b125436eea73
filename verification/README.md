# Verified model of spinbox

spinbox runs each container in its own virtual machine. This project models the parts of it whose
correctness is hardest to see from the code, and proves what they promise, for every input and every
interleaving:

- the shim's admission of RPCs, the drain before shutdown, and the lifecycle word (`Lifecycle`, `RpcAdmission`);
- the guest's exit tracker: who delivers a process exit, and in what order exits are published
  (`ExitTracker`, `ExitDelivery`, `ExitOrdering`, `ExitWaiting`; the runs in `ExitDeliveryRuns`, `ExitOrderRuns`);
- the two-stage rewriting of root filesystem mounts, templates included (`Template`, `HostMounts`,
  `GuestMounts`, `RootfsPipeline`);
- the identity of a VM, written on the kernel command line and sent over RPC (`Identity`);
- the hotplug loop and its CPU and memory controllers (`HotplugMonitor`, `CpuHotplug`, `MemoryHotplug`);
- single-flight CNI setup and teardown (`SingleFlight`);
- the cross-process fingerprint cache and the vsock CID allocator (`FingerprintCache`, `CidAllocator`);
- cpusets, resource arithmetic, filesystem freezing (`Resources`, `Freeze`).

`Wrappers`, `Text` and `Decimal` hold what these share. Concurrent components are transition systems: a step is
one atomic access, one critical section or one call to the outside, the outside answers arbitrarily, and theorems
range over executions of any length with any number of threads. Objects the program updates in place are classes
whose methods are proved against functions, and the theorems are about those functions.

`dafny verify dfyconfig.toml` checks everything.

Where the code does less than its comments or its callers suggest, the model follows the code, and lemmas give the
exact condition under which the promise holds and a run or an input that breaks it:

- `TryStartDeleting` moves from Created to Deleting, which the transition table does not list
  (`HelpersFollowTableExceptDeleteBeforeStart`).
- A deletion tries Running before Created; a start marked between the two makes it refused though the shim could be
  deleted all the while (`DeleteMissesStart`, `DeletableIsRefusedIff`).
- `HandleStart` closes its window and registers the process under different mutexes; an exit in between is lost, an
  exit inside a restart's `Subscribe` is delivered twice, and one whose reaping a whole restart falls into is lost
  (`LostInsideHandleStart`, `DeliveredTwiceInsideSubscribe`, `LostInsideNotifyExit`; `DeliveredExactlyOnceIff`).
- A start of an exec that already runs fails, and registers it again: n starts give n deliveries, with every call whole
  (`RepeatedStartsDeliverEach`, `WholeCallsDeliverAttached`; `WholeCallsDeliverOnce` has the discipline that excludes it).
- The init exit "must be the last exit published". It is not when it is caught by its own start window
  (`EarlyInitOvertakes`; `EarlyInitIsLastIff`), when a start is still between its admission and its count-up
  (`LateRegistrationOvertaken`, `CaughtExitOvertaken`), when a count-down without a count-up cancels another exec's
  count (`StrayLetsInitExitOvertake`), or when a failing second start still holds the exit of its exec
  (`RepeatedStartOvertaken`). `InOrderIff` says of every run when it was the last; `SurelyLastIff` and
  `InitExitIsLastIff` say when it is certain to be.
- An exec whose exit is reaped between its listing and its count-up, or one started twice, can leave the init exit
  waiting for ever (`MissedCountDownBlocksInit`, `RepeatedStartBlocksInit`; `WaiterClosableIff` says when a waiter can
  still be closed).
- A substituted value that itself spells a placeholder of a later pass is expanded again
  (`TemplateValueIsExpandedTwice`, `UncleanValueIsExpandedTwice`). For a template with one placeholder, whose value may
  hold placeholders of clean values, `OneTemplateAgreesIff` gives the exact condition on the value; for all others
  `SequentialIsSimultaneous` gives a sufficient one.
- An overlay with host paths is redirected to a tmpfs by a template index that is right exactly when the layers
  before it are all that came before (`TmpfsIsReachedIff`, `TmpfsIsMissed`).
- The command line keeps the non-empty ones of the first two name servers, not the first two non-empty ones
  (`ThirdNameServerIsLost`, `DnsIsFirstTwoNonEmptyIff`).
- `device_del` may take effect after the call that asked for it. Then the CPU ids can have a gap
  (`LateUnplugLeavesGap`, `AlwaysGaplessIff`), a boot CPU can be removed (`MidwayUnplugTakesBootCpu`, `AlwaysBootIff`),
  and a constant load can be scaled down and then up (`MidwayUnplugReverses`, `ConstantLoadSettlesIff`). The last two
  take an unplug that completes between a tick's evaluation and its own unplug.
- The CNI result cache is not looked at again after the in-flight claim, so setup is one at a time and not once
  (`SetUpTwice`, `ClaimFindsResultIff`, `SecondSetupIff`).
- `MaxCPUs` is said to be capped at the host, but validation raises it to `BootCPUs`, which is not
  (`CeilingAboveHost`, last clauses of `ConfigIsWellFormed`).
- The mountinfo parser splits at every Unicode space, and the kernel escapes only a few of them
  (`NoBreakSpaceIsLost`, `PathIsReadIff`).

## Model

| member | source | states |
|---|---|---|
| Lifecycle.HelpersFollowTableExceptDeleteBeforeStart | internal/shim/lifecycle/state.go:129-175 | a helper that fires follows the transition table exactly when it is not the deletion from Created |
| Lifecycle.RankNeverFalls | internal/shim/lifecycle/state.go:119-175 | over any sequence of helper calls the lifecycle goes back only from a failed creation, and ShuttingDown is final |
| Lifecycle.DeletionFiresAtMostOnce | internal/shim/lifecycle/state.go:136-145 | over any sequence of helper calls a deletion starts at most once |
| Lifecycle.StateMachine.Transition | internal/shim/lifecycle/state.go:104-117 | succeeds exactly for a listed transition from the present state, and changes nothing otherwise |
| Lifecycle.StateMachine.ForceTransition | internal/shim/lifecycle/state.go:121-125 | sets any state and returns the one before |
| Lifecycle.StateMachine.TryStartCreating | internal/shim/lifecycle/state.go:129-131 | claims the shim exactly from Idle |
| Lifecycle.StateMachine.TryStartDeleting | internal/shim/lifecycle/state.go:136-145 | starts a deletion exactly from Running or Created |
| Lifecycle.StateMachine.MarkCreationDone | internal/shim/lifecycle/state.go:148-175 | a creation under way ends in Created or back in Idle |
| Lifecycle.StateMachine.MarkStarted | internal/shim/lifecycle/state.go:159-165 | Created becomes Running, nothing else does |
| RpcAdmission.InflightIsExact | internal/shim/task/service.go:374-392 | in every reachable state the counter is the number of threads that incremented it and have not decremented it |
| RpcAdmission.NoBodyAfterDrain | internal/shim/task/service.go:1576-1609 | once the drain loop has read zero, no RPC other than Shutdown is in its body then or later |
| RpcAdmission.ShuttingDownIsAbsorbing | internal/shim/task/service.go:786-794 | in every run the lifecycle never leaves ShuttingDown |
| RpcAdmission.AtMostOneCreation | internal/shim/task/create.go:91-125 | at most one Create is past its claim at any time |
| RpcAdmission.NoDeletionDuringCreation | internal/shim/task/service.go:909-932 | no init Delete body overlaps a Create body |
| RpcAdmission.DeletionStartsAtMostOnce | internal/shim/task/service.go:909-932 | a deletion starts at most once in the shim's life, and the shim is then deleting or shutting down |
| RpcAdmission.DeletableIsRefusedIff | internal/shim/lifecycle/state.go:136-145 | in every run a deletion the shim could grant all the while is refused exactly when a start is marked between its two compare-and-swaps |
| RpcAdmission.DeleteMissesStart | internal/shim/lifecycle/state.go:136-165 | a run in which that happens |
| RpcAdmission.LifeStep | internal/shim/task/create.go:443-507 | every step of Create, Start, Delete and shutdown keeps the lifecycle invariant |
| ExitTracker.StashReaches | internal/guest/vminit/task/exit_tracker.go:90-105 | stashing an exit for the processes found sets it for exactly the containers whose init is among them |
| ExitTracker.OthersFilters | internal/guest/vminit/task/exit_tracker.go:414-436 | filtering out a container keeps exactly the other containers' processes, each as often as before |
| ExitTracker.OthersAppend | internal/guest/vminit/task/exit_tracker.go:414-436 | and in their order, process by process |
| ExitTracker.Tracker.Subscribe | internal/guest/vminit/task/exit_tracker.go:74-88 | opens a fresh empty window and, on a restart, takes the container's entry at its PID out of the registry |
| ExitTracker.Tracker.NotifyExit | internal/guest/vminit/task/exit_tracker.go:90-105 | records the exit in every open window, removes the PID and returns what was registered there, stashing init exits |
| ExitTracker.Tracker.HandleStart | internal/guest/vminit/task/exit_tracker.go:161-181 | closes its window if still open and returns the exits it saw for the PID, cancelled or not, and registers the process exactly when there are none and the PID is not 0 |
| ExitTracker.Tracker.Cancel | internal/guest/vminit/task/exit_tracker.go:185-190 | closes the window and nothing else |
| ExitTracker.Tracker.ShouldDelayInitExit | internal/guest/vminit/task/exit_tracker.go:312-327 | delays exactly while the counter is not zero, and then hands out a fresh waiter channel |
| ExitTracker.Tracker.NotifyExecExit | internal/guest/vminit/task/exit_tracker.go:329-348 | counts down and closes the waiter exactly when the count reaches zero or below with one open |
| ExitTracker.Tracker.GetInitExit | internal/guest/vminit/task/exit_tracker.go:351-363 | hands out the stashed init exit and clears it, for that container alone |
| ExitTracker.Tracker.Cleanup | internal/guest/vminit/task/exit_tracker.go:142-155 | forgets the container's counter and exactly its processes |
| ExitDelivery.DeliveredExactlyOnceIff | internal/guest/vminit/task/exit_tracker.go:74-105 | over every interleaving of the critical sections, with any number of starts of a process, an exit is delivered once for each window open at its broadcast and each registry entry at its removal, so exactly once just when those are one together |
| ExitDelivery.NoSpuriousDelivery | internal/guest/vminit/task/events.go:60-80 | nothing is delivered before the exit, and never more than the open windows and the entries found |
| ExitDelivery.WholeCallsDeliverAttached | internal/guest/vminit/task/exit_tracker.go:161-181 | when the calls are one step each, HandleStart delivers once per start window open at the exit and NotifyExit once per entry |
| ExitDelivery.WholeCallsDeliverOnce | internal/guest/vminit/task/exit_tracker.go:161-181 | if moreover starts of a process do not overlap and an exec with a PID is not started again, every exit is delivered exactly once: by HandleStart inside the start window, by NotifyExit otherwise |
| ExitDeliveryRuns.RepeatedStartsDeliverEach | internal/guest/vminit/task/lifecycle.go:121-131 | for every n, a run of whole calls in which an exec started n times has its exit delivered n times |
| ExitDeliveryRuns.LostInsideHandleStart | internal/guest/vminit/task/exit_tracker.go:161-181 | a run in which an exit between the two halves of HandleStart is never delivered |
| ExitDeliveryRuns.DeliveredTwiceInsideSubscribe | internal/guest/vminit/task/exit_tracker.go:74-88 | a run in which an exit between the two halves of Subscribe is delivered twice |
| ExitDeliveryRuns.LostInsideNotifyExit | internal/guest/vminit/task/exit_tracker.go:90-105 | a run in which a restart's Subscribe between the two halves of NotifyExit loses the exit |
| ExitOrdering.CounterAccounts | internal/guest/vminit/task/exit_tracker.go:294-348 | in every run the counter is the starts counted up and not down, less the count-downs without a count-up, those of failed starts included |
| ExitOrdering.InOrderIff | internal/guest/vminit/task/events.go:95-140 | in every run no exec exit of a container follows its init exit exactly when every start that had published by the end had published before |
| ExitOrdering.SurelyLastIff | internal/guest/vminit/task/events.go:95-118 | an init exit let through is certain to be the last exactly when no start, first or repeated, succeeded or failed, has an exit still to publish |
| ExitOrdering.EarlyInitIsLastIff | internal/guest/vminit/task/events.go:45-50 | an init exit caught by its start window is certain to be the last exactly when no start has an exit still to publish and every exec created has been reaped or was deleted before it ran |
| ExitOrdering.InitExitIsLastIff | internal/guest/vminit/task/events.go:95-140 | with every count-down paired at the let-through, it is certain to be the last exactly when no start that can still publish is short of its count-up, and then is the last in the rest of the run |
| ExitOrdering.LetThroughMeans | internal/guest/vminit/task/exit_tracker.go:312-348 | on either path the counter is then zero or below, and what it says of the starts outstanding is exact up to the stray count-downs |
| ExitOrdering.WaiterClosedOnceAtZero | internal/guest/vminit/task/exit_tracker.go:329-348 | a count-down that closes the waiter finds it open and leaves the counter at zero or below, with nothing outstanding if all are paired |
| ExitWaiting.WaiterClosableIff | internal/guest/vminit/task/exit_tracker.go:312-348 | a waiting init can still be woken exactly when a count-down can still come and as many can as the counter shows, counting failures, exits and the execs some start has yet to spawn |
| ExitOrderRuns.EarlyInitOvertakes | internal/guest/vminit/task/events.go:45-50 | a run in which an init exit caught by its start window overtakes a running exec |
| ExitOrderRuns.LateRegistrationOvertaken | internal/guest/vminit/task/lifecycle.go:106-111 | a run in which an exec admitted before and registered after the let-through is overtaken |
| ExitOrderRuns.CaughtExitOvertaken | internal/guest/vminit/task/events.go:45-50 | a run in which an exec exit caught by its start window follows the init exit |
| ExitOrderRuns.StrayLetsInitExitOvertake | internal/guest/vminit/task/lifecycle.go:121-131 | a run in which a failed start's count-down lets the init exit overtake a running exec |
| ExitOrderRuns.RepeatedStartOvertaken | internal/guest/vminit/task/lifecycle.go:121-131 | a run in which the failing second start of an exec publishes its exit after the init exit |
| ExitOrderRuns.RepeatedStartBlocksInit | internal/guest/vminit/task/lifecycle.go:121-131 | a run in which an exec started twice takes the counter below zero and the init exit waits for ever |
| ExitOrderRuns.MissedCountDownBlocksInit | internal/guest/vminit/task/exit_tracker.go:170-178 | a run in which an exec reaped before its count-up leaves the init exit waiting for ever |
| Template.BuildOverlayDirs | internal/host/mountutil/mount.go:322-341 | lists the mount points from start to end in either direction, or fails outside the list |
| Template.OverlayDirsReverse | internal/host/mountutil/mount.go:322-341 | the list from a to b is the reverse of the list from b to a |
| Template.FormatString | internal/host/mountutil/mount.go:382-416 | a successful result holds no opening marker |
| Template.SequentialIsSimultaneous | internal/host/mountutil/mount.go:382-416 | four passes one after the other give what one simultaneous replacement gives, for every string whose substituted values hold a slash and no brace |
| Template.OneTemplateAgreesIff | internal/host/mountutil/mount.go:382-416 | for a template with one placeholder, whose value's own placeholders stand for clean values, passes and simultaneous replacement agree exactly when the value brings in no marker, or a later-kind placeholder in it stands for nothing, or a marker in it opens no such placeholder |
| Template.OneTemplateAgrees | internal/host/mountutil/mount.go:382-416 | for any value, they agree when it brings in no marker and otherwise when the later passes fail on it |
| Template.ReplaceResolvesIff | internal/host/mountutil/mount.go:382-416 | a pass over a string with clean values succeeds and leaves no marker exactly when every placeholder of its kinds stands for something and every marker opens one |
| Template.TemplateValueIsExpandedTwice | internal/host/mountutil/mount.go:382-416 | every value that spells a placeholder a later pass resolves is expanded again, where the simultaneous replacement fails |
| Template.UncleanValueIsExpandedTwice | internal/host/mountutil/mount.go:300-320 | an input on which the two differ |
| Template.PlaceholderMatches | internal/host/mountutil/mount.go:276-286 | a placeholder the host writes is found whole by the guest's patterns |
| Template.FormatOne | internal/host/mountutil/mount.go:382-416 | a string with one placeholder becomes the string with its value |
| HostMounts.TransformMounts | internal/shim/platform/mounts/linux.go:158-199 | the loop over a disk letter and two lists computes the rewrite, and succeeds exactly when every mount is good, the disks are within the limit and the VM takes each |
| HostMounts.AddDisksToVM | internal/shim/platform/mounts/linux.go:436-453 | adds the disks in order up to the first refused |
| HostMounts.AnalyzeIndices | internal/shim/platform/mounts/linux.go:320-349 | the indices noted point at an upper and a work directory option |
| HostMounts.GeneratedLowerIsErofsIff | internal/shim/platform/mounts/linux.go:478-546 | the generated lower directories are the EROFS mounts exactly when those come first |
| GuestMounts.SplitNIsExact | internal/host/mountutil/mount.go:32-78 | the parts join back to the string, and only the last of n may hold separators |
| GuestMounts.ProcessMkdirOptions | internal/host/mountutil/mount.go:80-98 | keeps the other options in order, collects the directories, and fails on the first bad one |
| GuestMounts.ProcessPlainThenDirs | internal/host/mountutil/mount.go:80-98 | plain options are kept and every directory option is made into its directory |
| GuestMounts.FindBlockDeviceBySerial | internal/host/mountutil/serial.go:61-77 | finds the first device of a listing whose serial matches |
| GuestMounts.ResolveBlockSerialSource | internal/host/mountutil/serial.go:37-59 | resolves a serial in the first listing that shows it, leaves other sources alone |
| GuestMounts.CleanupMounts | internal/host/mountutil/mount.go:148-165 | whatever fails nothing but the points is touched, and if every unmount succeeds nothing is left at them |
| GuestMounts.MountAll | internal/host/mountutil/mount.go:167-274 | mounts exactly the expansion in order, or fails leaving everything outside the points used as it was, and nothing at them when the unmounts succeed; the directories made stay, those of a mount whose device is not found too |
| RootfsPipeline.HostSide | internal/shim/platform/mounts/linux.go:201-308 | k EROFS layers and an ext4 layer become one disk and one mount by serial each, in order, and one overlay |
| RootfsPipeline.ResolvesToDisk | internal/host/mountutil/serial.go:37-77 | whatever names and order the guest's devices have, serial i leads to the disk added for layer i |
| RootfsPipeline.ExpandOverlay | internal/host/mountutil/mount.go:115-146 | the generated overlay expands to lower directories 0 to k-1, and upper and work directories on mount k |
| RootfsPipeline.RootfsIsAssembled | internal/host/mountutil/mount.go:167-274 | host rewriting then guest expansion mounts layer i from the file it was given as at point i, and at the root one overlay over the EROFS layers in order |
| RootfsPipeline.TmpfsIsReachedIff | internal/shim/platform/mounts/linux.go:363-434 | the redirected upper and work directories and the two directories to make expand to ones on the added tmpfs exactly when the highest lower layer number is one less than the mounts before it |
| RootfsPipeline.TmpfsIsMissed | internal/shim/platform/mounts/linux.go:363-434 | an overlay for which it is not |
| Identity.NetworkParamFields | internal/host/vm/qemu/kernel_cmdline.go:127-149 | the ip= value is the kernel's fields joined by colons |
| Identity.LineIsReadBack | internal/host/vm/qemu/kernel_cmdline.go:104-124 | the fields of the command line are the tokens it was written from |
| Identity.CmdlineValue | internal/guest/vminit/system/identity.go:162-169 | the first parameter with the prefix |
| Identity.HasParam | internal/guest/vminit/system/network.go:239-246 | whether some parameter has the prefix |
| Identity.ParseIPConfig | internal/guest/vminit/system/network.go:68-96 | reads the first ip= parameter, or nothing |
| Identity.ParseExtrasConfig | internal/guest/vminit/extras/extract.go:40-65 | the last extras parameter wins, one that does not parse fails them all |
| Identity.FromCmdline | internal/guest/vminit/system/identity.go:127-159 | the identity the parameters describe, unknown disk count when absent or unreadable |
| Identity.BootedIdentity | internal/guest/vminit/system/identity.go:127-169 | decoding the line the host wrote gives back address, gateway, netmask, disk count and extras device, with the name servers the line keeps |
| Identity.ChannelsAgreeIff | internal/shim/task/restore.go:137-159 | the booted and the restored identity agree field by field, each exactly under the condition stated for it |
| Identity.DnsIsFirstTwoNonEmptyIff | internal/host/vm/qemu/kernel_cmdline.go:140-146 | the line keeps the first two non-empty name servers exactly when no empty one precedes a third that is not |
| Identity.ThirdNameServerIsLost | internal/host/vm/qemu/kernel_cmdline.go:140-146 | a list on which it does not |
| HotplugMonitor.Monitor.CheckAndAdjust | internal/shim/hotplug/monitor.go:180-202 | one tick, against the next-state function; reports whether it scaled |
| HotplugMonitor.Monitor.HandleScaleUp | internal/shim/hotplug/monitor.go:205-238 | cooldown, count, attempt, in that order |
| HotplugMonitor.Monitor.HandleScaleDown | internal/shim/hotplug/monitor.go:241-274 | the same downwards |
| HotplugMonitor.SuccessesAreSpaced | internal/shim/hotplug/monitor.go:277-290 | in every run the successes of a direction are at least a cooldown apart, so k of them span k-1 cooldowns |
| HotplugMonitor.WindowBound | internal/shim/hotplug/monitor.go:277-290 | a window of length T holds at most T/cooldown + 1 successes |
| HotplugMonitor.AttemptIffStable | internal/shim/hotplug/monitor.go:180-274 | the controller is asked to scale exactly on a reading past the cooldown that completes the stability count since the last reset |
| CpuHotplug.FirstFree | internal/shim/cpuhotplug/controller.go:253-281 | the lowest id not in use, or none when all below the maximum are |
| CpuHotplug.FindFreeId | internal/shim/cpuhotplug/controller.go:253-281 | the search loops find it for any order of the listing |
| CpuHotplug.FindRemovable | internal/shim/cpuhotplug/controller.go:303-313 | the search loop finds the highest id that is not 0 |
| CpuHotplug.Controller.SampleCPU | internal/shim/cpuhotplug/controller.go:342-399 | percentages since the last sample, none on the first, on a stopped clock or after a counter reset |
| CpuHotplug.Controller.EvaluateScaling | internal/shim/cpuhotplug/controller.go:177-234 | takes the count from the VM, samples, and gives the verdict |
| CpuHotplug.Controller.IncreaseCPUs | internal/shim/cpuhotplug/controller.go:237-286 | plugs the first free id; effect and report may differ |
| CpuHotplug.Controller.DecreaseCPUs | internal/shim/cpuhotplug/controller.go:289-339 | unplugs the highest id; a failed unplug is reported as success |
| CpuHotplug.AlwaysSane | internal/shim/cpuhotplug/controller.go:177-339 | in every run CPU 0 stays and no id reaches the maximum, however calls fail and however late unplugs take effect |
| CpuHotplug.AlwaysBootIff | internal/shim/cpuhotplug/controller.go:177-339 | the boot CPUs stay through a run exactly when no tick's unplug finds only boot CPUs left |
| CpuHotplug.TakesBootNeedsMidway | internal/shim/cpuhotplug/controller.go:223-231 | which takes an unplug completing between that tick's evaluation and its scaling |
| CpuHotplug.AlwaysKeepsBoot | internal/shim/cpuhotplug/controller.go:177-339 | so without those the boot CPUs always stay |
| CpuHotplug.AlwaysGaplessIff | internal/shim/cpuhotplug/controller.go:237-339 | the ids have no gap at any moment of a run exactly when every completion of late unplugs takes the topmost CPUs |
| CpuHotplug.AlwaysContiguous | internal/shim/cpuhotplug/controller.go:177-339 | if unplugs take effect within their call or not at all, the ids are exactly 0 to n-1 with boot <= n <= max |
| CpuHotplug.UsageIsSound | internal/shim/cpuhotplug/controller.go:216-231 | the usage verdicts are up only below the maximum and down only above the boot count |
| CpuHotplug.VerdictBoundsLoad | internal/shim/cpuhotplug/controller.go:216-231 | an up verdict at n means work enough for n CPUs, a down verdict work light for n-1 |
| CpuHotplug.ConstantLoadSettles | internal/shim/cpuhotplug/controller.go:177-234 | under constant load no run in which every unplug acts on the CPUs its tick evaluated has both a reading up and a reading down, and the size changes at most max - boot times, however late unplugs take effect |
| CpuHotplug.ConstantLoadSettlesIff | internal/shim/cpuhotplug/controller.go:177-339 | in a run of full readings under constant load one direction is never read exactly when the VM is never shrunk to fewer CPUs than the load keeps busy, which takes an unplug that acts on fewer CPUs than were evaluated |
| CpuHotplug.MidwayUnplugReverses | internal/shim/cpuhotplug/controller.go:289-339 | a run under constant load that is read down and then up |
| CpuHotplug.MidwayUnplugTakesBootCpu | internal/shim/cpuhotplug/controller.go:289-339 | a run in which a late unplug makes a scale-down take a boot CPU |
| CpuHotplug.LateUnplugLeavesGap | internal/shim/cpuhotplug/controller.go:237-339 | a run in which a late unplug leaves a gap in the ids |
| MemoryHotplug.Controller.SampleMemory | internal/shim/memhotplug/controller.go:327-352 | the percentage from the second sample on |
| MemoryHotplug.Controller.EvaluateScaling | internal/shim/memhotplug/controller.go:195-251 | takes the size from the device and gives the verdict |
| MemoryHotplug.Controller.Resize | internal/shim/memhotplug/controller.go:289-323 | asks the device unless the size is the target, and records what it reports |
| MemoryHotplug.Controller.Scale | internal/shim/memhotplug/controller.go:254-274 | one clamped request per call, so all requests stay in range |
| MemoryHotplug.RequestsStayInRange | internal/shim/memhotplug/controller.go:254-323 | over every sequence of calls and answers each size asked for lies between 0 and max - boot |
| MemoryHotplug.UsedIsUsage | internal/shim/memhotplug/controller.go:221-223 | the bytes recovered from the percentage are the bytes in use |
| MemoryHotplug.NoReversal | internal/shim/memhotplug/controller.go:225-248 | a scaling granted in full or in part is not followed by the opposite verdict at the same usage |
| MemoryHotplug.OneUsageOneDirection | internal/shim/memhotplug/controller.go:195-323 | at one usage no run decides both up and down, however slowly the guest follows |
| SingleFlight.OneAtATime | internal/host/network/manager_cni.go:100-183 | in every run at most one call works for a container, and the in-flight map holds exactly those, under their trackers |
| SingleFlight.ClosedIsFinal | internal/host/network/manager_cni.go:146-151 | a closed tracker never changes |
| SingleFlight.WaiterSharesOutcome | internal/host/network/manager_cni.go:114-134 | a woken waiter returns exactly what its tracker's worker returns, for setup and for teardown |
| SingleFlight.ResultsAreMade | internal/host/network/manager_cni.go:100-183 | every result a setup call gets, own, shared or cached, was made by a setup of that container |
| SingleFlight.NothingIsStuck | internal/host/network/manager_cni.go:274-315 | a call at work can always take its next step, and a waiter needs only its tracker closed |
| SingleFlight.SetUpTwice | internal/host/network/manager_cni.go:100-112 | a run that sets one container up twice |
| SingleFlight.ClaimFindsResultIff | internal/host/network/manager_cni.go:100-143 | a setup that claims finds the result cached exactly when the last touch of the entry since its own look-up is a store |
| SingleFlight.SecondSetupIff | internal/host/network/manager_cni.go:100-183 | without evictions a result is not the first for its container exactly when one was stored between that call's look-up and its claim |
| FingerprintCache.RoundTrip | internal/host/vm/qemu/template_cache.go:108-117 | the printed cache reads back as the same map, in whatever order it was printed |
| FingerprintCache.Cache.Lookup | internal/host/vm/qemu/template_cache.go:78-100 | memory first, then the file's lines over memory |
| FingerprintCache.Cache.Remember | internal/host/vm/qemu/template_cache.go:109-117 | adds the entry and prints every entry once |
| FingerprintCache.CacheAgreesWithHash | internal/host/vm/qemu/template_cache.go:59-138 | for every interleaving of processes and replacements a call returns exactly what hashing returns |
| CidAllocator.Allocate | internal/vsock/allocator.go:49-102 | the lowest CID whose probe passes, failure exactly when none does |
| CidAllocator.LeasesAreExclusive | internal/vsock/allocator.go:49-102 | in every run no two live leases share a CID, and every CID is in range |
| CidAllocator.CooldownAfterRelease | internal/vsock/allocator.go:105-122 | a CID is leased no sooner than the cooldown after any release of it |
| CidAllocator.CooldownAfterLease | internal/vsock/allocator.go:147-168 | nor sooner than the cooldown after the time any earlier lease of it recorded, crashes included |
| CidAllocator.FailsOnlyIfEveryProbeFailed | internal/vsock/allocator.go:56-101 | an allocation that fails met a failing probe of its own for every CID |
| Resources.ParseCPUSet | internal/shim/resources/config.go:141-189 | the nested loops count the distinct CPUs, zero for a malformed set |
| Resources.PrintedSetCounts | internal/shim/resources/config.go:141-189 | a list in the List format of cpuset(7) counts the union of its ranges |
| Resources.AlignIsLeast | internal/shim/resources/config.go:213-226 | the least multiple of 128 MiB that is no smaller |
| Resources.ConfigIsWellFormed | internal/shim/resources/config.go:30-99 | every spec and host give, after validation, 1 <= boot <= max CPUs and aligned memory sizes in order, with the exact values and when they exceed the host |
| Resources.AssembledIsWellFormed | internal/host/vm/qemu/instance.go:84-114 | validation keeps valid values and raises the ceilings to the boot values |
| Resources.CeilingAboveHost | internal/host/vm/qemu/instance.go:100-102 | an input whose CPU ceiling exceeds the host |
| Freeze.UnescapeMountField | internal/guest/vminit/system/freeze.go:120-136 | the loop decodes the escapes |
| Freeze.UnescapeEscape | internal/guest/vminit/system/freeze.go:120-150 | decoding undoes the kernel's escaping for every string and every escape set with the backslash |
| Freeze.FindSeparator | internal/guest/vminit/system/freeze.go:101-107 | the first "-" field, or -1 |
| Freeze.ParseFreezableMounts | internal/guest/vminit/system/freeze.go:91-116 | the loop collects the mount points line by line |
| Freeze.InfoIsReadBack | internal/guest/vminit/system/freeze.go:91-116 | reading a mount list gives exactly the unescaped mount points of its ext4 entries in order |
| Freeze.BareSpaceCutsPath | internal/guest/vminit/system/freeze.go:98-101 | a path with unescaped white space, however much, is read as the part before the first, or not at all |
| Freeze.PathIsReadIff | internal/guest/vminit/system/freeze.go:91-116 | the mount point of an ext4 entry is read back exactly when the escaping covers the white space of its path |
| Freeze.NoBreakSpaceIsLost | internal/guest/vminit/system/freeze.go:98-101 | a path and the kernel's escape set for which it is not |
| Freeze.Filesystems.Thaw | internal/guest/vminit/system/freeze.go:55-68 | tries every path, reports whether all succeeded |
| Freeze.Filesystems.FreezeWritable | internal/guest/vminit/system/freeze.go:33-51 | freezes in order, on failure thaws what it froze |
| Freeze.FreezeSucceedsIff | internal/guest/vminit/system/freeze.go:33-51 | succeeds exactly when nothing is refused and the mount points lead to distinct filesystems not yet frozen, and freezes exactly those |
| Freeze.RollbackIsExact | internal/guest/vminit/system/freeze.go:33-68 | rollback and thaw leave exactly the filesystems whose thaw was refused, so the set is restored exactly when none was |

## Left out

- `send` and `closeEvents` on the event channel: what is safe there depends on which ready case a select picks.
- Template staging by several builders, QEMU launch, QMP, vsock, netlink, CNI plugins, inotify and sysfs: only their answers appear, as arbitrary inputs.
- I/O forwarding, cleanup orchestration, connection retries, VMDK extents, supervisor backoff, configuration defaults, metrics, logging: they would only add easy members.
- Liveness and timeouts: a drain that times out is a separate exit about which nothing is claimed.
- Rounding of floating-point numbers: percentages and thresholds are reals.
- RpcAdmission: sandbox and exec variants of Start and Delete behave as plain RPCs and are not told apart.
- ExitDelivery: a PID is not reused while its process is tracked, nor had an exit in a window open when it is given out, and container cleanup is not among its steps.
- ExitOrdering: a container has one init exit, a PID is not reused while its process is tracked, and container cleanup is not among the steps. Whether an exec can still be spawned once its init is dead is left to the OCI runtime, which may do either. The reaper is not held to one exit at a time.
- HostMounts: reading VMDK manifests is a parameter. A layer number at the largest int, whose successor wraps around in the source, is not modelled.
- GuestMounts.MountAll: directory creation is recorded and not undone, as in the source; file modes and owners are data only.
- RootfsPipeline.RootfsIsAssembled: the mount directory is a clean path without colon or opening marker (the program joins paths with cleaning), device serials are distinct from foreign ones, and every disk shows its serial in some listing before the deadline.
- Identity: `machine.Cmdline.String` is not part of this model; its tokens are whole, separated by white space, and use none of the guest's names. The MAC, which only a restored VM needs, and the restore flag are not on the command line.
- HotplugMonitor: starting and stopping the loop.
- CpuHotplug: onlining and offlining a CPU inside the guest only logs, and is not modelled. The stats provider's absence and its errors are one case.
- SingleFlight: the CNI plugin chain is one step with any outcome; a panic in it is not modelled.
- FingerprintCache.CacheAgreesWithHash: the stat key determines the fingerprint or its failure, keys are single words and fingerprints single lines, and the file is written by these processes only.
- CidAllocator: metadata writes succeed in the many-process model, which excludes a crash between the truncation of a metadata file and the new stamp. The range ends below the largest 32-bit value (the source's ends at 65535), where the source's scan would never end.
- Resources.ParseCPUSet: terminates where the source does not, on a span that ends at the largest int and makes its loop wrap around.
- Resources.PrintedSetCounts: a span ends below the largest int, where the source's loop would wrap around and never end.
- Template.SequentialIsSimultaneous: sufficient and not necessary for strings with several placeholders.
- Template.OneTemplateAgreesIff: the placeholders inside the value stand for clean values; for others `OneTemplateAgrees` says only that the later passes decide.
- CpuHotplug.ConstantLoadSettlesIff: every tick counts the CPUs and has percentages, unthrottled; without that a reading up may fail to come.
- Resources.ConfigIsWellFormed: memory limits are below 2^62 so that doubling does not overflow; memory slots are not modelled.
- Freeze.ParseFreezableMounts: text is a sequence of Unicode characters, one per escaped byte; invalid UTF-8 is not modelled.
