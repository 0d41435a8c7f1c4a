# Daemon and client protocols in Dafny

This project models parts of the Moby daemon and client (`moby/daemon`, `moby/client`) whose
correctness is not visible in any one function: a listing that mutates its filter and stops early,
address arithmetic that checks masks where set inclusion is meant, and several protocols that run in
many goroutines under locks. Each module keeps the code's branches, constants and error paths, and
states what they add up to: over all inputs, all interleavings, or all reachable states.

Two kinds of model are used. Code that updates objects or loops is written as classes and methods,
each proved against a specification function or property. Protocols are transition systems whose
steps are critical sections or calls out; the outcome of a call out is part of the step, a step that is
not possible does nothing, and the theorems quantify over every finite sequence of steps. Where the
code of a critical section is short it is also given as a method proved equal to its step.

| module | subject |
|---|---|
| `Prefixes` | CIDR blocks as sets of addresses (section 3.1 of RFC 4632) |
| `BridgeIpam` | IPAM configuration of the default bridge |
| `NetworkIpam` | validation and conversion of user IPAM configuration |
| `ContainerList`, `ListFilters`, `AncestorListing` | `docker ps`: filtering pass, worker goroutines, what the filters mean, ancestor filter |
| `ImageAncestry` | the walk down the image graph |
| `HealthMonitor`, `ProbeOutput` | health state, monitors and their stop channels, probe output |
| `ContainerRemoval` | concurrent `containerRm` calls |
| `ExecGate`, `ExecCollector` | starting execs against exit events; collecting finished ones |
| `LinkIndex`, `LinkNames` | legacy links and rename; the name reservation in front of them |
| `ContainerFS` | the filesystem view's worker, its mounts and locks |
| `VersionNegotiation` | API version order and negotiation |
| `LinuxResources`, `WindowsResources` | resource validation and CPU arithmetic |
| `ConfigMerge` | merging image and user configuration |
| `NetworkAttach` | the attach-and-retry loop for swarm networks |

Check everything with `dafny verify dfyconfig.toml`.

## Where the code does less than it seems to

These follow from the code as written; each has a lemma with a concrete case and a statement of
exactly when the code does meet the property.

- An IPv4-mapped `fixed-cidr` (such as `::ffff:10.0.0.0/104`) has its 128-bit mask length compared with
  the bridge's 32-bit one, so the sub-pool can be larger than the bridge subnet
  (`MappedFixedCidrEscapes`; exact domain in `ContainmentIsExact`).
- An IPv4-mapped subnet is skipped as IPv6 by validation when IPv6 is off and then filed under IPv4
  (`MappedSubnetEscapes`; `ProtectedSubnets` gives the subnets for which acceptance means containment).
  An IPv4-mapped range or address in a wide IPv6 subnet such as `::/0` passes validation and changes
  family in the conversion (`MappedGatewayEscapes`; `ConversionKeepsContainment` says exactly when an
  accepted entry stays contained).
- Renaming a container links its children under the new name and then unlinks the old one, which drops
  the whole reverse entry of the pair, so the children forget the renamed parent
  (`RenameForgetsParent`; `RenameLosesReverseEntries` says exactly when).
- `rmLink` releases the name before it unlinks; while a container is created with one alias for two
  children, the second can take the name in between, which leaves an unbacked reverse entry
  (`ReleaseThenUnlinkRaces`; `InterleavingsStayBacked` gives the exact condition for every interleaving,
  `ReservationKeepsBacked` shows that serial operations meet it).
- An OOM event while a container waits for its delayed restart reopens a health monitor, and a failed
  restart then leaves it running on a stopped container (`FailedRestartLeavesMonitor`; the exact
  condition is in `StepKeepsOpenIsWanted` for a step and in `WantedThroughout` for a run).
- The comment at moby/daemon/health.go:252 says that there is never more than one monitor thread; the
  code guarantees one open stop channel, and a stopped monitor may still be waiting for its probe
  (`StoppedMonitorMayStillProbe`; `OneLiveThroughout` gives the exact condition for every run).
- `mergeAndVerifyConfig` is not idempotent after it has reset an entrypoint of `[""]`
  (`ResetIsUndone`; `VerifyingTwice` says exactly when).
- The Linux quota computation overflows 64 bits for some accepted request exactly from 92234 CPUs on
  (`QuotaCanWrap`; `QuotaOverflowBound`).

## Model

| member | source | states |
|---|---|---|
| `Prefixes.NestedOrDisjoint` | moby/daemon/daemon_unix.go:1177-1213 | any two blocks are nested or disjoint as sets of addresses |
| `Prefixes.SubsetIsMaskTest` | moby/daemon/daemon_unix.go:1108-1110 | set inclusion holds exactly when the mask is no shorter and the own address is contained |
| `Prefixes.OverlapIsSharedAddress` | moby/daemon/network.go:510-512 | comparing under the shorter mask finds exactly the pairs of blocks with a common address |
| `Prefixes.ContainsIsInterval` | moby/daemon/daemon_unix.go:1178-1186 | mask-and-compare is membership of an interval of addresses |
| `Prefixes.MaskedSameSet` | moby/daemon/daemon_unix.go:1192-1193 | clearing host bits keeps the set and is idempotent |
| `Prefixes.BlockWithinRange` | moby/daemon/daemon_unix.go:1192-1193 | a block never leaves its family's address range |
| `BridgeIpam.StandardLLIsBlock` | moby/daemon/daemon_unix.go:1223-1228 | the link-local test is membership of fe80::/64 |
| `BridgeIpam.ChooseAddress` | moby/daemon/daemon_unix.go:1172-1190 | picks the first address whose subnet covers fixed-cidr's address, else the first inside fixed-cidr, else the first |
| `BridgeIpam.Considered` | moby/daemon/daemon_unix.go:1163-1171 | an address stays unless it is link-local, the family is IPv6 and fixed-cidr-v6 is not link-local |
| `BridgeIpam.KeptInOrder` | moby/daemon/daemon_unix.go:1163-1171 | addresses are dropped one by one, the others keep their order |
| `BridgeIpam.KeptMembers` | moby/daemon/daemon_unix.go:1163-1171 | exactly the addresses that pass the test stay |
| `BridgeIpam.SelectBip` | moby/daemon/daemon_unix.go:1152-1218 | the chosen address is kept, dropped or widened as its repair rule says |
| `BridgeIpam.TextNetDenotes` | moby/daemon/daemon_unix.go:1078-1087 | address and network of a parsed CIDR, with IPv4-mapped literals read as IPv4 under a 128-bit mask |
| `Prefixes.UpperBits` | moby/daemon/daemon_unix.go:1078-1087 | when masking keeps or destroys the IPv4-mapped form of a literal |
| `BridgeIpam.OutsideIsContained` | moby/daemon/daemon_unix.go:1196-1202 | fixed-cidr outside the chosen subnet still gives a contained configuration |
| `BridgeIpam.PlainInsideIsContained` | moby/daemon/daemon_unix.go:1203-1213 | a plain fixed-cidr inside the chosen subnet gives a contained configuration after repair |
| `BridgeIpam.WidenedContains` | moby/daemon/daemon_unix.go:1206-1213 | widening the subnet to fixed-cidr's mask covers fixed-cidr and the bridge address |
| `BridgeIpam.MappedInside` | moby/daemon/daemon_unix.go:1107-1110 | the exact condition under which an IPv4-mapped fixed-cidr is contained |
| `BridgeIpam.ContainmentIsExact` | moby/daemon/daemon_unix.go:1067-1138 | for every bridge and fixed-cidr the result is contained if and only if the fixed-cidr is safe for it |
| `BridgeIpam.MappedFixedCidrEscapes` | moby/daemon/daemon_unix.go:1203-1213 | a concrete IPv4-mapped fixed-cidr escapes the bridge subnet |
| `BridgeIpam.AssembledIsExplained` | moby/daemon/daemon_unix.go:1094-1131 | gateway, subnet and sub-pool in every case, and exactly when the IPv6 error is raised |
| `BridgeIpam.AssembleConf` | moby/daemon/daemon_unix.go:1094-1138 | pools and gateway are filled in as the specification of the configuration says |
| `BridgeIpam.AssembledFromBip` | moby/daemon/daemon_unix.go:1084-1131 | with bip: its address is the gateway, its network the pool, and fixed-cidr the sub-pool unless a user-managed bridge drops or refuses it |
| `BridgeIpam.GetDefaultBridgeIpamConf` | moby/daemon/daemon_unix.go:1067-1138 | without bip: containment exactly on safe input, each error exactly when it is raised, and where gateway and pools come from; with bip: what is made of it |
| `NetworkIpam.CanonicalIsMasked` | moby/daemon/network.go:464-466 | equal to its masked form means written with its least address |
| `NetworkIpam.RangeTestIsContainment` | moby/daemon/network.go:490-515 | family, length, masking and overlap together mean canonical and inside the subnet as a set |
| `NetworkIpam.ValidateIpRange` | moby/daemon/network.go:490-515 | no error exactly when the range is unset or canonical and contained |
| `NetworkIpam.RangeErrorsAreFaults` | moby/daemon/network.go:490-515 | each error about a range is reported exactly for the fault it names, as sets of addresses |
| `NetworkIpam.ValidateOne` | moby/daemon/network.go:455-480 | reports exactly the faults of one entry, auxiliary addresses in any order |
| `NetworkIpam.WellFormedIsFaultless` | moby/daemon/network.go:455-480 | an entry is well-formed as sets of addresses exactly when it has no fault |
| `NetworkIpam.ValidateIpamConfig` | moby/daemon/network.go:452-488 | accepts exactly the lists whose checked entries are well-formed, and reports exactly their faults |
| `NetworkIpam.GetIpamConfig` | moby/daemon/network.go:536-555 | the two lists are the conversions of the entries of each family, and together have all entries |
| `NetworkIpam.ConvertedInOrder` | moby/daemon/network.go:548-553 | entries are converted one by one, so each list keeps the order of the input |
| `NetworkIpam.FiledByFamily` | moby/daemon/network.go:548-552 | an entry is filed under IPv4 exactly if its subnet is IPv4 outright or mapped |
| `Prefixes.UnmapKeepsAddress` | moby/daemon/network.go:540-547 | unmapping forgets nothing but the spelling of an address |
| `NetworkIpam.PlainConvertsUnchanged` | moby/daemon/network.go:540-552 | a plain well-formed entry is converted as it is, contained, to its own family |
| `NetworkIpam.ConvertedOrigin` | moby/daemon/network.go:539-553 | every converted entry stems from an input entry of that family |
| `Prefixes.UnmappedBlock` | moby/daemon/internal/netiputil/netiputil.go:99-104 | unmapping a block of mapped addresses maps its set of addresses |
| `NetworkIpam.ConversionKeepsContainment` | moby/daemon/network.go:540-547 | a well-formed entry, mapped or not, stays contained when converted if and only if no part changes family on its own |
| `NetworkIpam.ConvertedHolds` | moby/daemon/network.go:548-553 | every entry is in its family's list |
| `NetworkIpam.AcceptedIsContained` | moby/daemon/network.go:452-555 | a family's list whose entries were validated has contained pools if and only if its entries are unambiguous |
| `NetworkIpam.PlainIsContained` | moby/daemon/network.go:452-555 | accepted plain input yields contained pools: IPv4 always, IPv6 when enabled |
| `NetworkIpam.ProtectedSubnets` | moby/daemon/network.go:455-462 | acceptance implies containment for a subnet if and only if validation does not skip it |
| `NetworkIpam.MappedSubnetEscapes` | moby/daemon/network.go:455-462 | an IPv4-mapped subnet escapes validation and lands in the IPv4 list |
| `NetworkIpam.MappedGatewayEscapes` | moby/daemon/network.go:517-534 | an IPv4-mapped gateway of `::/0` is accepted and leaves the pool when converted |
| `ContainerList.AnswerWindow` | moby/daemon/list.go:419-434 | the answer is the first matches, up to the limit, of what lies strictly after the first `before` and strictly before the first later `since` |
| `ContainerList.MissingAnchor` | moby/daemon/list.go:420-427 | a `before` that is not in the list leaves nothing |
| `ContainerList.MatchingInOrder` | moby/daemon/list.go:146-190 | containers are selected one by one and keep their order |
| `ContainerList.MatchingMembers` | moby/daemon/list.go:146-190 | exactly the matching containers are selected |
| `ContainerList.RestStep` | moby/daemon/list.go:419-579 | what the container at the head does to the rest of the answer, including the limit in mid-predicate |
| `ContainerList.ListContext.ExitAllowed` | moby/daemon/list.go:472-484 | some allowed code is the exit code of a stopped, once started container |
| `ContainerList.ListContext.HasVolume` | moby/daemon/list.go:496-525 | some filter value names a mount by destination, volume name or source |
| `ContainerList.ListContext.HasNetwork` | moby/daemon/list.go:540-561 | some filter value is a network name or a prefix of a network ID |
| `ContainerList.ListContext.HasPort` | moby/daemon/list.go:563-576 | some port is published or exposed as filtered for |
| `ContainerList.ListContext.PassesEarly` | moby/daemon/list.go:436-465 | the conditions that come before the limit |
| `ContainerList.ListContext.PassesLate` | moby/daemon/list.go:472-576 | the conditions that come after the limit |
| `ListFilters.FlagsMean` | moby/daemon/list.go:436-484 | what all, limit, is-task and exit code filters let through |
| `ListFilters.TextFiltersMean` | moby/daemon/list.go:446-494 | ID, status, health and isolation filters select by value or expression |
| `ListFilters.NameFilterMeans` | moby/daemon/list.go:440-444 | a name matches with or without its slash |
| `ListFilters.LabelFilterMeans` | moby/daemon/list.go:456-459 | a label filter asks for a label, or for a label with a value |
| `ListFilters.VolumeFilterMeans` | moby/daemon/list.go:496-525 | a volume filter selects by destination, volume name or else source |
| `ListFilters.NetworkFilterMeans` | moby/daemon/list.go:540-561 | a network filter selects by network name or prefix of a network ID |
| `ListFilters.OriginFiltersMean` | moby/daemon/list.go:527-576 | ancestor, publish and expose filters select by image and port |
| `ListFilters.FiltersCombine` | moby/daemon/list.go:419-579 | a container matches a query exactly if it matches each of its filters alone |
| `ContainerList.ListContext.IncludeContainerInList` | moby/daemon/list.go:419-579 | the action and the new state of the `before` filter in every case |
| `ContainerList.ListContext.Examine` | moby/daemon/list.go:146-184 | one turn of the pass accounts for exactly one container of the remaining answer |
| `ContainerList.MainTurn` | moby/daemon/list.go:146-184 | a turn of the main loop reserves the next slot for an included container |
| `ContainerList.RefreshImage` | moby/daemon/list.go:604-645 | a container is shown under its image reference only while that resolves to its image, else under the image ID; the size is given exactly if asked for |
| `ContainerList.FinishJob` | moby/daemon/list.go:158-179 | a finished job fills its own slot with its own container's summary, or fails the listing |
| `ContainerList.RunJobs` | moby/daemon/list.go:146-190 | under every interleaving of main loop and jobs all slots of the answer are settled |
| `ContainerList.Containers` | moby/daemon/list.go:146-190 | the summaries of the declarative answer, in order and without holes, or an error exactly if the size of one of them cannot be found |
| `AncestorListing.AnswerMatches` | moby/daemon/list.go:146-190 | everything in an answer is in the list and matches the query |
| `AncestorListing.ContainersByAncestor` | moby/daemon/list.go:104-191 | with an ancestor filter, exactly the matching containers on descendants of the named images; fails exactly if a lookup below them or the size of a container shown does |
| `ImageAncestry.ReachableUnfolds` | moby/daemon/list.go:647-661 | the images below an image are itself and those below its children |
| `ImageAncestry.ClosedHoldsReachable` | moby/daemon/list.go:648-649 | a marked image has everything below it marked and looked up |
| `ImageAncestry.ImageFilter.Populate` | moby/daemon/list.go:647-661 | terminates on acyclic graphs, stays closed even on failure, adds only and on success exactly what is reachable, fails exactly when some lookup below fails |
| `ImageAncestry.ImageFilter.FoldAncestors` | moby/daemon/list.go:326-346 | over several values: exactly the descendants of all resolved ancestors |
| `HealthMonitor.ResultsDescribeHealth` | moby/daemon/health.go:181-249 | streak, status and log as a function of all results in order of start |
| `HealthMonitor.StreakStep` | moby/daemon/health.go:206-233 | one result moves the streak as the count of failures requires |
| `HealthMonitor.PushedIsLast` | moby/daemon/health.go:200-204 | the log keeps the last five entries |
| `HealthMonitor.StepKeepsOneMonitor` | moby/daemon/health.go:348-397 | every step keeps open channels and the monitor in charge in agreement |
| `HealthMonitor.StepKeepsOpenIsWanted` | moby/daemon/monitor.go:149-155 | every step keeps an open channel wanted, except exactly a failed restart with one open |
| `HealthMonitor.RunKeepsOneMonitor` | moby/daemon/health.go:348-397 | in every run from any consistent state the open channel and the monitor in charge agree |
| `HealthMonitor.AtMostOneMonitor` | moby/daemon/health.go:348-397 | in every run of a created or restored container at most one stop channel is open |
| `HealthMonitor.WantedThroughout` | moby/daemon/health.go:354-362 | in every run an open channel always implies running, unpaused and a probe if and only if no delayed restart fails with a channel open |
| `HealthMonitor.FailedRestartLeavesMonitor` | moby/daemon/monitor.go:132-161 | an OOM event during the restart delay and a failed restart leave a monitor on a stopped container |
| `HealthMonitor.StoppedMonitorMayStillProbe` | moby/daemon/health.go:308-315 | a stopped monitor can still be probing while its successor is in charge |
| `HealthMonitor.OpensMakesChannel` | moby/daemon/health.go:354-362 | a step makes a channel and a monitor exactly if it takes the opening branch |
| `HealthMonitor.StepKeepsOneLive` | moby/daemon/health.go:252-323 | a step keeps at most one live monitor if and only if it opens no channel or all monitors have returned |
| `HealthMonitor.OneLiveThroughout` | moby/daemon/health.go:252-323 | a run never has more than one live monitor if and only if each opening step finds all earlier monitors returned |
| `HealthMonitor.OnlyTheOpenMonitorReports` | moby/daemon/health.go:185-190 | only the monitor in charge changes health; a closed monitor's result changes nothing |
| `HealthMonitor.StartPutsMonitorInCharge` | moby/daemon/health.go:369-388 | any start, also after a failed restart, resets health and puts a fresh monitor in charge; so does restoring a running container |
| `HealthMonitor.StepWhileOpen` | moby/daemon/health.go:181-190 | while a monitor stays open only its own reports change health |
| `HealthMonitor.TimesStep` | moby/daemon/health.go:284-319 | a monitor's results arrive in order of their start |
| `HealthMonitor.HealthIsItsMonitorsReports` | moby/daemon/health.go:253-323 | while a monitor is open, health is the fold of its own results, whatever else happens |
| `HealthMonitor.HealthThroughoutAMonitorsLife` | moby/daemon/health.go:181-323 | in every run whatsoever between a start and the monitor's close, streak, status and log are what its results describe |
| `HealthMonitor.HealthSinceStart` | moby/daemon/health.go:206-233 | after a start the start period counts from that start, in every run until its monitor is closed |
| `HealthMonitor.FlagsAfter` | moby/daemon/container/state.go:265-285 | running, paused, restarting and start time after every step |
| `HealthMonitor.HandlersDecide` | moby/daemon/health.go:348-363 | after each handler a monitor is in charge exactly if the container has a health and wants one |
| `HealthMonitor.ClosingMarksUnhealthy` | moby/daemon/container/health.go:71-83 | closing a monitor marks the container unhealthy, except for a start, and keeps streak and log |
| `HealthMonitor.ProbeCycle` | moby/daemon/health.go:284-319 | an uninterrupted probe records its exit code and start |
| `HealthMonitor.PhaseStep` | moby/daemon/health.go:253-323 | only a monitor's own steps move it on |
| `HealthMonitor.ResultsStemFromProbes` | moby/daemon/health.go:284-319 | in every run each result handed in is the exit code and start of a probe of that monitor |
| `HealthMonitor.MonitoredContainer.CloseMonitorChannel` | moby/daemon/container/health.go:71-83 | closes the channel in charge and marks the container unhealthy |
| `HealthMonitor.MonitoredContainer.OpenMonitorChannel` | moby/daemon/container/health.go:58-68 | opens a new channel only if there is none |
| `HealthMonitor.MonitoredContainer.UpdateHealthMonitor` | moby/daemon/health.go:348-363 | opens or closes the channel as the container's state asks |
| `HealthMonitor.MonitoredContainer.InitHealthMonitor` | moby/daemon/health.go:369-388 | closes the old monitor, resets status and streak, starts anew |
| `HealthMonitor.MonitoredContainer.HandleProbeResult` | moby/daemon/health.go:181-249 | records a result unless its monitor is closed |
| `ProbeOutput.LimitedBuffer.Write` | moby/daemon/health.go:407-421 | the buffer stays the first 4096 characters of everything written and knows whether any were lost |
| `ProbeOutput.LimitedBuffer.String` | moby/daemon/health.go:424-433 | returns all output, or its first part marked with an ellipsis |
| `ContainerRemoval.FlagStep` | moby/daemon/delete.go:38-43 | the removal flag is a lock held by exactly one call |
| `ContainerRemoval.InsideStep` | moby/daemon/delete.go:89-182 | each step of cleanup conserves the layer and the order of deregistration and destroy event |
| `ContainerRemoval.StepKeepsInv` | moby/daemon/delete.go:31-60 | every step of every call keeps lock, layer and destroy invariants |
| `ContainerRemoval.RemovalIsExclusive` | moby/daemon/delete.go:31-182 | over every interleaving: one call inside, layer released at most once and never lost, one destroy event, only after the layer is gone |
| `ContainerRemoval.RemovableContainer.MarkContainerDead` | moby/daemon/delete.go:123-137 | marks the container dead and takes its layer reference |
| `ContainerRemoval.RemovableContainer.ReleaseRWLayer` | moby/daemon/delete.go:139-150 | releases the layer, or restores the reference on failure |
| `ContainerRemoval.RemovableContainer.RemoveAndDeregister` | moby/daemon/delete.go:152-180 | deregisters and then logs the destruction, only if the root directory could be removed |
| `ContainerRemoval.RemovableContainer.CleanupContainer` | moby/daemon/delete.go:89-182 | one call's cleanup is a path of the protocol's steps, and succeeds exactly when all its parts do |
| `ContainerRemoval.CleanedOutcome` | moby/daemon/delete.go:89-182 | what one uninterrupted cleanup leaves behind on every path |
| `ContainerRemoval.CallAlone` | moby/daemon/delete.go:31-60 | what a whole uninterrupted call leaves behind; a call that finds the flag taken changes nothing |
| `ContainerRemoval.CallReturnsEarly` | moby/daemon/delete.go:45-52 | removing a link, or a container already gone, gives the flag back and changes nothing else |
| `ExecGate.GateStep` | moby/daemon/exec.go:173-184 | every step keeps: the gate passed at most once, by at most one call at a time |
| `ExecGate.CloseStep` | moby/daemon/exec.go:306-311 | every step keeps: `Started` closed at most once, by the call that passed |
| `ExecGate.StoreStep` | moby/daemon/monitor.go:201-208 | every step keeps: an exit code in the store only inside the failed-start window |
| `ExecGate.GatePassedAtMostOnce` | moby/daemon/exec.go:162-316 | over every interleaving of starts, exits and cleanup, all three hold, and the lock excludes |
| `ExecGate.ExitedExecNeverRestarts` | moby/daemon/exec.go:173-184 | from any state with an exit code on, the gate is never passed again |
| `ExecGate.ExitEventsAreHandled` | moby/daemon/monitor.go:195-208 | in every run an exit event that finds the exec is done only when it is out of the store and has an exit code |
| `ExecGate.GateAlone` | moby/daemon/exec.go:173-184 | an undisturbed start passes the gate exactly of an exec that neither runs nor has run |
| `ExecGate.ExecAlone` | moby/daemon/exec.go:300-316 | past the gate the process starts, or the exec fails with its exit code |
| `ExecGate.CleanupAlone` | moby/daemon/exec.go:191-207 | the cleanup leaves the exec out of the store, stopped, with exit code 126 where none is set |
| `ExecGate.FailuresAreCleanedUp` | moby/daemon/exec.go:186-207 | failures to prepare or attach lead to the cleanup |
| `ExecGate.ExitAlone` | moby/daemon/monitor.go:195-208 | an undisturbed exit event takes the exec out of the store with the event's exit code |
| `ExecGate.UnregisterAlone` | moby/daemon/start.go:297-304 | dropping the exec from the store changes nothing else |
| `ExecGate.ExecConfig.PassGate` | moby/daemon/exec.go:173-184 | passes exactly an exec that neither runs nor has run |
| `ExecGate.ExecConfig.CleanUpFailedStart` | moby/daemon/exec.go:191-207 | the deferred cleanup, with exit code 126 where none is set |
| `ExecGate.ExecConfig.ProcessExit` | moby/daemon/monitor.go:195-208 | removes the exec from the store before its exit code is set |
| `ExecCollector.TickDeletesOnlyUnlisted` | moby/daemon/exec.go:346-361 | in every run a tick deletes only execs no registered container lists |
| `ExecCollector.GoneBySecondTick` | moby/daemon/exec.go:352-361 | a dead exec is gone once two ticks have passed, in every run |
| `ExecCollector.KeptForOneInterval` | moby/daemon/exec.go:352-361 | a dead exec stays through its first tick and until its second |
| `ExecCollector.Registration` | moby/daemon/exec.go:27-32 | a new exec is listed by its container first and then stored unmarked |
| `ExecCollector.NewContainer` | moby/daemon/exec.go:370-378 | a new container lists nothing |
| `ExecCollector.LiveExecStays` | moby/daemon/exec.go:346-361 | in every run an exec whose life has not ended stays listed, stored and unmarked |
| `ExecCollector.LifeEnds` | moby/daemon/exec.go:346-361 | an exit or the removal of its container leaves an exec dead but stored |
| `ExecCollector.StepKeepsInv` | moby/daemon/exec.go:27-32 | marked execs are unlisted, under registration, exit, removal and ticks |
| `ExecCollector.Daemon.ContainerExecIds` | moby/daemon/exec.go:370-378 | the union of what registered containers list |
| `ExecCollector.Daemon.CollectOnce` | moby/daemon/exec.go:348-361 | one tick: marked execs go, unlisted ones are marked, the rest stay |
| `LinkIndex.Index.Link` | moby/daemon/links.go:27-43 | adds the forward entry and its reverse entry |
| `LinkIndex.Index.Unlink` | moby/daemon/links.go:46-51 | removes one forward entry and all reverse entries of the pair |
| `LinkIndex.Index.Children` | moby/daemon/links.go:55-60 | exactly the parent's forward entries |
| `LinkIndex.Index.Parents` | moby/daemon/links.go:64-76 | covers exactly the aliases of the child's reverse entries |
| `LinkIndex.Index.Delete` | moby/daemon/links.go:79-91 | returns exactly the container's aliases, each once, and clears it from both indexes |
| `LinkIndex.LinkKeepsBacked` | moby/daemon/links.go:27-43 | reverse entries stay backed if and only if no other child records the alias |
| `LinkIndex.UnlinkKeepsBacked` | moby/daemon/links.go:46-51 | reverse entries stay backed if and only if unlink names the recorded child |
| `LinkIndex.DeleteKeepsBacked` | moby/daemon/links.go:79-91 | deletion keeps entries backed and leaves the container nowhere in the reverse index |
| `LinkIndex.OpKeepsBacked` | moby/daemon/links.go:27-91 | an operation keeps reverse entries backed if and only if it respects what is recorded |
| `LinkIndex.BackedThroughout` | moby/daemon/links.go:27-91 | in every run of operations reverse entries stay backed if and only if each link and unlink finds no other child recorded |
| `LinkNames.RunFollowsTrace` | moby/daemon/delete.go:62-85 | the index after an interleaved run is the one its link, unlink and delete calls make, in order |
| `LinkNames.InterleavingsStayBacked` | moby/daemon/daemon.go:724-735 | in every interleaving of reserve, link, lookup, release, unlink and removal steps the index stays backed if and only if each link and unlink that executes finds no other child recorded |
| `LinkNames.ReservationKeepsBacked` | moby/daemon/daemon.go:724-735 | in every serial run reserved names keep the indexes backed |
| `LinkNames.RegistersAlone` | moby/daemon/daemon.go:724-735 | an undisturbed registration reserves the name and makes both entries, or does nothing if another container has the name |
| `LinkNames.RemovesLinkAlone` | moby/daemon/delete.go:62-85 | an undisturbed link removal frees the name and removes both entries if the parent is registered |
| `LinkNames.RemovesContainerAlone` | moby/daemon/delete.go:167-176 | an undisturbed container removal leaves it in no index and frees its names and aliases |
| `LinkNames.ReleaseThenUnlinkRaces` | moby/daemon/delete.go:77-79 | from empty tables, a registration between release and unlink leaves an unbacked entry |
| `LinkIndex.DisciplinedRunsStayTidy` | moby/daemon/links.go:27-91 | with one alias per pair and unique aliases, both indexes agree exactly in every run |
| `LinkIndex.ParentsInvertChildren` | moby/daemon/links.go:62-76 | then `parents` is the exact inverse of `children` on existing containers |
| `LinkIndex.Rename` | moby/daemon/rename.go:53-80 | respells the forward entries and drops every reverse entry of the pairs |
| `LinkIndex.RenameLosesReverseEntries` | moby/daemon/rename.go:53-80 | a rename keeps the indexes exact if and only if no linked child still exists |
| `LinkIndex.RenameForgetsParent` | moby/daemon/rename.go:53-80 | after renaming a container with one link, its children are listed and the child has no parents |
| `ContainerFS.CallerStep` | moby/daemon/containerfs_linux.go:155-210 | every step keeps each caller's account |
| `ContainerFS.ViewRunsEachFunctionOnce` | moby/daemon/containerfs_linux.go:155-224 | in every run each accepted function is begun once, RunInFS callers wait for and get their own results, GoInFS callers never wait, all have returned before unmounting |
| `ContainerFS.NothingRunsAfterClose` | moby/daemon/containerfs_linux.go:214-224 | nothing is begun or returned once Close unmounts |
| `ContainerFS.CallAlone` | moby/daemon/containerfs_linux.go:182-210 | an undisturbed call is taken at once; RunInFS waits for the result, GoInFS does not |
| `ContainerFS.OfferEnds` | moby/daemon/containerfs_linux.go:182-210 | a call can give up while offered, and panics if still offered after Close |
| `ContainerFS.CloseAlone` | moby/daemon/containerfs_linux.go:214-224 | Close waits for the function that runs, then unmounts volumes and root |
| `ContainerFS.ContainerResources.OpenContainerFS` | moby/daemon/containerfs_linux.go:54-180 | what opening takes, and that every failure gives it all back in order |
| `ContainerFS.ContainerResources.CloseView` | moby/daemon/containerfs_linux.go:214-224 | the worker stops before volumes and root are unmounted |
| `ContainerFS.ContainerResources.ContainerArchivePath` | moby/daemon/archive_unix.go:39-92 | on every error path lock and mounts are given back once; on success the reader owns them |
| `ContainerFS.Reader.Close` | moby/pkg/ioutils/readers.go:22-28 | the first close gives lock and mounts back, each once; any later close changes nothing; acquisitions and releases balance however often it is closed |
| `ContainerFS.HeldBalances` | moby/daemon/archive_unix.go:39-92 | a history in good order has as many releases as acquisitions of what is no longer held |
| `VersionNegotiation.Compare` | moby/api/types/versions/compare.go:10-40 | the comparison loop decides the order of versions |
| `VersionNegotiation.VersionsAreOrdered` | moby/api/types/versions/compare.go:42-60 | the order is a total preorder |
| `VersionNegotiation.DottedReads` | moby/api/types/versions/compare.go:14-31 | reading a written version gives back its numbers |
| `VersionNegotiation.DecimalIsAtoi` | moby/api/types/versions/compare.go:27-31 | components are read with their sign and clamped to 64 bits |
| `VersionNegotiation.NotANumber` | moby/api/types/versions/compare.go:27-31 | anything that is not a number counts as zero |
| `VersionNegotiation.VersionsCompareAsNumbers` | moby/api/types/versions/compare.go:24-39 | the first component that differs decides, as a number |
| `VersionNegotiation.TrailingZero` | moby/api/types/versions/compare.go:24-32 | missing components count as zero |
| `VersionNegotiation.PingVersionMeans` | moby/client/client.go:357-367 | a leading v is dropped, no version means 1.24, and negotiation starts at the latest version |
| `VersionNegotiation.Client.NegotiateAPIVersionPing` | moby/client/client.go:356-379 | downgrades to the smaller of ping and own version |
| `VersionNegotiation.Client.CheckVersion` | moby/client/client.go:263-281 | negotiates only if due, and keeps the version if the server does not answer |
| `VersionNegotiation.StepKeepsLock` | moby/client/client.go:263-281 | the lock excludes, and a check past its second look is the first to negotiate |
| `VersionNegotiation.StepKeepsNegotiated` | moby/client/client.go:356-379 | every step keeps the version the smallest seen |
| `VersionNegotiation.NegotiationIsMinimum` | moby/client/client.go:263-379 | under every mix of callers the version is the minimum of start and applied answers, a check applies only first, an override forbids any |
| `VersionNegotiation.ChecksAloneApplyOnce` | moby/client/client.go:263-281 | checks alone apply at most one answer |
| `VersionNegotiation.AskingAlone` | moby/client/client.go:263-331 | an undisturbed check or explicit negotiation asks exactly if due, and applies the answer |
| `VersionNegotiation.GivenAlone` | moby/client/client.go:346-354 | an undisturbed negotiation with a given answer applies it unless overridden |
| `VersionNegotiation.VersionNeverRises` | moby/client/client.go:356-379 | from any state on the version never rises |
| `VersionNegotiation.OrderDoesNotMatter` | moby/client/client.go:356-379 | the same answers give equal versions in any order |
| `WindowsResources.Resources.VerifyPlatformContainerResources` | moby/daemon/daemon_windows.go:69-115 | resolves conflicts by precedence, accepts exactly what can be carried out, and each error names its fault |
| `WindowsResources.StrongestControlWins` | moby/daemon/daemon_windows.go:69-90 | under process isolation count wins over shares and shares over percent |
| `WindowsResources.AcceptedRequests` | moby/daemon/daemon_windows.go:91-115 | the accepted requests, in numbers |
| `WindowsResources.Resources.SetResourcesInSpec` | moby/daemon/oci_windows.go:422-446 | nothing accepted is cut off by narrow types; the maximum approximates the request from below |
| `WindowsResources.NestedDivision` | moby/daemon/oci_windows.go:433-440 | the two floor divisions bound the request from both sides |
| `LinuxResources.HostConfig.VerifyMemory` | moby/daemon/daemon_unix.go:404-462 | the memory checks accept exactly consistent limits and discard the rest |
| `LinuxResources.HostConfig.VerifyCpu` | moby/daemon/daemon_unix.go:464-527 | the CPU checks accept exactly consistent limits and discard the rest |
| `LinuxResources.HostConfig.VerifyBlkio` | moby/daemon/daemon_unix.go:529-559 | the block I/O checks accept exactly consistent limits and discard the rest |
| `LinuxResources.HostConfig.VerifyPlatformContainerResources` | moby/daemon/daemon_unix.go:404-562 | accepts exactly the consistent requests and leaves what can be enforced |
| `LinuxResources.HostConfig.AdaptContainerSettings` | moby/daemon/daemon_unix.go:319-368 | defaults swap to twice the memory, in 64-bit arithmetic, shared memory to the daemon's size, and the OOM killer to enabled |
| `LinuxResources.HostConfig.VerifyThenAdapt` | moby/daemon/create.go:89-124 | after both, a memory limit leaves swap unlimited or at least as large |
| `LinuxResources.ValidationIsIdempotent` | moby/daemon/daemon_unix.go:404-562 | accepted output is accepted again unchanged |
| `LinuxResources.SupportedIsKept` | moby/daemon/daemon_unix.go:404-562 | what the kernel supports is kept as asked for |
| `LinuxResources.UnsupportedIsDropped` | moby/daemon/daemon_unix.go:404-562 | what it does not support is discarded |
| `LinuxResources.AcceptedOnFullKernel` | moby/daemon/daemon_unix.go:404-562 | the accepted requests on a kernel with full support, in numbers |
| `LinuxResources.SwapCoversMemory` | moby/daemon/daemon_unix.go:319-323 | swap covers memory exactly unless unlimited or the doubling overflows |
| `LinuxResources.QuotaOverflowBound` | moby/daemon/daemon_unix.go:145-151 | the quota product fits 64 bits for all accepted requests exactly up to 92233 CPUs |
| `LinuxResources.QuotaIsWithinCpus` | moby/daemon/daemon_unix.go:126-177 | the quota rounds the request down and stays within the CPU count |
| `LinuxResources.CpuFieldsPassThrough` | moby/daemon/daemon_unix.go:126-177 | without NanoCPUs shares, period and quota are handed on, and negative shares refused |
| `LinuxResources.QuotaCanWrap` | moby/daemon/daemon_unix.go:145-151 | on any host with more than 92233 CPUs some accepted request yields a negative quota |
| `ConfigMerge.AppendedKeepsUser` | moby/daemon/commit.go:39-61 | user entries first and unchanged, names are the union, uniqueness kept |
| `ConfigMerge.AppendedAddsImageEntries` | moby/daemon/commit.go:42-60 | what is added is the image's first entry for a name the user lacks |
| `ConfigMerge.MergedEnvIsIdempotent` | moby/daemon/commit.go:39-61 | merging the environment again changes nothing |
| `ConfigMerge.MergeIsIdempotent` | moby/daemon/commit.go:25-121 | merging the same image again changes nothing |
| `ConfigMerge.UserSettingsWin` | moby/daemon/commit.go:25-121 | everything the user set stays as set: scalars, labels, environment, command, ports, volumes and each health check field |
| `ConfigMerge.ImageFillsIn` | moby/daemon/commit.go:25-121 | everything the user did not set comes from the image: scalars, labels, environment, command, ports, volumes and each health check field |
| `ConfigMerge.MergedVariables` | moby/daemon/commit.go:39-61 | a variable of the image is added exactly if the user has none of that name |
| `ConfigMerge.AppendedInOrder` | moby/daemon/commit.go:42-60 | the image's entries are added in their order |
| `ConfigMerge.UserConfig.MergeEnv` | moby/daemon/commit.go:39-61 | the nested search loops add exactly the missing names |
| `ConfigMerge.UserConfig.MergeLabels` | moby/daemon/commit.go:63-70 | image labels under user labels |
| `ConfigMerge.UserConfig.MergeHealthcheck` | moby/daemon/commit.go:81-104 | field by field, unset fields from the image |
| `ConfigMerge.UserConfig.MergeCommand` | moby/daemon/commit.go:72-80 | command and entrypoint, telling nil from empty |
| `ConfigMerge.UserConfig.Merge` | moby/daemon/commit.go:25-121 | the whole merge in place equals the merge of values |
| `ConfigMerge.UserConfig.MergeAndVerifyConfig` | moby/daemon/create.go:338-352 | accepts exactly configurations with a command and leaves the merged, reset one, whose command line can be indexed |
| `ConfigMerge.GetEntrypointAndArgs` | moby/daemon/container.go:173-178 | path and arguments spell entrypoint and command in order |
| `ConfigMerge.VerifyingTwice` | moby/daemon/create.go:338-352 | verifying again keeps a configuration exactly unless a reset entrypoint hides the image's |
| `ConfigMerge.ResetIsUndone` | moby/daemon/create.go:338-352 | a concrete reset entrypoint is replaced by the image's on a second pass |
| `NetworkAttach.Cluster.AttachLoop` | moby/daemon/container_operations.go:297-344 | six attachments exactly after five rounds that vanished, one left standing on success and none on error, and the last round's answers handed on |
| `NetworkAttach.Cluster.FindAndAttachNetwork` | moby/daemon/container_operations.go:254-345 | the early returns attach nothing; otherwise the loop's guarantees |

## Left out

- `filterByNameIDMatches`, sorting and the parsing of filter values: the pass is modelled over the sorted list it is given; the name/ID shortcut matches differently and may omit the anchor containers.
- Regular expressions of filters are an abstract predicate; platform isolation strings are taken as already lower case.
- `errgroup.SetLimit`: the number of workers is not bounded in the model, which only adds schedules.
- Bridge addresses are taken to be plain addresses of the family that was listed; `defGw` and its label are not modelled, and nothing is claimed about containment when bip is configured.
- The monitor's timer intervals, `cmdProbe.run` and event logging: only the times at which probes start matter here.
- The container lock is not a separate object in the health model: every handler is one atomic step; checkpointing and replication are not modelled.
- Protocol modules (`HealthMonitor`, `ContainerRemoval`, `ExecGate`, `ExecCollector`, `ContainerFS`, `LinkNames`, `VersionNegotiation`) model concurrency on values; aliasing between goroutines is not modelled beyond the shared state shown.
- `cleanupContainer` called by a failing `create` takes no removal flag and is not part of the removal model; neither are container stop and kill, which are one yes-or-no answer.
- Registration of an exec that falls between the two reads of one collector tick: a tick is one atomic step.
- `execCommandGC` counts and logs what it removes; the count is not modelled.
- Names of containers are not reused in the name reservation model, and renames are treated separately from it; a refused reservation or removal is a step that does not happen.
- Failure paths of rename, and its network part.
- The contents of mounts, `mounttree` and the unshare call in the filesystem view; a failed `setupMounts` is taken to leave nothing behind.
- The IPC, cgroup namespace and security option defaults of `adaptContainerSettings`.
- Warnings of both resource validators, the Windows options that are only rejected, and memory and storage limits of the Windows spec.
- CPU sets and realtime CPU settings in the spec, which are handed on as they are.
- `runtime.NumCPU` times 10^9 is taken to fit 64 bits in both validators.
- Attaching without a cluster provider, and the text of addresses passed to it.
- The HTTP client, `NewDaemon`, `restore`, metrics, tracing and all other daemon operations: plumbing without a property of this kind.
