# A verified model of the NVIDIA DRA driver for GPUs and ComputeDomains

The driver prepares devices for Kubernetes resource claims on a node. This project models the parts of it whose
correctness spans several calls, several processes or a crash, and proves what they promise.

* **The GPU claim machine.** `GpuClaims` is a checkpoint file kept in step with live MIG devices, one durable effect at
  a time; a crash, reboot or restart may come between any two effects. `GpuSafety` proves what every run keeps,
  `GpuAccounting` the write-ahead accounting of live devices, `GpuLimits` where the promises end. `GpuDeviceState` and
  `DeviceLib` are the plugin's methods, over an abstract NVML; each is proved to make only effects of the machine, and
  each prefix of the recorded effects is a point at which the process may have died. `GpuService` is the plugin as its
  callers see it, a sequence of calls (`Calls`) with crashes and restarts among them.
* **Config resolution** (`ConfigResolution`, `ResourceApi`) for both plugins, and the compute-domain plugin's claim
  machine over IMEX channels (`Imex`), again as its callers see it in `ImexService`.
* **Clique membership.** `Membership` is the member list as the sequence of all its versions, each made from the one
  right before it; `DaemonManagers` are the daemon's two managers and the controller, every method of which may run
  between any two others. `DnsNames` turns member lists into names, the nodes file and the hosts file.
* **Partitionable devices.** `CounterSums` says what it means that the scheduler's sums fit, `Partitions` what is
  announced, `ResourceSlices` how it is cut into slices. `MigNames` prints and parses device names.
* **Supporting machines.** `ProcessManager` (interleaved update loop, watchdog and reapers), `WorkQueue` (keyed, latest
  wins, and the batch of claims that waits on it), `Codec` (versioned checkpoint file, legacy format), `StaleCleanup`.

Findings. Each is a lemma or a contract below, with the exact condition where there is one.

1. The rollback of a partial preparation looks the parent GPU up by a PCI bus ID that a parsed device name does not
   have (`ShippedRollbackIsBlind`). So with the shipped lookup a started claim with a MIG device that no completed claim
   names can be neither prepared again nor unprepared: both calls fail, always, and change nothing (`Prepare`, `Unprepare`).
   Safety holds with this lookup as well as with a repaired one.
2. Live MIG devices are accounted for by the checkpoint if dynamic MIG devices are requested from this driver only and
   without admin access (`PlainClaimsAreAccounted`). Any other result that names one has a run that leaves a device live
   and no entry at all (`NonPlainResultCanLeak`), so the condition is exact (`AccountedExactlyForPlainResults`).
3. If the hardware reuses a GPU instance ID that an entry still holds, a claim's own teardown destroys another claim's
   device. An idle node comes to the point where this can happen by two ordinary claims (`ReusedAddressDestroysAnother`).
4. Startup can be trusted to leave only entries of the current boot if and only if the checkpoint has a boot ID or no
   entries (`StartupTrustsOnlyStampedFiles`).
5. A partition can be allocated exactly when it ends within the size of the largest placement, from which the slice
   count is inferred (`AllocatableExactlyWhenWithinLargest`).
6. Pushing member lists only when the IP set changes can hide a new mapping (`HiddenChangeIsAnotherMapping`). A version can
   be followed by such a change if and only if the clique has a member and may have two (`EqualIPSetsCanHideAChange`).
   It cannot while members stay listed and keep their addresses (`StayingMembersKeepTheMapping`).
7. In the queue an older item can run after a newer one of its key has succeeded, namely whenever the newer one was
   added while the older waited (`OlderItemCanRunAfterNewer`, `LatestWinsUnlessAddedBehind`). In a batch of claims with a
   repeated UID this can hold the wait group up for good (`RepeatedUidHoldsTheWaitGroup`).
8. When the watchdog restarts a lost child, its start is refused, which is treated as fatal, if and only if a child has
   been started since it cleared the handle and that handle was not cleared again (`WatchdogIsRefusedExactlyAfterAStart`).
   There is a run from the start on which this happens (`WatchdogCanLoseTheRace`).
9. Every rewrite of the hosts file leaves two more lines of clutter (`AfterAnyRewrites`).
10. Reading a checkpoint of the compute-domain plugin dereferences nil if version 1 is missing, version 2 does not decode
    and the checksum is that of an empty legacy file (`ConversionPanicsExactlyWithoutV1`, `ConversionCanPanic`).
11. Prepare answers a completed claim whose own teardown was cut short with the recorded devices, at least one of which is
    gone: exactly then not all of them are live (`Prepare`, `CompletedDevicesAreLive`).

Where code and comment disagree the code is followed: the comment at device_state.go:497-535 says that rollback finds
the device by its name.

## Model

| member | source | states |
|---|---|---|
| GpuSafety.StepKeepsInv | cmd/gpu-kubelet-plugin/device_state.go:229-336 | every effect the code and the hardware allow keeps the invariant: recorded devices are live until their claim's own teardown, addresses and non-admin devices have one holder |
| GpuSafety.RunKeepsInv | cmd/gpu-kubelet-plugin/device_state.go:388-495 | the invariant holds at every point of every run, so at every point a crash can hit |
| GpuSafety.CompletedDevicesAreLive | cmd/gpu-kubelet-plugin/device_state.go:536-571 | in every reachable state all MIG devices a completed claim recorded are live, with the recorded UUID and under the recorded name, if and only if its own teardown has not begun |
| GpuSafety.OnlyItsOwnTeardownDestroys | cmd/gpu-kubelet-plugin/device_state.go:1251-1278 | no rollback, startup teardown or other claim's teardown destroys a live device of a completed claim |
| GpuSafety.UnnamedIsUnrecorded | cmd/gpu-kubelet-plugin/device_state.go:1256-1265 | a live device whose name no completed claim's allocation contains is held by no entry, which is what the guard before deletion rests on |
| GpuSafety.CompletedClaimsShareNoDevice | cmd/gpu-kubelet-plugin/device_state.go:1212-1248 | over any run at all, starting from any file of which it is true, no results of two completed claims ask this driver for one device without admin access; no assumption on names, instance IDs or reboots is needed |
| GpuSafety.NoMigDeviceHasTwoHolders | cmd/gpu-kubelet-plugin/device_state.go:689-896 | admin access or not, two completed claims never both hold one live MIG device |
| GpuSafety.EntriesAreOfThisBoot | cmd/gpu-kubelet-plugin/device_state.go:186-226 | over any run from a file that has a boot ID or no entries: once the plugin is up every entry was written in the current boot |
| GpuAccounting.PlainClaimsAreAccounted | cmd/gpu-kubelet-plugin/device_state.go:279-328 | if dynamic MIG devices are requested only from this driver and without admin access, then at every point of every run each live MIG device is named by a result of some entry; other devices may be requested in any way |
| GpuAccounting.TeardownLeavesExactlyTheRecorded | cmd/gpu-kubelet-plugin/device_state.go:388-424 | under the same condition, after a successful startup teardown the live devices are exactly those completed claims recorded |
| GpuLimits.NonPlainResultCanLeak | cmd/gpu-kubelet-plugin/device_state.go:536-571 | a result that names a dynamic MIG device with admin access or for another driver has a run, within the assumptions, after which a device is live and no entry is left |
| GpuLimits.AccountedExactlyForPlainResults | cmd/gpu-kubelet-plugin/device_state.go:1256-1265 | for every result: all runs that prepare it, and ordinary claims for its device, account for the live devices if and only if the result is plain |
| GpuLimits.ReusedAddressDestroysAnother | cmd/gpu-kubelet-plugin/mig.go:54-67 | why the assumption on GPU instance IDs is needed: for any two MIG devices of one GPU an idle node comes, within the assumptions, to a point where handing out a held ID makes a claim's teardown destroy another's device |
| GpuLimits.StartupTrustsOnlyStampedFiles | cmd/gpu-kubelet-plugin/device_state.go:195-217 | all runs from a file have only entries of the current boot while the plugin is up if and only if the file has a boot ID or no entries |
| GpuLimits.ShippedNamingIsWellFormed | cmd/gpu-kubelet-plugin/mig.go:111-114 | the plugin's own names meet what the machine assumes of names: each published key reads back as its device |
| GpuDeviceState.ShippedRollbackIsBlind | cmd/gpu-kubelet-plugin/nvlib.go:1284-1289 | a tuple parsed from a name leads to no parent device, whatever is live |
| GpuDeviceState.DeviceState.constructor | cmd/gpu-kubelet-plugin/device_state.go:83-93 | a node on which nothing has run is a start of the machine |
| GpuDeviceState.DeviceState.Inherit | cmd/gpu-kubelet-plugin/device_state.go:181-217 | a node with the checkpoint of an earlier plugin, boot ID or not, is a start of the machine if the invariant holds of it |
| GpuDeviceState.DeviceState.Start | cmd/gpu-kubelet-plugin/device_state.go:186-226 | startup keeps the entries exactly when the stored boot ID is the current one or is missing, and stamps the file; a failed one changes nothing |
| GpuDeviceState.DeviceState.Reboot | cmd/gpu-kubelet-plugin/device_state.go:186-190 | a reboot brings a new boot ID and takes every MIG device |
| GpuDeviceState.DeviceState.Prepare | cmd/gpu-kubelet-plugin/device_state.go:229-336 | idempotent on completed claims; refuses, before anything is written, a claim that shares a non-admin device with a completed one; on success the file changes in this entry alone, which has the claim's results and the devices returned, and each device was asked for as often as it is returned, full GPUs as such and MIG devices live at their address as published; the MIG devices it returns are all live if and only if the claim's own teardown has not begun; a failure leaves at most the started entry; nothing happens if the checkpoint cannot be read; with the shipped lookup it never destroys a device and always fails on a started claim with an orphan |
| GpuDeviceState.DeviceState.PrepareAfresh | cmd/gpu-kubelet-plugin/device_state.go:279-335 | the file ends with the completed entry, with the claim's results, the devices and no name; or, after an error, with the started entry, with results, name and namespace, or unchanged |
| GpuDeviceState.DeviceState.PrepareUncontested | cmd/gpu-kubelet-plugin/device_state.go:268-336 | a started claim is rolled back first; success delivers the claim and means that no result's only config is of the wrong type |
| GpuDeviceState.MisconfiguredIsRefused | cmd/gpu-kubelet-plugin/device_state.go:735-764 | a result whose request has one config, of a type not meant for its device, is refused |
| GpuDeviceState.DeviceState.PrepareDevices | cmd/gpu-kubelet-plugin/device_state.go:689-896 | success means a completing write is due: one published device per result of this driver, each MIG device created by this call and used once; a config of the wrong type makes it fail |
| GpuDeviceState.DeviceState.PrepareGroup | cmd/gpu-kubelet-plugin/device_state.go:815-892 | one prepared device per result of the group, in order, and nothing live is lost |
| GpuDeviceState.DeviceState.PrepareOne | cmd/gpu-kubelet-plugin/device_state.go:848-881 | a full GPU changes nothing, a MIG device is created and remembered before the completing write |
| GpuDeviceState.DeviceState.Unprepare | cmd/gpu-kubelet-plugin/device_state.go:426-495 | unknown claims succeed unless the checkpoint cannot be read; success removes exactly this entry, failure no entry; of a completed claim exactly its own devices go; a started claim with an orphan always fails under the shipped lookup |
| GpuDeviceState.DeviceState.UnprepareDevices | cmd/gpu-kubelet-plugin/device_state.go:898-954 | on success no recorded device is live, and in any case none but recorded ones go |
| GpuDeviceState.DeviceState.UnpreparePartiallyPreparedClaim | cmd/gpu-kubelet-plugin/device_state.go:536-571 | success means nothing of the partial claim is left; with the shipped lookup it succeeds exactly when there is no orphan, and deletes nothing |
| GpuDeviceState.DeviceState.DeleteMigDevIfExistsAndNotUsedByCompletedClaim | cmd/gpu-kubelet-plugin/device_state.go:1251-1278 | success means the device is gone or some completed claim names it |
| GpuDeviceState.DeviceState.ValidateNoOverlappingPreparedDevices | cmd/gpu-kubelet-plugin/device_state.go:1212-1248 | it passes if and only if no other completed claim and this one ask this driver for one device, neither with admin access |
| GpuDeviceState.DeviceState.RequestedNonAdminDevices | cmd/gpu-kubelet-plugin/device_state.go:1195-1208 | exactly this driver's devices without admin access |
| GpuDeviceState.DeviceState.IsNamedByCompleted | cmd/gpu-kubelet-plugin/device_state.go:1256-1265 | true if and only if some completed claim's allocation names the device |
| GpuDeviceState.DeviceState.ExpectedDeviceNames | cmd/gpu-kubelet-plugin/device_state.go:401-413 | exactly the names in completed claims' allocations |
| GpuDeviceState.DeviceState.DestroyUnknownMIGDevices | cmd/gpu-kubelet-plugin/device_state.go:388-424 | only devices whose name no completed claim carries go, and on success all of them |
| GpuDeviceState.DeviceState.WriteStartedEntry | cmd/gpu-kubelet-plugin/device_state.go:280-290 | the file gets the started entry with results, name and namespace of the claim and is otherwise as before, or it is as before |
| GpuDeviceState.DeviceState.WriteCompletedEntry | cmd/gpu-kubelet-plugin/device_state.go:322-328 | the file gets the completed entry with these results and devices and no name and is otherwise as before, or it is as before |
| GpuDeviceState.DeviceState.DeleteClaimFromCheckpoint | cmd/gpu-kubelet-plugin/device_state.go:678-687 | the write removes this entry alone, or the file is as before |
| GpuService.Serve | cmd/gpu-kubelet-plugin/device_state.go:229-495 | for any sequence of calls with crashes and restarts among them: no two claims, as given to the calls, that were prepared and not unprepared since ask this driver for one device without admin access; so the second Prepare fails while the first claim stands |
| GpuClaims.OverlapIsACommonSlice | cmd/gpu-kubelet-plugin/nvlib.go:926-1053 | two placements are in each other's way if and only if they need a common memory slice of one GPU |
| DeviceLib.Lib.CreateMigDevice | cmd/gpu-kubelet-plugin/nvlib.go:926-1053 | creates at a free address of the right parent where no live placement is in the way, or nothing; an error may leave the new device behind |
| DeviceLib.Lib.DeleteMigDevice | cmd/gpu-kubelet-plugin/nvlib.go:1056-1154 | success means nothing is at the address; nothing else ever goes |
| DeviceLib.Lib.FindMigDevBySpec | cmd/gpu-kubelet-plugin/nvlib.go:1284-1363 | finds a live device of that profile and start on the GPU that the tuple's bus ID leads to; if it finds none there is none, provided NVML answered the walk, whose errors it passes over; without a known parent it is an error |
| DeviceLib.Lib.ObliterateStaleMIGDevices | cmd/gpu-kubelet-plugin/nvlib.go:420-455 | deletes only live devices with unexpected names, each once, and on success all of them |
| MigNames.FindGroupsIsTheMatch | cmd/gpu-kubelet-plugin/mig.go:236-242 | the parser's groups are the one match of the name expression: it finds them if and only if they match |
| MigNames.LabelIsEmptyExactlyWithoutAlnum | cmd/gpu-kubelet-plugin/mig.go:247-260 | the sanitised profile name is empty if and only if no character of it survives as a letter or digit |
| MigNames.ParseUndoesPrint | cmd/gpu-kubelet-plugin/mig.go:189-217 | a printed name parses to its minor, profile ID and start if and only if the profile label is not empty, for all values that fit an int |
| MigNames.NamesAreInjective | cmd/gpu-kubelet-plugin/mig.go:111-114 | equal names mean equal minor, profile ID and start, for all numbers and all profile names |
| MigNames.OtherNamesNeverParse | cmd/gpu-kubelet-plugin/deviceinfo.go:106-143 | full-GPU and vfio names never parse as MIG names |
| MigNames.CanonicalNameLayout | cmd/gpu-kubelet-plugin/mig.go:111-114 | a name is the minor, the label, the profile ID and the start, in this order |
| MigNames.LabelDropsTheDot | cmd/gpu-kubelet-plugin/mig.go:247-260 | the label of a profile such as 1g.5gb is the profile without its dot |
| MigNames.PrintUndoesParse | cmd/gpu-kubelet-plugin/mig.go:189-217 | printing what was parsed, with the same label, gives the name back if and only if its numerals have no leading zeros; what is parsed carries no PCI bus ID |
| ConfigResolution.CandidateConfigs | cmd/gpu-kubelet-plugin/device_state.go:1143-1158 | class configs before claim configs, each in order, nothing lost; an error if and only if a source is unknown |
| ConfigResolution.DecodeConfigs | cmd/gpu-kubelet-plugin/device_state.go:1160-1190 | exactly this driver's configs, in order; an error if and only if one is not opaque or does not decode |
| ConfigResolution.GetOpaqueDeviceConfigs | cmd/gpu-kubelet-plugin/device_state.go:1138-1191 | the driver's configs from lowest to highest rank; an error if and only if the list is unusable |
| ConfigResolution.PickConfig | cmd/gpu-kubelet-plugin/device_state.go:735-764 | the last applicable config wins; an error if and only if it names the request but has the wrong type |
| ConfigResolution.GetConfigResultsMap | cmd/compute-domain-kubelet-plugin/device_state.go:658-716 | each group holds exactly the results of this driver that its config won, in order; an error if and only if some result is refused |
| ConfigResolution.GroupedExactly | cmd/compute-domain-kubelet-plugin/device_state.go:681-716 | a result of this driver is in a group if and only if the config of the group won it, and in no group only if none did |
| ConfigResolution.WinnerIsTheHighestRanked | cmd/gpu-kubelet-plugin/device_state.go:1127-1137 | if some config of the allocation applies, the winner comes from the claim if any applicable one does, and from the last position among those of its source; else it is a default |
| ConfigResolution.NamedConfigWins | cmd/gpu-kubelet-plugin/device_state.go:741-757 | the last config that names a request wins it; the result is refused if and only if that config is a GpuConfig for no GPU, a MigDeviceConfig for no MIG device, and so on for each type |
| ConfigResolution.GeneralConfigWinsItsType | cmd/gpu-kubelet-plugin/device_state.go:758-770 | a config for all requests wins if and only if it is not of the wrong type |
| ConfigResolution.DefaultOfItsType | cmd/gpu-kubelet-plugin/device_state.go:704-723 | a request no config speaks about gets the default of its device's own type, and is not refused |
| ConfigResolution.OnlyVoiceDecides | cmd/gpu-kubelet-plugin/device_state.go:735-764 | whether a result is refused is decided by the only config of the allocation that speaks about it |
| ConfigResolution.EveryResultIsServed | cmd/compute-domain-kubelet-plugin/device_state.go:669-679 | with the defaults in front every result of the driver is in a group |
| ConfigResolution.NextGroup | cmd/gpu-kubelet-plugin/device_state.go:807-815 | the groups are a partition: walking them in any order meets each device as often as it was served |
| Imex.DeviceState.Prepare | cmd/compute-domain-kubelet-plugin/device_state.go:186-255 | idempotent on completed claims; refuses overlaps; refuses a channel while another completed claim holds channel 0; on success the file changes in this entry alone, each device was asked for as often as it is returned, and it is a channel, with the published ID, if and only if its name is published as one; nothing happens if the checkpoint cannot be read |
| Imex.DeviceState.PrepareAfresh | cmd/compute-domain-kubelet-plugin/device_state.go:216-254 | both writes keep at most one holder of channel 0 and no shared non-admin device; an error leaves at most the started entry |
| Imex.DeviceState.PrepareDevices | cmd/compute-domain-kubelet-plugin/device_state.go:412-501 | success for a claim that asks for a channel means no completed claim has channel 0; one device per result of this driver, channels with the ID published under the name |
| Imex.DeviceState.ChannelResultIsChecked | cmd/compute-domain-kubelet-plugin/device_state.go:692-712 | a channel result is never left to a daemon config, so the check cannot be by-passed |
| Imex.DeviceState.AssertImexChannelNotAllocated | cmd/compute-domain-kubelet-plugin/device_state.go:729-757 | it passes if and only if no completed claim holds the channel |
| Imex.DeviceState.ApplyComputeDomainChannelConfig | cmd/compute-domain-kubelet-plugin/device_state.go:544-592 | success means one result and channel 0 held by nobody |
| Imex.DeviceState.ApplyComputeDomainDaemonConfig | cmd/compute-domain-kubelet-plugin/device_state.go:594-656 | success means that all results name one device |
| Imex.DeviceState.ApplyConfigs | cmd/compute-domain-kubelet-plugin/device_state.go:424-455 | success means every winning config was a checked channel config or a daemon config |
| Imex.DeviceState.ValidateNoOverlappingPreparedDevices | cmd/compute-domain-kubelet-plugin/device_state.go:874-910 | it passes if and only if no other completed claim shares a non-admin device |
| Imex.DeviceState.Unprepare | cmd/compute-domain-kubelet-plugin/device_state.go:257-327 | success removes exactly this entry, failure none; a config that does not decode leniently makes it fail |
| Imex.DeviceState.Start | cmd/compute-domain-kubelet-plugin/device_state.go:147-181 | keeps the entries exactly when the stored boot ID is the current one or is missing; only in the second case may entries of an earlier boot be among them; a failed one changes nothing |
| Imex.HoldsExactlyWhatIsRequested | cmd/compute-domain-kubelet-plugin/device_state.go:481-495 | a claim comes to hold a channel if and only if one of its results asks this driver for a device published as that channel |
| Imex.DeviceState.WriteStartedEntry | cmd/compute-domain-kubelet-plugin/device_state.go:216-226 | the file gets the started entry with allocation, name and namespace of the claim, or it is as before |
| Imex.DeviceState.WriteCompletedEntry | cmd/compute-domain-kubelet-plugin/device_state.go:242-251 | the file gets the completed entry, and both exclusions still hold; or it is as before |
| ImexService.Serve | cmd/compute-domain-kubelet-plugin/device_state.go:186-327 | for any sequence of calls with crashes and restarts among them: of the claims, as given to the calls, that were prepared and not unprepared since at most one asks this driver for a device published as channel 0, with or without admin access, and no two ask for one device without |
| Imex.CompletingKeepsClaims | cmd/compute-domain-kubelet-plugin/device_state.go:242-248 | the completing write keeps both exclusions because the checks saw the same checkpoint |
| Membership.EveryVersionIsConsistent | cmd/compute-domain-daemon/cdclique.go:277-335 | in every version of every history fabric nodes are distinct and, within a clique, indices are distinct and in range |
| Membership.EditKeepsConsistent | cmd/compute-domain-controller/cdstatus.go:286-323 | every write of daemon or controller to the current version keeps that |
| Membership.CliqueFits | cmd/compute-domain-daemon/cdclique.go:337-349 | a clique never has more than the maximum number of members |
| Membership.RefusedExactlyWhenFull | cmd/compute-domain-daemon/cdclique.go:350-371 | no index is free if and only if the maximum number of members is present |
| Membership.IndexIsStable | cmd/compute-domain-daemon/cdclique.go:337-349 | a node keeps its index for as long as it is listed without a break |
| Membership.StayingMembersKeepTheMapping | cmd/compute-domain-daemon/cdclique.go:408-426 | between two versions across which members stay listed with their addresses the mapping does not change |
| Membership.EqualIPSetsCanHideAChange | cmd/compute-domain-daemon/cdclique.go:408-426 | a version can be followed by one with the same IP set and another mapping if and only if the clique has a member now and may have two |
| Membership.FilterCounts | cmd/compute-domain-controller/cdstatus.go:342-350 | a removal keeps exactly the members that qualify, each as often as it was listed |
| Membership.FilterIsInOrder | cmd/compute-domain-controller/cdstatus.go:342-350 | a removal keeps the order of the members |
| DaemonManagers.ApiObject.Update | cmd/compute-domain-controller/cdstatus.go:313-320 | an update lands only on the version it was made from; an error may come after it has landed |
| DaemonManagers.DaemonManager.EnsureCliqueExists | cmd/compute-domain-daemon/cdclique.go:195-227 | creates the empty object only if the cache knows none |
| DaemonManagers.DaemonManager.GetNextAvailableIndex | cmd/compute-domain-daemon/cdclique.go:350-371 | the least free index; an error if and only if the clique is full |
| DaemonManagers.DaemonManager.LeastFreeMeans | cmd/compute-domain-daemon/cdclique.go:350-371 | the index found is taken by no member of the clique and every smaller one is; full means that all below the maximum are |
| DaemonManagers.DaemonManager.Considered | cmd/compute-domain-daemon/cdstatus.go:294-300 | in the shared list only members of the own clique count |
| DaemonManagers.DaemonManager.SyncDaemonInfo | cmd/compute-domain-daemon/cdclique.go:277-335 | does nothing if up to date, else inserts or re-addresses its own entry and nothing else, on the version it read |
| DaemonManagers.DaemonManager.UpdateDaemonStatus | cmd/compute-domain-daemon/cdclique.go:429-477 | flips the readiness of the own entry alone, and only if it differs |
| DaemonManagers.DaemonManager.RemoveDaemonInfo | cmd/compute-domain-daemon/cdclique.go:374-404 | what it writes has exactly the members with another address than this pod's |
| DaemonManagers.DaemonManager.MaybePushDaemonsUpdate | cmd/compute-domain-daemon/cdclique.go:408-426 | pushes if and only if the IP set of the clique differs from the one pushed last |
| DaemonManagers.RunDaemons | cmd/compute-domain-daemon/cdclique.go:277-477 | any number of daemons, their calls in any order and each on a view however old: every view stays a version of the object, and every version is consistent |
| DaemonManagers.ClusterController.CleanupClique | cmd/compute-domain-controller/cdstatus.go:286-323 | what it writes has exactly the members whose node has a daemon pod; unless an error is logged it writes if and only if some member's node has none |
| DaemonManagers.ClusterController.GetNonStaleFabricNodes | cmd/compute-domain-controller/cdstatus.go:329-352 | a member is kept if and only if it is in a clique and some fabric pod has its address |
| DaemonManagers.ClusterController.SyncCD | cmd/compute-domain-controller/cdstatus.go:208-239 | what it writes are the fabric members whose address some fabric pod has, and the other pods; unless an error is logged it writes if and only if that differs from the list by name |
| DaemonManagers.NodesFromPodsAre | cmd/compute-domain-controller/cdstatus.go:259-283 | a node is listed if and only if a placed pod with that address and readiness exists, without clique and index |
| DaemonManagers.NodesFromPodsCounts | cmd/compute-domain-controller/cdstatus.go:259-283 | each pod that is placed and has an address is listed as often as there are such pods |
| DaemonManagers.LastByNameIsLast | cmd/compute-domain-controller/cdstatus.go:355-365 | lists are compared by the last member of each name |
| DnsNames.NamesAreABijection | cmd/compute-domain-daemon/dnsnames.go:65-102 | for every version naming never fails, all names are in the nodes file, and with distinct addresses the mapping is a bijection |
| DnsNames.NamesAgreeAcrossVersions | cmd/compute-domain-daemon/cdclique.go:337-341 | a member that stays listed with its address has one name in the mappings of any two versions |
| DnsNames.HiddenChangeIsAnotherMapping | cmd/compute-domain-daemon/cdclique.go:408-426 | what comparing IP sets hides is a change of the mapping: the same addresses, not all with the same names |
| DnsNames.NameOfIsInjective | cmd/compute-domain-daemon/dnsnames.go:133-142 | the zero-padded name determines the index |
| DnsNames.LastMemberCounts | cmd/compute-domain-daemon/dnsnames.go:71-84 | of several members with one address the last gives the name |
| DnsNames.AfterAnyRewrites | cmd/compute-domain-daemon/dnsnames.go:145-188 | after any number of rewrites the mapping lines are the last entries, other people's lines are kept in order, and clutter has grown by two lines a rewrite |
| DnsNames.UpdatedFileShowsTheMap | cmd/compute-domain-daemon/dnsnames.go:177-180 | the lines of an updated file that mention a daemon name are an address, a tab and its name for each entry of the map; other people's lines are as before, trimmed |
| DnsNames.UpdatedFileIs | cmd/compute-domain-daemon/dnsnames.go:145-188 | line by line: what did not mention a daemon name, trimmed; the separator; the entries |
| DnsNames.ShownLines | cmd/compute-domain-daemon/dnsnames.go:177-180 | the file shows a map if and only if the lines that mention a daemon name are address, tab and name of its entries, each once |
| DnsNames.TrimSpaceOnlyTrims | cmd/compute-domain-daemon/dnsnames.go:152-171 | trimming takes white space from both ends of a line and nothing else |
| DnsNames.SplitUndoesUnlines | cmd/compute-domain-daemon/dnsnames.go:152-171 | what is written line by line splits into these lines and an empty one |
| DnsNames.DNSNameManager.ConstructDNSName | cmd/compute-domain-daemon/dnsnames.go:133-142 | succeeds if and only if the index is in range; the name is the prefix and a numeral of that value, of four digits below 10000 |
| DnsNames.DNSNameManager.UpdateDNSNameMappings | cmd/compute-domain-daemon/dnsnames.go:65-102 | fails without effect if some index of the clique is out of range; else the map is the new one, and the file is rewritten only if it changed; a failed write leaves any content |
| DnsNames.DNSNameManager.UpdateHostsFile | cmd/compute-domain-daemon/dnsnames.go:145-188 | one rewrite with each entry of the map once, or an error, after which the file may hold anything |
| DnsNames.DNSNameManager.HandleUpdate | cmd/compute-domain-daemon/main.go:392-406 | one turn of the loop: a list that changes the map makes the file show it, any other leaves map and file alone |
| DnsNames.DNSNameManager.UpdateLoop | cmd/compute-domain-daemon/main.go:384-431 | whatever the file holds at first, the first list that changes the map makes the file show it, and from then on its mapping lines are the entries of the last list received, for the loop ends with the first error; until then the file is not touched |
| DnsNames.DNSNameManager.WriteNodesConfig | cmd/compute-domain-daemon/dnsnames.go:191-216 | all possible names, one per line, in order; after an error the file may hold anything |
| CounterSums.SumsFitExactlyWhenPlacementsDo | cmd/gpu-kubelet-plugin/partitions.go:188-214 | the scheduler's sums fit if and only if placements lie on the GPU, none overlap, and the other dimensions fit |
| CounterSums.FittingSizesAddUp | cmd/gpu-kubelet-plugin/partitions.go:195-202 | devices that fit take no more slices than there are |
| CounterSums.FullGpuExcludesTheRest | cmd/gpu-kubelet-plugin/partitions.go:85-99 | next to the full GPU no non-empty device fits |
| CounterSums.AddCountersForMemSlices | cmd/gpu-kubelet-plugin/partitions.go:234-239 | one unit of memory-slice-N for each slice N of the placement |
| CounterSums.SliceAdded | cmd/gpu-kubelet-plugin/partitions.go:234-248 | a slice counter is there if and only if the placement covers the slice, with value one |
| CounterSums.SliceNamesAreInjective | cmd/gpu-kubelet-plugin/partitions.go:246-248 | different slices have different counters |
| Partitions.CamelToDNSNameKeepsLetters | cmd/gpu-kubelet-plugin/mig.go:262-273 | a counter name without its hyphens is the capacity name in small letters |
| Partitions.CounterNameIsGood | cmd/gpu-kubelet-plugin/mig.go:118-135 | counters of different dimensions never collide, with each other or with a slice |
| Partitions.CounterNamesAre | cmd/gpu-kubelet-plugin/mig.go:262-273 | the seven counter names |
| Partitions.CapacitiesAre | cmd/gpu-kubelet-plugin/mig.go:118-135 | each capacity is the profile's own number, memory in bytes |
| Partitions.GpuShareIs | cmd/gpu-kubelet-plugin/partitions.go:70-83 | a GPU's set has one unit of each of its slices, each maximum under its counter, and nothing else |
| Partitions.PartitionShareIs | cmd/gpu-kubelet-plugin/partitions.go:209-214 | a partition takes one unit of each slice of its placement and its profile's capacities, and nothing else |
| Partitions.MaximaMean | cmd/gpu-kubelet-plugin/nvlib.go:1236-1266 | the maxima bound every partition, and each is reached by one |
| Partitions.CapacitiesToCounters | cmd/gpu-kubelet-plugin/partitions.go:179-186 | each dimension under its own counter with its value |
| Partitions.CountersForIs | cmd/gpu-kubelet-plugin/partitions.go:179-186 | the counters are those of its dimensions, each with its value, and nothing else |
| Partitions.InspectMigProfilesAndPlacements | cmd/gpu-kubelet-plugin/nvlib.go:1202-1277 | a partition is found if and only if it is a placement of a profile with as many compute as GPU slices that is not the media variant and whose queries are answered; maxima over them; an error if and only if a query of such a profile fails |
| Partitions.SetMax | cmd/gpu-kubelet-plugin/nvlib.go:1368-1372 | the larger value stays, other keys are untouched |
| Partitions.AllocatableExactlyWhenWithinLargest | cmd/gpu-kubelet-plugin/nvlib.go:1248-1257 | on an idle GPU a partition fits if and only if it ends within the inferred slice count |
| Partitions.FittingDevicesDoNotOverlap | cmd/gpu-kubelet-plugin/partitions.go:70-99 | devices of one GPU that fit have disjoint slices, fit in number, and the full GPU stands alone |
| Partitions.PartSharedCounterSets | cmd/gpu-kubelet-plugin/partitions.go:70-83 | one counter set with everything, none without partitions |
| Partitions.PartitionConsumesCounters | cmd/gpu-kubelet-plugin/partitions.go:209-214 | a partition takes its capacities and its slices from its parent's set |
| ResourceSlices.GenerateSplitResourceSlices | cmd/gpu-kubelet-plugin/driver.go:201-252 | devices and counter sets in the order of GPUs and names, counter sets in the first slice alone |
| ResourceSlices.GenerateCombinedResourceSlices | cmd/gpu-kubelet-plugin/driver.go:257-307 | the same devices in the same order and the same counter sets, one slice per GPU |
| ResourceSlices.EveryConsumptionIsPublished | cmd/gpu-kubelet-plugin/partitions.go:204-214 | each consumption names exactly one published set, which has every consumed counter with at least that value |
| ResourceSlices.EveryDeviceIsPublishedOnce | cmd/gpu-kubelet-plugin/driver.go:201-252 | published and allocatable devices correspond one to one; a MIG device's name is its GPU's minor, label, profile ID and start, and reads back as them, a GPU's is its minor; each consumes exactly its slices and capacities from its GPU's set |
| ResourceSlices.PublishedNameIsTheKey | cmd/gpu-kubelet-plugin/driver.go:201-307 | where devices are kept by name, what is published under a name is the device found under it |
| ResourceSlices.SetsAreThoseOfTheGpus | cmd/gpu-kubelet-plugin/driver.go:201-252 | the published sets are those of the GPUs with devices and partitions, with everything the GPU has |
| ResourceSlices.CounterSetNamesAreInjective | cmd/gpu-kubelet-plugin/partitions.go:62-64 | different minors have different counter sets |
| ProcessManager.StepKeepsInv | cmd/compute-domain-daemon/process.go:81-163 | every step of any thread or reaper keeps the invariant |
| ProcessManager.AtMostOneChildIsAlive | cmd/compute-domain-daemon/process.go:81-116 | in every interleaving at most one child is alive, and the handle names it |
| ProcessManager.HandleNamesTheChild | cmd/compute-domain-daemon/process.go:105-137 | from start to reaping the handle names the child; each reaper waits for its own child, once |
| ProcessManager.ExitsAreConsumedOnce | cmd/compute-domain-daemon/process.go:122-137 | no exit is consumed twice, and none before the process is gone |
| ProcessManager.ChannelNeverBlocksThem | cmd/compute-domain-daemon/process.go:183-197 | neither a reaper's send nor the watchdog's read ever blocks |
| ProcessManager.SignalsReachTheChildOrNobody | cmd/compute-domain-daemon/process.go:71-79 | a signal reaches the one unconsumed child or fails |
| ProcessManager.WatchdogIsRefusedExactlyAfterAStart | cmd/compute-domain-daemon/process.go:81-116 | in every interleaving the watchdog's start is refused if and only if a child was started after the handle was cleared and its handle is not cleared again |
| ProcessManager.WatchdogCanLoseTheRace | cmd/compute-domain-daemon/process.go:190-197 | there is a run from the start on which the update loop starts a child before the restarting watchdog does, and the watchdog is refused while that child runs |
| ProcessManager.PlainStopStartsNothing | cmd/compute-domain-daemon/process.go:139-163 | a plain stop never starts a child, however it goes and whatever other threads do |
| ProcessManager.RestartGoesOnToStart | cmd/compute-domain-daemon/process.go:49-57 | once the stop of a restart has cleared the handle, the thread goes on to take the lock for starting, and does nothing else |
| ProcessManager.StopEndsAndRestartReplaces | cmd/compute-domain-daemon/process.go:49-57 | while a child runs undisturbed, stop can end it and leave none, and restart can end it and start the next |
| WorkQueue.NewestIsNeverLost | pkg/workqueue/workqueue.go:115-126 | the newest item of a key waits, runs or has succeeded |
| WorkQueue.DroppedExactlyForANewerOne | pkg/workqueue/workqueue.go:167-180 | a failed keyed item is dropped if a newer one of its key is unfinished, and waits again otherwise |
| WorkQueue.UnkeyedIsRetried | pkg/workqueue/workqueue.go:100-113 | a failed item without a key waits again, unless an item with the empty key is unfinished |
| WorkQueue.UnkeyedIsNeverLost | cmd/compute-domain-controller/computedomain.go:128-134 | where nobody uses the empty key, an item without a key is never dropped |
| WorkQueue.LatestWinsUnlessAddedBehind | pkg/workqueue/workqueue.go:141-149 | for each key: if nothing is added behind a waiting item of that key, whatever runs is the newest of its key, whatever happens to other keys |
| WorkQueue.OlderItemCanRunAfterNewer | pkg/workqueue/workqueue.go:181-189 | and otherwise an older item can run after the newer one has succeeded |
| WorkQueue.WaitGroupIsZeroExactlyWhenAllHaveResults | cmd/compute-domain-kubelet-plugin/driver.go:165-194 | with distinct UIDs no claim is dropped and the wait group is zero if and only if every claim has a result |
| WorkQueue.FinishedIsFinal | cmd/compute-domain-kubelet-plugin/driver.go:176-184 | a callback that was done is never called again |
| WorkQueue.RepeatedUidHoldsTheWaitGroup | cmd/compute-domain-kubelet-plugin/driver.go:187-193 | with a repeated UID, if the first of the two items fails once, nothing that happens later brings the wait group to zero |
| WorkQueue.KeyedQueue.EnqueueWithKey | pkg/workqueue/workqueue.go:115-126 | the new item takes over the key, older ones stay queued |
| WorkQueue.KeyedQueue.EnqueueRaw | pkg/workqueue/workqueue.go:92-98 | the new item waits; no key changes hands |
| WorkQueue.KeyedQueue.Get | pkg/workqueue/workqueue.go:152-157 | the item handed out waits no longer |
| WorkQueue.KeyedQueue.Reconciled | pkg/workqueue/workqueue.go:152-190 | forget, retry or drop, and the key is freed only by its current item |
| Codec.WrittenVerifies | cmd/gpu-kubelet-plugin/checkpoint.go:37-138 | what is marshalled verifies under both checksums; it reads back with exactly the claims and boot ID of version 2 if there is one, with exactly the claims of version 1, completed, if there is only that, and without claims otherwise; its version 1 has exactly the completed ones |
| Codec.ChecksumsTellContentsApart | cmd/gpu-kubelet-plugin/checkpoint.go:65-89 | with a checksum function that tells trees apart, two parts that verify with one checksum have one content |
| Codec.WrittenNames | cmd/gpu-kubelet-plugin/checkpointv.go:67-85 | the names in the file, and how a state is written |
| Codec.WrittenNamesV1 | cmd/gpu-kubelet-plugin/checkpointv.go:89-98 | the names in its version 1 part |
| Codec.WrittenGroups | cmd/gpu-kubelet-plugin/checkpointv.go:79-85 | the device groups are written in order |
| Codec.WrittenVerifiesForV1Readers | cmd/gpu-kubelet-plugin/checkpoint.go:26-35 | a reader that ignores version 2 verifies the same file and finds exactly the completed claims of version 2, or all of version 1 if there is no version 2 |
| Codec.RoundTrip | cmd/gpu-kubelet-plugin/checkpoint.go:91-93 | reading undoes writing, up to nil for empty |
| Codec.SameVerifiesTheSame | cmd/gpu-kubelet-plugin/checkpointv.go:74-104 | checksums do not tell nil from empty |
| Codec.V1SurvivesV2 | cmd/gpu-kubelet-plugin/checkpointv.go:108-136 | ToV1 after ToV2 is the identity |
| Codec.CompletedSurviveV1 | cmd/gpu-kubelet-plugin/checkpointv.go:122-136 | a trip through version 1 keeps exactly the completed entries, unchanged if and only if they carry no name |
| Codec.ConvertToV2 | cmd/gpu-kubelet-plugin/checkpointv.go:108-120 | every version 1 claim comes back completed |
| Codec.ConvertToV1 | cmd/gpu-kubelet-plugin/checkpointv.go:122-136 | exactly the completed claims go down |
| Codec.CheckpointObject.ToLatestVersion | cmd/gpu-kubelet-plugin/checkpoint.go:37-51 | an existing version 2 part itself, its claims, boot ID and checksum untouched; else the claims of version 1, completed; else none |
| Codec.CheckpointObject.MarshalCheckpoint | cmd/gpu-kubelet-plugin/checkpoint.go:53-63 | the latest version and its downgrade with good checksums; a version 2 part reads back with exactly its claims and boot ID, and of the receiver only its checksum and a nil map are touched |
| Codec.CheckpointObject.SetChecksumV1 | cmd/gpu-kubelet-plugin/checkpoint.go:65-79 | sets the outer checksum and puts version 2 back |
| Codec.CheckpointObject.VerifyChecksum | cmd/gpu-kubelet-plugin/checkpoint.go:95-138 | true if and only if both checksums are right, and everything is as before |
| Codec.CheckpointObject.UnmarshalCheckpoint | cmd/compute-domain-kubelet-plugin/checkpoint.go:91-117 | the current format, or a legacy file with a good checksum, converted; an error, or the nil dereference of the conversion; the recursion ends |
| Codec.LegacySurvives | cmd/compute-domain-kubelet-plugin/checkpoint_legacy.go:87-162 | a legacy file with a claim is accepted if and only if its checksum is that of its content, and keeps every claim and device field, completed and without a name |
| Codec.ConversionPanicsExactlyWithoutV1 | cmd/compute-domain-kubelet-plugin/checkpoint_legacy.go:145-162 | the conversion dereferences a nil version 1 if and only if version 1 is missing, version 2 is there and does not decode, and the checksum is that of an empty legacy file |
| Codec.ConversionCanPanic | cmd/compute-domain-kubelet-plugin/checkpoint.go:91-117 | whatever the checksum function, there is such a file |
| StaleCleanup.CleanupRemovesOnlyGoneClaims | cmd/gpu-kubelet-plugin/cleanup.go:110-212 | whatever interleaves, a successful unpreparation by the cleaner removes exactly the doomed entry, and that is of a claim whose UID no longer exists and never will |
| StaleCleanup.GoneClaimsAreFound | cmd/gpu-kubelet-plugin/cleanup.go:149-186 | an unfinished entry is found stale by a sweep that reaches the API server if and only if its claim is gone; then it is removed, else it stays |
| StaleCleanup.GoneStaysGone | cmd/gpu-kubelet-plugin/cleanup.go:174-183 | a UID that is gone stays gone |
| StaleCleanup.FilterUnfinished | cmd/gpu-kubelet-plugin/cleanup.go:117-123 | exactly the started entries |
| StaleCleanup.DecideStale | cmd/gpu-kubelet-plugin/cleanup.go:149-186 | stale if and only if the name is known and the answer is that nothing, or an object with another UID, has it |

## Left out

Assumptions that the code makes and the theorems state or rest on:

- A GPU instance ID is not handed out again while an entry holds it; rollback is aimed at published names only; entries
  in a file without a boot ID do not survive a reboot; boot IDs and claim UIDs are not reused.
- NVML answers when the rollback's lookup walks the devices of a GPU: the plugin passes over its errors there, and would
  take a device that it cannot see for gone.
- Dynamic MIG is on. Creating and destroying a MIG device are one step each: a GPU instance without a compute instance,
  which the plugin's walkers do not find, is not modelled.
- Nobody else creates or destroys MIG devices; feature gates stay as they are; checkpoint entries carry an allocation and
  one of the two known states; all daemons of a domain are given the same maximum.
- The plugin's file locks exclude each other, so Prepare and Unprepare do not overlap; retries may come in any order.

Not modelled:

- Static MIG, vfio pass-through and the advertisement of siblings, MPS, time slicing, MIG mode and persistence mode.
- CDI specs, container edits and mounts; node labels and ComputeDomain readiness, which may fail at any time here.
- Kubernetes plumbing: clients, informers, finalizers, the deletion order of ComputeDomains, webhooks, health checks.
- Integer widths, except that parsed numbers must fit an int; the text of JSON and the checksum function; delays and back-off.
- Reading a legacy file first fills the receiver in part and fails; the second read is modelled as into an empty one.
- `getNextAvailableIndex` of the shared list lets a daemon without a clique exceed the maximum; no such daemon runs it.
- GPU and process state are values stepped by functions, not objects: `GpuInfo` is filled in once, and the threads of
  the process manager have no common caller.
- The controller's status in clique mode, which copies clique members into the ComputeDomain, and the check that the
  IMEX daemon's driver is recent enough.
- Imex.DeviceState.Unprepare: an entry without an allocation, which the plugin then looks up in the API server, is not modelled.
- Partitions.FittingDevicesDoNotOverlap: needs a positive slice count and non-empty placements, as every MIG profile has.
- GpuService.Serve: speaks of calls within one boot, because a reboot takes the devices and the next start drops the entries (`Reboot`, `Start`).
- ImexService.Serve: speaks of calls within one boot, and starts from entries whose devices are those their results ask for.
- GpuAccounting.PlainClaimsAreAccounted: holds for plain claims only, because it is false for others (AccountedExactlyForPlainResults).
- GpuSafety.EntriesAreOfThisBoot: starts from a file with a boot ID or without entries, because it is false otherwise (StartupTrustsOnlyStampedFiles).
- Codec.LegacySurvives: a legacy claim with a nil list of devices is not modelled; it is written as null, with which the
  claim passes for one of the current format without devices.
- DnsNames.DNSNameManager.UpdateHostsFile: does not say what a failed write leaves in the file, which os.WriteFile truncates first.

Nothing was executed: the model is checked by Dafny's verifier alone.
