# The network DRA driver's claim lifecycle, in Dafny

A model of the node side of the Dynamic Resource Allocation driver: how a resource claim is
prepared and unprepared on a node, what its devices and container edits are, and what stays true
of the three stores on disk, which are not updated together:

* the checkpoint file, which lists the prepared claims and is replaced by writing a temporary
  file and renaming it;
* the Container Device Interface (CDI) specification of each claim;
* the directory of each claim and request below `/var/run/kubevirt/cdi`, with its `device.json`.

## How it is modelled

* `disk.dfy` has the store and its durable steps. A call is a list of steps; the environment
  gives each step a fate. A step that fails changes nothing and ends the call, unless the driver
  only logs that failure. When the fates run out the process dies. So one list of fates says at
  once where a call is cut, which step fails, and which cleanup failures are passed over.
* `lifecycle.dfy` says which steps Prepare and Unprepare are, depending on the checkpoint they
  read. An `Attempt` is a call with its environment; `Serial` runs any list of attempts, so a
  statement about `Serial(driver, log, s)` for all `log` is about every reachable state, every
  cut included. `state.dfy` has the driver's state as a class whose methods change the stores
  step by step, and proves that Prepare and Unprepare do what those step lists say.
* `concurrency.dfy` is a state machine: any number of threads, a mutex, one event per durable
  step, and a crash that may happen at any moment. Every trace of it is shown to equal a
  `Serial` run, so that the results below hold of concurrent runs as well, and `realising.dfy`
  shows that every `Serial` run is one that a trace produces. `racing.dfy` has two threads without
  the mutex.
* `configs.dfy`, `devices.dfy`, `grouping.dfy`, `merging.dfy` and `computed.dfy` model how
  configurations are collected, ranked and applied. Go walks a map twice in an order that it does
  not fix; the two orders are parameters (`first`, `second`) and the results hold for all pairs.
* `claimname.dfy`, `paths.dfy`, `cdi.dfy` and `network.dfy` model names: the migration-stable
  part of a claim name, directories, CDI names, and the network profile.
* `directories.dfy`, `ledger.dfy` and `effects.dfy` say what one attempt does to the directories,
  the checkpoint and the specifications; `safety.dfy` and `sweeping.dfy` say what a run keeps true
  of specifications and directories; `restoring.dfy`, `convergence.dfy`, `roundtrip.dfy`,
  `delivery.dfy`, `leftovers.dfy` and `batches.dfy` prove the other properties, and
  `incidents.dfy` has runs in which the driver does not keep what it is meant to keep.
* `steps.dfy` says what each call reports and leaves at each of its steps, and `promises.dfy` what
  users see, with paths, identifiers, variables and fields written out.

The profile's decoder and its ApplyConfig are function values of the `Driver`. The network
profile is the driver for which `Network.IsNetwork` holds: nothing decodes, because the profile
registers no configuration type, and the edits are those of `Network.ApplyConfig`.

## Hypotheses

The statements make these explicit where they need them. The last column names what is proved
about the cases they exclude.

| hypothesis | in the model | otherwise |
|---|---|---|
| a prepared claim has a result for this driver | `Own(driver, claim) != []`, `AllOwn` | `Ledger.ListedTwiceIff`, `Incidents.ListedTwiceRun`: preparing it twice lists it twice |
| a claim without own results does not change while it is recorded | `IsRun` | `Ledger.FirstPrepareAppends`: it is listed once more. Claims with own results may change at any time, `Safety.OwnRuns` |
| the checkpoint is readable in Unprepare | `IsUnprepareOf`, `Readable(file, readOk).Some?` | `Ledger.UnreadableUnprepareForgetsAll` |
| the allocation is present on first Prepare | `Computable` | `Incidents.PreparePanicsIff` |
| no other claim reaches a claim's directory | `Refilled`, `Apart`, `Elsewhere` | `Incidents.UnprepareSparesIff`, `Incidents.SharedDirectoryRun` |
| cleanup covers setup, for instance because device names are distinct | `CleanupCovers`, `DistinctDevices` | `Directories.CleanupCoversIff`, `RoundTrip.RoundTripIff`, `Incidents.MissedDirectoryRun` |
| groups agree about the edits of own results' devices | `OwnEditsAgree` | `Computed.OrderIndependentIff`: what is prepared depends on the iteration orders |
| the profile edits only devices it was given | `EditsAreLocal` | `Incidents.ForeignEditsCanDisagree`; the network profile meets it, `Network.NetworkIsLocal` |
| requests have different directories | `DistinctDirs` | `Directories.MetadataNamesLast`: `device.json` names the last result that shares the directory |
| the Unprepare that replaces the checkpoint first had no removal fail | `FirstIsClean`, `AllSucceed` | `Convergence.UnprepareConvergesIff`, `Convergence.ReturnedForgetsIff`, `Convergence.FailedRemovalLeaks` |

## What the proofs found

* Prepare takes an empty restored list for "not prepared yet" (state.go:169). A claim without a
  result of this driver is therefore set up again, and listed again, by every Prepare.
* When the checkpoint cannot be read, Unprepare first replaces it by an empty one and then
  dereferences a nil checkpoint (state.go:194-204): every claim is forgotten, their directories
  and specifications stay, and the call reports no success.
* An Unprepare that is cut before its rename leaves a claim in the checkpoint without its
  specification and directories, and a later Prepare of that claim reports success without
  repairing it.
* `DeviceRequests` is keyed by device name alone, across all drivers of the allocation
  (state.go:394). When a later result of another driver has the same device name, Unprepare
  does not remove the directory that Prepare made.
* A failed directory removal is logged and the claim is forgotten all the same, so no later
  Unprepare removes the directory.
* A Prepare that is cut before its rename and then given up, instead of retried, leaves its
  directories: Unprepare does not find the claim in the checkpoint and reports success.
* Two machines of one name in two namespaces, or of which one's name goes on after the other's with
  a dash, can get the same stable claim name: the namespace plays no part in the path
  (state.go:634-638). Their claims then share a directory when their requests have one name, and
  unpreparing one removes it from under the other.
* writeCheckpoint can report an error after the new checkpoint is in place, because closing the
  temporary file comes after the rename.
* The claim-name parser takes the first segment that looks like a pod hash. The comment at
  state.go:544-547 promises a migration-stable name; the code keeps that promise exactly for
  machine names without a segment of five letters or digits. A hash in the first place gives a
  result that starts with a dash.

## Model

| member | source | states |
|---|---|---|
| ClaimNames.ExtractStableClaimName | cmd/dra-example-kubeletplugin/state.go:548-606 | the parser's loop and early exits compute `StableName` on every string |
| ClaimNames.CheckAlphanumeric | cmd/dra-example-kubeletplugin/state.go:609-616 | true if and only if every character is a letter or digit |
| ClaimNames.ChangedIffDecomposes | cmd/dra-example-kubeletplugin/state.go:552-594 | a name is changed if and only if it is the prefix and at least four dash-separated segments with a hash-like one that has two more behind it |
| ClaimNames.StructureResult | cmd/dra-example-kubeletplugin/state.go:575-605 | the segments of a changed name are the input's less the first hash-like one and the last one, an empty segment standing in for a hash in first place |
| ClaimNames.MigrationStableIff | cmd/dra-example-kubeletplugin/state.go:544-606 | all pod and claim hashes give `<vmi>-<template>` if and only if no segment of the VMI name is five letters or digits |
| Promises.KeepsNameIff | cmd/dra-example-kubeletplugin/state.go:548-606 | the same with prefix, length and alphabet written out: `virt-launcher-<vmi>-<pod>-<template>-<hash>` gives `<vmi>-<template>` for every pod hash of exactly five letters or digits and every dash-free claim hash if and only if no segment of the VMI name is exactly five letters or digits |
| Promises.OtherNamesStay | cmd/dra-example-kubeletplugin/state.go:552-565 | a name without the prefix, or with fewer than four segments behind it, stays as it is |
| ClaimNames.DriftsWithHashSegment | cmd/dra-example-kubeletplugin/state.go:578-589 | otherwise two different pod hashes always give two different stable names |
| ClaimNames.StableWithHashSegment | cmd/dra-example-kubeletplugin/state.go:581-605 | what the result is when the VMI name has a hash-like segment: that segment goes and the pod hash stays |
| ClaimNames.CanShareIff | cmd/dra-example-kubeletplugin/state.go:596-605 | claims of two machines can get one stable name for all pods and claim hashes if and only if neither VMI name has a hash-like segment and they are equal or one goes on after the other with a dash |
| ClaimNames.UniqueRecovery | cmd/dra-example-kubeletplugin/state.go:596-605 | where neither VMI name, without a hash-like segment, goes on after the other with a dash, equal stable names mean equal VMI and equal template |
| ClaimNames.SharedNameExists | cmd/dra-example-kubeletplugin/state.go:601-605 | two such machines, for all pod and claim hashes |
| Network.ExtractStableClaimName | internal/profiles/network/network.go:112-159 | the profile's copy computes the same function as the driver's |
| Configs.GetOpaqueDeviceConfigs | cmd/dra-example-kubeletplugin/state.go:468-521 | the two-way split, append and decode loop compute `Collect`, errors included |
| Configs.CollectSucceedsIff | cmd/dra-example-kubeletplugin/state.go:477-510 | collection succeeds if and only if every source is known, every configuration is opaque and every own one decodes |
| Configs.CollectIsRanked | cmd/dra-example-kubeletplugin/state.go:457-520 | on success the output is exactly the own configurations, each decoded once, in strictly rising precedence |
| Configs.CollectRejectsUnknown | cmd/dra-example-kubeletplugin/state.go:477-487 | the error is that of an unknown source if and only if some configuration has one |
| Configs.DecodeError | cmd/dra-example-kubeletplugin/state.go:491-510 | otherwise it is that of the first candidate which is not opaque or does not decode |
| Configs.ScanFindsWinner | cmd/dra-example-kubeletplugin/state.go:319-342 | the backward scan behind the default finds the applicable own configuration of highest precedence, and the default if and only if none applies |
| Devices.CheckAdminAccess | cmd/dra-example-kubeletplugin/state.go:425-434 | true if and only if some result asks for admin access |
| Devices.ScanBackward | cmd/dra-example-kubeletplugin/state.go:336-341 | stops at the last configuration that matches the request |
| Devices.GroupResults | cmd/dra-example-kubeletplugin/state.go:326-342 | groups the own results by the configuration that applies, each group in allocation order, or names the first device that is not allocatable |
| Devices.ApplyConfigs | cmd/dra-example-kubeletplugin/state.go:347-359 | visiting the groups in any order, merges the edits each group's configuration gives, and fails if and only if some group is rejected |
| Devices.ListDevices | cmd/dra-example-kubeletplugin/state.go:363-378 | visiting the groups in any order, lists each group's devices with the merged edits |
| Computed.ComputeDeviceConfig | cmd/dra-example-kubeletplugin/state.go:302-381 | succeeds on exactly the claims this driver can prepare, with a permutation of the own results' devices; the prepared devices are those of `Compute` for two orders that each visit every group once |
| Computed.ComputeSucceedsIff | cmd/dra-example-kubeletplugin/state.go:303-353 | success has one condition on the claim, and neither success nor the error depends on the iteration orders |
| Promises.ErrorSpelledOut | cmd/dra-example-kubeletplugin/state.go:303-353 | which error is found, by the claim alone: no allocation, an unknown source, a bad candidate, a device not on offer, in this order |
| Computed.UnallocatableIsFirst | cmd/dra-example-kubeletplugin/state.go:332-334 | the device that is named is that of the first own result not on offer |
| Claims.OwnInOrder | cmd/dra-example-kubeletplugin/state.go:326-329 | the own results are those at the positions of this driver's results, in order |
| Computed.DevicesConserved | cmd/dra-example-kubeletplugin/state.go:326-378 | for every pair of orders the devices are a permutation of exactly the driver's own results |
| Promises.ComputeTells | cmd/dra-example-kubeletplugin/state.go:361-380 | the devices are one for each own result, as often as it was allocated, with its request, pool and device name and the identifiers `k8s.<driver>/<profile>=common` and `k8s.<driver>/<profile>=<uid>-<device>` |
| Promises.PrepareTells | cmd/dra-example-kubeletplugin/state.go:157-188 | the same of every Prepare that reports success, first or later |
| Computed.NothingPreparedIff | cmd/dra-example-kubeletplugin/state.go:361-380 | the list is empty if and only if no result is this driver's |
| Computed.GroupsKeepAllocationOrder | cmd/dra-example-kubeletplugin/state.go:338-377 | reading one configuration's group out of the device list gives its results in allocation order |
| Computed.EditsOrderFreeIff | cmd/dra-example-kubeletplugin/state.go:344-359 | the merged edits, of all devices that the groups edit, are the same for all orders if and only if groups that edit the same device agree about it |
| Computed.OrderIndependentIff | cmd/dra-example-kubeletplugin/state.go:344-378 | what is prepared is the same for all pairs of orders, up to list order, if and only if groups that edit the device of an own result agree about it |
| Computed.DistinctDevicesAgree | cmd/dra-example-kubeletplugin/state.go:355-358 | with distinct device names groups always agree |
| Computed.PreparedOrderFree | cmd/dra-example-kubeletplugin/state.go:344-378 | groups that agree about the devices of own results give the same prepared devices, edits included, for any two pairs of orders, up to list order |
| Computed.WinnerIsApplied | cmd/dra-example-kubeletplugin/state.go:319-378 | end to end, each own result is prepared with the edits the profile derives from the configuration of highest precedence, for the group of results that share it |
| Promises.PreparesWinner | cmd/dra-example-kubeletplugin/state.go:319-378 | the same with the fields of the prepared device written out, and admin access if and only if some result of the claim has it |
| Merging.LastVisitedWins | cmd/dra-example-kubeletplugin/state.go:355-358 | of the groups that edit a device, the one visited last decides |
| Cdi.GetClaimDevices | cmd/dra-example-kubeletplugin/cdi.go:131-142 | the loop builds the common identifier followed by one per device |
| Cdi.BuildClaimSpec | cmd/dra-example-kubeletplugin/cdi.go:86-115 | the loop builds one CDI device per prepared device, claim edits first and then the profile's |
| Promises.DeviceEnv | cmd/dra-example-kubeletplugin/cdi.go:93-112 | name, environment and mounts of a CDI device: `<uid>-<device>`, the claim variable, `DRA_ADMIN_ACCESS=true` or `=false`, then the profile's edits |
| Promises.SpecCounts | cmd/dra-example-kubeletplugin/cdi.go:86-115 | a claim's specification has one device for each own result and no other |
| Promises.SpecsAreOfKind | cmd/dra-example-kubeletplugin/cdi.go:86-124 | every specification on disk in a run has the kind `k8s.<driver>/<profile>` |
| Cdi.DeviceIdInjective | cmd/dra-example-kubeletplugin/cdi.go:110-138 | between claim identifiers of one length a CDI identifier determines claim and device and is never the common one |
| Network.OfferSlots | internal/profiles/network/network.go:59-80 | the driver offers exactly max(0, numDevices) allocatable devices, each name `network-<i>` with its index and type |
| Network.EnumerateDevices | internal/profiles/network/network.go:65-80 | the counting loop lists the slots in order with their index and kind |
| Network.BuildAllocatable | cmd/dra-example-kubeletplugin/state.go:129-134 | the map holds, per name, the last device of that name |
| Network.AllocatableCount | cmd/dra-example-kubeletplugin/state.go:129-134 | distinct names give as many entries as devices |
| Network.AllocatableHolds | cmd/dra-example-kubeletplugin/state.go:129-134 | each name has the last device of that name |
| Network.SlotNameInjective | internal/profiles/network/network.go:70 | enumerated names are pairwise distinct, by decoding their decimal number |
| Text.DecimalIsCanonical | internal/profiles/network/network.go:70 | the number in a name is decimal digits with its value and without a leading zero |
| Network.SlotEnvKeyInjective | cmd/dra-example-kubeletplugin/cdi.go:95 | they stay distinct as normalised environment keys |
| Cdi.EnvKeysCollideIff | cmd/dra-example-kubeletplugin/cdi.go:32 | two device names of lower-case letters, digits and dashes get one environment key if and only if they differ at most in the length of runs of dashes |
| Promises.EnvKeyOfPlain | cmd/dra-example-kubeletplugin/cdi.go:95 | a device name without doubled dashes becomes an environment key character by character: dashes to underscores, letters to upper case |
| Network.ApplyConfig | internal/profiles/network/network.go:174-204 | the loop computes the edits of each result, a later result with the same device name overriding an earlier one |
| Network.LastResultWins | internal/profiles/network/network.go:180-201 | the edits of a device name are those of the last result with it |
| Promises.ContainerGets | internal/profiles/network/network.go:174-204 | with this profile, each own result of a claim with distinct device names has a CDI device in the claim's specification whose five variables and one mount are written out |
| Network.NetworkIsLocal | internal/profiles/network/network.go:180-201 | the profile edits only devices it was given |
| Network.NetworkEditsAgree | internal/profiles/network/network.go:95-97 | with this profile there is one group, so the order cannot matter even when device names repeat |
| Disk.WriteIsAtomic | cmd/dra-example-kubeletplugin/checkpoint.go:53-74 | at every cut and after every failure the file is the old or the new checkpoint, the new one if and only if the rename succeeded; success is reported if and only if the close succeeded too |
| Steps.WriteTemps | cmd/dra-example-kubeletplugin/checkpoint.go:53-74 | no temporary file is left when the rename succeeded or the create did not; in between there is exactly one, torn or whole |
| Steps.TempsAfterRun | cmd/dra-example-kubeletplugin/checkpoint.go:53-74 | over a run the temporary files are the initial ones and one for each attempt that got to the create and not past the rename |
| Ledger.CheckpointIsRegister | cmd/dra-example-kubeletplugin/checkpoint.go:35-74 | after any sequence of writes, cut anywhere and among any temporary files, a reader gets the value of the last renamed write, whole |
| Ledger.ErrorAfterRename | cmd/dra-example-kubeletplugin/checkpoint.go:59-63 | an error can be reported with the new checkpoint in place |
| State.DeviceState.ReadCheckpoint | cmd/dra-example-kubeletplugin/checkpoint.go:35-48 | a missing file is an empty checkpoint, a torn or unreadable one gives none |
| State.DeviceState.WriteCheckpoint | cmd/dra-example-kubeletplugin/checkpoint.go:53-74 | runs the write's five steps under the given fates |
| State.DeviceState.CreateClaimDirectory | cmd/dra-example-kubeletplugin/state.go:628-695 | runs the steps that make one directory and its `device.json` at `{stable name}/{request}` |
| Steps.DirectoryStepByStep | cmd/dra-example-kubeletplugin/state.go:628-695 | what is on disk after each step: an existing directory keeps its `device.json` until that file is truncated |
| State.DeviceState.DeleteClaimDirectory | cmd/dra-example-kubeletplugin/state.go:698-706 | runs the removal of the same directory, never failing the call |
| State.DeviceState.CreateDirectories | cmd/dra-example-kubeletplugin/state.go:224-234 | runs the setup of every own result's directory in allocation order and stops at the first failure |
| State.DeviceState.UnprepareDevices | cmd/dra-example-kubeletplugin/state.go:277-294 | runs the removal of the directories recorded in the claim's first entry |
| Lifecycle.FirstEntryIsFirst | cmd/dra-example-kubeletplugin/state.go:279-291 | the entry that is found is the first one of the claim |
| Promises.UnnamedPath | cmd/dra-example-kubeletplugin/state.go:283-284 | a recorded device without a request stands for the whole directory of the stable claim name |
| Promises.EntriesNameRequests | cmd/dra-example-kubeletplugin/state.go:389-396 | entries that Prepare records have a request for each device |
| State.DeviceState.AddClaimToCheckpoint | cmd/dra-example-kubeletplugin/state.go:387-404 | appends one entry with every result's device and, per device name, the last request |
| Promises.EntrySpelledOut | cmd/dra-example-kubeletplugin/state.go:387-404 | the entry's identifier, name and devices, and the request of the last result with each device name |
| State.DeviceState.RemoveClaimFromCheckpoint | cmd/dra-example-kubeletplugin/state.go:408-410 | removes all entries of the claim and keeps the order of the others |
| State.DeviceState.RestoreClaimFromCheckpoint | cmd/dra-example-kubeletplugin/state.go:414-422 | computes the devices of a recorded claim anew and gives none for any other |
| State.DeviceState.Prepare | cmd/dra-example-kubeletplugin/state.go:157-188 | state and outcome are those of the call's step list run under the given fates, for some pair of iteration orders |
| State.DeviceState.Unprepare | cmd/dra-example-kubeletplugin/state.go:190-216 | state and outcome are those of the call's step list run under the given fates, the unreadable checkpoint included |
| Steps.FirstPrepareReports | cmd/dra-example-kubeletplugin/state.go:157-188 | a first Prepare of a computable claim has five steps for each own result and six more; it returns when all succeed, errs at the first that fails and dies when it is cut before that |
| Steps.UncomputablePrepareReports | cmd/dra-example-kubeletplugin/state.go:220-239 | one of an allocated claim that cannot be computed never reports success, and reports an error unless it is cut |
| Steps.HeldPrepareReports | cmd/dra-example-kubeletplugin/state.go:165-171 | one of a recorded claim with own results changes nothing and reports success if and only if the claim can be computed |
| Steps.BlindPrepareReports | cmd/dra-example-kubeletplugin/state.go:161-164 | one that cannot read the checkpoint, or finds it torn, reports an error and changes nothing |
| Steps.UnprepareReports | cmd/dra-example-kubeletplugin/state.go:190-216 | an Unprepare has two steps for each recorded device, whose failure does not count, and six more, which all have to succeed |
| Steps.BlindUnprepareReports | cmd/dra-example-kubeletplugin/state.go:194-204 | one that cannot read the checkpoint, or finds it torn, reports an error if a step of writing the empty one fails, and otherwise the process dies |
| Lifecycle.PerformFile | cmd/dra-example-kubeletplugin/state.go:183-213 | an attempt leaves the checkpoint file as it is or replaces it whole, whatever its other steps do |
| Lifecycle.ReturnedReplaces | cmd/dra-example-kubeletplugin/state.go:173-187 | a call that reports success has done all its steps and put its checkpoint in place |
| Ledger.CheckpointIsSet | cmd/dra-example-kubeletplugin/state.go:169-213 | when every prepared claim has an own result, in every reachable state the checkpoint is readable, lists each claim once, and lists exactly the claims whose latest deciding call was Prepare |
| Ledger.ListedTwiceIff | cmd/dra-example-kubeletplugin/state.go:169-183 | preparing a claim twice lists it twice if and only if no result is this driver's |
| Ledger.UnreadableUnprepareForgetsAll | cmd/dra-example-kubeletplugin/state.go:194-204 | an Unprepare that cannot read the checkpoint reports no success, touches no directory or specification, and forgets every claim once its rename succeeds |
| Ledger.FailedClaimsLeaveNoTrace | cmd/dra-example-kubeletplugin/driver.go:85-95 | the checkpoint after any calls is the one produced by those calls alone that replaced it |
| Safety.SafeAtEveryCut | cmd/dra-example-kubeletplugin/state.go:173-213 | at every cut of every run each recorded claim is recorded as it was prepared and can be computed again, and its specification is on disk if and only if no Unprepare of it has completed since, up to the point where it writes the new checkpoint |
| Safety.OwnRuns | cmd/dra-example-kubeletplugin/state.go:165-171 | where every prepared claim has an own result that covers all logs, claims that are prepared anew or changed under the same UID included |
| Sweeping.DirectoryOnDiskIff | cmd/dra-example-kubeletplugin/state.go:224-291 | at every cut of every run a recorded claim's directory that no other claim's Prepare has set up since is on disk with its `device.json` if and only if no Unprepare, of any claim, has carried out a removal step at or above it |
| Sweeping.ApartDirectoryOnDiskIff | cmd/dra-example-kubeletplugin/state.go:224-291 | when no other claim of the run reaches the directory, that depends on the Unprepares of its own claim alone |
| Effects.PrepareMakesIntact | cmd/dra-example-kubeletplugin/state.go:173-183 | a Prepare that replaces the checkpoint leaves specification and directories in place, whatever was there before |
| Effects.UnprepareEffect | cmd/dra-example-kubeletplugin/state.go:201-209 | an Unprepare drops the specification if and only if it gets to the point where it writes the checkpoint, and leaves of the directories what its removal steps leave |
| Restoring.WindowIsReachable | cmd/dra-example-kubeletplugin/state.go:201-211 | the negative cases occur: for every computable claim with an own result some run leaves it in the checkpoint without specification or directories |
| Restoring.WindowIsNotRepaired | cmd/dra-example-kubeletplugin/state.go:165-171 | in that state Prepare reports success and changes nothing |
| Restoring.SuccessfulPreparesAgree | cmd/dra-example-kubeletplugin/state.go:165-187 | every successful Prepare of a claim, first or later, returns the same multiset of devices |
| Restoring.RestoreAgreesWithDisk | cmd/dra-example-kubeletplugin/state.go:165-171 | in every reachable state a Prepare of a recorded, unchanged claim writes nothing and returns the claim's devices, and every CDI identifier it returns besides the common one is the kind of the specification on disk and the name of a device in it if and only if no Unprepare of the claim has completed since up to the point where it writes the checkpoint |
| Convergence.PrepareConverges | cmd/dra-example-kubeletplugin/state.go:157-188 | Prepare attempts cut or failing anywhere, any number of times and with any iteration orders, and then one that succeeds leave the stores as one undisturbed call does, up to temporary files and the order of devices in the specification; for claims with an own result whose groups agree about the edits of own devices |
| Convergence.UnprepareConvergesIff | cmd/dra-example-kubeletplugin/state.go:190-216 | Unprepare attempts cut or failing anywhere, any number of times, leave the stores as one undisturbed call does if and only if the first of them to replace the checkpoint removed the directories that the ones before it had left |
| Convergence.UnprepareConverges | cmd/dra-example-kubeletplugin/state.go:190-216 | so retrying until success converges when no attempt is the first to replace the checkpoint past a failed removal; failed removals of attempts that are cut before that do no harm |
| Convergence.ReturnedForgetsIff | cmd/dra-example-kubeletplugin/state.go:282-288 | a successful Unprepare has forgotten its claim on disk if and only if each recorded directory that was there lies at or below one whose removal succeeded |
| Convergence.FailedRemovalLeaks | cmd/dra-example-kubeletplugin/state.go:282-288 | when every removal fails the directories stay although success is reported, and later Unprepares do not touch them |
| Directories.CleanupCoversIff | cmd/dra-example-kubeletplugin/state.go:279-291 | cleanup removes every directory that setup makes if and only if each one lies at or below that of a result which no later result with its device name shadows |
| Directories.DistinctNamesCover | cmd/dra-example-kubeletplugin/state.go:389-396 | distinct device names over the whole allocation are enough |
| Directories.CleanupIsExact | cmd/dra-example-kubeletplugin/state.go:279-291 | when moreover all results are this driver's, exactly the directories made are removed, with what lies below them |
| Directories.MetadataNamesLast | cmd/dra-example-kubeletplugin/state.go:668-681 | of results that share a directory the last one is named in `device.json` |
| Directories.SetupEffect | cmd/dra-example-kubeletplugin/state.go:224-234 | completed setup puts every directory and `device.json` in place over whatever was there |
| Directories.RemovalEffect | cmd/dra-example-kubeletplugin/state.go:282-288 | removal without failures leaves nothing at or below a recorded directory and everything else |
| RoundTrip.PrepareUnprepareRoundTrip | cmd/dra-example-kubeletplugin/state.go:157-216 | preparing a fresh claim whose cleanup covers its setup, with any number of cut or failing attempts before the one that succeeds where it has an own result, then any attempts on claims with other directories, cut or failing anywhere, and unpreparing it leave the checkpoint entries in order, the specifications and the directories of those attempts alone |
| RoundTrip.RoundTripIff | cmd/dra-example-kubeletplugin/state.go:224-291 | a round trip restores the directories if and only if cleanup covers setup |
| Delivery.MountsMatchDirectories | internal/profiles/network/network.go:180-200 | in every reachable state each own result of a recorded claim with distinct device names, whose specification and directory nothing has removed since, has a CDI device on disk that mounts the directory setup made; with distinct directories `device.json` there names the device the container is told, and where cleanup covers setup Unprepare removes that directory |
| Delivery.HostPathIsOne | internal/profiles/network/network.go:183 | the mount's host path is the path of no other directory |
| Promises.HostPathSpelledOut | cmd/dra-example-kubeletplugin/state.go:634-638 | the path is `/var/run/kubevirt/cdi/<stable name>/<request>` for names without slashes |
| Delivery.SharedDirectoryIff | cmd/dra-example-kubeletplugin/state.go:634-638 | claims of slash-free names and requests without empty path segments share a directory if and only if they share the stable name and the request |
| Delivery.DistinctRequestsDistinctDirs | internal/profiles/network/network.go:181-183 | different requests of a claim, without empty path segments, have different directories |
| Leftovers.SpecificationsOnDisk | cmd/dra-example-kubeletplugin/state.go:157-216 | after every run the specifications on disk, of recorded claims or not, are those of exactly the claims whose latest call to get up to writing the checkpoint is a Prepare |
| Leftovers.DirectoryStandsIff | cmd/dra-example-kubeletplugin/state.go:157-216 | after every run, whatever claims it prepares, a directory is on disk if and only if the latest attempt that made or removed it made it |
| Incidents.ListedTwiceRun | cmd/dra-example-kubeletplugin/state.go:169-183 | a run of two Prepares that both report success and list one claim twice |
| Incidents.CleanupCanMiss | cmd/dra-example-kubeletplugin/state.go:389-396 | a claim that the network driver accepts and whose directory cleanup misses, because of a later foreign result with the same device name |
| Incidents.MissedDirectoryRun | cmd/dra-example-kubeletplugin/state.go:279-291 | on an empty node, preparing and unpreparing that claim both report success and leave a directory behind |
| Incidents.UnprepareSparesIff | cmd/dra-example-kubeletplugin/state.go:282-288 | a successful Unprepare without failed removals spares another claim's directories if and only if none lies at or below one that it removes |
| Incidents.SharedDirectoryRun | cmd/dra-example-kubeletplugin/state.go:282-288 | preparing the claims of two machines that share a stable name and unpreparing one of them removes the directory that the other, still recorded, uses, and every call reports success |
| Incidents.AbandonedPrepareIff | cmd/dra-example-kubeletplugin/state.go:224-291 | a Prepare cut before its rename and then unprepared leaves checkpoint and specifications clean, and the directories as they were if and only if it had none to make or did not make the first |
| Incidents.PreparePanicsIff | cmd/dra-example-kubeletplugin/state.go:161-224 | Prepare panics if and only if it can read the checkpoint, does not find the claim there and the claim has no allocation; it then dies before any durable step |
| Incidents.ForeignEditsCanDisagree | cmd/dra-example-kubeletplugin/state.go:355-358 | with a profile that edits devices it was not given, distinct device names do not make what is prepared independent of the orders |
| Concurrency.Serialisability | cmd/dra-example-kubeletplugin/state.go:157-216 | after every trace of any number of threads with any number of crashes the stores are those of the calls run one by one in the order in which they took the mutex, and every finished call returned what it returns there |
| Realising.AttemptFinishes | cmd/dra-example-kubeletplugin/state.go:157-216 | a call that runs to its end releases the mutex and returns what it returns alone |
| Realising.EveryRunHappens | cmd/dra-example-kubeletplugin/state.go:157-216 | the other direction: every run of attempts whose fates all decide a step is what some trace does |
| Concurrency.SafeUnderConcurrency | cmd/dra-example-kubeletplugin/state.go:157-216 | what SafeAtEveryCut says holds in every state of every concurrent run |
| Concurrency.DirectoryUnderConcurrency | cmd/dra-example-kubeletplugin/state.go:157-216 | what DirectoryOnDiskIff says holds in every state of every concurrent run |
| Racing.WithoutMutexUpdatesAreLost | cmd/dra-example-kubeletplugin/state.go:158-159 | without the mutex, when the first Prepares of two claims read the same checkpoint, then in every interleaving of their steps in which both succeed exactly one of the two claims ends up in the checkpoint |
| Batches.Server.PrepareResourceClaims | cmd/dra-example-kubeletplugin/driver.go:85-95 | the batch is one Prepare per claim in order, none stopping the next unless the process dies, with their replies; if the process dies it does so in the last call; the checkpoint is that of the calls which replaced it |
| Batches.Server.PrepareResourceClaim | cmd/dra-example-kubeletplugin/driver.go:97-119 | one claim's Prepare and its reply |
| Batches.Server.UnprepareResourceClaims | cmd/dra-example-kubeletplugin/driver.go:121-131 | the same of Unprepare |
| Batches.Server.UnprepareResourceClaim | cmd/dra-example-kubeletplugin/driver.go:133-139 | one claim's Unprepare and its reply |
| Batches.BatchReplies | cmd/dra-example-kubeletplugin/driver.go:88-94 | a batch that runs to its end has replies for exactly the identifiers of its claims |
| Batches.BatchReplyIsLast | cmd/dra-example-kubeletplugin/driver.go:91 | when an identifier occurs more than once its reply is that of its last call |
| Promises.ReplySpelledOut | cmd/dra-example-kubeletplugin/driver.go:85-119 | the reply to an identifier is a success with the call's devices if and only if its last Prepare returned, and a failure after every error and every death |
| Promises.UnprepareReplySpelledOut | cmd/dra-example-kubeletplugin/driver.go:121-139 | the same of Unprepare |
| Promises.SuccessTells | cmd/dra-example-kubeletplugin/driver.go:97-119 | a success of Prepare carries the devices of the claim's own results, field by field |

## Left out

- Permissions, ownership and SELinux labels (state.go:645-666, 684-690): one step that can fail stands for each group of them.
- Partial removal: a failed removal of a tree is modelled by what it may leave of each directory, all or an empty one without `device.json`. That it can remove some nested directories and keep others is not, so the exact conditions of Convergence.ReturnedForgetsIff, Convergence.UnprepareConvergesIff and Sweeping.DirectoryOnDiskIff are exact for that granularity.
- The parent directory `{base}/{stable name}`, which is created with the first request and never removed: directories are known by their own path only.
- Path cleaning of `.` and `..` segments: Kubernetes names cannot be such segments; empty segments are modelled.
- JSON text and the Kubernetes codecs: a checkpoint file either decodes to its entries or does not decode.
- The CDI cache: writing and removing one specification are single atomic steps, a specification file is identified by the claim's UID, and removal of an absent one succeeds.
- The common CDI specification and the CDI version: written once at start-up, without effect on claims.
- Power failure and directory synchronisation: a rename that succeeded stays.
- updateDeviceStatus and the DeviceStatusBuilder branch (state.go:247-270, 523-542): calls to the API server whose failure is ignored; the network profile does not take part.
- Identity of decoded configuration objects: groups are keyed by the position of the configuration, where the code uses the pointer; every decode gives a new object.
- The difference between nil and empty lists and maps in the checkpoint.
- Error texts: errors carry their kind only, and outcomes only that there was one.
- Device attributes other than index and type, pools and slices of the published resources.
- Upper-casing of letters outside ASCII: device and profile names are ASCII.
- Conversion of prepared devices to the kubelet plugin's types (driver.go:107-115): a field copy.
- CreateClaimDirectory and DeleteClaimDirectory of internal/profiles/network/network.go:209-229: nothing calls them.
- Two driver processes sharing one checkpoint during a rolling update: the mutex belongs to one process.
- Fairness of the mutex and termination of waiting threads.
- Start-up, registration, health checks, flags, generated code and deployment.
