# WaterOS: verified models

A Dafny model of the parts of WaterOS that carry a protocol or an algorithm of their own, with proofs of
what they are for. `dafny verify dfyconfig.toml` checks all of it.

## What is modelled

**The diagnostic chain, from kernel writer to host verdict.** CPUs take and drop tracked mutexes and publish
what they do through a double buffer that a compare-and-swap guards (`LockProtocol`). Every atomic operation
is one step, CPUs interleave in any order, trap handlers nest, and the slot being filled may hold anything
until it is complete. `LockInvariant` and `DoubleBuffer` prove what every step keeps. `DeadlockVerdict`
models the host's waits-for graph and proves that a reported cycle is a real deadlock which never ends,
although a wait is announced longer than it lasts and a lock is listed longer than it is held.
`VerdictLimits` proves exactly when every report is real, `VerdictCompleteness` exactly when no deadlock
is missed. `EventProtocol` does the same for the event ring, one step for every field write. `DebugAbi` and
`DebugRoundTrip` lay the state out in bytes and decode it again; `RemoteSample` and `FullSample` are the two
readings of these bytes over the debugger connection, `StallClass` the whole classification of a stall.
`EndToEnd` joins the links of the locks, `EventChain` those of the events, to theorems over the bytes of a
stopped machine.

**Packages.** `Resolver` is the depth-first topological sort, `Exclusion` the memoised cascade of excluded
packages, and their composition.

**Disk images.** `Crc32` is the bitwise checksum and the damage that it always detects. `PartitionTables`
reads MBR and GPT tables, `BackupTable` proves that a damaged GPT is read from its other
copy, `SampleImage` does so for one image with a partition. `DiskLayout` places partitions in all layouts,
computes the disk size, and joins the two.

**Kernel protocols.** `ConsoleWake` is console input from the UART interrupt over dispatch and notification
to the draining task, `NetworkWake` the generation counter of the network worker, `DeviceWait` the wait
with interrupts masked, `ConsoleLock` the owner-tagged re-entrant console lock, `SmpBoot` the election of
the boot hart and the gate for the others.

**Tools.** `Features` traces crate features up to root flags, `DependencyClosure` collects the shared
objects of an executable, `GuestPath` resolves links inside a root directory, `LoopDetection` finds periodic
program counters, `EarlyPaging` builds the early page tables.

## Assumptions

- Atomic operations are sequentially consistent.
- `task::wait_on_while` re-checks its condition and enqueues the task in one critical section of the
  scheduler, as os/src/device_irq.rs:63 says; a wake-up finds the one task that waits on the queue.
- A trap handler runs to completion before the code it interrupted goes on, so frames of one CPU nest; the
  scheduler does not switch away from an interrupted lock operation.
- A guard of a tracked mutex is dropped by the CPU, and in the frame, that took it.
- Calls that the code wraps in `expect` succeed.

## Where the code does less than it seems to promise

- The deadlock verdict can be wrong if a trap handler contends for a taken lock between the real unlock and
  the publication of the release in the code it interrupted. With two CPUs or more, excluding that is
  exactly what is needed (`VerdictLimits.VerdictIsSoundExactly`); traps as such do no harm.
- The verdict misses a deadlock if a handler takes a tracked lock while the interrupted code waits, if a CPU
  holds more than eight, or, with two CPUs or more, if a later CPU than the owner has unlocked one of the locks
  and not published that yet. Excluding all three is exactly what is needed
  (`VerdictCompleteness.VerdictIsCompleteExactly`); the host cannot see the third when it stops the machine.
- The event ring shows a wrong event, or hides a finished one, if a writer falls a whole ring behind; a draw
  is safe for all that may follow exactly when the writer one ring back has finished
  (`EventProtocol.DrawIsSafeExactly`).
- The answer is also lock-deadlock when a CPU records an injected fault of mode two and nobody waits
  (`StallClass.DeadlockMeans`), and the two stalls that are told from events are never named while watching,
  because no events are read then (`EndToEnd.WatchSeesNoEvents`).
- In the VF2 layout root can get less than `size_mb`, because the mebibyte in front of the first partition is
  not part of the computed disk size (`DiskLayout.ChosenDiskHoldsBoot` says exactly when).
- `AP_BOOT_READY` lies in the BSS, so a hart may look at it before it is cleared (`SmpBoot.GateIsSafeExactly`).
- A link target with exactly two leading slashes leaves the guest root, because path parsing keeps that
  root component and joining it forgets the guest root (`GuestPath.StaysInsideExactly`).

## Model

| member | source | states |
|---|---|---|
| DebugState.RemoveHeld | os/components/wateros-debug/src/lib.rs:461-483 | The shifting loop removes exactly the first entry of the released lock, keeps the order of the others, and leaves the array alone when the lock is not listed |
| DebugState.AcquiredIsListed | os/components/wateros-debug/src/lib.rs:441-459 | Publishing an acquisition clears the announced wait and appends the lock exactly when the list has room |
| DebugState.ReleasedIsUnlisted | os/components/wateros-debug/src/lib.rs:461-490 | Publishing a release removes one entry of that lock from the visible list and nothing else |
| DebugState.ReleaseUndoesAcquire | os/components/wateros-debug/src/lib.rs:441-490 | Acquire, acquire another, release the first: the list is as if only the other had been acquired |
| LockInvariant.StepKeeps | os/components/wateros-debug/src/locks.rs:24-82 | Every step of every CPU, traps anywhere included, keeps: lock bits equal guards, no mutex has two owners, a lock is listed at most as often as it is held or has a release pending, and each announced wait is genuine or about to be cleared; the one step excluded is contention inside the release window of interrupted code |
| LockInvariant.AnyRunKeepsMutexes | os/components/wateros-debug/src/locks.rs:24-82 | Without any exclusion: lock bits equal guards and no mutex has two owners, in every state of every run |
| DoubleBuffer.CpuStepIsLinear | os/components/wateros-debug/src/lib.rs:347-375 | One `writing` owner at a time, the published slot untouched until publication, attempts accounted for; traps may hit anywhere |
| DoubleBuffer.PublishedIsFoldOfCommits | os/components/wateros-debug/src/lib.rs:347-375 | In every run the slot selected by `published` is the fold of the committed updates in commit order; attempts = committed + dropped + at most one in progress; the generation counts commits modulo 2^64 |
| DeadlockVerdict.CollectOwners | os/scripts/debug/debug_abi.py:327-334 | The owner of a lock is the last CPU that lists it, whatever the class of the lock |
| DeadlockVerdict.LockWaitEdges | os/scripts/debug/debug_abi.py:335-344 | One edge for every CPU that announces a wait for a lock of a class other than none, to the owner if one is listed |
| DeadlockVerdict.EdgesAreWaiters | os/scripts/debug/debug_abi.py:335-344 | There is an edge for exactly the CPUs that announce a wait, once each and in order, with the lock and its owner |
| DeadlockVerdict.FindCycle | os/scripts/debug/wateros_debug.py:750-759 | The walk terminates and answers yes exactly when the edge map has a cycle |
| DeadlockVerdict.EdgeIsReal | os/scripts/debug/debug_abi.py:327-344 | In a reachable snapshot an edge from a waiter on a cycle means it is blocked on a lock that the other CPU's interrupted or waiting code really holds |
| DeadlockVerdict.ReportedCycleIsReal | os/scripts/debug/wateros_debug.py:749-759 | A reported cycle gives a ring of CPUs, each blocked on a lock held by the next |
| DeadlockVerdict.DeadlockIsPermanent | os/components/wateros-debug/src/locks.rs:25-43 | No step of any CPU, unrestricted, ends such a ring: none of its waiting frames can step again |
| DeadlockVerdict.ReportIsFinal | os/scripts/debug/wateros_debug.py:749-759 | Over a whole run: a report in one state means a real deadlock in that state and in all later ones; contention in a release window is excluded up to the report only |
| VerdictLimits.ContentionInWindowRaisesFalseAlarm | os/components/wateros-debug/src/locks.rs:74-82 | For any number of CPUs from two: a run in which a handler contends between unlock and release makes the host report a deadlock that does not exist |
| VerdictLimits.VerdictIsSoundExactly | os/scripts/debug/wateros_debug.py:749-759 | Over all runs of n CPUs every report is real if and only if handlers do not contend inside a release window or n < 2 |
| VerdictCompleteness.RealDeadlockIsReported | os/scripts/debug/debug_abi.py:327-344 | With handlers that take no tracked locks and at most eight locks for each CPU a real ring is reported, although each wait and each holder is published separately and traps may hit anywhere, unless a later CPU than the owner still lists one of its locks with the release half done |
| VerdictCompleteness.HandlerErasesWait | os/components/wateros-debug/src/lib.rs:441-459 | With any number of CPUs: a handler that takes a lock clears the wait the interrupted code announced, and a real deadlock is not reported |
| VerdictCompleteness.NinthLockIsMissed | os/components/wateros-debug/src/lib.rs:448-455 | With any number of CPUs: a lock beyond the eighth is not listed, and a real deadlock over it is not reported |
| VerdictCompleteness.HalfDoneReleaseHidesDeadlock | os/components/wateros-debug/src/locks.rs:74-82 | For any number of CPUs from two, without handlers: CPU 1 has unlocked and not yet published it, CPU 0 takes the lock and waits for it, and the real deadlock is not reported |
| VerdictCompleteness.VerdictIsCompleteExactly | os/scripts/debug/wateros_debug.py:749-759 | Over all runs of n > 0 CPUs no deadlock is missed if and only if handlers take no tracked locks, no CPU holds more than eight, and n < 2 or no state with a half-done release is judged |
| VerdictCompleteness.VerdictIsExact | os/scripts/debug/wateros_debug.py:749-759 | In every state of every run a deadlock is reported if and only if there is a ring whose waits are all announced and whose locks are all listed, by nobody later than their owner |
| VerdictCompleteness.QuietVerdictIsExact | os/scripts/debug/wateros_debug.py:749-759 | If handlers take no tracked locks and no CPU holds more than eight, all waits are announced and all locks listed: a deadlock is reported if and only if there is one that no half-done release of a later CPU hides |
| EventProtocol.StepKeeps | os/components/wateros-debug/src/lib.rs:393-414 | Drawing, counting, each single field write and publishing keep every slot's published sequence truthful while no writer is a full ring behind |
| EventProtocol.AcceptedIffFinished | os/scripts/debug/debug_abi.py:254-262 | A sequence within the last `capacity` is accepted exactly when its writer has finished |
| EventProtocol.ReaderSeesFinishedEvents | os/scripts/debug/debug_abi.py:250-266 | At every stop point the reader's events are exactly the finished writers' events of its window, field for field and in order |
| EventProtocol.OverflowIsCounted | os/components/wateros-debug/src/lib.rs:393-403 | In every run, however slow writers are: `dropped` lags max(0, next - 1 - capacity) by exactly the writers that have not counted yet, and equals it at rest |
| EventProtocol.SlowWriterCorruptsEvent | os/components/wateros-debug/src/lib.rs:393-414 | At every capacity: if a writer may fall a whole ring behind, some run makes the reader accept an event that nobody recorded |
| EventProtocol.DrawIsSafeExactly | os/components/wateros-debug/src/lib.rs:393-414 | After any timely run, a draw is timely if and only if, however the writers go on, the reader's events stay exactly the finished ones; otherwise a continuation hides a finished event |
| EventChain.EventsFromBytes | os/scripts/debug/debug_abi.py:250-269 | From field writes to bytes to decoder: if every ring is what a timely run left behind, the decoded events are the sorted finished events of all windows |
| EventChain.ReportFromBytes | os/scripts/debug/wateros_debug.py:476-489 | The report lists exactly the finished events, each as recorded, of the windows of all CPUs that its sample shows online, ordered by tick, CPU and sequence |
| DebugAbi.DecodeState | os/scripts/debug/debug_abi.py:234-285 | The loops over CPUs, rings and sequences and the final sort compute the decoder that the round trip is about, with its error cases |
| DebugAbi.CpuLoop | os/scripts/debug/debug_abi.py:241-250 | The loop over the CPU slots decodes each record at its own offset |
| DebugAbi.RingLoop | os/scripts/debug/debug_abi.py:252-271 | The loop over the rings collects metadata and the accepted events of each |
| DebugAbi.EventsAreSorted | os/scripts/debug/debug_abi.py:269 | Sorting orders the events by tick, CPU and sequence and keeps events with equal keys, all of them, in their order |
| DebugAbi.OrderIsDetermined | os/scripts/debug/debug_abi.py:269 | Any stable sort by that key gives the same list |
| DebugRoundTrip.StateRoundTrip | os/scripts/debug/debug_abi.py:164-214 | Decoding the 41 rows of a CPU state gives back every field, the wait and the visible held locks |
| DebugRoundTrip.SlotsRoundTrip | os/scripts/debug/debug_abi.py:243-250 | The slot that `published` selects is the one decoded |
| DebugRoundTrip.EventsRoundTrip | os/scripts/debug/debug_abi.py:256-265 | Decoding a ring's bytes gives exactly the events whose slot carries the expected sequence |
| DebugRoundTrip.HeaderRoundTrip | os/scripts/debug/debug_abi.py:116-148 | A header laid out by the kernel is accepted and its layout recovered |
| DebugRoundTrip.ImageRoundTrip | os/components/wateros-debug/src/lib.rs:238-298 | For any number of CPUs, ring capacity and contents: the image is exactly `total_size` bytes long and decodes to what was published |
| DebugRoundTrip.BuildId | os/components/wateros-debug/src/lib.rs:286-298 | The copying loop keeps the first 63 bytes and pads with NUL |
| DebugRoundTrip.BuildIdRoundTrip | os/scripts/debug/debug_abi.py:116-148 | A build id without NUL is read back up to its first 63 bytes |
| RemoteSample.ReadState | os/scripts/debug/wateros_debug.py:436-474 | Only the CPU records of visible CPUs and the heads of their rings are read, the rest is zero; bad header, other architecture or unreadable memory are the errors, otherwise the bytes are decoded without events |
| RemoteSample.ReadSparse | os/scripts/debug/wateros_debug.py:448-473 | The buffer that is filled piece by piece holds memory at exactly the bytes read, and the reading fails exactly when one of them is not there |
| RemoteSample.SampleShowsCpus | os/scripts/debug/wateros_debug.py:448-474 | Every visible CPU is decoded as from the whole memory, every other one as blank |
| RemoteSample.SampleShowsMeta | os/scripts/debug/wateros_debug.py:463-473 | So is the progress of every visible CPU's ring |
| FullSample.ReadFull | os/scripts/debug/wateros_debug.py:476-489 | The second reading adds the whole ring of every CPU that the first one showed online, and fails exactly when one cannot be read |
| FullSample.FullShowsEvents | os/scripts/debug/wateros_debug.py:476-489 | The report shows the same CPUs as the first reading and exactly the events that the rings of online CPUs hold in memory; rings of which only the head was read give none |
| FullSample.CollectSample | os/scripts/debug/wateros_debug.py:437-497 | Light or full reading with its errors, then the two comparisons of build ids |
| FullSample.BuildsAreTold | os/scripts/debug/wateros_debug.py:214-219 | A guest is accepted for an image exactly when the first 63 bytes of their ids agree, for ASCII ids |
| StallClass.ClassifyStall | os/scripts/debug/wateros_debug.py:748-796 | The answer is the first cause that applies, in the order of the code, over all stall classes; a CPU missing in the baseline is an error exactly when it is online and no timer stopped |
| StallClass.ClassifyTimer | os/scripts/debug/wateros_debug.py:777-784 | The loop over online CPUs compares timer ticks with the baseline and fails at the first CPU that the baseline lacks |
| StallClass.FaultModes | os/scripts/debug/wateros_debug.py:762-766 | The set of fault modes that CPUs record |
| StallClass.DeadlockMeans | os/scripts/debug/wateros_debug.py:748-770 | The answer is lock-deadlock exactly for a cycle, or for an injected fault of mode two with nobody waiting; without a wait or such a fault no lock is blamed; baseline and registers do not matter |
| StallClass.SameMachineIsClassified | os/scripts/debug/wateros_debug.py:777-784 | With a baseline of at least as many CPUs there is always an answer |
| EndToEnd.Classify | os/scripts/debug/wateros_debug.py:748-796 | Taking the sample, with its errors and the comparison of build ids, followed by the whole classification |
| EndToEnd.SampleShowsSnapshot | os/scripts/debug/wateros_debug.py:436-474 | The sample of any reachable diagnostic memory shows the wait, the held locks and the schedule reason of every CPU as published |
| EndToEnd.AnswerIsReport | os/scripts/debug/wateros_debug.py:748-770 | The sample can always be read, and injected faults apart its answer is lock-deadlock exactly when the lock snapshot has a cycle, whatever baseline and registers are |
| EndToEnd.VerdictFromBytes | os/scripts/debug/wateros_debug.py:748-770 | From lock steps to bytes to the partial sample to the answer: if it is lock-deadlock and no such fault was injected, the deadlock is real and lasts, whatever happens after the stop; contention in a release window is excluded before it |
| EndToEnd.ExactFromBytes | os/scripts/debug/wateros_debug.py:748-770 | In every run the answer from the sampled bytes is lock-deadlock, injected faults apart, if and only if there is a ring whose waits are announced and whose locks are listed, by nobody later than their owner |
| EndToEnd.QuietExactFromBytes | os/scripts/debug/wateros_debug.py:748-770 | If handlers take no tracked locks and no CPU holds more than eight, it is so if and only if there is a ring that no half-done release hides |
| EndToEnd.WatchSeesNoEvents | os/scripts/debug/wateros_debug.py:474 | A sample taken while watching has no events, so the two stalls told from events are never named |
| Resolver.Traversal.Visit | user/tools/userland.py:261-275 | The recursive visit keeps the result duplicate-free and dependencies first, adds only what is reachable, and every error names a reachable cause |
| Resolver.ResolvePackages | user/tools/userland.py:256-279 | Succeeds exactly when everything reachable is loadable, supported and acyclic; the result is then the reachable set, once each, dependencies first |
| PackageGraph.OrderedMeansAcyclic | user/tools/userland.py:256-279 | An order with dependencies first rules out cycles among what it lists |
| Exclusion.Cascade.Blockers | user/tools/userland.py:223-241 | The memoised set is exactly the excluded packages reachable through packages that are not excluded; errors name a reachable cause |
| Exclusion.ExcludePackages | user/tools/userland.py:210-253 | Succeeds exactly when all it has to look at is loadable, supported and acyclic and something is left; a selected package is kept exactly when nothing excluded blocks it, the others are reported with all their blockers, and what is kept resolves |
| Exclusion.UnblockedIsClean | user/tools/userland.py:210-253 | Nothing reachable from a kept package is excluded |
| Exclusion.SelectAndResolve | user/tools/userland.py:657-659 | The result is exactly what the kept packages reach, once each, dependencies first, none excluded; after a successful exclusion resolution cannot fail, so every error is the exclusion's |
| Crc32.Crc32 | user/tools/root_image.py:239-245 | The nested loops compute the checksum that the detection results are about |
| Crc32.RegisterInjective | user/tools/root_image.py:239-245 | Two different registers stay different whatever equal data follows |
| Crc32.DamageIsDetected | user/tools/root_image.py:239-245 | Messages of one length that differ only within four consecutive bytes have different checksums |
| PartitionTables.ParseMbrSector | user/tools/root_image.py:212-236 | The MBR parser with its errors in their order equals the table function |
| PartitionTables.ParseGptAt | user/tools/root_image.py:248-302 | The GPT parser with its checks in their order, the chained comparison included, equals the table function |
| PartitionTables.ParseGptEntries | user/tools/root_image.py:282-302 | The entry loop and the overlap check of one GPT copy |
| PartitionTables.FindOverlap | user/tools/root_image.py:229-235 | The pairwise loop answers yes exactly when two partitions share a sector |
| PartitionTables.ReadPartitions | user/tools/root_image.py:305-327 | MBR or GPT by the protective entry; backup only when the primary is rejected, and then the primary's error |
| PartitionTables.TableMeaning | user/tools/root_image.py:212-236 | Accepted: every used slot is listed once, in order, non-empty, inside the image, disjoint. Rejected after the slots were read: some slot is malformed or two overlap |
| PartitionTables.AcceptedGptIsSound | user/tools/root_image.py:282-302 | The same for a GPT entry array, without trusting the announced usable range |
| PartitionTables.AcceptedTableIsSound | user/tools/root_image.py:318-327 | Every list that is returned is disjoint, non-empty partition by partition and inside the image |
| BackupTable.DamagedHeader | user/tools/root_image.py:254-277 | A header that still passes all checks after damage to four consecutive bytes has all its used fields unchanged, the `header_size` field included in what may be hit |
| BackupTable.DamagedCopy | user/tools/root_image.py:248-302 | A damaged copy is rejected or gives the same partitions |
| BackupTable.DamageIsRepaired | user/tools/root_image.py:305-315 | With both copies valid and equal, damage to any four consecutive bytes that misses one copy leaves the partition list unchanged (UEFI Specification, section 5.3.2) |
| SampleImage.SampleIsRepaired | user/tools/root_image.py:305-315 | For an image with two valid copies and one partition: whatever happens to four consecutive bytes of the first header or of its entry, the partition is still found |
| BackupTable.DamagedImageIsRead | user/tools/root_image.py:318-327 | So does reading the whole image, if the protective entry is recognised as before |
| DiskLayout.MakeTableWithImages | user/tools/root_image.py:351-391 | Root first, then the images, each directly behind the one before; then the type strings are checked and the partitions read back are counted; the first failing check otherwise |
| DiskLayout.PlaceImages | user/tools/root_image.py:378-387 | The cursor loop, and the first empty image as error |
| DiskLayout.MakeTableVf2 | user/tools/root_image.py:450-482 | Two loader partitions, boot, root with what is left, then the images; then the same final checks |
| DiskLayout.MakeTableBootRoot | user/tools/root_image.py:518-546 | Boot, root with what is left, then the images; then the same final checks |
| DiskLayout.MakeTable | user/tools/root_image.py:330-348 | Root alone, in whole blocks, with the error for a disk that is too small |
| DiskLayout.WithImagesIsSound | user/tools/root_image.py:359-389 | In order, disjoint, on eight-sector boundaries, before the last 34 sectors on GPT, images fit with less than a block to spare, root has its exact size |
| DiskLayout.BootFirstIsSound | user/tools/root_image.py:442-546 | The same for both boot layouts, with the boot partition's exact size and root's exact share |
| DiskLayout.DiskSize | user/tools/image.py:63-103 | The request checks in their order, and the chosen or given disk size |
| DiskLayout.ChosenDiskHoldsImages | user/tools/image.py:85-103 | Without a boot partition the chosen disk always holds the layout, root with exactly `size_mb` |
| DiskLayout.ChosenDiskRoot | user/tools/image.py:85-103 | Root's exact share of the chosen disk in each boot layout and table kind |
| DiskLayout.ChosenDiskHoldsBoot | user/tools/image.py:85-103 | With a boot partition the chosen disk always suffices and root has at least `size_mb` - 1 MiB; at least `size_mb` exactly in the boot-root layout, and in the VF2 layout on GPT when rounding leaves 40 sectors |
| DiskLayout.ChosenLayoutSucceeds | user/tools/image.py:85-103 | For every accepted request: the size chosen in mebibytes lets the placement in sectors succeed, it is sound, the images fit, and root has its size up to one mebibyte (and 40 sectors without images); only a boot partition without a size is refused |
| DiskLayout.CreateLayout | user/tools/image.py:73-103 | Sizing the disk and building its table end to end: request errors first, then the disk too small, then the layout of exactly that disk |
| ConsoleWake.RunKeeps | os/components/wateros-driver/driver-character/character-impl/impl-uart-16550/src/lib.rs:126-136 | Whatever order bytes, dispatch steps and task steps come in: after looking at the FIFO the task has the interrupt armed again, or a notification on its way or counted |
| ConsoleWake.SleeperWithInputIsServed | os/src/user_operator.rs:214-249 | A sleeping input task with bytes in the FIFO has an interrupt requested or a handler on its way, and the generation cannot wrap around meanwhile |
| ConsoleWake.SleeperIsBeingWoken | os/src/device_irq.rs:18-37 | A sleeper whose generation has moved on is between the increment and the wake-up of the handler |
| ConsoleWake.InputIsEventuallyRead | os/src/device_irq.rs:82-99 | From every such state at most ten steps of the interrupted CPU alone wake the task |
| NetworkWake.NoLostWakeup | os/src/main.rs:81-117 | With any number of notifiers: a sleeping worker whose generation has moved on has a notifier between increment and wake-up, and it sleeps through notifications only at exact multiples of 2^64 |
| NetworkWake.InFlightWakes | os/src/device_irq.rs:55-61 | Two steps of that notifier end the sleep |
| DeviceWait.CompletionEndsSleep | os/src/device_irq.rs:103-120 | With interrupts masked, a raised completion is still pending when the CPU sleeps, and the interrupt state restored is the one found |
| ConsoleLock.StepKeeps | os/components/wateros-platform/src/console.rs:60-76 | Every step of every call keeps: at most one call holds the lock, the tag is set only under it, re-entrant calls only run above it, and each call remembers the interrupt state it found |
| ConsoleLock.LockIsSafe | os/components/wateros-platform/src/console.rs:11-28 | The owner tag tells the truth, nobody waits for a lock it holds, the re-entrant path is taken only under one's own lock, and every call restores the interrupt state it found |
| ConsoleLock.OutputIsNotInterleaved | os/components/wateros-platform/src/console.rs:85-131 | Between two outputs of one call that is not re-entrant, every output comes from the CPU of that call; each output carries the number its call got with the lock, and re-entrant output none |
| ConsoleLock.NumbersAreFresh | os/components/wateros-platform/src/console.rs:60-76 | One number means one call: a call that takes the lock gets a number above all written with before and keeps it while it writes |
| ConsoleLock.HolderCanAdvance | os/components/wateros-platform/src/console.rs:60-76 | While anyone waits, the holder can take a step |
| SmpBoot.OneHartBoots | os/src/main.rs:382-403 | In any order of arrival at most one hart boots, it alone clears the BSS and once, and `BSP_HART` survives |
| SmpBoot.GateIsSafeExactly | os/src/main.rs:364-371 | No other hart runs kernel code before `init_after_boot` has ended if and only if `AP_BOOT_READY` was false at power-on or there is one hart |
| SmpBoot.ServicesWaitForHarts | os/src/main.rs:324-343 | Whatever memory holds at power-on, services start only when every requested hart has really come online |
| Features.DepNameForPackage | os/scripts/source/feature_tools.py:400-407 | The first dependency name for a package, none exactly when there is no such dependency |
| Features.ParentsOf | os/scripts/source/feature_tools.py:435-439 | The reverse edges list exactly the packages that depend on each package |
| Features.Bubble | os/scripts/source/feature_tools.py:473-491 | Exactly the non-default parent features that list the item under the parent's first name for it |
| Features.Trace | os/scripts/source/feature_tools.py:453-494 | Each item gives a flag, a warning or further items, exactly as the case distinction says |
| Features.BubbleFeaturesToRoot | os/scripts/source/feature_tools.py:410-496 | The worklist terminates, also on cyclic graphs, and its flags and warnings are those of the least set closed under the trace |
| Features.FlagsAreDetermined | os/scripts/source/feature_tools.py:441-451 | The flags do not depend on the order of the selection or of the worklist |
| Features.LargerSelection | os/scripts/source/feature_tools.py:410-496 | Selecting more never loses an item |
| Features.EveryFlagIsWanted | os/scripts/source/feature_tools.py:410-496 | Every flag belongs to a feature that activates a selected one |
| Features.FlagNamesDependency | os/scripts/source/feature_tools.py:431-433 | A flag always names a direct dependency of the root crate |
| Features.DirectDependenciesHaveFlags | os/scripts/source/feature_tools.py:431-433 | With distinct dependency names every direct dependency has a flag name |
| DependencyClosure.DependencyClosure | os/scripts/analysis/elf_syscalls.py:296-338 | The worklist ends and visits files once each, all reachable and of the target's architecture; with recursion it visits all they need. It fails only for a reachable file of another architecture or one that cannot be inspected, and lists exactly the names that are not found |
| DependencyClosure.ClosureIsExact | os/scripts/analysis/elf_syscalls.py:296-338 | If paths to one file agree, it succeeds if and only if everything reachable can be inspected and has the target's architecture, and it then visits exactly the reachable files |
| GuestPath.ResolveGuestPath | os/scripts/analysis/elf_syscalls.py:175-200 | The worklist form ends, by links left and then pending length, and equals the recursive resolution component by component |
| GuestPath.ResolvedPathIsFinal | os/scripts/analysis/elf_syscalls.py:175-200 | The result is a file, contains no `..` and no link on the way, and resolving it again gives it again |
| GuestPath.StaysInsideExactly | os/scripts/analysis/elf_syscalls.py:175-200 | No guest path makes the resolver look outside the root if and only if no link of the tree has a target with exactly two leading slashes |
| GuestPath.TwoSlashLinkEscapes | os/scripts/analysis/elf_syscalls.py:171-172 | Such a link resolves to a file of the host |
| LoopDetection.LoopDetector.Push | os/scripts/debug/loop_detector.py:45-50 | Reports exactly when the last counters pushed, as far as the window keeps them, are `min_repeat` copies of a pattern; it names the shortest one, its repeats and bounds; a repeat count of zero raises an error |
| LoopDetection.LoopDetector.Detect | os/scripts/debug/loop_detector.py:52-88 | The tie-breaking loop is the same as taking the least period |
| LoopDetection.LoopDetector.Candidate | os/scripts/debug/loop_detector.py:58-82 | One period: a report exactly when the history ends in `min_repeat` copies of a pattern of that length |
| LoopDetection.CountRepeats | os/scripts/debug/loop_detector.py:67-74 | The chunk loop reaches `min_repeat` exactly when the whole tail repeats |
| LoopDetection.EndsInIsPeriodic | os/scripts/debug/loop_detector.py:61-76 | Ending in copies of a pattern means that each counter comes again one period later |
| EarlyPaging.Tables.Init | os/src/early_paging.rs:58-109 | The builder loops fill the tables, every index in bounds |
| EarlyPaging.Tables.WalkMapsExactlyTheWindows | os/src/early_paging.rs:58-109 | A three-level walk maps every address of the two windows to itself modulo 2^39 with the access flags, and nothing else |

## Left out

- Weak memory: atomics are sequentially consistent, so orderings weaker than that are not modelled.
- `publish_cpu_state`, which replaces a whole state, has no callers in the repository; the lock machine has `update_cpu_state` only.
- LockInvariant.StepKeeps: contention inside the release window of interrupted code is excluded, because the verdict is false otherwise with two CPUs or more; the double buffer and the mutexes need no exclusion. The futex registry (os/components/wateros-ipc/ipc-futex/futex-impl/impl-task/src/global.rs:29-52) takes and publishes its lock in the same order as the tracked mutex and is not modelled apart.
- EventProtocol.StepKeeps: the 64-bit sequence does not wrap around, and no writer is a whole ring behind a later one; the second bound is exactly what is needed (EventProtocol.DrawIsSafeExactly).
- EventProtocol.ReaderSeesFinishedEvents: the same two bounds.
- VerdictCompleteness.VerdictIsExact: as for LockInvariant.StepKeeps, contention inside a release window is excluded.
- DebugAbi.DecodeState: the flags and the missing-task value derived from the state words, the names that the decoder gives to classes and states, and the replacement of non-ASCII bytes in the build id.
- RemoteSample.ReadState: the transport, and failures other than unreadable memory; all visible CPUs have the lowest numbers. The second reading and the comparison of build ids are in FullSample.
- EventChain.ReportFromBytes: runs are timely, as for EventProtocol.ReaderSeesFinishedEvents.
- The streak counters of the watcher and its reports.
- Package files: loading one is a lookup that may fail; names, versions and build recipes do not matter here.
- DiskLayout.MakeTableWithImages: what `sfdisk` does is not modelled, the partitions returned are those planned, and only how many are read back is a parameter; white space in types is ASCII. The same holds for the other three tables.
- DiskLayout.ChosenLayoutSucceeds: type strings and the count read back are checked after the placement (DiskLayout.CreateLayout).
- DiskLayout.DiskSize: an unknown table or layout name, which the command line cannot produce, is not modelled.
- `auto_image_size_mb`: easy arithmetic.
- ConsoleWake.RunKeeps: the input task is the only reader of the console device, and only the CPU that receives device interrupts dispatches the UART; the case without a registered UART interrupt sleeps with a timeout and needs no wake-up.
- Timeouts of the network worker are an arbitrary wake-up.
- ConsoleLock.LockIsSafe: synchronous faults inside the lock function are not modelled, only calls from the write itself and from interrupt handlers.
- SmpBoot.OneHartBoots: a hart whose number is the "unclaimed" value of `BSP_HART`; the two entry points are one machine, which leaves out that the LoongArch entry also marks the boot hart online.
- `GiveUp` in the boot machine stands for the bounded wait; its length is not modelled.
- EarlyPaging.Tables.WalkMapsExactlyTheWindows: the walk is over the tables as built; the TLB and the paging registers are not modelled.
- LoopDetection.LoopDetector.Push: a minimum period of zero with a positive repeat count, with which the detector does not end.
- DependencyClosure.ClosureIsExact: paths to one file agree in architecture and in what they need; otherwise the result depends on the path by which a file is met first.
- DependencyClosure.DependencyClosure: how a name is looked up, and running `readelf`: which file a name of an object leads to, and what is read from it, are given. Whether a file can be inspected does not change meanwhile.
- Races between path resolution and changes of the file system.
- I/O, sockets, subprocesses and reports.
