# Kernel models in Dafny

A Dafny model of the stateful cores of the phone kernel: the scheduler handshake, the FAT32
file system, the split virtqueue, pipes and shared memory, the block layer, the A/B slot
manager, open files, ramfs and SMS coding. Code that updates state in place is a class whose
methods keep the source's loops; each method is tied to a function or predicate on values, and
the promises are proved about those, over every run of the operations. `dafny verify
dfyconfig.toml` checks the whole project.

How the files fit together:

- `SchedTable` is the task table; `Sched` interleaves CPUs and tasks over it, cutting every
  locked section where a context switch cuts it; `SchedSafety` has the invariant, `SchedRace` the
  runs that break it, `SchedBusy` a bound that needs no assumption, `SchedFairness` and
  `SchedOrder` the order of dispatches, `SchedLife` what becomes of a task after a call; `PingPong` is the scheduler's own client.
- `FatTable` is the table as a list of entries, `FatRuns` runs allocations and releases on it,
  `FatDisk` and `FatFormat` lay it out in sectors, `FatVolume` is the code on the mounted volume,
  `FatFile` the byte files on top, `FatNames` the directory names and `FatSync` the way of a file's
  size through its directory slot.
- `Virtqueue` with `VirtqRace` (its drainers overlapping) and `VirtqOwners`, `Shm` with `ShmCalls`, `IpcRing` with
  `Pipe`, `Block` with `Devfs`, `Crc`, `AbTable` with `AbSlots` and `AbPayload`, `OpenFiles`, `Ramfs` with
  `RamTree` and `Septets` stand alone.
- `Bytes`, `Errno`, `Limits`, `Seqs` and `Wrappers` are shared.

What the environment is assumed to do: a failing block read leaves its buffer and a failing
block write the disk as they were; mapping a page that is already mapped is refused; the virtio
device completes each head it has fetched once, in any order; a block device refuses sectors it
does not have; the frame allocator never hands out a frame that is held; a FAT cluster is one
512-byte sector, the only size the formatter writes. Device failures, power cuts, memory shortage
and scheduling are free choices or parameters of every call. Each pop, submission and release of
the virtqueue is one step, although the driver takes no lock for it; callbacks and releases of
several drainers interleave. `Block.Device` and `FatVolume.Volume` count the transfers the device
has failed in a ghost field `faults`, so that each call says when it succeeds: a device error
means that the device failed during the call or that the range lies past its end, nothing else.

Where the code does less than its comments or tests promise, the model keeps the code and the
result gives the exact condition:

- `this_cpu()` is read before interrupts are masked in the blocking calls of kernel/task.c
  (lines 153-281), so a call preempted in between and resumed on another CPU marks the wrong
  task. The handshake is safe for all runs, and no wake-up is lost in any, exactly when the calls
  are entered masked, or there is at most one CPU, or at most one task; under the same condition
  and no other `task_exit` and `msleep` reach their caller in every run. A READY task is overtaken
  at most once by each equal in all runs exactly when the calls are entered masked, or there is at
  most one CPU, or at most two tasks. That no lower priority overtakes it, and that the lock is
  handed over correctly, needs no condition.
- `wait_sleep_when` does not look at its condition again after a wake-up, so a `wait_wake_all`
  delayed past the next round releases a helper out of turn. The selftest's alternation holds
  under every schedule exactly when the store and the wake are one action or there is at most
  one round.
- A cluster numbered 0x0FFFFFF8 or above reads as an end-of-chain mark. Every operation of every
  run is faithful exactly when the table has at most 0x0FFFFFF8 entries.
- A plain 8.3 entry that follows leftover long-name slots with the same short-name checksum is
  read under the leftover name; after slots that fat_create left over that is the exact condition.
- `abmgr_attach` formats a new table when it cannot read the old one, and the rollback counter is
  32 bits wide. Over every run in which no call loses the counter in one of these two ways the
  durable count never decreases; a call that does lose it lowers the count at once, or leaves it
  to the next counted boot to do so.
- `virtq_drain_used` takes no lock and has two callers that can overlap: the tasklet `vm_bottom`,
  run by the housekeeping task (kernel/main.c:60, kernel/tasklet.c), and `virtio_poll` in every
  blocking request (drivers/virtio_blk.c:140, drivers/virtio_gpu.c:250). Two of them can call one
  completion back twice and release its chain twice; then a pop hands out a descriptor in use and
  a submission overwrites an entry not yet fetched. The partition of the descriptors, pops of
  unused descriptors only, one callback per completion, made for its own request, and no overrun
  each hold in all runs exactly when drainers wait for each other or there is at most one.
- `fat32_mkfs` writes the boot sector first, so a format that stops part-way leaves a volume that
  `fat32_sniff` accepts and nothing formats again. Over all disks that
  `fat32_sniff` rejected before, it accepts complete images only exactly when none or all of the
  writes were done.
- `sms_encode_7bit` reports a length beyond the buffer instead of an error when only the end of
  the last septet is cut: for the 160 bytes of `sms_build_submit_pdu`, at exactly 183 characters.
  The result is an error or a length inside the buffer exactly when 7 * length <= 8 * cap or
  7 * (length - 1) >= 8 * cap, for a buffer that is not empty.
- `vblk_rw` (drivers/virtio_blk.c) clears the NEXT flag of its data descriptor, so each block
  request returns two of the three descriptors it takes, and one that finds fewer than three
  keeps those.

## Model

| member | source | states |
|---|---|---|
| SchedTable.TaskTable.PickNext | kernel/sched.c:52-73 | the scan returns a READY task that no READY task beats on priority, then on the smaller queue key, or none exactly when nothing is READY |
| SchedTable.TaskTable.AllocTask | kernel/task.c:48-54 | the slot returned is the first unused one |
| SchedTable.TaskTable.NextKey | kernel/task.c:36-39 | keys are fresh and strictly increasing |
| SchedTable.TaskTable.Create | kernel/task.c:57-126 | a created task takes the first free slot, primed with its priority and, when READY at once, a fresh key; without a slot nothing changes |
| SchedTable.TaskTable.MakeReady | kernel/task.c:128-139 | launching gives the task a fresh key behind every key issued |
| SchedTable.TaskTable.Tick | kernel/sched.c:152-179 | one tick wakes exactly the sleepers whose deadline has passed, in slot order with rising keys, and charges the running task's quantum |
| SchedTable.ExpireMeaning | kernel/sched.c:157-168 | the tick's walk requeues every due sleeper once and leaves every other task as it was |
| SchedTable.ExpireOrder | kernel/sched.c:157-168 | of two due sleepers the lower slot gets the earlier key |
| SchedTable.TaskTable.Link | kernel/task.c:251-281 | a waiter becomes BLOCKED at the head of its queue's list |
| SchedTable.TaskTable.WakeHead | kernel/task.c:283-309 | taking the head off a queue makes that task READY behind everyone and leaves the rest of the list |
| SchedTable.TaskTable.WakeAll | kernel/task.c:283-309 | the loop ends, wakes exactly the tasks on the list, empties the queue, and asks for preemption exactly when one of them outranks the caller |
| SchedTable.WakeMeaning | kernel/task.c:283-309 | waking a list of distinct tasks empties the queue, makes each of them READY with a fresh key (a DEAD one only unlinked) and touches no other task |
| SchedTable.WakeOrder | kernel/task.c:283-309 | the woken tasks get consecutive keys in list order, DEAD ones passed over |
| SchedTable.ListUnique | kernel/task.c:264-270 | a wait queue threads one list of tasks only |
| SchedSafety.HandshakeSafe | kernel/sched.c:94-147 | entered masked, or with one CPU or one task: in every reachable state, with the lock free each READY task has a fully saved context and runs nowhere, and no task runs on two CPUs |
| SchedSafety.LockHandedOver | kernel/task.c:193-205 | in every reachable state of any number of CPUs and tasks, however the primitives are entered, the lock is held by exactly the one CPU inside a locked section, across every hand-over, with interrupts masked there |
| SchedSafety.NoLostWakeUp | kernel/task.c:251-309 | entered masked, or with one CPU or one task: a parked task whose condition no longer asks it to wait is owed a wait_wake_all by a task that changed the condition; the queues are disjoint acyclic lists of exactly the BLOCKED waiters; every RUNNING task is on a CPU |
| SchedSafety.RunInv | kernel/sched.c:90-207 | entered masked, or with one CPU or one task: every step of every run keeps the scheduler's invariant |
| SchedRace.TaskOnTwoCpus | kernel/task.c:168-181 | for any two or more CPUs and tasks, a run in which an unmasked yield is preempted between reading its CPU and taking the lock ends with one task on two CPUs |
| SchedRace.HandshakeExactly | kernel/task.c:153-218 | the handshake is safe for all runs if and only if the calls are entered masked, or there is at most one CPU, or at most one task |
| SchedRace.WaiterLost | kernel/task.c:251-281 | for any two or more CPUs and tasks, a run in which an unmasked wait links the wrong task: its caller is left RUNNING on no CPU and on no queue |
| SchedRace.WakeUpsExactly | kernel/task.c:251-309 | no wake-up is lost in any run if and only if the calls are entered masked, or there is at most one CPU, or at most one task |
| SchedBusy.SpareKept | kernel/task.c:153-309 | every step, whichever task it marks, keeps the account in which executing CPUs and wait-queue links are covered by RUNNING and BLOCKED tasks |
| SchedBusy.IdleWhenNoneRuns | kernel/sched.c:90-207 | in every reachable state, however the primitives are entered, no CPU executes a task while no task is RUNNING or BLOCKED |
| SchedBusy.TicketStays | kernel/task.c:128-139 | of two tasks, both READY, neither gets a new key, however the primitives are entered |
| SchedFairness.LowerWait | kernel/sched.c:52-73 | in every run, however the primitives are entered, no task of lower priority is dispatched while a task waits READY |
| SchedFairness.BoundedOvertaking | kernel/sched.c:52-73 | entered masked, or with one CPU or at most two tasks: a rival dispatched twice while a task waits READY has strictly higher priority |
| SchedOrder.OvertakenTwice | kernel/task.c:168-181 | for any two or more CPUs and three or more tasks, an unmasked run in which an equal is dispatched twice while a task waits READY |
| SchedOrder.OvertakingExactly | kernel/sched.c:52-73 | equals overtake at most once in every run if and only if the calls are entered masked, or there is at most one CPU, or at most two tasks |
| SchedLife.ExitExactly | kernel/task.c:153-166 | from its call of task_exit on a task is DEAD, never dispatched, and executes no further than out of its CPU, in every run, if and only if the calls are entered masked, or there is at most one CPU, or at most one task |
| SchedLife.SleepExactly | kernel/task.c:207-249 | from its call of msleep on a task is SLEEPING and not dispatched until the first tick that reaches its deadline, which makes it READY with a fresh key, in every run, if and only if the same |
| SchedLife.DeadlineHolds | kernel/task.c:244-248 | under that condition the deadline of a sleep is the one its caller wrote last |
| SchedLife.QuantumUsed | kernel/sched.c:152-179 | under that condition a task that keeps the CPU it was dispatched on has its quantum less that CPU's ticks left, and once they have used it up the CPU is asked to preempt it |
| SchedLife.PreemptRequeues | kernel/sched.c:186-207 | the preemption makes the running task READY behind everyone, clears the request and parks it |
| SchedLife.LastStore | kernel/task.c:251-309 | in every run, however the primitives are entered, the condition's word is what was stored in it last |
| SchedLife.PriorityKept | kernel/task.c:57-126 | in every run, however the primitives are entered, a created task starts READY, or BLOCKED when deferred, and keeps the priority it was created with |
| PingPong.StrictAlternation | kernel/selftest_sched.c:40-77 | with the store and the wake as one action, or one round, every schedule alternates strictly, never panics, never stalls and finishes with the count the selftest demands |
| PingPong.LateWakeBreaks | kernel/selftest_sched.c:62-74 | from two rounds on a concrete schedule with a delayed wake trips the order check |
| PingPong.AlternationExactly | kernel/selftest_sched.c:62-74 | no schedule trips the order check if and only if store and wake are one action or there are fewer than two rounds |
| FatTable.AppendKeeps | fs/fat32.c:293-312 | claiming a free cluster and linking it behind a chain keeps the table a set of disjoint acyclic chains with end marks and extends exactly that chain |
| FatTable.GrowKeeps | fs/fat32.c:258-316 | growing appends exactly the asked number of formerly free distinct clusters, fewer only when no free entry is left, and changes no entry but theirs and the old tail's |
| FatTable.GrowChain | fs/fat32.c:258-316 | a grown chain is still acyclic and ends in an end mark, new clusters last |
| FatTable.GrowFinds | fs/fat32.c:279-314 | growing finds as many clusters as are asked for, or all that are free |
| FatTable.ReleaseKeeps | fs/fat32.c:318-335 | freeing a chain zeroes exactly its entries and leaves every other chain |
| FatTable.PartReleaseKeeps | fs/fat32.c:322-333 | a release stopped part-way leaves what it has not reached a chain of the same file |
| FatTable.PartGrowKeeps | fs/fat32.c:279-314 | a growth stopped part-way leaves a prefix of the new clusters on the chain and at most one marked cluster unlinked |
| FatRuns.WalksRead | fs/fat32.c:206-220 | the link walks read back exactly the chain and its tail when its clusters are below the end marks |
| FatRuns.SmallTablesFaithful | fs/fat32.c:206-335 | on a table of at most 0x0FFFFFF8 entries every operation of every run appends or releases exactly what it says and leaves every other file's chain |
| FatRuns.MarkLost | fs/fat32.c:200-203 | on a larger table a run exists whose next growth allocates a cluster that the walk then takes for an end mark |
| FatRuns.FaithfulExactly | fs/fat32.c:200-335 | every operation of every run from a fresh table is faithful if and only if the table has at most 0x0FFFFFF8 entries |
| FatDisk.SetReads | fs/fat32.c:182-198 | writing an entry's sector to the first copy or more changes that entry of the table in use and no other |
| FatDisk.SetMirrors | fs/fat32.c:181-198 | writing every copy keeps all copies identical |
| FatDisk.DataFrames | fs/fat32.c:138-141 | no data sector overlaps any FAT copy |
| FatFormat.LayoutFits | fs/fat32.c:1440-1460 | in every accepted layout below 2^32 sectors nothing wraps, the FAT covers every cluster and the clusters fill the window exactly |
| FatFormat.AcceptsFrom | fs/fat32.c:1440-1455 | below 2^32 the formatter accepts exactly the sizes from 66583 sectors on |
| FatFormat.FormattedTable | fs/fat32.c:1500-1513 | both FAT copies of a fresh image are identical and hold the root's one-cluster chain and nothing else |
| FatFormat.FsInfoIs | fs/fat32.c:1486-1492 | FSInfo has its three signatures and no hints |
| FatFormat.BootStart | fs/fat32.c:1449-1462 | jump, OEM name and media byte of the boot sector |
| FatFormat.BootEnd | fs/fat32.c:1467-1474 | the boot sector names sector 1 for FSInfo and 6 for its backup, and carries drive and labels |
| FatFormat.FormattedMounts | fs/fat32.c:1314-1358 | sniff and mount accept a fresh image with exactly the layout it was made with |
| FatFormat.SniffImpliesMount | fs/fat32.c:1398-1430 | whatever sniff accepts, mount accepts |
| FatFormat.AllWritten | fs/fat32.c:1478-1520 | on any disk the writes of a format together make a complete image: boot sector, FSInfo and their backups, both FAT copies and a zeroed root |
| FatFormat.TableWaits | fs/fat32.c:1478-1497 | the first four writes, boot sector included, leave the old table in place |
| FatFormat.PartFormatExactly | fs/fat32.c:1398-1521 | after k writes onto any disk that sniff rejected, a positive sniff means a complete image if and only if k is none or all of them |
| FatVolume.Volume.Mkfs | fs/fat32.c:1432-1521 | the disk afterwards is the old one with the first `done` writes of the format on it, all of them if and only if it succeeds; below 2^32 sectors it succeeds, leaving a complete image, if and only if the size is accepted and the device does not fail; a size that is not accepted leaves the disk alone, each error having its condition |
| FatVolume.Volume.Sniff | fs/fat32.c:1398-1430 | positive if and only if the device yields the boot sector and it passes every check |
| FatVolume.Volume.Mount | fs/fat32.c:1314-1389 | success gives the geometry in the boot sector; each error has its condition (device failure, a boot sector that mount rejects, no memory) and changes nothing |
| FatVolume.Volume.FormatAndMount | fs/fat32.c:1314-1521 | succeeds if and only if the size is accepted, the device does not fail and there is memory, and then the copies agree on a fresh table with a zeroed root |
| FatVolume.Volume.FatEntry | fs/fat32.c:167-179 | the entry; EIO exactly for numbers outside the table, a device error exactly when the device fails |
| FatVolume.Volume.FatSetEntry | fs/fat32.c:182-198 | patches the entry in every copy, or in the first ones exactly when the device fails |
| FatVolume.Volume.ChainLen | fs/fat32.c:206-220 | the walk ends with the number of clusters unless the device fails; the loop guard never trips on a chain |
| FatVolume.Volume.ChainSeek | fs/fat32.c:223-243 | reaches the wanted cluster of the chain; EIO exactly past its end, a device error exactly when the device fails |
| FatVolume.Volume.FindTail | fs/fat32.c:268-277 | the walk ends at the last cluster of the chain unless the device fails |
| FatVolume.Volume.FindFree | fs/fat32.c:282-293 | unless the device fails, the first free entry, or none exactly when there is none |
| FatVolume.Volume.AppendCluster | fs/fat32.c:279-314 | one turn claims the first free cluster, zeroes it and links it; ENOSPC exactly without one, a device error, leaving at most a marked cluster, exactly when the device fails |
| FatVolume.Volume.ChainGrow | fs/fat32.c:258-316 | unless the device fails, appends exactly `count` zeroed clusters, or all that are free and ENOSPC, and keeps the mirror; the data of used clusters is kept in any case |
| FatVolume.Volume.ChainFree | fs/fat32.c:318-335 | the walk ends having zeroed the whole chain, or a prefix of it exactly when the device fails, and touches no data |
| FatFile.Inode.Read | fs/fat32.c:1093-1145 | the whole clipped slice of the file's bytes if and only if the device does not fail, else the part before the error |
| FatFile.Inode.FillHole | fs/fat32.c:1195-1224 | unless the device fails, the bytes from the old end to the write offset become zeros; no byte of the file changes |
| FatFile.Inode.CopyIn | fs/fat32.c:1229-1256 | all bytes are spliced into the file's room if and only if the device does not fail, else a prefix of them |
| FatFile.Inode.WriteRange | fs/fat32.c:1166-1264 | writes everything and updates size and slot if and only if the result fits the file limit and the free clusters and the device does not fail; ENOSPC exactly when it does not fit; on a part-way failure the file is the plain write cut to the recorded size; only the file's clusters, free ones and its slot's fields change |
| FatFile.Inode.Truncate | fs/fat32.c:1148-1158 | unless the device fails, empties the file, frees exactly its chain and records both in the slot; a failed release leaves the record and a released prefix |
| FatFile.Inode.DirentSync | fs/fat32.c:635-652 | unless the device fails, the slot names the first cluster and size; no other byte of its sector changes |
| FatFile.WriteKeepsFiles | fs/fat32.c:1166-1264 | after any write, whatever it returned, the table is a set of disjoint chains and every byte of every other file is as it was |
| FatFile.TruncateKeepsFiles | fs/fat32.c:1148-1158 | the same after any truncation, what was not freed being still the file's chain |
| FatFile.PatchRoom | fs/fat32.c:1246-1250 | writing back a patched sector splices the patch into the bytes of the chain |
| FatNames.LfnChecksum | fs/fat32.c:405-413 | the loop computes the checksum of the short name |
| FatNames.ChecksumRegisters | fs/fat32.c:405-413 | the checksum is an 8-bit register, 0 at first, rotated right by one before each of the 11 bytes is added |
| FatNames.LongShortName | fs/fat32.c:575-613 | the short name of a name that is not plain keeps the first six legal characters of the stem and three of the extension, upper-cased and in order, an underscore for none, then ~ and the attempt's digit |
| FatNames.PlainReadsBack | fs/fat32.c:424-441 | the short name made for a plain 8.3 name prints as that name |
| FatNames.ShortNameVisible | fs/fat32.c:575-613 | a short name never begins with an end or deletion mark |
| FatNames.MakeRun | fs/fat32.c:923-971 | the slots written are the fragments in descending order, each with its checksum and characters, then the short entry with size 0 and the fixed date |
| FatNames.FragmentBytes | fs/fat32.c:937-947 | a fragment's 13 characters fill bytes 1 to 10, 14 to 25 and 28 to 31 in order, low byte first |
| FatNames.DirNext | fs/fat32.c:448-524 | the scan returns the next visible entry, or the end, with its printed name and exactly the attributes, first cluster and size its slot records (size 0 for a directory), whatever was in the name buffer before; an error exactly when it meets a slot that cannot be read |
| FatNames.LongReadsBack | fs/fat32.c:475-515 | a long name's run reads back whatever leftover slots precede it, 7-bit characters as written and others as question marks |
| FatNames.PlainReads | fs/fat32.c:503-519 | a plain entry after leftover slots reads as its own name unless their checksum claims it |
| FatNames.PendingFromHead | fs/fat32.c:475-485 | what leftover slots claim is decided by the last head among them |
| FatNames.ReadsBackExactly | fs/fat32.c:448-613 | for every name of 1 to 63 characters and any leftover slots the run reads back with its first cluster and the size last recorded, and as that name if and only if it is 7-bit (long) or no other name claims its checksum (plain) |
| FatNames.PrintsNoPlain | fs/fat32.c:475-515 | what is collected from slots that fat_create left over never prints as a plain name |
| FatNames.ReadsBackAfterCreates | fs/fat32.c:448-613 | after slots that fat_create left over, a plain name reads back if and only if no head among them carries its checksum |
| FatNames.InterruptedCreate | fs/fat32.c:923-975 | the fragment left by an interrupted creation of one name makes a new plain file read under it |
| FatNames.NextDescribes | fs/fat32.c:459-506 | the entry found is the first slot that is neither deleted nor a fragment, reported as its bytes say |
| FatSync.SyncReadsBack | fs/fat32.c:497-504 | after dirent_sync has recorded a file's first cluster and size in a slot, dir_next reports exactly these (size 0 for a directory) under the name and attributes it reported before |
| FatSync.SyncedRun | fs/fat32.c:629-650 | syncing the short entry of a run leaves it the run of the same name, with the new first cluster and size |
| Virtqueue.Virtq.constructor | drivers/virtio_mmio.c:168-180 | setup threads all 128 descriptors on the free list |
| Virtqueue.Virtq.PopDesc | drivers/virtio_mmio.c:191-202 | takes the head of the free list or reports none |
| Virtqueue.Virtq.SubmitHead | drivers/virtio_mmio.c:204-213 | records the owner, fills the next avail slot and publishes it, the index wrapping at 2^16 |
| Virtqueue.Virtq.FreeChainFrom | drivers/virtio_mmio.c:215-233 | the walk ends and is the value-level release of that chain |
| Virtqueue.Virtq.DrainUsed | drivers/virtio_mmio.c:235-251 | whatever device and clients do during and after each callback, one drainer calls back once per completion in used-ring order until nothing is left, handing on the owner found at its head, by steps that keep the invariant; left alone, it puts exactly the drained chains on the free list |
| Virtqueue.FreesChain | drivers/virtio_mmio.c:215-233 | releasing a linked chain puts exactly its descriptors on the free list, every flag but NEXT cleared, and changes no other |
| Virtqueue.Partitioned | drivers/virtio_mmio.c:170-251 | with at most one drainer, or drainers that wait for each other: in every reachable state the 128 descriptors are partitioned among the free list of exactly free_count distinct nodes, the popped ones and the chains in flight |
| Virtqueue.PopUnused | drivers/virtio_mmio.c:191-202 | under the same condition pop never yields a descriptor in use, and yields none exactly when all are |
| Virtqueue.NoOverrun | drivers/virtio_mmio.c:204-251 | under the same condition no avail or used slot is overwritten before it is consumed, however often the 16-bit indices wrap |
| Virtqueue.ExactlyOnce | drivers/virtio_mmio.c:235-251 | under the same condition callbacks follow used-ring order, each for a different submission, and the drain guard is true exactly while something is undrained |
| Virtqueue.StepKeeps | drivers/virtio_mmio.c:191-251 | under the same condition every pop, build, submission, fetch, completion, callback and release keeps the queue's invariant |
| VirtqRace.TwoDrainers | drivers/virtio_mmio.c:235-283 | for any two or more drainers, a run in which both pass the guard for the one completion: two callbacks, 129 free descriptors with descriptor 0 linked to itself, and the drained index past the used one |
| VirtqRace.PoppedTwice | drivers/virtio_mmio.c:191-202 | after it a run in which the next pop hands out a descriptor that is already popped |
| VirtqRace.Overrun | drivers/virtio_mmio.c:204-213 | after it a run of submissions of that one descriptor that reaches an avail slot the device has not fetched |
| VirtqRace.PartitionExactly | drivers/virtio_mmio.c:235-283 | every reachable state has the descriptors partitioned if and only if drainers wait for each other or there is at most one |
| VirtqRace.PopExactly | drivers/virtio_mmio.c:191-283 | no pop in any run yields a descriptor in use if and only if the same |
| VirtqRace.CallbackExactly | drivers/virtio_mmio.c:235-283 | every completion is called back at most once in all runs if and only if the same |
| VirtqRace.SlotsExactly | drivers/virtio_mmio.c:204-283 | no slot is overwritten before it is consumed in any run if and only if the same |
| VirtqOwners.OwnerOfEach | drivers/virtio_mmio.c:204-251 | under the same condition, in every reachable state the owner at the head of every chain in flight is the one passed with its submission, every other entry is 0, and each callback finds the owner of exactly the submission completed |
| VirtqOwners.OwnersExactly | drivers/virtio_mmio.c:204-283 | this holds in all runs if and only if drainers wait for each other or there is at most one |
| Virtqueue.RequestLoses | drivers/virtio_blk.c:105-127 | a block request links two of the three descriptors it pops, so only two come back |
| Virtqueue.RequestsRunDry | drivers/virtio_blk.c:105-127 | after n requests, n up to 126, exactly 128 - n descriptors are free |
| Virtqueue.FailedRequestKeeps | drivers/virtio_blk.c:106-110 | a request that finds fewer than three descriptors keeps those it popped |
| Virtqueue.NoneLeft | drivers/virtio_blk.c:105-127 | after 127 requests no descriptor is left |
| Shm.KeepsAttach | kernel/ipc.c:564-577 | recording a mapped slot keeps counts equal to slots and windows equal to the union of the slots' frames |
| Shm.KeepsDetach | kernel/ipc.c:584-611 | so does a detach, whether or not it frees the object |
| Shm.KeepsCreate | kernel/ipc.c:439-485 | so does a new object on frames nobody holds |
| Shm.FreedExactly | kernel/ipc.c:599-610 | frames are freed exactly when the last slot naming the object goes |
| Shm.ForkInherits | kernel/ipc.c:639-668 | a fork gives the child the parent's slots and window on the same frames and changes nothing else but the counts |
| Shm.FailedForkClean | kernel/ipc.c:668-672 | a fork that fails at any slot and rolls back leaves the whole state as it was |
| Shm.ExitUnmaps | kernel/ipc.c:954-964 | an exiting process keeps no slot and no mapping |
| Shm.RunSafe | kernel/ipc.c:439-673 | in every run of creates, attaches, detaches, forks, failed forks and exits counts equal slots, windows map exactly the union of disjoint slots and every mapped frame is held |
| ShmCalls.Ipc.CreateObj | kernel/ipc.c:439-485 | success makes the first unused object from the frames supplied; each error has its exact condition, and gives every frame back |
| ShmCalls.Ipc.MapRange | kernel/ipc.c:491-507 | maps the whole range exactly when no page is mapped and page tables suffice, otherwise leaves the window as it was |
| ShmCalls.Ipc.UnmapPart | kernel/ipc.c:503-505 | unmapping the pages of a partly mapped range, last first, restores the window |
| ShmCalls.Ipc.AttachObj | kernel/ipc.c:516-581 | success attaches through the first free slot at an address inside the window; each error has its exact condition and leaves all mappings and counts; the window allocator moves exactly when the call picks the address |
| ShmCalls.Ipc.DoDetach | kernel/ipc.c:584-611 | unmaps the slot's range, frees the slot and drops one reference |
| ShmCalls.Ipc.DetachAt | kernel/ipc.c:613-631 | detaches the first slot at that address; address 0 finds a free slot and changes nothing |
| ShmCalls.Ipc.ForkInto | kernel/ipc.c:639-673 | succeeds exactly when every slot can be mapped, and then the child equals the parent; otherwise nothing has changed |
| ShmCalls.Ipc.ExitProc | kernel/ipc.c:954-964 | every slot is given up in turn |
| IpcRing.Ring.Pull | include/ipc_ring.h:37-55 | takes the first bytes of the queue across wrap-around |
| IpcRing.Ring.Push | include/ipc_ring.h:58-76 | appends as many bytes as fit across wrap-around |
| IpcRing.Pulled | include/ipc_ring.h:45-52 | one contiguous segment taken from the head is the front of the queue |
| IpcRing.Pushed | include/ipc_ring.h:66-73 | one contiguous segment written at the tail goes behind the queue |
| Pipe.PipeBuf.CopyOut | kernel/ipc.c:166-181 | removes exactly the first n queued bytes |
| Pipe.PipeBuf.CopyIn | kernel/ipc.c:216-231 | appends exactly the given bytes |
| Pipe.StepKeeps | kernel/ipc.c:57-325 | every step of every call keeps byte order, lock ownership, wait queues and the parking condition |
| Pipe.ConcurrentFifo | kernel/ipc.c:183-269 | for any interleaving of readers, writers and closers bytes read followed by the ring equal bytes written, and with the lock free a parked reader means empty with a live writer, a parked writer full with a live reader |
| Pipe.NeverBothParked | kernel/ipc.c:183-269 | with the lock free a reader and a writer are never both parked |
| Pipe.PipeBuf.ReadHeld | kernel/ipc.c:193-214 | the locked section of a read changes the pipe and returns exactly as the protocol's step does, moving its bytes by pipe_copy_out |
| Pipe.PipeBuf.WriteHeld | kernel/ipc.c:246-268 | the locked section of a write changes the pipe as the protocol's step does, by pipe_copy_in, and returns the number of bytes put in, or EPIPE with a dead read end |
| Pipe.PipeBuf.CloseHeld | kernel/ipc.c:306-314 | closing an end changes the pipe as the protocol's step does |
| Pipe.CallResults | kernel/ipc.c:183-325 | a read that does not park takes the next bytes in order, as many as it asks for or are queued, none only at end of file; a write puts in the first bytes of its data, as many as there are or find room, none only when the read end is closed; a close latches its end |
| Pipe.ParksExactly | kernel/ipc.c:183-269 | a call parks if and only if it reads from an empty pipe with a live writer or writes to a full one with a live reader |
| Pipe.WriteThenRead | kernel/ipc.c:183-269 | for any data that fits and any read length there is a run in which one task writes it and another reads its first bytes, the rest staying in the pipe |
| Block.Device.CacheReadSector | drivers/block.c:165-195 | a hit and a miss both return the device's sector; an error exactly past the end or when the device fails |
| Block.Device.CacheFillWrite | drivers/block.c:198-212 | refreshing one sector makes its line agree with the device again |
| Block.Device.Submit | drivers/block.c:216-261 | any number of sectors moves in driver-size chunks, all of them if and only if they lie on the device and it does not fail, else a prefix; every valid line equals its sector afterwards |
| Block.Device.BlockRead | drivers/block.c:270-307 | exactly the bytes of the flat device, partial last sector included, if and only if the range is on the device and it does not fail |
| Block.Device.BlockWrite | drivers/block.c:309-350 | splices the bytes, a short last sector padded with zeros, into the flat device if and only if the range is on the device and it does not fail; a failure leaves a prefix of the sectors, a bad range nothing |
| Block.FillFresh | drivers/block.c:198-212 | refreshing stale sectors in order removes them one by one from the stale range, although lines are shared |
| Block.FlatSplice | drivers/block.c:309-350 | storing sectors is splicing their bytes into the flat array |
| Devfs.BlockRw | fs/devfs.c:140-184 | a read is a clipped slice and a write a clipped splice of the flat array, complete if and only if the device does not fail, else a prefix, or EIO for none |
| Devfs.PatchFlat | fs/devfs.c:162-176 | read, patch and write back of one sector splices just the patch |
| Crc.CrcInit | drivers/block.c:42-52 | the table holds eight bit steps of every byte value |
| Crc.Crc32Update | drivers/block.c:55-64 | the table loop is the bitwise register over the same bytes |
| Crc.Crc32Calc | kernel/abmgr.c:28-38 | the branch-free loop is the seeded and complemented register |
| Crc.TableStep | drivers/block.c:61-62 | one table lookup does the work of eight bit steps |
| Crc.Streaming | drivers/block.c:547-559 | updating over consecutive pieces is updating over their concatenation |
| Crc.PiecesAgree | drivers/block.c:547-559 | the streamed table form over two pieces equals the bitwise form of the whole |
| Crc.CheckValue | drivers/block.c:37-64 | the CRC of the nine digits is 0xCBF43926, the check value of CRC-32 |
| AbTable.ReadBack | kernel/abmgr.c:50-61 | the 80-byte record written is the record read back |
| AbTable.RecordLayout | include/abmgr.h:44-61 | where each field of the record stands in its sector |
| AbSlots.AbMgr.TableWrite | kernel/abmgr.c:50-54 | seals and writes the table, or fails or is cut before or after |
| AbSlots.AbMgr.AttachTo | kernel/abmgr.c:63-91 | a valid table is taken over, anything else replaced by an empty one |
| AbSlots.AbMgr.SlotSeal | kernel/abmgr.c:105-140 | records what the caller gives in the slot and makes it valid, unconfirmed and inactive, each refusal having its condition |
| AbSlots.AbMgr.BeginBoot | kernel/abmgr.c:142-153 | counts a boot of the active slot, saturating at 255 |
| AbSlots.AbMgr.ConfirmBoot | kernel/abmgr.c:155-168 | confirms the active slot and bumps its sequence number |
| AbSlots.AbMgr.SwitchSlots | kernel/abmgr.c:170-201 | activates the other sealed slot, or the first sealed one when none is active |
| AbSlots.AbMgr.EvaluateSlots | kernel/abmgr.c:203-224 | counts a rollback and switches when the active slot is exhausted |
| AbSlots.StepKeeps | kernel/abmgr.c:63-224 | every call, whatever becomes of its writes, keeps disk and memory in order, and a table once valid on disk stays valid |
| AbSlots.SurvivesPowerCuts | kernel/abmgr.c:50-91 | wherever the power is cut, attaching again finds a valid table with at most one active slot, sealed and reported |
| AbSlots.ActiveIsSealed | kernel/abmgr.c:100-103 | at every moment the manager reports the one active slot of its table, and it is sealed |
| AbSlots.EvaluateExactly | kernel/abmgr.c:203-224 | evaluate returns 1 if and only if the active slot is unconfirmed since sealing, had three boots since it was sealed or activated, the other is sealed and the switch's write succeeds |
| AbSlots.RollbacksNeverDecrease | kernel/abmgr.c:50-224 | over every run, cuts and failed writes included, the durable rollback count never decreases while no call loses it |
| AbSlots.RollbacksMonotoneExactly | kernel/abmgr.c:63-224 | the durable count stays at least what it was through everything that may follow a call, no later call losing it, if and only if the call does not lose it: by formatting over a table it could not read, or by a rollback past 2^32 - 1 |
| AbSlots.StepLosesExactly | kernel/abmgr.c:203-224 | a call keeps the durable count, and keeps it no larger than the one in memory, if and only if it does not lose it |
| AbSlots.FormatRun | kernel/abmgr.c:81-90 | for every n > 0, a run whose attach cannot read a table after n rollbacks and sets the count to 0 |
| AbSlots.WrapRun | kernel/abmgr.c:214-217 | a run in which the rollback after 2^32 - 1 of them sets the count to 0 |
| AbPayload.SealStored | kernel/abmgr.c:130-139 | after a seal that returns 0 the slot on disk holds exactly the caller's checksum, sequence number, place and length, with no attempts, unconfirmed and inactive, and the rest of the table as it was in memory |
| AbPayload.ConfirmStored | kernel/abmgr.c:155-168 | after a confirmation that returns 0 the active slot on disk is confirmed, with no attempts and the next sequence number |
| AbPayload.SwitchStored | kernel/abmgr.c:170-201 | after a switch that returns 0 exactly the other slot, or with none active the first sealed one, is active on disk, sealed and with no attempts |
| AbPayload.AttachReady | kernel/abmgr.c:63-91 | an attach returns 0 if and only if it read a valid table or wrote an empty one, and then the manager is up with the table on disk |
| AbPayload.Refusals | kernel/abmgr.c:105-201 | each error of seal, boot, confirm and switch has its exact condition |
| AbPayload.PayloadLasts | kernel/abmgr.c:50-224 | over every run, from a seal that returned 0 until the slot is sealed again or the table formatted, the table on disk is valid and holds what was sealed, whatever is cut or fails, the sequence number raised by the confirmations that reached it |
| AbPayload.PayloadsAreSealed | kernel/abmgr.c:50-224 | at every moment of every run a valid slot on disk holds the payload of one of its seals, or of the table the run began with |
| OpenFiles.DropKeeps | fs/vfs.c:659-675 | closing one reference frees the file exactly at zero, then dropping exactly one vnode reference |
| OpenFiles.Conserved | fs/vfs.c:794-980 | in every run a file's count is the slots naming it plus the holds outstanding, nothing names a freed file, a vnode's count is its live files plus its holds, and it is destroyed once, at zero |
| OpenFiles.FreedOnce | fs/vfs.c:659-675 | a freed file stays freed |
| OpenFiles.InheritEquals | fs/vfs.c:945-968 | after a fork the child's table equals the parent's and every count is right |
| OpenFiles.ReleaseKeeps | fs/vfs.c:970-980 | after an exit the process has no table, other tables are untouched and every count is right |
| OpenFiles.Vfs.UnrefVnode | fs/vfs.c:115-129 | drops one vnode reference and destroys the vnode with the last |
| OpenFiles.Vfs.FileClose | fs/vfs.c:659-675 | gives up one hold |
| OpenFiles.Vfs.FileAlloc | fs/vfs.c:647-657 | turns one vnode reference into a file with one hold, or, exactly without memory, leaves it with the caller |
| OpenFiles.Vfs.FdInstall | fs/vfs.c:794-810 | the lowest free slot takes over the hold; a full table leaves it |
| OpenFiles.Vfs.FdGet | fs/vfs.c:812-825 | an open slot yields its file with one more hold |
| OpenFiles.Vfs.FdPut | fs/vfs.c:869-882 | the slot is cleared and its reference dropped |
| OpenFiles.Vfs.Inherit | fs/vfs.c:945-968 | the child shares every open file of its parent; it has no table exactly without memory |
| OpenFiles.Vfs.Release | fs/vfs.c:970-980 | every slot is closed and the table goes |
| Ramfs.RamFile.Read | fs/ramfs.c:219-240 | the clipped slice of the contents |
| Ramfs.RamFile.NewCap | fs/ramfs.c:262-270 | the doubled capacity fits the request and stays under the file cap |
| Ramfs.RamFile.Grow | fs/ramfs.c:262-282 | moving to a bigger buffer keeps the contents |
| Ramfs.RamFile.Lay | fs/ramfs.c:286-290 | zeroing the gap and copying in gives the zero-filled splice, also over bytes left behind by a truncation |
| Ramfs.RamFile.Write | fs/ramfs.c:242-294 | the contents become the zero-filled splice, nothing at offset 0 truncates, and each error has its exact condition and changes nothing |
| RamTree.RamFs.FindChild | fs/ramfs.c:93-100 | the sibling walk finds the child of that name, or none exactly when there is none |
| RamTree.RamFs.Lookup | fs/ramfs.c:102-119 | a found child gets one more shell exactly when there is memory for one |
| RamTree.RamFs.Create | fs/ramfs.c:121-158 | a new name is linked first in its directory with one shell; each error has its exact condition, and a taken or overlong name changes nothing |
| RamTree.RamFs.Unlink | fs/ramfs.c:169-194 | exactly the named child is taken out of the list; ENOTEMPTY exactly for a directory with children, which stays |
| RamTree.RamFs.Destroy | fs/ramfs.c:72-89 | one shell goes |
| RamTree.LinkKeeps | fs/ramfs.c:142-151 | linking a name that is not taken keeps lists threaded and sibling names distinct |
| RamTree.UnlinkKeeps | fs/ramfs.c:176-191 | bypassing a child keeps every list, orphans it and frees it at once exactly when it has no shell |
| RamTree.DropKeeps | fs/ramfs.c:72-89 | the last shell of an orphan frees it, any other does not |
| RamTree.FreedOnce | fs/ramfs.c:72-167 | a freed node is never touched again, and a node is freed only as an orphan without shells |
| RamTree.RunSafe | fs/ramfs.c:57-194 | in every run vn_live is the number of live shells, storage is freed exactly for orphans without shells and sibling names are distinct |
| Septets.AlphabetExactly | drivers/sms.c:26-56 | the alphabet gives exactly the supported characters back and a space for any other |
| Septets.GsmCodes | drivers/sms.c:26-39 | @, $, line feed and carriage return have the codes 0x00, 0x02, 0x0A and 0x0D, the two ranges keep their values, anything else is sent as 0x20 |
| Septets.WriteNext | drivers/sms.c:70-79 | oring in the next septet makes it readable and keeps every earlier one, whatever byte follows |
| Septets.Encode7Bit | drivers/sms.c:60-84 | the result fits the buffer if and only if 8 * cap >= 7 * length, and then the buffer's bits, each byte from its lowest, are the codes of the text, seven bits each, and zeros; it is an error if and only if the buffer is empty or the last septet starts behind it; otherwise a length past the buffer, with the exact condition for that never to happen |
| Septets.UserData | drivers/sms.c:154-166 | with 160 bytes texts of up to 182 characters are packed, 183 is reported as 161 bytes, more is an error |
| Septets.Decode7Bit | drivers/sms.c:86-109 | as many characters as fit the buffer, each from its septet |
| Septets.DecodesWhatWasPacked | drivers/sms.c:60-109 | decoding packed septets gives each character back independently of the byte after them |
| Septets.RoundTrip | drivers/sms.c:60-109 | encoding and decoding any text gives it back with unsupported characters as spaces |
| Septets.AddrBcd | drivers/sms.c:114-131 | two digits per byte, swapped, the odd one padded with F; fails exactly when the bytes do not fit |
| Septets.AddrBcdDecode | drivers/sms.c:133-147 | digits up to the first filler or the end of the buffer |
| Septets.AddressDigits | drivers/sms.c:114-147 | the nibbles of an encoded address are its digits |
| Septets.AddressBytes | drivers/sms.c:114-131 | each byte has the first digit in its low nibble and the second, or the filler, in the high one |
| Septets.AddressRoundTrip | drivers/sms.c:114-147 | decoding inverts encoding on every digit string, odd or even, that fits both buffers |

## Left out

- FAT clusters of more than one sector: the file code copies a whole-cluster chunk from one sector buffer.
- Directory scans as a whole: the free-slot search of fat_create, lookup after create, unlink and readdir; only slot runs are read and written here.
- Formatting partitions of 2^32 sectors or more; the model writes out the wrap-around but the layout results stop there.
- Partition tables (MBR, GPT), ext2, ELF loading, character devices and the rest of devfs and the VFS path code.
- PingPong takes a wait and a wake each as one step; what an unmasked wait does in between is in SchedRace.
- Virtqueue.StepKeeps: takes each pop, submission and release as one step; the driver locks none of them, and two that overlap are not modelled.
- VirtqRace.TwoDrainers: the step that releases a chain cuts a walk of more than 128 descriptors short, which only a list damaged by an earlier double release can have; the code would not return.
- The virtqueue's negotiation with a device whose queue is smaller than 128, register access and memory barriers.
- The address and length of a descriptor and the length of a used entry: payload that no queue operation looks at.
- Shared memory's window allocator is an unbounded number; its 64-bit wrap takes 2^64 bytes of automatic attaches.
- The interleaving inside shm_create, fd and file counts and fork's late failure paths: each call is one step.
- Message queues, Unix sockets, polling, the pipe pool and the memory of a pipe after both ends are gone.
- Cross-CPU kill, reaping and reparenting of tasks; wait queues of killed tasks.
- Jiffies and queue keys are unbounded numbers; the source's 64-bit counters wrap after centuries.
- The payload checksum folded by abmgr_slot_seal is a parameter, as are the switch and confirm statistics, abmgr_table_put and sealing the active slot.
- RamTree.RamFs.Lookup: reports success without a shell when memory is short, as the code does; callers' handling of that is not modelled.
- Ramfs.RamFile.Write: file data and tree are separate classes, so a node's storage stands for its buffer.
- Message PDUs and the message store around the septet and address coding.
