# Tanix in Dafny

Models of the hard cores of the Tanix microkernel and its servers, with proofs of what they
promise. Each part is a specification on values (`*Spec`, or the functions of a module), the
invariants and run-level theorems about it, and, where the program updates memory in place, a
class whose methods are proved to do exactly what the specification says.

* **FAT16** (`FatSpec`, `FatLayout`, `FatAccount`, `FatView`, `Fat16Volume`, `FatRuns`). The disk is a sequence of
  sectors whose transfers may fail at any time. A file is the byte sequence along its cluster chain.
  Writing is overlaying, reading is slicing, and no other file moves. Any sequence of operations
  keeps all chains well formed and disjoint and accounts for every cluster; successful ones act on
  the volume as on a map from names to bytes.
* **IPC and scheduler** (`SchedSpec`, `SchedInv`, `SchedRuns`, `SchedFacts`, `SchedEffects`,
  `SchedReach`, `Kernel`).
  Every syscall, tick, yield, exit, idle round and boot spawn is one step of a transition system with
  four CPUs. In every state a run from boot reaches before an event bites (see below), a task runs
  on at most one CPU, no blocked receiver misses a message it would accept, and each message sent is
  delivered once or still queued or staged. Each event is also described outright: whom it wakes,
  whom it parks and where the CPU goes; a sleeper wakes at its time, neither before nor after.
* **Address spaces** (`PageTables`, `Cloning`, `AddressSpace`, `VmFault`, `Frames`). Four-level tables are
  labelled trees of frames in memory; their meaning is the hardware walk. Mapping, block splitting,
  cloning and freeing are proved against that meaning, several spaces at once stay isolated, a
  demand window behaves as private zeroed memory, and the frame bitmap is a set of free frames.
* **TCP and frames** (`TcpSpec`, `TcpSender`, `TcpProgress`, `TcpLink`, `TcpOrder`, `TcpClass`,
  `Checksum`, `NetCodec`, `NetWire`).
  The sender invariant holds against any peer; end to end, over a channel that loses, repeats and
  reorders, the bytes read are a prefix of the bytes written. What is under way is sent again until
  acknowledged or given up, and everything received is acknowledged. Built frames verify and decode
  to what they say.
* **Smaller cores** (`Heap`, `Virtqueue`, `CoTenants`). The first-fit heap tiles its frames, the split
  virtqueue delivers in order across index wrap, the co-tenant rotation is fair.

`Bytes` holds machine-word types and byte-sequence laws. `dafny verify dfyconfig.toml` checks the
whole project.

## Where the code and its promise part

These properties do not hold of the code as it stands. Each has its exact condition among the
lemmas below, and an input on which it fails (second name).

* A spawn in the boot context records a wake-up that no syscall tail consumes; an event bites when
  its tail acts on that record for a task that is no longer Ready, and then one task may run on two
  CPUs (`SchedReach.StepExact`, `ServerOnTwoCpus`).
* A tick is said never to idle-switch, but on a secondary CPU it gives a task's turn to the idle slot
  when no other task can run before that slot (`SchedEffects.TickIdles`, `LoneTask`).
* A write to a file without clusters that the free clusters do not hold takes and loses them, and so
  does one whose ignored root-entry store failed (`FatRuns.Apply`, `LastCluster`).
* A FAT entry outside the FAT sectors does not survive a remount (`FatSpec.RemountEntry`,
  `FatRuns.DemoRemount`). A FAT of 18 sectors or more makes `mount` panic (`Fat16Volume.Mount`,
  `FatRuns.MountWide`). A write past the end of a file shows old disk contents
  (`Fat16Volume.Fat16.WriteFile`, `FatRuns.OldByteShows`).
* `map_user_pages` finds its level-2 table once, so a range that leaves its 1 GiB region is mapped in
  the wrong slots, unless all it misplaces was as asked before (`AddressSpace.Tables.MapUserPages`,
  `MapAcross`). A split takes the virtual address as the block's base (`PageTables.SplitKeeps`,
  `SplitMoves`). `reserve_region` reserves all of memory for a range that misses it
  (`Frames.ReservedIsInside`, `MissedRegion`).
* Bytes written after the FIN was sent are queued and sent under the FIN's sequence number
  (`TcpSender.WriteKeeps`, `LateWrite`). An acknowledgement behind the queue discards bytes that
  were not acknowledged (`TcpOrder.StaleAck`, `LateAck`). A payload that does not fit is
  acknowledged whole (`TcpLink.AcksWhatItStores`, `FullBuffer`). A UDP checksum of zero is sent as
  zero (`NetCodec.UdpZero`, `ZeroChecksum`; RFC 768 asks for 0xFFFF). A length field below its own
  header length panics the stack (`NetCodec.Panics`, `ShortDatagram`).
* The heap's page count restarts when the free list was empty, so the documented 1 MiB cap does not
  bound the claimed memory (`Heap.FreeList.Use`, `Overclaim`). A free block at the end of a freed one
  is not joined to it when the freed one becomes the head or the list is not sorted there
  (`Heap.JoinsNext`, `HeadStaysApart`, `UnsortedStaysApart`). An alignment above 16 is padded for, but
  met only if the first block that fits happens to lie so (`Heap.FreeList.Alloc`, `Misaligned`).
* More than 16 outstanding buffers overrun the ring (`Virtqueue.Overrun`, `SeventeenPosted`).
* A pass of the co-tenant loop is n slices unless all tenants are parked or a run failed. It is one
  slice per remaining tenant, as its comment says, exactly when nobody was parked before
  (`CoTenants.Tenants.Pass`, `TwiceInOnePass`).

## Model

| member | source | states |
|---|---|---|
| `FatSpec.ParseBoot` | servers/libtanix-fs/src/lib.rs:139-194 | an accepted boot sector gives a geometry whose FAT, root directory and clusters lie in this order, inside the volume and without overlap |
| `FatSpec.BootIs` | servers/libtanix-fs/src/lib.rs:139-194 | a boot sector is accepted for a geometry if and only if it describes it: signature, sectors of 512 bytes, a power of two per cluster, the FATs behind the reserved sectors, the root directory in as few sectors as hold its entries, 2 to 4096 whole clusters, as many as fit |
| `FatSpec.ChainUnique` | servers/libtanix-fs/src/lib.rs:268-274 | a start cluster has at most one end-terminated chain, so the FAT determines the file |
| `FatSpec.ChainIsAllocated` | servers/libtanix-fs/src/lib.rs:246-264 | no cluster of a chain counts as free |
| `FatSpec.ExtendChain` | servers/libtanix-fs/src/lib.rs:253-264 | chaining a free cluster extends that chain, keeps every disjoint chain a chain and disjoint, and lowers the free count by exactly one |
| `FatSpec.ClustersApart` | servers/libtanix-fs/src/lib.rs:241-243 | different clusters occupy disjoint sectors |
| `FatSpec.WriteInChain` | servers/libtanix-fs/src/lib.rs:436-455 | storing a sector of a cluster replaces just that sector in the image of the chain through it |
| `FatSpec.WriteOffChain` | servers/libtanix-fs/src/lib.rs:436-455 | ... and does not show in the image of any chain that avoids the cluster |
| `FatSpec.RemountEntry` | servers/libtanix-fs/src/lib.rs:196-238 | a FAT entry survives flush and mount if and only if the FAT sectors have room for it or it was free |
| `FatSpec.RemountFat` | servers/libtanix-fs/src/lib.rs:196-238 | when the FAT sectors can hold all entries the whole FAT survives flush and mount |
| `FatSpec.DecodeEncodeEntry` | servers/libtanix-fs/src/lib.rs:476-487 | a directory entry survives encoding and decoding |
| `FatLayout.EntryOnDisk` | servers/libtanix-fs/src/lib.rs:50-67 | root entry i is the 32 bytes from 32 i on: name, attributes, times, first cluster and size, low bytes first |
| `FatLayout.CountsIs` | servers/libtanix-fs/src/lib.rs:85-99 | an entry counts unless its first byte is 0x00 or 0xE5 or of its attribute bits 0x08 and 0x10 only the first is set |
| `FatLayout.ImageOnDisk` | servers/libtanix-fs/src/lib.rs:241-243 | byte o of the j-th cluster of a file lies o bytes behind the start of the sectors of that cluster, cluster 2 first |
| `FatLayout.LoadedOnDisk` | servers/libtanix-fs/src/lib.rs:196-215 | after a mount FAT entry c is the two bytes from 2 c on, low byte first |
| `FatLayout.FlushedOnDisk` | servers/libtanix-fs/src/lib.rs:224-238 | and so it is on the disk after a flush |
| `FatSpec.SlotUpdate` | servers/libtanix-fs/src/lib.rs:476-487 | storing a root entry changes that slot and no other |
| `FatSpec.OverlayMeansWrite` | servers/libtanix-fs/src/lib.rs:394-473 | for an offset inside the file, overlaying the chain's image is writing the file: old bytes, then `data`, then the old tail, with size max(old, offset+len) |
| `FatSpec.GapShowsOldDisk` | servers/libtanix-fs/src/lib.rs:394-473 | a write is the zero-filling write of the file if and only if the clusters held zeros between the old end and the offset; past the end, what they held before shows |
| `FatSpec.FreeListIs` | servers/libtanix-fs/src/lib.rs:246-264 | the free list has exactly the free clusters, ascending |
| `FatSpec.FreeListTake` | servers/libtanix-fs/src/lib.rs:253-264 | taking the lowest free cluster takes the head of the free list and leaves the rest |
| `FatSpec.ChainIs` | servers/libtanix-fs/src/lib.rs:412-464 | the chain after a finished write is the head of the old chain and the free list before it, as long as the bytes need |
| `FatSpec.GapInReach` | servers/libtanix-fs/src/lib.rs:394-473 | so the gap can be judged on the clusters in hand and free before the call |
| `FatSpec.WriteKeepsDirectory` | servers/libtanix-fs/src/lib.rs:394-473 | a write, finished or failed, leaves every root entry with a well-formed chain long enough for its size, all pairwise disjoint |
| `FatSpec.CreateKeepsDirectory` | servers/libtanix-fs/src/lib.rs:491-515 | so does a creation |
| `Fat16Volume.Disk.ReadSector` | servers/libtanix-fs/src/lib.rs:24-27 | a read that succeeds gives the sector; one that fails inside the device is recorded |
| `Fat16Volume.Disk.WriteSector` | servers/libtanix-fs/src/lib.rs:24-27 | a write stores the sector or, failing, leaves the device as it was |
| `Fat16Volume.Fat16.FatEntry` | servers/libtanix-fs/src/lib.rs:212-215 | the little-endian entry of the cached FAT |
| `Fat16Volume.Fat16.SetFatEntry` | servers/libtanix-fs/src/lib.rs:217-221 | changes that entry of the decoded FAT and no other |
| `Fat16Volume.Fat16.NextOf` | servers/libtanix-fs/src/lib.rs:268-274 | the successor in the chain, zero at its end |
| `Fat16Volume.Fat16.AllocCluster` | servers/libtanix-fs/src/lib.rs:253-264 | takes the lowest free cluster and links it behind `prev`; fails exactly when none is free |
| `Fat16Volume.Fat16.FreeClusters` | servers/libtanix-fs/src/lib.rs:246-248 | the number of free entries among the data clusters |
| `Fat16Volume.Fat16.FlushFat` | servers/libtanix-fs/src/lib.rs:224-238 | on success the FAT sectors hold the cache and zeros behind it; other sectors never change; it fails only if the device did |
| `Fat16Volume.Fat16.PatchSector` | servers/libtanix-fs/src/lib.rs:441-455 | the read-modify-write of one sector overlays the chain's image at that byte and touches no disjoint chain |
| `Fat16Volume.Fat16.WriteCluster` | servers/libtanix-fs/src/lib.rs:436-459 | the inner write loop: the image overlaid with exactly the bytes that fit in the cluster |
| `Fat16Volume.Fat16.NextForWrite` | servers/libtanix-fs/src/lib.rs:461-464 | the next cluster of the chain, allocated when the chain ends there; fails exactly when the volume is full |
| `Fat16Volume.Fat16.SeekForWrite` | servers/libtanix-fs/src/lib.rs:418-431 | reaches the cluster that covers the offset, growing the chain on the way |
| `Fat16Volume.Fat16.WriteChain` | servers/libtanix-fs/src/lib.rs:418-465 | on success the chain's image is the old one overlaid with `data` at `offset`; in every outcome only free clusters were added and no disjoint chain changed |
| `Fat16Volume.Fat16.EnsureFirst` | servers/libtanix-fs/src/lib.rs:412-416 | gives an empty file its first cluster, or fails because the volume is full |
| `Fat16Volume.Fat16.Persist` | servers/libtanix-fs/src/lib.rs:466-472 | the FAT is on disk on success, no other file's bytes or entry changed, and the entry is the old or the new one |
| `Fat16Volume.Fat16.WriteRootEntry` | servers/libtanix-fs/src/lib.rs:476-487 | stores the entry in its slot or changes nothing; fails only if the device did |
| `Fat16Volume.Fat16.WriteFile` | servers/libtanix-fs/src/lib.rs:394-473 | on success the file's bytes are the old ones with `data` written at `offset`, its size is max(old, offset+len), the FAT is on disk; in every outcome all other files keep chain, bytes and entry; its clusters are then its own and the lowest free ones in order, as many as the bytes take, and it is the zero-filling write if and only if those hold zeros in the gap before the call; on a working device it succeeds if and only if the file's and the free clusters hold the bytes |
| `Fat16Volume.Fat16.WriteData` | servers/libtanix-fs/src/lib.rs:412-464 | the bytes go to the file's chain, grown at its end as needed; it fails only with the device or on a full volume whose grown chain still ends before the last byte |
| `FatSpec.RoomFor` | servers/libtanix-fs/src/lib.rs:412-464 | a grown chain reaches a byte only if the old one and the free clusters could, and on a full volume exactly then |
| `Fat16Volume.Fat16.SeekForRead` | servers/libtanix-fs/src/lib.rs:348-361 | the cluster of the chain that covers an offset and the bytes before it there; none exactly when the chain ends before it |
| `Fat16Volume.Fat16.ReadChain` | servers/libtanix-fs/src/lib.rs:362-386 | the buffer gets the image's bytes from the offset on, up to the limit or the end of the chain unless the device failed |
| `Fat16Volume.Fat16.ReadCluster` | servers/libtanix-fs/src/lib.rs:366-385 | the inner read loop copies the image from that place on, up to the cluster's end or the limit |
| `Fat16Volume.Fat16.ReadFile` | servers/libtanix-fs/src/lib.rs:337-387 | the buffer gets the file's bytes at the offset, all of those that exist and fit unless the device failed, across any number of clusters |
| `Fat16Volume.Fat16.FindRoot` | servers/libtanix-fs/src/lib.rs:315-330 | the first live entry of that name before the first empty slot; none only if there is none or the device failed |
| `Fat16Volume.Fat16.CreateRootFile` | servers/libtanix-fs/src/lib.rs:491-515 | enters an empty file in the first empty or deleted slot; fails only if all are taken or the device failed |
| `Fat16Volume.Mount` | servers/libtanix-fs/src/lib.rs:139-207 | the cache is the first 8192 bytes of the FAT; a valid volume is rejected only by the device, and a FAT of 18 or more sectors panics |
| `Fat16Volume.WriteThenRead` | servers/libtanix-fs/src/lib.rs:337-473 | a finished write, read back at any offset, shows exactly that slice of the written file |
| `FatAccount.Accounting` | servers/libtanix-fs/src/lib.rs:246-264 | every data cluster is free, in exactly one file's chain, or lost |
| `FatAccount.WriteLoses` | servers/libtanix-fs/src/lib.rs:412-473 | a write adds to the lost clusters the chain it built if no stored entry names it, and nothing otherwise |
| `FatAccount.FullStays` | servers/libtanix-fs/src/lib.rs:253-264 | no write frees a cluster |
| `FatView.AbsentIsNone` | servers/libtanix-fs/src/lib.rs:315-330 | in a directory with nothing behind its first empty slot, the search that stops there misses no name |
| `FatView.WriteRefines` | servers/libtanix-fs/src/lib.rs:394-473 | a finished write changes the file it names and no other entry of the map from names to bytes |
| `FatView.CreateRefines` | servers/libtanix-fs/src/lib.rs:491-515 | a creation under a new name adds that name with no bytes, and nothing else |
| `FatRuns.Apply` | servers/libtanix-fs/src/lib.rs:315-515 | one operation, allowed to fail anywhere. On a working device and a root directory without gaps it succeeds if and only if there is a slot, or a file of that name and room for the bytes, and it loses clusters if and only if a file without clusters is written, some cluster is free and the free ones do not hold the bytes; with failing transfers, if and only if clusters were taken that the stored entry does not name; a legal success does to the map what the operation says |
| `FatRuns.Run` | servers/libtanix-fs/src/lib.rs:315-515 | over any sequence of operations all chains stay well formed and disjoint, free plus chained plus lost clusters stay constant, lost ones never return, none is lost while the device works and the volume is not full, and if all operations are legal and succeed the volume holds the map they produce |
| `FatRuns.LastCluster` | servers/libtanix-fs/src/lib.rs:412-464 | one failing input: 513 bytes into an empty file with one one-sector cluster left lose that cluster, whatever the device does |
| `FatRuns.WriteMountRead` | servers/libtanix-fs/src/lib.rs:139-473 | a write, a mount of the volume and a read at any offset show that slice of the written file, when the FAT sectors hold all entries |
| `FatRuns.DemoRemount` | scripts/mkfat16.py:21-57 | one failing input: on the demo volume (4096 sectors, FAT of 2, 4 per cluster) cluster 512 is free again after flush and mount |
| `FatRuns.MountWide` | servers/libtanix-fs/src/lib.rs:196-207 | one failing input: a boot sector with a FAT of 18 sectors makes the mount panic unless a transfer fails first |
| `FatRuns.OldByteShows` | servers/libtanix-fs/src/lib.rs:394-473 | one failing input: a byte written at offset 1 of an empty file shows the old first byte of its cluster |
| `SchedSpec.TaskIdx` | kernel/src/sched/task.rs:469-473 | the first slot with that id, none exactly when no task has it |
| `SchedSpec.FirstPending` | kernel/src/ipc/syscall.rs:239-252 | the first queued message the filter accepts, those before it not accepted; none exactly when there is none |
| `SchedSpec.FirstStaged` | kernel/src/ipc/syscall.rs:275-293 | the first task with a message staged for the receiver that the filter accepts, no task before it having one; none exactly when there is none |
| `SchedInv.ParkKeepsExclusive` | kernel/src/ipc/syscall.rs:154-161 | a CPU that leaves its task breaks no other CPU's exclusive task |
| `SchedInv.ResumeKeepsExclusive` | kernel/src/sched/task.rs:1041-1073 | resuming a ready task keeps every task on at most one CPU and Running exactly there |
| `SchedInv.DirectKeeps` | kernel/src/ipc/syscall.rs:177-189 | a send to a waiting receiver conserves messages and loses no rendezvous |
| `SchedInv.EnqueueKeeps` | kernel/src/ipc/syscall.rs:201-228 | so does queueing the message and parking the sender |
| `SchedInv.StageKeeps` | kernel/src/ipc/syscall.rs:211-223 | so does staging it at the sender when the queue is full |
| `SchedInv.TakeQueuedKeeps` | kernel/src/ipc/syscall.rs:237-269 | so does receiving a queued message and waking its sender |
| `SchedInv.TakeStagedKeeps` | kernel/src/ipc/syscall.rs:271-293 | so does receiving a staged message and waking its sender |
| `SchedInv.BlockReceiveKeeps` | kernel/src/ipc/syscall.rs:295-305 | blocking in a receive leaves no acceptable message behind |
| `SchedInv.SleepKeeps` | kernel/src/ipc/syscall.rs:818-831 | so does going to sleep |
| `SchedInv.WakeSleepersKeeps` | kernel/src/sched/task.rs:910-928 | so does waking sleepers, who alone become ready |
| `SchedInv.SpawnKeeps` | kernel/src/sched/task.rs:408-442 | so does entering a new task, whose id is new |
| `SchedInv.DequeueQueue` | kernel/src/ipc/syscall.rs:239-252 | removing a queue entry leaves exactly the other entries |
| `SchedRuns.SendInv` | kernel/src/ipc/syscall.rs:164-229 | a send from any CPU keeps the whole invariant, unless it fails and its tail finds a stale record |
| `SchedRuns.ReceiveInv` | kernel/src/ipc/syscall.rs:232-309 | a receive keeps it |
| `SchedRuns.SleepInv` | kernel/src/ipc/syscall.rs:818-831 | a sleep keeps it |
| `SchedRuns.TailInv` | kernel/src/ipc/syscall.rs:961-973 | the syscall tail keeps it and clears the record, unless the record names a better task that is not Ready |
| `SchedRuns.SpawnUserInv` | kernel/src/sched/task.rs:408-442 | entering a task, from a syscall or from the boot context, keeps it and records that task |
| `SchedRuns.SpawnInv` | kernel/src/ipc/syscall.rs:332-341 | a spawn by a running task keeps it |
| `SchedRuns.ExitInv` | kernel/src/sched/task.rs:1146-1168 | an exit keeps it |
| `SchedRuns.SwitchBestCore` | kernel/src/sched/task.rs:845-895 | a preemptive switch keeps it |
| `SchedRuns.TickInv` | kernel/src/sched/task.rs:951-1005 | a tick keeps it |
| `SchedRuns.IdleRoundInv` | kernel/src/sched/task.rs:1332-1358 | an idle round of a secondary CPU keeps it |
| `SchedRuns.EnterInv` | kernel/src/sched/task.rs:1181-1204 | entering the first task keeps it |
| `SchedRuns.BootInv` | kernel/src/sched/task.rs:230-251 | the boot state, idle contexts only, satisfies it |
| `SchedRuns.StepInv` | kernel/src/ipc/syscall.rs:873-974 | every possible event that does not bite keeps the invariant: one core per task, no lost rendezvous, every accepted message delivered, queued or staged; only boot spawns leave a record |
| `SchedRuns.RunInv` | kernel/src/sched/task.rs:845-1073 | hence every run of any length and interleaving does, boot spawns included, while no event bites |
| `SchedRuns.ClearRuns` | kernel/src/sched/task.rs:1041-1073 | once the record is clear no run bites before the boot context spawns again |
| `SchedFacts.PickNextIsBest` | kernel/src/sched/task.rs:530-556 | the pick beats every other candidate by priority, then by distance ahead; the idle slot exactly when there is no candidate |
| `SchedFacts.NearestIsNearest` | kernel/src/sched/task.rs:564-592 | the round-robin pick is the candidate nearest ahead; none exactly when there is none |
| `SchedFacts.TickRotates` | kernel/src/sched/task.rs:951-1005 | a tick that finds a task at EL0 on CPU 0 makes a ready task current or brings it strictly closer |
| `SchedFacts.RotationBound` | kernel/src/sched/task.rs:564-592 | so at most 31 such ticks pass over a task that stays ready |
| `SchedFacts.QuietEvents` | kernel/src/sched/task.rs:845-1073 | no event but a send or a receive touches a task blocked in IPC |
| `SchedFacts.SendLeaves` | kernel/src/ipc/syscall.rs:164-229 | a send wakes nobody but a receiver waiting for it and drops no queued message |
| `SchedFacts.ReceiveCopies` | kernel/src/ipc/syscall.rs:232-309 | a receive fills the caller's buffer with the message it takes, stamped with its sender, and keeps every other queue entry |
| `SchedFacts.ReceiverWakesByCopy` | kernel/src/ipc/syscall.rs:131-189 | a blocked receiver leaves its wait only in the send that fills its buffer |
| `SchedFacts.SenderWakesByCopy` | kernel/src/ipc/syscall.rs:237-269 | a parked sender leaves its wait only in the receive that copies its message out |
| `SchedFacts.StagerWakesByCopy` | kernel/src/ipc/syscall.rs:271-293 | so does a sender with a staged message |
| `SchedReach.StepGone` | kernel/src/sched/task.rs:1109-1168 | no event that does not bite makes an exited task run again |
| `SchedReach.StepExact` | kernel/src/sched/task.rs:408-442 | a boot spawn records a wake-up that no tail consumes; an event keeps the invariant and the exited tasks if and only if it does not act on that record for a task that is no longer Ready |
| `SchedReach.TwoCpus` | kernel/src/sched/task.rs:1041-1073 | if that task is Running, two CPUs execute it |
| `SchedReach.WaitingRuns` | kernel/src/sched/task.rs:1041-1073 | if it is Blocked, it continues while it still waits |
| `SchedReach.ExitedRuns` | kernel/src/sched/task.rs:1041-1073 | if it has exited, it runs again |
| `SchedReach.Reachable` | kernel/src/main.rs:1157-1196 | from the boot state on, over boot spawns and every other event: each state reached is sound, and the next event keeps it so if and only if it does not bite |
| `SchedReach.ServerOnTwoCpus` | kernel/src/main.rs:1168-1196 | the failing run: two boot spawns, enter, one idle round, then the background task's first plain syscall leaves the server on both CPUs |
| `SchedReach.StepGrows` | kernel/src/ipc/syscall.rs:164-309 | each event adds exactly what it sends to the accepted messages, takes no delivery back, and buffers hold delivered messages |
| `SchedReach.RunDelivers` | kernel/src/ipc/syscall.rs:131-309 | after any run from boot the messages its sends handed over are those delivered plus those queued or staged, and whatever a buffer holds was sent to that task in the run |
| `SchedEffects.PickIs` | kernel/src/sched/task.rs:530-556 | the next task is a ready one allowed on this CPU with the lowest priority number, of those the first in slot order behind the current; the idle slot exactly when there is none |
| `SchedEffects.SwitchAwayGoes` | kernel/src/ipc/syscall.rs:154-161 | a caller that waits leaves the CPU to the task so chosen, and nothing else changes |
| `SchedEffects.ExitGoes` | kernel/src/sched/task.rs:1146-1168 | an exit makes the caller a zombie and does the same |
| `SchedEffects.TailGoes` | kernel/src/sched/task.rs:1041-1073 | a returning syscall hands over to the recorded task exactly if that is strictly better |
| `SchedEffects.YieldGoes` | kernel/src/sched/task.rs:1017-1022 | a yield goes to the task chosen exactly if some ready task is strictly better than the caller, and else changes nothing |
| `SchedEffects.IdleGoes` | kernel/src/sched/task.rs:1332-1358 | an idle secondary goes to the task chosen, or stays |
| `SchedEffects.EnterGoes` | kernel/src/sched/task.rs:1181-1204 | the boot context starts the task chosen, if any |
| `SchedEffects.WakeIs` | kernel/src/sched/task.rs:910-928 | exactly the sleepers with a deadline at or before now become ready and lose it |
| `SchedEffects.RotateGoes` | kernel/src/sched/task.rs:845-895 | the current task gives its turn to the ready task nearest behind it in slot order, on a secondary without one to the idle slot |
| `SchedEffects.TickGoes` | kernel/src/sched/task.rs:951-1005 | a tick wakes those sleepers; then a zombie, or an idle CPU with a sleeper awoken, goes to the task chosen, a task in user code gives its turn away, all others stay |
| `SchedEffects.TickIdles` | kernel/src/sched/task.rs:845-895 | a tick in user code ends in the idle slot if and only if the CPU is a secondary and no other task can run before its idle slot in slot order; the comment says never |
| `SchedEffects.LoneTask` | kernel/src/sched/task.rs:845-895 | one failing input: the only task, on CPU 1, is put off for the idle slot by its first tick |
| `SchedEffects.FallsAsleep` | kernel/src/ipc/syscall.rs:818-831 | a sleep of ms blocks the caller until ms later, at least one and at most 60000 |
| `SchedEffects.StaysAsleep` | kernel/src/sched/task.rs:910-928 | no event before that time unblocks it |
| `SchedEffects.WakesUp` | kernel/src/sched/task.rs:910-928 | the first tick at or after it makes it ready or running |
| `SchedEffects.SleepsExactly` | kernel/src/sched/task.rs:910-1005 | over runs of any events: blocked through every run that ends before its time, ready or running after the first tick at or after it |
| `SchedEffects.SpawnIs` | kernel/src/sched/task.rs:408-442 | a spawn enters a ready task with the next id in the lowest free slot and records it; without a free slot nothing happens |
| `SchedEffects.SendIs` | kernel/src/ipc/syscall.rs:164-229 | a send to a task waiting for it fills its buffer and makes it ready; else it is queued in the first free place, or staged with the sender, and the sender waits; to oneself or nobody nothing is sent |
| `SchedEffects.ReceiveQueued` | kernel/src/ipc/syscall.rs:237-269 | a receive takes the first queued message its filter takes and makes the sender ready |
| `SchedEffects.ReceiveStaged` | kernel/src/ipc/syscall.rs:271-293 | or else the message staged for it at the lowest slot |
| `SchedEffects.ReceiveWaits` | kernel/src/ipc/syscall.rs:295-309 | or else waits with that filter |
| `SchedEffects.StepWho` | kernel/src/ipc/syscall.rs:873-974 | no event changes a task's id, priority or affinity, or takes a task off the table |
| `Kernel.Scheduler.constructor` | kernel/src/sched/task.rs:313-353 | the table at boot: the boot context and the idle slots, no record, first id 1 |
| `Kernel.Scheduler.SpawnServer` | kernel/src/sched/task.rs:408-442 | enters a ready task in the first free slot and records it, as the boot context does |
| `Kernel.Scheduler.PickNext` | kernel/src/sched/task.rs:530-556 | the loop computes the best candidate of the specification |
| `Kernel.Scheduler.PickNextRR` | kernel/src/sched/task.rs:564-592 | the loop computes the nearest one |
| `Kernel.Scheduler.SwitchAway` | kernel/src/ipc/syscall.rs:154-161 | parks the caller and resumes the best candidate |
| `Kernel.Scheduler.Reschedule` | kernel/src/sched/task.rs:1041-1073 | acts on the recorded wake-up exactly when the woken task is better |
| `Kernel.Scheduler.SwitchBest` | kernel/src/sched/task.rs:845-895 | preempts for the nearest candidate, or in strict mode only for a strictly better one |
| `Kernel.Scheduler.TaskIdx` | kernel/src/sched/task.rs:469-473 | the loop finds the first slot with the id |
| `Kernel.Scheduler.Deliver` | kernel/src/ipc/syscall.rs:131-144 | copies the stamped message and makes the receiver ready |
| `Kernel.Scheduler.SysSend` | kernel/src/ipc/syscall.rs:164-229 | the specified send, on the arrays, and the code returned says how it ended; SchedEffects.SendIs says what a send does |
| `Kernel.Scheduler.SysReceive` | kernel/src/ipc/syscall.rs:232-309 | the specified receive, on the arrays; SchedEffects.ReceiveQueued, ReceiveStaged and ReceiveWaits say what it does |
| `Kernel.Scheduler.SysSleep` | kernel/src/ipc/syscall.rs:818-831 | parks the caller as the specified sleep does; SchedEffects.FallsAsleep says until when |
| `Kernel.Scheduler.WakeSleepers` | kernel/src/sched/task.rs:910-928 | makes ready exactly the sleepers whose deadline has passed, in the sense of SchedEffects.WakeIs |
| `Kernel.Scheduler.TickPreempt` | kernel/src/sched/task.rs:951-1005 | the specified tick, on the arrays; SchedEffects.TickGoes says whom it wakes and where it goes |
| `Kernel.Scheduler.YieldCpu` | kernel/src/sched/task.rs:1017-1022 | the specified yield, on the arrays; SchedEffects.YieldGoes says where it goes |
| `Kernel.Scheduler.ExitCurrent` | kernel/src/sched/task.rs:1146-1168 | makes the caller a zombie and switches |
| `Kernel.Scheduler.SecondaryRound` | kernel/src/sched/task.rs:1332-1358 | one round of a secondary's idle loop |
| `Kernel.Scheduler.EnterScheduler` | kernel/src/sched/task.rs:1181-1204 | starts the best task on CPU 0 |
| `Kernel.Scheduler.SysSpawn` | kernel/src/ipc/syscall.rs:332-341 | the same from a syscall, with the tail behind it |
| `Kernel.Execute` | kernel/src/ipc/syscall.rs:873-974 | every event executed on the arrays is the step of the transition system |
| `Kernel.BootAndRun` | kernel/src/main.rs:1157-1196 | a booted table that executes any possible run ends in the state of the transition system, which satisfies the invariant |
| `Frames.FrameAllocator.Init` | kernel/src/mem/frame.rs:56-78 | exactly the frames from the end of the kernel image on are free |
| `Frames.FrameAllocator.SetUsed` | kernel/src/mem/frame.rs:80-87 | removes one frame from the free set and keeps the counter equal to its size |
| `Frames.FrameAllocator.SetFree` | kernel/src/mem/frame.rs:89-96 | adds one, likewise |
| `Frames.FrameAllocator.Alloc` | kernel/src/mem/frame.rs:129-143 | returns and removes the lowest free frame; none exactly when no frame is free |
| `Frames.FrameAllocator.AllocContiguous` | kernel/src/mem/frame.rs:149-175 | returns and removes the lowest run of n free frames; none exactly when n is 0 or no such run exists |
| `Frames.FrameAllocator.FreeFrame` | kernel/src/mem/frame.rs:181-186 | adds exactly that frame to the free set |
| `Frames.FrameAllocator.ReserveRegion` | kernel/src/mem/frame.rs:102-115 | removes exactly the frames its two rounded bounds select |
| `Frames.ReservedIsInside` | kernel/src/mem/frame.rs:102-121 | those are exactly the managed frames wholly inside the range if and only if there are no managed frames, the range holds no whole page, or it reaches the managed window; a range that misses the window reserves everything |
| `Frames.MissedRegion` | kernel/src/mem/frame.rs:102-121 | one failing input: a page below a memory of four pages reserves all four |
| `PageTables.LookAgree` | kernel/src/mem/page_table.rs:178-181 | a translation depends only on the entries its walk reads |
| `PageTables.TreeElsewhere` | kernel/src/mem/page_table.rs:213-224 | a tree of tables depends on its own frames only |
| `PageTables.LookElsewhere` | kernel/src/mem/page_table.rs:213-224 | and so does what it translates |
| `PageTables.Graft` | kernel/src/mem/page_table.rs:213-224 | hanging a tree under an entry that was no table gives a tree again |
| `PageTables.GraftInside` | kernel/src/mem/page_table.rs:213-224 | pages under that entry are translated by the new part |
| `PageTables.GraftOutside` | kernel/src/mem/page_table.rs:213-224 | all other pages as before |
| `PageTables.AddEmpty` | kernel/src/mem/page_table.rs:213-224 | a zero table under an empty entry changes no translation |
| `PageTables.SetLeaf` | kernel/src/mem/page_table.rs:380-381 | writing a level-3 entry changes the translation of that page and no other |
| `PageTables.SplitKeeps` | kernel/src/mem/page_table.rs:365-379 | splitting a block keeps all 512 translations if and only if the block maps its 2 MiB to themselves and has no high attribute besides UXN and PXN |
| `PageTables.SplitMoves` | kernel/src/mem/page_table.rs:365-379 | one failing input: a block at page 512 that maps the pages from 1024 on goes to page 512 after the split |
| `AddressSpace.RangeStep` | kernel/src/mem/page_table.rs:362-383 | mapping the next page keeps every page outside the region, and every earlier page of the range whose slot it does not take, where they were |
| `AddressSpace.MappedMeans` | kernel/src/mem/page_table.rs:352-387 | if a range came out mapped as asked, then before the call each of its pages outside the region of its start went to itself as asked, and what the slots took from them hold was already there or asked there |
| `AddressSpace.NoBlockThere` | kernel/src/mem/page_table.rs:362-377 | in that case no page outside the region finds a block to split |
| `AddressSpace.AlreadyMapped` | kernel/src/mem/page_table.rs:352-387 | and conversely, if nothing but the slots changed, the range is mapped as asked |
| `AddressSpace.Tables.AllocTable` | kernel/src/mem/page_table.rs:203-208 | a zeroed frame leaves the free set; fails exactly when none is free |
| `AddressSpace.Tables.AllocTableFrame` | kernel/src/mem/page_table.rs:301-305 | a frame of unknown contents leaves the free set |
| `AddressSpace.Tables.EnsureTable` | kernel/src/mem/page_table.rs:213-224 | the next-level table, made if missing; no translation changes, no frame is lost, nothing outside the tree and the free frames is touched; a block is taken for a table |
| `AddressSpace.Tables.SplitBlock` | kernel/src/mem/page_table.rs:365-379 | replaces a block by 512 pages with its attributes; no translation changes when the address lies in the block, and none outside the block in any case |
| `AddressSpace.Tables.MapOne` | kernel/src/mem/page_table.rs:362-383 | the page is in its slot of the level-2 table; only pages of a block that was split may move besides, and none if the slot is the page's own |
| `AddressSpace.Tables.EnsureLevel2` | kernel/src/mem/page_table.rs:356-358 | the level-2 table on the way to a page; no translation changes |
| `AddressSpace.Tables.MapUserPages` | kernel/src/mem/page_table.rs:352-387 | every page of a range in one 1 GiB region gets identity translation with the flags, every other page keeps address and attributes, even when blocks are split or tables made; for any range the pages go to their slots in the region of its start, the last of each slot winning, and no page outside that region changes; the range is mapped as asked if and only if, before the call, each page outside the region was translated as asked and so were the pages whose slots they take (with flags of a page descriptor) |
| `AddressSpace.Tables.MapAcross` | kernel/src/mem/page_table.rs:352-387 | one failing input: of two pages around the first 1 GiB boundary the second lands on page 0 and stays unmapped itself |
| `AddressSpace.Tables.MapUserFrame` | kernel/src/mem/page_table.rs:400-410 | maps the page to the frame and changes no other translation, where no block covers it |
| `AddressSpace.Tables.ReadUserPage` | kernel/src/mem/page_table.rs:417-435 | the level-3 descriptor, zero where there is no level-3 table |
| `AddressSpace.Tables.WriteUserPage` | kernel/src/mem/page_table.rs:443-450 | changes the translation of that page and no other |
| `AddressSpace.WalkIn` | kernel/src/mem/page_table.rs:417-435 | the software walk ends at the table the hardware walk uses, and without a block over the page agrees with it |
| `AddressSpace.Tables.CloneLevel` | kernel/src/mem/page_table.rs:315-328 | copies a subtree entry by entry into fresh frames that translate alike |
| `Cloning.CopyPlain` | kernel/src/mem/page_table.rs:318-326 | copying a descriptor that leads to no table keeps the copied part equal in meaning |
| `Cloning.CopyChild` | kernel/src/mem/page_table.rs:320-322 | so does copying a table descriptor by copying the table below it |
| `AddressSpace.Tables.CloneKernelTable` | kernel/src/mem/page_table.rs:340-344 | the clone translates every page as the kernel's tables do, its frames were free and belong to no other table, and the kernel's tables are untouched |
| `AddressSpace.Tables.WalkFree` | kernel/src/mem/page_table.rs:491-502 | gives back exactly the table frames from a table down, each once |
| `AddressSpace.Tables.FreeTaskTables` | kernel/src/mem/page_table.rs:490-506 | gives back every table frame of the space exactly once and nothing else |
| `AddressSpace.OtherSpace` | kernel/src/mem/page_table.rs:352-387 | a change of one space leaves every other space well formed and its translation unchanged |
| `AddressSpace.AllCloned` | kernel/src/mem/page_table.rs:340-344 | after a clone all spaces are still disjoint, none changed translation, no frame is lost |
| `AddressSpace.AllFreed` | kernel/src/mem/page_table.rs:490-506 | after a release the remaining spaces are disjoint and no frame is lost |
| `AddressSpace.Serve` | kernel/src/mem/page_table.rs:315-506 | one clone, map or release keeps all spaces disjoint and spares every other space's translation |
| `AddressSpace.Run` | kernel/src/mem/page_table.rs:315-506 | over any run of such requests no frame is lost or shared and the kernel's translation never changes |
| `VmFault.CheckStage` | kernel/src/mem/vm_fault.rs:41-49 | a page of a demand window faults exactly while repairs are missing, and never with an access-flag fault |
| `VmFault.AliasKeeps` | kernel/src/mem/vm_fault.rs:87-108 | aliasing the zero page changes the contents of no window page |
| `VmFault.CowKeeps` | kernel/src/mem/vm_fault.rs:199-215 | neither does a split, whose frame becomes private to that page |
| `VmFault.DecideWindow` | kernel/src/mem/vm_fault.rs:72-166 | on a window page the resolver aliases the zero page first and splits on the next write |
| `VmFault.LookEntry` | kernel/src/mem/vm_fault.rs:118-126 | the descriptor the resolver reads and the processor's translation agree |
| `VmFault.FirstKindIs` | kernel/src/mem/vm_fault.rs:75-109 | the kind found is that of the region over the page that counts and has none such before it; none exactly when no region over the page counts |
| `VmFault.Process.FindRegion` | kernel/src/mem/vm_fault.rs:75-109 | the kind of the first region over the page that counts, and none only when none does |
| `VmFault.Process.OpenUp` | kernel/src/mem/vm_fault.rs:76-108 | maps a stack page to itself or a demand page to the zero page, and no other page |
| `VmFault.Process.CowSplit` | kernel/src/mem/vm_fault.rs:199-215 | a fresh frame gets a copy of the shared one, that page alone is remapped to it writable, all other frames keep their contents; declined exactly when no frame is free |
| `VmFault.Process.Resolve` | kernel/src/mem/vm_fault.rs:57-194 | declines exactly for kernel context, faults outside every case, or a split without a free frame; otherwise repairs exactly as decided |
| `VmFault.Process.Settle` | kernel/src/mem/vm_fault.rs:57-194 | one fault, by the translation of the page before it: an unmapped or closed page is opened as the first region over it says, stack to itself and demand to the zero page; a tagged page gets a private copy; one with the access flag clear gets it set; no other page moves; out of frames only when none is free |
| `VmFault.StackOpens` | kernel/src/mem/vm_fault.rs:76-108 | a fault on a stack page is never turned away; repaired, the page translates to itself and faults for no load or store, and no other page moved |
| `VmFault.Process.Round` | kernel/src/mem/vm_fault.rs:57-194 | each fault on a window page brings it one repair nearer and changes no contents |
| `VmFault.Process.Try` | kernel/src/mem/vm_fault.rs:57-194 | an access completes after at most one resolver call for a read and two for a write, unless frames run out |
| `VmFault.Process.LoadByte` | kernel/src/mem/vm_fault.rs:57-194 | a load sees the window's contents and changes none |
| `VmFault.Process.StoreByte` | kernel/src/mem/vm_fault.rs:57-194 | a store changes that byte of the window and nothing else |
| `VmFault.Process.Drive` | kernel/src/mem/vm_fault.rs:57-215 | any run of loads and stores sees private memory that starts as zero, and every frame in use at the start, the zero page among them, keeps its contents |
| `TcpSpec.RxAckValid` | servers/libtanix-net/src/tcp.rs:414-445 | an acknowledgement keeps inflight == sent <= queued <= 512 and snd_nxt = data_base + queued, whatever its number |
| `TcpSender.WriteKeeps` | servers/libtanix-net/src/tcp.rs:217-228 | queued bytes continue the stream at the next sequence number, and the sender stays sound, if and only if no bytes are queued after the FIN was sent |
| `TcpSender.LateWrite` | servers/libtanix-net/src/tcp.rs:217-228 | one failing input: a byte written after the FIN went out is sent under the FIN's own sequence number |
| `TcpSender.DropKeeps` | servers/libtanix-net/src/tcp.rs:416-428 | acknowledged bytes leave the front of the stream and the base follows them |
| `TcpSender.DataCarries` | servers/libtanix-net/src/tcp.rs:526-545 | a data segment, fresh or retransmitted, carries the written bytes its sequence number names |
| `TcpSender.FinCarries` | servers/libtanix-net/src/tcp.rs:553-561 | with an empty queue the next sequence number is the one after the last byte |
| `TcpSender.PollKeeps` | servers/libtanix-net/src/tcp.rs:487-572 | polling keeps the sender invariant, emits only such segments, and first sends a FIN only when nothing is queued |
| `TcpSender.RxKeeps` | servers/libtanix-net/src/tcp.rs:296-370 | no inbound segment, whatever it claims, upsets the invariant; replies carry neither payload nor FIN |
| `TcpSender.SenderRun` | servers/libtanix-net/src/tcp.rs:145-573 | over every run of a fresh socket against any peer in which no bytes are queued after the FIN, all data ever sent lies at its place in the stream and a FIN only after its end |
| `TcpLink.AcksWhatItStores` | servers/libtanix-net/src/tcp.rs:448-461 | the number acknowledged grows by exactly the bytes stored if and only if the payload fits the buffer |
| `TcpLink.FullBuffer` | servers/libtanix-net/src/tcp.rs:448-461 | one failing input: a byte that finds 512 bytes unread is acknowledged and lost |
| `TcpLink.NextPart` | servers/libtanix-net/src/tcp.rs:448-461 | a payload taken as the next part of the stream is the next part of the stream |
| `TcpLink.ArriveKeeps` | servers/libtanix-net/src/tcp.rs:448-481 | a segment sent at any time, lost, repeated or late, keeps the stored bytes a prefix of the written ones |
| `TcpLink.StreamRun` | servers/libtanix-net/src/tcp.rs:217-237 | over any run with any channel and any acknowledgements, the bytes read are a prefix of the bytes written, unless a payload overflowed the receive buffer |
| `TcpOrder.StaleAck` | servers/libtanix-net/src/tcp.rs:416-421 | nothing beyond the acknowledged place leaves the queue if and only if the acknowledgement is not behind the queue or nothing is outstanding |
| `TcpOrder.LateAck` | servers/libtanix-net/src/tcp.rs:416-421 | one failing input: with two bytes acknowledged and a third outstanding, a late acknowledgement of the first drops the third |
| `TcpOrder.TellKeeps` | servers/libtanix-net/src/tcp.rs:487-572 | a FIN goes out only when the peer has stored everything |
| `TcpOrder.HearKeeps` | servers/libtanix-net/src/tcp.rs:414-445 | an acknowledgement that arrives in order removes only what the peer has stored |
| `TcpOrder.DeliverKeeps` | servers/libtanix-net/src/tcp.rs:448-481 | a FIN is accepted only after the whole stream |
| `TcpOrder.OrderedRun` | servers/libtanix-net/src/tcp.rs:414-572 | with acknowledgements in order and no overflow, in every reachable state what left the queue is stored, the stored bytes are a prefix, and an accepted FIN means the whole stream arrived |
| `TcpOrder.Handshake` | servers/libtanix-net/src/tcp.rs:296-410 | the three handshake segments leave two established sockets that expect each other's first byte |
| `TcpOrder.Starts` | servers/libtanix-net/src/tcp.rs:296-410 | such a pair starts a stream |
| `TcpOrder.Connected` | servers/libtanix-net/src/tcp.rs:296-410 | the histories of both ends after the handshake satisfy the sender invariant and expect each other's first byte |
| `TcpOrder.ConnectedRun` | servers/libtanix-net/src/tcp.rs:296-572 | from the first SYN on, in both directions and over any run with acknowledgements in order and no overflow: what left a queue is stored at the other end, and that is the start of what was written |
| `TcpProgress.Queues` | servers/libtanix-net/src/tcp.rs:217-228 | a write to an open connection with room is queued behind the rest; any other changes nothing |
| `TcpProgress.Reads` | servers/libtanix-net/src/tcp.rs:231-237 | a read hands over the oldest bytes and leaves the others |
| `TcpProgress.Resends` | servers/libtanix-net/src/tcp.rs:517-533 | bytes under way go out again at the deadline and not before, all of them at the sequence number of the first; after eight tries the next deadline ends the connection |
| `TcpProgress.SendsNext` | servers/libtanix-net/src/tcp.rs:536-551 | with nothing under way the next bytes go out, as many as are queued, fit 512 and the peer's window; none for a closed window |
| `TcpProgress.SendsFin` | servers/libtanix-net/src/tcp.rs:554-572 | a requested FIN goes out when all is acknowledged, at the number behind the last byte, and again at each deadline until acknowledged or given up |
| `TcpProgress.SendsSyn` | servers/libtanix-net/src/tcp.rs:498-515 | a SYN or its answer is repeated at each deadline until acknowledged or given up |
| `TcpProgress.Silent` | servers/libtanix-net/src/tcp.rs:487-496 | a dead socket, or one whose peer's hardware address is unknown, sends nothing |
| `TcpProgress.Insists` | servers/libtanix-net/src/tcp.rs:487-533 | over runs: without an answer the same bytes go out once per deadline, up to the eighth try, and the next deadline ends the connection |
| `TcpProgress.AckTakes` | servers/libtanix-net/src/tcp.rs:414-428 | an acknowledgement of a place under way takes exactly the bytes before it from the queue; one beyond takes what is under way |
| `TcpProgress.RxSent` | servers/libtanix-net/src/tcp.rs:296-308 | the window kept is the one last acknowledged with |
| `TcpProgress.SeqIs` | servers/libtanix-net/src/tcp.rs:40-50 | the wrapping comparisons: ahead by at most half the number space |
| `TcpProgress.DataAnswers` | servers/libtanix-net/src/tcp.rs:448-461 | every payload is answered once; in order it is stored as far as it fits and acknowledged whole, else what is expected is acknowledged again |
| `TcpProgress.FinAnswers` | servers/libtanix-net/src/tcp.rs:463-481 | every FIN is answered once; at or ahead of the expected number it closes the stream |
| `TcpProgress.Answers` | servers/libtanix-net/src/tcp.rs:296-370 | an open, live socket answers each payload and each FIN, the last answer acknowledges all received, a segment with neither draws none but for a SYN; exactly when it ends |
| `TcpProgress.Resets` | servers/libtanix-net/src/tcp.rs:296-304 | a reset ends the connection without an answer |
| `TcpProgress.DeliverAnswers` | servers/libtanix-net/src/tcp.rs:448-481 | over the channel, data or a FIN that arrives at a live receiver adds an acknowledgement of the receiver's new place to what travels back |
| `TcpProgress.Listens` | servers/libtanix-net/src/tcp.rs:311-319 | a listener takes a SYN and answers it; anything else ends it |
| `TcpProgress.Connects` | servers/libtanix-net/src/tcp.rs:320-334 | a connecting socket is established by a SYN once its own is acknowledged, and acknowledges the SYN that does it; a payload in it counts by its own number; without a SYN only that acknowledgement is noted |
| `TcpProgress.Accepts` | servers/libtanix-net/src/tcp.rs:335-355 | a socket that answered a SYN is established by the acknowledgement of its own and takes the payload that comes with it; a repeated SYN is answered again |
| `TcpProgress.Opens` | servers/libtanix-net/src/tcp.rs:184-196 | a socket that begins to connect repeats its SYN first after 800 ticks, under its own number |
| `TcpClass.TcpSocket.AppWrite` | servers/libtanix-net/src/tcp.rs:217-228 | queues all of the data or, when it does not fit or the state forbids it, nothing |
| `TcpClass.TcpSocket.AppRead` | servers/libtanix-net/src/tcp.rs:231-237 | hands over the received bytes in order and keeps the rest |
| `TcpClass.TcpSocket.RxAck` | servers/libtanix-net/src/tcp.rs:414-445 | in place, what the value model says an acknowledgement does |
| `TcpClass.TcpSocket.Drop` | servers/libtanix-net/src/tcp.rs:416-428 | moves the acknowledged bytes out of the buffer |
| `TcpClass.TcpSocket.RxData` | servers/libtanix-net/src/tcp.rs:448-461 | in place, what the value model says a payload does: stores what fits, acknowledges all of it; TcpProgress.DataAnswers says so outright |
| `TcpClass.TcpSocket.RxFin` | servers/libtanix-net/src/tcp.rs:463-481 | accepts a FIN at or after the expected number |
| `TcpClass.TcpSocket.RxSyn` | servers/libtanix-net/src/tcp.rs:373-395 | starts a passive connection |
| `TcpClass.TcpSocket.RxSynAck` | servers/libtanix-net/src/tcp.rs:398-410 | completes an active one |
| `TcpClass.TcpSocket.RxState` | servers/libtanix-net/src/tcp.rs:310-369 | the state machine, case by case |
| `TcpClass.TcpSocket.RxSegment` | servers/libtanix-net/src/tcp.rs:296-370 | one inbound segment: the new socket and the segments sent are those of the value model, which TcpProgress.Answers, Resets, Listens, Connects and Accepts describe |
| `TcpClass.TcpSocket.Poll` | servers/libtanix-net/src/tcp.rs:487-572 | at most one segment, as the value model sends it; TcpProgress.Resends, SendsNext, SendsFin, SendsSyn and Silent say which and when |
| `Checksum.FoldStep` | servers/libtanix-net/src/checksum.rs:21-23 | one fold keeps the ones'-complement value and makes the sum smaller, so folding ends |
| `Checksum.ChecksumSeed` | servers/libtanix-net/src/checksum.rs:12-25 | the complement of the ones'-complement sum of the bytes, weighted 256 and 1 in turn, plus the seed, without 32-bit overflow |
| `Checksum.SumIs` | servers/libtanix-net/src/checksum.rs:12-20 | the words sum to the bytes weighted 256 at even places and 1 at odd ones, the last byte of an odd length included |
| `Checksum.Padded` | servers/libtanix-net/src/checksum.rs:17-20 | an odd message sums as with a zero byte behind it |
| `Checksum.PseudoSeed` | servers/libtanix-net/src/checksum.rs:32-43 | the word sum of the pseudo-header |
| `Checksum.Verifies` | servers/libtanix-net/src/checksum.rs:12-25 | a message holding the checksum taken with a zero field sums to 0xFFFF |
| `NetCodec.IpVerifies` | servers/libtanix-net/src/tcp.rs:602-618 | the checksum recomputed over a built IPv4 header is zero: its weighted bytes sum to a multiple of 0xFFFF |
| `NetCodec.TcpVerifies` | servers/libtanix-net/src/tcp.rs:620-637 | so is that over a built TCP segment with its pseudo-header |
| `NetCodec.UdpVerifies` | servers/libtanix-net/src/udp.rs:111-122 | and that over a built UDP datagram |
| `NetCodec.UdpZero` | servers/libtanix-net/src/udp.rs:120-122 | the stored UDP checksum is zero, which means none, if and only if the covered bytes, weighted, sum to a multiple of 0xFFFF |
| `NetWire.TcpWire` | servers/libtanix-net/src/tcp.rs:578-639 | a built TCP frame, byte by byte: every header field at its place in network order, the payload behind, both checksums making their parts sum to zero |
| `NetWire.UdpWire` | servers/libtanix-net/src/udp.rs:75-124 | the same for a built UDP frame |
| `NetWire.FlagBytes` | servers/libtanix-net/src/tcp.rs:255-292 | the flag bytes of SYN, SYN-ACK, ACK, data and FIN segments |
| `NetWire.TcpDecoded` | servers/libtanix-net/src/lib.rs:471-556 | a frame is taken for a segment if and only if it is a whole TCP packet for this stack whose data offset lies inside it; the fields are those at their places, whatever options precede the payload |
| `NetWire.UdpDecoded` | servers/libtanix-net/src/lib.rs:471-536 | a frame is taken for a datagram if and only if it is a whole UDP packet for this stack with a length of at least 8; a length beyond the packet is cut |
| `NetCodec.ZeroChecksum` | servers/libtanix-net/src/udp.rs:111-122 | one failing input: an empty datagram from 10.0.2.15 port 1000 to 10.0.2.2 port 58341 |
| `NetCodec.EthBack` | servers/libtanix-net/src/ip.rs:11-21 | parsing a built Ethernet header gives it back |
| `NetCodec.IpBack` | servers/libtanix-net/src/ip.rs:36-64 | parsing a built IPv4 header gives it back |
| `NetCodec.TcpPartBack` | servers/libtanix-net/src/lib.rs:538-556 | decoding a built TCP segment gives back ports, numbers, flags, window and payload |
| `NetCodec.RoundTrip` | servers/libtanix-net/src/lib.rs:471-556 | decoding a built frame at its destination gives back all it says |
| `NetCodec.UdpPartBack` | servers/libtanix-net/src/lib.rs:521-536 | decoding a built UDP datagram gives back ports and payload |
| `NetCodec.UdpRoundTrip` | servers/libtanix-net/src/lib.rs:471-536 | decoding a built UDP frame at its destination gives back ports and payload |
| `NetCodec.Panics` | servers/libtanix-net/src/lib.rs:487-536 | the stack panics on a packet for it if and only if the total length is less than the header length, or a UDP length is less than 8 |
| `NetCodec.ShortDatagram` | servers/libtanix-net/src/lib.rs:521-528 | one failing input: a UDP datagram of 8 bytes that says it has 7 |
| `NetCodec.SegmentRoundTrip` | servers/libtanix-net/src/lib.rs:538-593 | a segment of one socket reaches the other socket as the same segment |
| `NetCodec.OutQueue.Push` | servers/libtanix-net/src/out.rs:35-47 | reserves the bytes behind the last frame; fails exactly when four frames are queued or the buffer is too small |
| `NetCodec.OutQueue.Clear` | servers/libtanix-net/src/out.rs:62-65 | empties the queue |
| `NetCodec.OutQueue.PushTcpFrame` | servers/libtanix-net/src/tcp.rs:578-639 | appends exactly the frame built from the message; the frames before it keep their bytes |
| `NetCodec.OutQueue.PushUdpFrame` | servers/libtanix-net/src/udp.rs:75-124 | likewise for a datagram |
| `Heap.TileSplit` | servers/libtanix-sys/src/heap.rs:110-120 | splitting a block keeps the blocks disjoint and covering exactly the claimed pages |
| `Heap.TileMerge` | servers/libtanix-sys/src/heap.rs:154-158 | so does joining two adjacent blocks |
| `Heap.TileAdd` | servers/libtanix-sys/src/heap.rs:88-94 | so does adding a fresh chunk |
| `Heap.PayloadsApart` | servers/libtanix-sys/src/heap.rs:98-137 | an address in one block lies in no other block |
| `Heap.BlockSize` | servers/libtanix-sys/src/heap.rs:164-172 | the least multiple of 16 that holds header, payload and the padding of an alignment above 16 |
| `Heap.Kernel.AllocFrames` | kernel/src/ipc/syscall.rs:408-420 | a run of frames nobody holds, or none |
| `Heap.FreeList.Ensure` | servers/libtanix-sys/src/heap.rs:60-76 | claims a chunk when the list is empty; the page count restarts at that chunk while the claimed pages grow by it |
| `Heap.FreeList.Grow` | servers/libtanix-sys/src/heap.rs:79-96 | claims 16 pages, or those left to the cap, and counts them; fails only at the cap or when the kernel refuses |
| `Heap.FreeList.FirstFit` | servers/libtanix-sys/src/heap.rs:104-131 | the first block of the list that is large enough, none only if none is |
| `Heap.FreeList.Carve` | servers/libtanix-sys/src/heap.rs:108-127 | the block leaves the list with less than 32 bytes more than needed, a usable rest takes its place, the others stay in order, live blocks keep their sizes |
| `Heap.FreeList.TakeFit` | servers/libtanix-sys/src/heap.rs:102-136 | the first fitting block is carved, growing the heap until one fits; the pages claimed beyond the count stay the same; the loop ends |
| `Heap.FreeList.Alloc` | servers/libtanix-sys/src/heap.rs:98-137 | the first fitting block becomes live, is large enough and overlaps no other; alignments up to 16 are met, a larger one if and only if a block of the list fits and the first that does lies so; null only when no free block fits and the page cap is reached or the kernel refused a chunk; less than a rounded block and 32 bytes is handed out; the pages claimed beyond the page count are unchanged unless the list was empty and a chunk came, and then are all those claimed before |
| `Heap.NeverWide` | servers/libtanix-sys/src/heap.rs:60-96 | a whole chunk never gives an alignment above 16 |
| `Heap.FrontedFit` | servers/libtanix-sys/src/heap.rs:79-131 | when no block of the list fits, the block taken is a whole chunk |
| `Heap.FreeList.Misaligned` | servers/libtanix-sys/src/heap.rs:98-172 | one failing input: 8 bytes aligned to 32 from an empty list come 16 bytes off |
| `Heap.JoinsNext` | servers/libtanix-sys/src/heap.rs:139-160 | a free block that starts where the freed one ends stays apart from it if and only if the freed one becomes the head, the last, or the predecessor of another block |
| `Heap.PlaceIs` | servers/libtanix-sys/src/heap.rs:139-150 | a freed block goes in front, or behind the head before the first element that does not precede it in memory |
| `Heap.FreedSorted` | servers/libtanix-sys/src/heap.rs:139-160 | a list sorted by address stays so |
| `Heap.HeadStaysApart` | servers/libtanix-sys/src/heap.rs:141-143 | one failing input: a block freed in front of its neighbour as the new head |
| `Heap.UnsortedStaysApart` | servers/libtanix-sys/src/heap.rs:145-158 | the other kind: a list that is not sorted, because a later chunk was put in front of it |
| `Heap.UnsortedIsHeap` | servers/libtanix-sys/src/heap.rs:79-96 | the state of that input is a tiled heap with a well-formed list |
| `Heap.FreeList.Free` | servers/libtanix-sys/src/heap.rs:139-160 | the block goes to its place in the list; a free block at its end stays apart exactly under that condition; tiling and list stay intact |
| `Heap.HeldApart` | servers/libtanix-sys/src/heap.rs:98-137 | the bytes behind different held pointers do not overlap |
| `Heap.FreeList.Use` | servers/libtanix-sys/src/heap.rs:98-160 | any sequence of allocations and frees keeps the free list acyclic and the blocks tiling the claimed pages; the pointers still held are the live blocks, each with the bytes asked for, apart from all others; the pages stay within the 1 MiB cap if no allocation found the list empty after the first claim, and within one more cap for each that did |
| `Heap.FreeList.Overclaim` | servers/libtanix-sys/src/heap.rs:60-76 | the failing run: 17 allocations of 65520 bytes claim 272 pages, 16 of them counted |
| `Virtqueue.WriteOk` | kernel/src/virtio/mod.rs:187-189 | with room, writing the next slot overwrites no entry still to be taken |
| `Virtqueue.PublishOk` | kernel/src/virtio/mod.rs:194-195 | bumping the index publishes exactly that entry |
| `Virtqueue.TakeOk` | kernel/src/virtio/mod.rs:224-228 | the entry taken is the next one published |
| `Virtqueue.LookOk` | kernel/src/virtio/mod.rs:205-208 | equal 16-bit indices mean that everything was taken |
| `Virtqueue.Overrun` | kernel/src/virtio/mod.rs:187-189 | without room, the consumer is right if and only if the new entry equals the one it overwrites |
| `Virtqueue.SeventeenPosted` | kernel/src/virtio/mod.rs:177-196 | one failing input: with sixteen descriptors posted and none taken, the seventeenth is taken first |
| `Virtqueue.InOrder` | kernel/src/virtio/mod.rs:177-243 | for runs of any length and interleaving, across index wrap, the guest takes the posted descriptors in order, each once, and the kernel the returned ones |
| `Virtqueue.View.PostAvail` | kernel/src/virtio/mod.rs:177-196 | writes the descriptor in the next slot and publishes it, with or without room; with room the queue invariant stays |
| `Virtqueue.View.PollUsed` | kernel/src/virtio/mod.rs:200-214 | hands over everything returned and not yet collected, in order |
| `Virtqueue.View.GuestPollAvail` | kernel/src/virtio/mod.rs:220-230 | hands over everything posted and not yet seen, in order |
| `Virtqueue.View.GuestPutUsed` | kernel/src/virtio/mod.rs:233-243 | writes the entry in the next slot and publishes it; if the descriptor had been taken the queue invariant stays |
| `CoTenants.SliceBalanced` | kernel/src/vm/sched.rs:220-253 | running the next unparked tenant keeps all unparked run counts equal up to the cursor |
| `CoTenants.Fair` | kernel/src/vm/sched.rs:208-273 | so the run counts of two tenants in the rotation differ by at most one |
| `CoTenants.Tenants.FindNext` | kernel/src/vm/sched.rs:221-234 | the search ends after one round with the next unparked tenant, or because all are parked |
| `CoTenants.Tenants.Slice` | kernel/src/vm/sched.rs:235-271 | one run of that tenant, which may park itself; nobody else is touched |
| `CoTenants.Spread` | kernel/src/vm/sched.rs:218-272 | when every remaining tenant ran, each ran exactly once if and only if the runs are as many as they |
| `CoTenants.Tenants.Turn` | kernel/src/vm/sched.rs:219-271 | one step of a pass: the next unparked tenant runs once and every tenant the cursor moved over has had its turn, or all are parked |
| `CoTenants.Tenants.Pass` | kernel/src/vm/sched.rs:218-272 | n slices, fewer only when all are parked or a run failed; parked tenants never run, each that remained runs; a pass of n slices is one slice per remaining tenant if and only if nobody was parked before |
| `CoTenants.Tenants.TwiceInOnePass` | kernel/src/vm/sched.rs:218-272 | one failing input: of two tenants with the second parked, the first runs twice in one pass unless it parks |
| `CoTenants.Tenants.Run` | kernel/src/vm/sched.rs:208-273 | the same over all passes: balance at every point, parked tenants never run again, each slice is one run |

## Left out

- Fat16Volume.Disk.WriteSector: a failed write leaves the sector as it was; a device that tears a sector is not modelled.
- Fat16Volume.Fat16.WriteFile: the result of storing the root entry is ignored, as in the code, so after a success the entry on disk is the old or the new one.
- Kernel.Scheduler.constructor: the idle slots of all CPUs exist from the start; the code adds those of CPUs 1 to 3 only after its first demo run on CPU 0.
- Frames.FrameAllocator.FreeFrame: only addresses of whole managed frames; the code panics outside the managed range and would count a partial last frame.
- Frames.FrameAllocator.Alloc: a 64-bit bitmap word is a sequence of 64 booleans; the bit operations themselves are not modelled.
- AddressSpace.Tables.MapUserPages: no translation look-aside buffer; running out of frames ends the call as the code's panic does, with what was mapped so far in place. Address spaces have only identity-mapped blocks, as the boot code makes them.
- AddressSpace.Tables.MapUserFrame: a page under a block is excluded; the code would take the block for a table, as EnsureTable says, and write into the memory it maps.
- AddressSpace.Tables.AllocFrame: the allocator hands out some free frame; which one is the matter of Frames.
- VmFault.Process.Drive: a window page is, at first, unmapped or mapped without EL0 access and with the access flag set, and no block covers it.
- TcpLink.StreamRun: stream and FIN together stay under 2^32 sequence numbers, and no bytes are queued after the FIN was sent; TcpSender.WriteKeeps says what happens then.
- TcpClass.TcpSocket.RxSegment: notification bits, addresses and ports are not modelled, the initial sequence number is a parameter, and a peer's hardware address is never all zero.
- NetCodec.OutQueue.PushTcpFrame: the identification field is part of the message; the counter behind it is not modelled.
- Virtqueue.View.PostAvail: barriers are sequential consistency; buffer contents and descriptor addresses are not modelled.
- CoTenants.Tenants.Run: what a guest does in its slice is arbitrary; heartbeats, exit counters and the hypervisor are not modelled.
- Killing and exec of other tasks, task priorities set at run time, IRQ waits, region registration and the other syscalls.
- Register context switching, cache and TLB operations, the interrupt controller, the timer and boot assembly.
- `set_user_block`, `map_page`, `map_block` and the boot-time kernel map; ICMP, ARP and the tables of the network stack.
- Window manager, shell, drivers, guest RTOS, secure monitor, firmware tables and the ELF loader.
