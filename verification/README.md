# A verified model of the xv6 kernel's hard parts

xv6 is a small Unix for RISC-V multiprocessors. This project models the parts of its kernel, and
of its user programs, whose correctness does not show in any one function, and proves what they
promise. `dafny verify dfyconfig.toml` checks everything.

What the theorems are about, by directory of the source and by file here:

- **The log** (`LogRecovery`, `LogCommit`, `LogGroupCommit`, `LogSpace`). A transaction is atomic
  whatever block write a crash follows and however often recovery itself crashes. The class `Log`
  runs the source's loops on a cache with pins, and the images it leaves on the disk are exactly
  those the crash theorem speaks of. A transition system of concurrent operations shows group commit
  durable in every interleaving, and a second invariant shows that reservations cover the log's
  space. Here the code and its sizes disagree: `log_write` tests against `log.size - 1` while
  `mkfs` gives the log LOGSIZE blocks, so an operation within its budget can panic; it is proved
  that appends are safe if and only if the region is larger than LOGSIZE, and then every log_write
  if and only if operations stay below their budget.
- **The buffer cache** (`BufferCache`). The list is a cycle through all buffers in order of release,
  a block has at most one buffer, the recycled one is the one released longest ago, and buffers
  nobody holds equal the disk.
- **Files on disk** (`FsBlocks`, `FsState`, `FsFormat`, `FsFiles`). The free map is exact: a bit is set for
  metadata and for each block referred to, once. Allocation, mapping, truncation and writing keep
  this, on a full disk too. A file is a sequence of bytes: writing splices, reading slices. One
  chunk of `filewrite` fits in one operation's log space. The state is bytes, words, bits and
  inodes as they lie in the blocks.
- **Virtual memory** (`VmSpace`, `VmMachine`, `VmUser`, `VmCopy`, `VmFree`, `VmProcess`, `VmImage`,
  `VmExec`).
  The Sv39 tree, in memory words, reads as a flat map, and each operation changes exactly the
  translations it should. Frames are conserved: wherever memory runs out, a failed `fork` or
  `exec` leaves the free frames and the caller's image as they were, and freeing an address space
  returns each frame once. A new image holds each segment's bytes.
- **Processes** (`ProcModel`, `ProcInv`, `ProcSleep`, `ProcFamily`, `ProcWait`, `ProcPids`,
  `ProcSched`, `ProcRuns`). A transition system whose steps are the lines between lock operations,
  for any number of processes, CPUs and sleep-locks. One inductive invariant gives: one CPU per
  process, exclusive sleep-locks, no lost wakeup, no lost exit, each zombie reaped once by its
  parent.
- **References** (`Refs`, `RefCalls`, `RefOpen`, `RefPipe`). Counts of files, inodes and pipe ends
  are exact at every moment, counting what a running call holds in local variables apart, and each
  call puts back what it took on each of its exits.
- **The disk driver** (`Virtio`, `VirtioDisk`). Descriptor and ring safety against a device that
  completes in any order, through wrap-around of the 16-bit indices; and the driver's code.
- **Pipes** (`Pipe`). A first-in first-out ring behind wrapping 32-bit counters, and who may sleep.
- **User programs** (`Umalloc`, `Shell`, `ShellLoops`, `ShellTokens`, `ShellRoundTrip`, `ShellImage`,
  `Grep`). The
  storage allocator of section 8.7 of "The C Programming Language", 2nd edition; the shell's
  parser, which reads back every printed tree and yields no others, and its termination of tokens in place; and the
  regular-expression matcher against a declarative meaning.

Classes stand for the structures the source updates in place. Ghost arguments and ghost fields
carry what the proofs need and the code does not have. A panic of the source is a precondition
where the theorems show its callers meet it; capacity panics (no buffer, no inode slot) are
preconditions without that. What user memory holds, the images on disk, what directories contain,
and when and in which order the device completes requests and with which status, are arbitrary.

In two places the source does not do what one would expect. The model follows the source, and the
exact condition is proved:

- The log region that `mkfs` makes is one block too small for `log_write`'s test
  (`LogSpace.AppendsSafeIffLogRegionLarger`), and the test comes before absorption
  (`LogSpace.LogWritesSafeIffBelowBudget`).
- A writer that is killed inside `pipewrite` returns without waking the readers, so a reader may
  sleep on a pipe that has bytes (`Pipe.KilledWriterStrandsReader`). `Pipe.Channel.Write` says exactly
  when this happens, by what the call is given, and `Pipe.Channel.Valid` that it never happens
  otherwise.

## Model

| member | source | states |
|---|---|---|
| LogFormat.RecoversToIffRecovered | kernel/log.c:117-123 | Running recovery on an image leaves a state in the home blocks exactly when the header and log copies of the image spell out that state: the predicate the other log results use is what the code computes |
| LogFormat.RecoversToUnique | kernel/log.c:117-123 | An image recovers to one state of the home blocks only |
| LogFormat.InstallAllKeeps | kernel/log.c:69-83 | Installing any prefix of the header's list changes neither the list nor what the image recovers to, and puts that prefix in place |
| LogFormat.ClearKeeps | kernel/log.c:103-114 | Clearing the header of a fully installed image makes its home blocks final and loses nothing |
| LogFormat.LogAreaInvisible | kernel/log.c:179-191 | While the header is clear, a write anywhere in the log area is invisible to recovery |
| LogFormat.LoggedKeeps | kernel/log.c:179-191 | After any prefix of write_log the old state still recovers, and the log copies so far are the new contents |
| LogFormat.CommitPoint | kernel/log.c:103-114 | The one header write of commit switches what the image recovers to from the old state to the new one |
| LogFormat.CommitIsAtomic | kernel/log.c:194-203 | Of all the images commit leaves on the disk, one per block write, those before the header write recover to the whole old state and the others to the whole new state; the last has the new state in place and a clear header |
| LogFormat.RecoveryIsIdempotent | kernel/log.c:117-123 | Every image recovery itself leaves recovers to the same state, and its last one has that state in place with the header cleared |
| LogFormat.CrashAtomicity | kernel/log.c:69-203 | A crash after any write of commit, then any number of crashes inside recovery, then a recovery that completes: the home blocks hold the old state or the new one, and the new one exactly if the header write came before the crash |
| LogCommit.Log.Boot | kernel/log.c:55-65 | initlog on a disk image with nothing cached |
| LogCommit.Log.CopyBlock | kernel/log.c:69-83 | The body write_log and install_trans share: one block write whose data is the source block, references as before, and referenced buffers stay cached |
| LogCommit.Log.CopyToLog | kernel/log.c:179-191 | One turn of write_log writes the view of a logged block to its log slot and leaves cache coherence and the view alone |
| LogCommit.Log.WriteLog | kernel/log.c:179-191 | The disk and the sequence of images written are those of LogFormat.LoggedKeeps |
| LogCommit.Log.FillHead | kernel/log.c:103-114 | The header block is the count and the list, the rest as it was |
| LogCommit.Log.WriteHead | kernel/log.c:103-114 | One block write puts the in-memory list in the header |
| LogCommit.Log.InstallOne | kernel/log.c:69-83 | One turn of install_trans installs one block and drops its pin, unless recovering |
| LogCommit.Log.InstallTrans | kernel/log.c:69-83 | The disk and the images are those of LogFormat.InstallAllKeeps; afterwards no block is pinned |
| LogCommit.Log.Find | kernel/log.c:215-235 | The search of log_write: the index of the block in the list, or its length if it is not there |
| LogCommit.Log.LogWrite | kernel/log.c:215-235 | A block new to the list is appended and pinned once; one in the list is absorbed and changes nothing |
| LogCommit.Log.Update | kernel/log.c:205-235 | bread, modify, log_write, brelse: the view changes in that block, and the list and the pins still agree |
| LogCommit.Log.ReadHead | kernel/log.c:87-97 | The in-memory list becomes the list on the disk |
| LogCommit.Log.RecoverFromLog | kernel/log.c:117-123 | The disk becomes what LogFormat.Recovered computes, through exactly the images of LogFormat.RecoveryIsIdempotent, and memory and disk agree |
| LogCommit.Log.LogAndCommit | kernel/log.c:194-203 | write_log and the header write, image by image |
| LogCommit.Log.Commit | kernel/log.c:194-203 | The writes are exactly the images of LogFormat.CommitIsAtomic; afterwards the home blocks hold the view, the list is empty and nothing is pinned |
| LogGroupCommit.RunInv | kernel/log.c:126-235 | Disk, cache, pins and history agree in every state of every interleaving of begin_op, bread, changes, log_write, brelse, end_op, commit writes, evictions, crashes and recovery |
| LogGroupCommit.GroupCommitDurability | kernel/log.c:126-235 | In every state of every run, recovering the disk gives the state after a prefix of the closed groups that has every group whose commit completed; each operation in a closed group has ended, no operation is in two groups, and each block logged and not yet installed is cached and pinned once |
| LogGroupCommit.DurabilityLasts | kernel/log.c:126-235 | From any state of a run to any later one, through commits, crashes and recoveries, no group that was durable is lost or changed, and completed commits stay completed |
| LogGroupCommit.BreadSeesCurrent | kernel/bio.c:58-103 | In every run bread yields the current contents of the block, however its buffer came and went |
| LogSpace.RunSpace | kernel/log.c:126-235 | In every state of every run whose operations keep to MAXOPBLOCKS blocks, the logged blocks and all unspent reservations fit in LOGSIZE together |
| LogSpace.ReservationHolds | kernel/log.c:126-142 | An operation with part of its reservation left finds the list short of LOGSIZE, and one that appends has part left; with a log region of more than LOGSIZE blocks log_write then does not panic |
| LogSpace.AppendsSafeIffLogRegionLarger | kernel/log.c:219-223 | log_write compares with log.size - 1: over all runs within budget an append never panics if and only if the log region has more than LOGSIZE blocks; mkfs makes it LOGSIZE |
| LogSpace.PanicRun | mkfs/mkfs.c:25-25 | With a region of at most LOGSIZE blocks, as mkfs makes it, a run within budget in which an append panics |
| LogSpace.AbsorptionCanPanic | kernel/log.c:219-233 | The size test comes before absorption: a run within budget in which logging a block that is in the list already panics, however large the region |
| LogSpace.LogWritesSafeIffBelowBudget | kernel/log.c:219-233 | Exactly when that cannot happen: with a large enough region, over all runs whose operations log at most k distinct blocks, no log_write panics, absorbing or not, if and only if k is below MAXOPBLOCKS |
| BufferCache.UnlinkOk | kernel/bio.c:117-137 | Unlinking a buffer leaves a doubly linked cycle of the others in their order |
| BufferCache.PushOk | kernel/bio.c:117-137 | Linking a buffer in after the head leaves a doubly linked cycle with it first |
| BufferCache.FrontSorted | kernel/bio.c:117-137 | Moving the buffer just released to the front keeps the list ordered by time of release |
| BufferCache.Cache.Binit | kernel/bio.c:37-53 | The list is a cycle through all buffers, none referenced or valid |
| BufferCache.Cache.BuildList | kernel/bio.c:37-53 | The loop that builds the list back to front |
| BufferCache.Cache.FindCached | kernel/bio.c:59-72 | The buffer of the block if some buffer has it, otherwise none has |
| BufferCache.Cache.FindUnused | kernel/bio.c:74-87 | Among the unreferenced buffers the one released longest ago |
| BufferCache.Cache.Bget | kernel/bio.c:59-89 | The buffer of the block with one more reference; recycled exactly if no buffer had the block, and then it is the unreferenced one released longest ago. There is still at most one buffer for a block, and unreferenced valid buffers still equal their disk blocks |
| BufferCache.Cache.Bread | kernel/bio.c:93-103 | The buffer is valid; its data is the disk's, unless someone else holds the buffer and has changed it |
| BufferCache.Cache.Modify | kernel/bio.c:93-103 | A holder may change its buffer and nothing breaks |
| BufferCache.Cache.Bwrite | kernel/bio.c:107-112 | The disk gets the data, under the cache invariant |
| BufferCache.Cache.Bpin | kernel/bio.c:139-144 | One more reference |
| BufferCache.Cache.Bunpin | kernel/bio.c:146-151 | One reference less, by a client that also holds the buffer |
| BufferCache.Cache.Brelse | kernel/bio.c:117-137 | One reference less; the last one stamps the buffer as released last and moves it to the front, under the same invariant |
| BufferCache.Cache.MoveToFront | kernel/bio.c:117-137 | The relinking keeps a cycle through all buffers, in order of release |
| FsBlocks.WordSet | kernel/fs.h:27-38 | Writing one 32-bit word of a block changes that word only |
| FsBlocks.BitPut | kernel/fs.h:44-51 | Writing one bit of a map block changes that bit only |
| FsBlocks.InodePut | kernel/fs.h:27-42 | Reading back an on-disk inode gives what was written, and the other inodes of the block are as before |
| FsFormat.FormatDisk | mkfs/mkfs.c:236-251 | Marking the blocks in front of the data, bit by bit, leaves an exact map with nothing owned, the superblock readable, and every inode but the root's free |
| FsState.SlotUsed | kernel/fs.c:92-105 | A block that some slot refers to is a data block owned by that slot alone and its bit is set, so bfree's panic is out of reach |
| FsState.AllocKeeps | kernel/fs.c:66-88 | A clear bit belongs to a data block nobody owns; taking it keeps every file |
| FsState.AssignDirect | kernel/fs.c:383-421 | Putting a fresh zeroed block in an empty direct slot keeps exact ownership and every file's bytes |
| FsState.AssignEntry | kernel/fs.c:383-421 | The same for an entry of the indirect block |
| FsState.FreeKeeps | kernel/fs.c:426-453 | Clearing a slot and the bit of its block keeps exact ownership and every other file |
| FsState.UpdateKeeps | kernel/fs.c:226-241 | Copying the inode to its block keeps ownership, files and slots |
| FsState.ClaimKeeps | kernel/fs.c:199-219 | Claiming a free inode keeps ownership, and the new inode is empty |
| FsState.ContentSpliced | kernel/fs.c:506-539 | Bytes replaced one by one at the right places are a splice of the file as a sequence |
| FsState.ChunkKeeps | kernel/fs.c:506-539 | Writing part of one block changes those bytes of the file and no other file's, although block and file offsets differ |
| FsFiles.Files.Balloc | kernel/fs.c:66-88 | The lowest free block, marked and zeroed; 0 exactly if every bit is set |
| FsFiles.Files.Bfree | kernel/fs.c:92-105 | Clears exactly the block's bit |
| FsFiles.Files.MapDirect | kernel/fs.c:383-395 | The slot keeps its block or gets a fresh one; 0 only on a full disk; files, sizes and other slots as before |
| FsFiles.Files.MapEntry | kernel/fs.c:404-417 | The same for an entry of the indirect block, counting the blocks logged |
| FsFiles.Files.MapIndirect | kernel/fs.c:397-418 | The same with the indirect block made on demand |
| FsFiles.Files.Bmap | kernel/fs.c:383-421 | The block of the file block, allocated if there was none; nothing changes if there was; 0 only on a full disk; exact ownership and every file's bytes kept; a bound on the blocks logged |
| FsFiles.Files.Iupdate | kernel/fs.c:226-241 | Disk and memory inode agree; nothing else changes |
| FsFiles.Files.FreeDirect | kernel/fs.c:431-436 | One direct block is freed |
| FsFiles.Files.FreeEntry | kernel/fs.c:441-444 | One indirect entry is freed, the indirect block itself not yet |
| FsFiles.Files.FreeIndirect | kernel/fs.c:438-449 | All entries and the indirect block are freed |
| FsFiles.Files.Itrunc | kernel/fs.c:426-453 | The inode owns nothing and is empty; every other owner, inode and file is as before; the map is exact again; only map blocks and its inode block are logged |
| FsFiles.Files.WriteBlock | kernel/fs.c:514-530 | writei's loop body: one block's worth, done or stopped by a full disk or a failed copy |
| FsFiles.Files.WriteLoop | kernel/fs.c:514-530 | writei's loop: a prefix of the bytes is spliced in, short only on a full disk or a failed copy |
| FsFiles.Files.Writei | kernel/fs.c:506-539 | -1 exactly in the three cases of the source, and then nothing changes; otherwise r bytes are in place, short only on a full disk or failed copy, the size follows, ownership is exact, and in a hole-free file at most LogBound blocks are logged |
| FsFiles.Files.Readi | kernel/fs.c:472-496 | Exactly the slice of the file asked for, cut at its end, holes read as zeros; -1 only if the destination is too short; fewer bytes only when a hole meets a full disk; in a hole-free file nothing is allocated or logged |
| FsFiles.Files.ReadBlock | kernel/fs.c:482-493 | readi's loop body: bmap fills a hole without changing any file, or fails on a full disk |
| FsFiles.Files.Ilock | kernel/fs.c:293-317 | The inode in memory is the one on the disk |
| FsFiles.Files.Ialloc | kernel/fs.c:199-219 | The lowest free inode gets the type and is otherwise zero; 0 exactly if there is none; one block is logged |
| FsFiles.Files.FreeInode | kernel/fs.c:336-362 | Truncate and free: the inode is free and owns nothing, everything else as before; only map blocks and its inode block are logged |
| FsFiles.FreeInodeFits | kernel/fs.c:337-362 | How much log space freeing an inode may take: one block more than the free map has, within MAXOPBLOCKS exactly on disks of at most nine map blocks |
| FsFiles.Files.Filewrite | kernel/file.c:135-181 | Writes n bytes in transactions of at most three blocks: on success all n are spliced in at the offset; the file stays hole-free; and each transaction logs at most MAXOPBLOCKS blocks |
| FsFiles.Files.Format | mkfs/mkfs.c:84-118 | The invariant holds of an empty file system as mkfs lays it out, with the superblock, the root inode on disk and the map exact |
| FsFiles.FindClear | kernel/fs.c:66-88 | balloc's inner loop: the first clear bit |
| FsFiles.CopyIn | kernel/fs.c:506-539 | either_copyin: the bytes asked for, or failure when the source ends before |
| FsFiles.FirstMapped | kernel/fs.c:506-539 | In a hole-free file a write that starts inside a block finds it mapped, which the log bound needs |
| FsFiles.WriteCost | kernel/fs.c:506-539 | The distinct blocks one writei logs, data, map, indirect and inode blocks, stay within LogBound |
| FsFiles.ChunkFits | kernel/file.c:149-174 | A chunk of filewrite needs at most MAXOPBLOCKS = 10 blocks, whatever its offset |
| FsFiles.WriteSplices | kernel/fs.c:506-539 | A write whose source can be read is a splice of the returned bytes into the file as a sequence of bytes, and changes no other file |
| FsFiles.ExactOwnership | kernel/fs.c:66-105 | Between operations a map bit is set exactly for metadata blocks and blocks that an allocated inode refers to, directly, as indirect block or from one; and no two references are to the same block |
| VmSpace.PteParts | kernel/riscv.h:354-371 | The parts of a page-table entry can be read back |
| VmSpace.PxInjective | kernel/riscv.h:373-382 | The three indices of a virtual page below MAXVA determine the page |
| VmSpace.TreeReads | kernel/vm.c:96-118 | The three-level tree reads as the flat map, for every page below MAXVA |
| VmSpace.AddMidOk | kernel/vm.c:96-118 | walk's new second-level table adds no translation and disturbs none |
| VmSpace.AddLowOk | kernel/vm.c:96-118 | The same for a new last-level table |
| VmSpace.SetLeafOk | kernel/vm.c:160-188 | Writing a last-level entry changes one translation: tables do not alias |
| VmMachine.PopOk | kernel/kalloc.c:77-92 | Taking the head leaves the list of the others |
| VmMachine.PushOk | kernel/kalloc.c:50-69 | Pushing a page leaves the list with it in front |
| VmMachine.Machine.Kinit | kernel/kalloc.c:27-43 | freerange leaves exactly the allocator's pages on the free list |
| VmMachine.Machine.Kalloc | kernel/kalloc.c:77-92 | A free page, no longer free; 0 exactly if there is none |
| VmMachine.Machine.Kfree | kernel/kalloc.c:50-69 | The page is free and no other page changed |
| VmMachine.Machine.Freemem | kernel/kalloc.c:95-107 | The loop counts the free pages |
| VmMachine.Machine.Descend | kernel/vm.c:96-118 | One level of walk: the table below, made if wanted; 0 only if it is absent and not wanted or memory ran out |
| VmMachine.Machine.Walk | kernel/vm.c:96-118 | The last-level table of the page; tables may be added but every translation stays; without alloc nothing changes; at most two pages used |
| VmMachine.Machine.Mappages | kernel/vm.c:160-188 | Exactly the pages of the range are added on success, exactly a prefix on failure, and failure means no page is free |
| VmMachine.Machine.UnmapPage | kernel/vm.c:194-219 | One page unmapped, its frame freed or left to its owner |
| VmMachine.Machine.Uvmunmap | kernel/vm.c:194-219 | Exactly the pages of the range go; with do_free each frame goes back to the free list, and frames are conserved |
| VmMachine.MapTranslates | kernel/vm.c:160-188 | After mappages every address below MAXVA translates to the new entry in the range and as before elsewhere |
| VmMachine.UnmapTranslates | kernel/vm.c:194-219 | After uvmunmap the range does not translate and every other address does as before |
| VmUser.GrowPage | kernel/vm.c:254-281 | One more page or no change to the mappings; frames conserved; failure means at most three pages were free |
| VmUser.Uvmdealloc | kernel/vm.c:288-299 | Exactly the pages above the new size go back |
| VmUser.ExtendsUndone | kernel/vm.c:254-281 | Giving back the pages added leaves the mappings there were |
| VmUser.RoomLeft | kernel/vm.c:254-281 | While a page is free, user memory has not reached the trapframe, so mappages does not remap |
| VmUser.Uvmalloc | kernel/vm.c:254-281 | On success exactly the pages between are added with their permissions; on failure every leaf mapping is as before and only interior tables may be extra; frames conserved; failure only with too few pages free |
| VmCopy.Uvmcopy | kernel/vm.c:338-368 | The child gets a page for each of the parent's with its contents and flags; or, if memory runs out, the mappings it had; frames conserved, parent untouched |
| VmFree.PruneOk | kernel/vm.c:304-319 | With one subtree gone and its entry cleared, the rest is still the tree |
| VmFree.Freewalk | kernel/vm.c:304-319 | Every table of the subtree goes back exactly once, and nothing else changes |
| VmFree.Uvmfree | kernel/vm.c:324-329 | Every frame of the address space, pages and tables, goes back exactly once |
| VmProcess.MapTop | kernel/proc.c:178-207 | The trampoline or trapframe page is mapped, or nothing but interior tables changed |
| VmProcess.UnmapTop | kernel/proc.c:212-217 | The page is unmapped and its frame stays its owner's |
| VmProcess.ProcPagetable | kernel/proc.c:178-207 | Exactly the two top pages are mapped; on failure at any point the set of free frames is as before |
| VmProcess.ProcFreepagetable | kernel/proc.c:212-217 | Every frame of the address space goes back exactly once |
| VmProcess.Fork | kernel/proc.c:281-329 | On failure at any kalloc the set of free frames and the parent are exactly as before; on success the child has a copy of the memory and the trapframe with a0 = 0, frames are conserved; it fails only with too few pages free |
| VmImage.OverlayHas | kernel/exec.c:148-166 | A page with the first n bytes of another laid over it has those bytes in front, also when n is no multiple of the word size |
| VmImage.LoadOne | kernel/exec.c:148-166 | One more page of a segment: it is laid over, and no other page of the space changes |
| VmImage.UserFits | kernel/exec.c:148-166 | A user space has no more pages than the machine has frames |
| VmExec.Walkaddr | kernel/vm.c:124-141 | The frame of a page user code may access, otherwise 0 |
| VmExec.Loadseg | kernel/exec.c:148-166 | Each page of the range has the file's bytes in front and its own behind, byte for byte, every other page is as before; it fails exactly where the file ends; walkaddr never misses and the 32-bit counter does not wrap |
| VmExec.LoadSegment | kernel/exec.c:49-70 | One program header: the checks of the source, growth and loading; the whole file part is in memory and other pages are as before; frames conserved; failure has a reason |
| VmExec.SegmentFits | kernel/exec.c:49-70 | Once there is memory for a segment its size is below 2^32, so passing it as a 32-bit number loses nothing |
| VmExec.ImageMore | kernel/exec.c:49-70 | Loading one more segment keeps what earlier segments loaded, except where the new one overlaps them |
| VmExec.AddStack | kernel/exec.c:76-90 | The guard page and the stack above the segments: the guard page is out of reach of user code, all others are not, and the loaded pages stay |
| VmExec.Uvmclear | kernel/vm.c:373-381 | User code loses the guard page; only its entry changes |
| VmExec.ClearBit | kernel/vm.c:373-381 | Clearing the user bit leaves a valid leaf with the same frame, out of reach of user code |
| VmExec.BuildImage | kernel/exec.c:49-127 | Every page that some segment loads holds what the last of them has for it, the guard page alone is out of reach of user code, and the size follows; frames conserved; failure has a reason |
| VmExec.Exec | kernel/exec.c:23-141 | On failure anywhere the set of free frames and the old image are exactly as before; on success the old image's frames have gone back, each once, and the new image holds every segment with the guard page in place; it fails only for a bad file, arguments that do not fit, or too few free pages |
| ProcRuns.NextKeeps | kernel/proc.c:281-619 | Every step of every process and scheduler, fork, exit, wait, sleep, wakeup, kill, timer yields wherever no lock is held, switch, sleep-locks, keeps the whole invariant |
| ProcRuns.TimerKeeps | kernel/proc.c:515-522 | A timer interrupt may make a thread yield in user code and inside fork and sleep, wherever it holds no spinlock |
| ProcRuns.BootRun | kernel/proc.c:48-59 | Every machine with a process slot and a CPU has a run |
| ProcRuns.BootInv | kernel/proc.c:234-256 | The invariant holds with init alone |
| ProcRuns.RunInv | kernel/proc.c:281-619 | It holds in every state of every interleaving |
| ProcRuns.OneCpu | kernel/proc.c:448-522 | A process is current on at most one CPU, until the scheduler has cleared c->proc |
| ProcRuns.SleepLockExclusive | kernel/sleeplock.c:22-41 | At most one process holds a sleep-lock, and while it does the lock is marked |
| ProcRuns.NoSleepOnFreeLock | kernel/sleeplock.c:22-41 | While the spinlock inside a sleep-lock is free, a process sleeps on it only if it is locked: no wakeup is lost |
| ProcRuns.NoLostExit | kernel/proc.c:350-438 | While wait_lock is free, no process sleeps in wait with a zombie child |
| ProcRuns.ZombieHasParent | kernel/proc.c:334-389 | A zombie has a living parent that will still see it or give it to init |
| ProcRuns.ReapedOnce | kernel/proc.c:394-438 | No process is reaped twice |
| ProcRuns.ReapedByParent | kernel/proc.c:394-438 | A reap is by the wait of the zombie's parent, and frees its slot |
| ProcRuns.OnlyWaitReaps | kernel/proc.c:394-438 | A step that reaps is wait's, on a zombie child it holds the lock of |
| ProcSched.SwitchHoldsOwnLock | kernel/proc.c:494-511 | Whenever a process gives the CPU to the scheduler it holds its own lock and no other spinlock, and is not RUNNING: sched's panics are out of reach |
| Refs.Kernel.Boot | kernel/file.c:17-26 | Empty tables have exact counts |
| Refs.Kernel.Filealloc | kernel/file.c:30-44 | The first file without references, with one; none exactly if all are in use |
| Refs.Kernel.Filedup | kernel/file.c:48-56 | One more reference |
| Refs.Kernel.Fileclose | kernel/file.c:60-83 | One reference less; with the last one its pipe end is closed or its inode let go, and only then |
| Refs.Kernel.FileDrop | kernel/file.c:60-83 | A file without references lets go of what it had |
| Refs.Kernel.FindFd | kernel/sysfile.c:40-52 | The first free descriptor of the process, or none is free |
| Refs.Kernel.Fdalloc | kernel/sysfile.c:40-52 | The first free descriptor takes over the caller's reference |
| Refs.Kernel.Iget | kernel/fs.c:247-277 | The slot of the inode, or a free one for it, with one more reference; slots in use stand for different inodes and keep them; it needs a free slot only for an inode that has none |
| Refs.Kernel.FindSlot | kernel/fs.c:247-277 | The slot in use for the inode, or a free one and the knowledge that there is none |
| Refs.Kernel.Idup | kernel/fs.c:282-288 | One more reference |
| Refs.Kernel.Iput | kernel/fs.c:337-362 | One reference less; the inode is freed on disk exactly if it was the last one, the inode has been read, and it has no links; then no slot in use stands for it |
| Refs.Kernel.Pipeclose | kernel/pipe.c:59-74 | The end is closed; the page goes back exactly when the other end is closed too |
| Refs.TabMore | kernel/fs.c:247-277 | What a reference in hand does to the table: a slot less exactly if the inode had none |
| RefCalls.NameStep | kernel/fs.c:652-684 | One path element: the reference moves from the directory to the entry, or is let go |
| RefCalls.NameStart | kernel/fs.c:652-660 | The root or the working directory, with a reference |
| RefCalls.Namex | kernel/fs.c:652-684 | A reference to the inode the path leads to, or none left if it leads nowhere; exactly when which, and which inode; the inode table needs room only for inodes of the path without a slot |
| RefCalls.Put | kernel/fs.c:366-370 | The reference goes, and all counts are what they were before it was taken |
| RefCalls.Dirlink | kernel/fs.c:580-606 | Fails if the name is there, letting go of what it found |
| RefCalls.Argfd | kernel/sysfile.c:22-35 | The file of an open descriptor, which has a reference |
| RefCalls.SysDup | kernel/sysfile.c:55-66 | The first free descriptor names the file too; otherwise nothing changes |
| RefCalls.SysClose | kernel/sysfile.c:98-108 | The descriptor is empty and the file has one reference less; -1 exactly for a bad descriptor |
| RefCalls.CloseFd | kernel/sysfile.c:98-108 | Closing one descriptor moves its reference out and lets go of it |
| RefCalls.LinkEntry | kernel/sysfile.c:141-160 | link's second half leaves no reference |
| RefCalls.AddLink | kernel/sysfile.c:141-170 | The link count goes up, and down again exactly if the entry could not be made |
| RefCalls.SysLink | kernel/sysfile.c:124-170 | Both paths, every failure: all counts of references as before; the link count goes up exactly on success |
| RefCalls.SysChdir | kernel/sysfile.c:410-432 | The working directory changes exactly if the path leads to a directory; the old one's reference goes |
| RefCalls.SwapCwd | kernel/sysfile.c:425-431 | The process's reference and the one in hand change places |
| RefCalls.GetToo | kernel/sysfile.c:246-302 | A second inode is taken while the first is held, also when they are the same |
| RefCalls.SysUnlink | kernel/sysfile.c:189-243 | Every exit: all counts of references as before; links go down exactly on success, the parent's too for a directory |
| RefCalls.DropEntry | kernel/sysfile.c:213-235 | The part with both inodes in hand |
| RefCalls.Create | kernel/sysfile.c:246-302 | The existing inode if its type fits, or a new one with its link; on failure no reference is left and a new inode has no link; exactly when which |
| RefCalls.Existing | kernel/sysfile.c:254-261 | The name is there |
| RefCalls.Fresh | kernel/sysfile.c:263-301 | The name is not there: a new inode, undone if an entry cannot be written |
| RefCalls.ExecPath | kernel/exec.c:32-84 | exec lets go of the program file, however it ends |
| RefOpen.OpenFile | kernel/sysfile.c:342-360 | A file and a descriptor for the inode in hand, all or nothing |
| RefOpen.OpenPath | kernel/sysfile.c:318-335 | create or namei, with the directory test |
| RefOpen.SysOpen | kernel/sysfile.c:305-371 | All tables are as before on every failure; on success one empty descriptor names one free file that names the inode, with one more reference; exactly when which |
| RefOpen.SysMake | kernel/sysfile.c:374-407 | mkdir and mknod leave no reference |
| RefPipe.Ends | kernel/pipe.c:23-56 | Two files become the two ends of a pipe that had none open |
| RefPipe.Pipealloc | kernel/pipe.c:23-56 | Two free files and a page, or everything as before; exactly when which |
| RefPipe.ClosePipe | kernel/pipe.c:59-74 | Closing both ends takes the tables back to before pipealloc |
| RefPipe.TwoFds | kernel/sysfile.c:478-505 | The first two free descriptors, or none taken |
| RefPipe.SysPipe | kernel/sysfile.c:478-505 | On every failure all tables are as before; on success the two lowest free descriptors name the read end and the write end; exactly when which |
| RefPipe.ForkFiles | kernel/proc.c:301-305 | The child's descriptors and working directory are the parent's, with the references they need |
| RefPipe.ExitFiles | kernel/proc.c:357-371 | No descriptor and no working directory is left, nobody else's changed |
| RefPipe.CountsExact | kernel/file.c:30-83 | Between system calls: file.ref is the number of descriptors naming the file, inode.ref the number of files and working directories naming it, a pipe has its page exactly while some file names an end, and every file that names something has a descriptor |
| VirtQueue.RunOk | kernel/virtio_disk.c:157-327 | The queue invariant holds in every state of every run, whatever the order of requests, device steps and interrupts |
| VirtQueue.DescriptorsPartitioned | kernel/virtio_disk.c:157-213 | In every state the descriptors are the free ones and disjoint triples of requests, each triple spells its request, and b->disk is set exactly for requests not yet delivered |
| VirtQueue.AvailSlotNotReused | kernel/virtio_disk.c:216-292 | A new request never overwrites a ring entry the device has still to read, however often the 16-bit index has wrapped |
| VirtQueue.ClearedByHandler | kernel/virtio_disk.c:295-327 | b->disk is cleared only by the handler, for a request of that buffer that the device completed with status 0 |
| VirtQueue.DoneWasCompleted | kernel/virtio_disk.c:295-327 | A completed request was completed by the device since it was made, and its status byte is what the device reported |
| VirtQueue.PanicsIffErrorReported | kernel/virtio_disk.c:295-327 | The handler's panic is reached if and only if the device reported an error for the very request the handler comes to |
| VirtQueue.ClearedOncePerRequest | kernel/virtio_disk.c:295-327 | Between two clearings for a buffer there is a new request: no completion is delivered twice |
| VirtioDisk.Disk.constructor | kernel/virtio_disk.c:144-146 | All descriptors free, indices 0 |
| VirtioDisk.Disk.AllocDesc | kernel/virtio_disk.c:157-166 | The lowest free descriptor, or -1 exactly if there is none |
| VirtioDisk.Disk.FreeChain | kernel/virtio_disk.c:186-197 | Following the links frees exactly the three descriptors of the chain |
| VirtioDisk.Disk.FreeAll | kernel/virtio_disk.c:202-213 | The undo loop of alloc3_desc |
| VirtioDisk.Disk.Alloc3Desc | kernel/virtio_disk.c:202-213 | Three distinct descriptors, or none taken and then fewer than three were free |
| VirtioDisk.Disk.PrepareRequest | kernel/virtio_disk.c:216-276 | A request that was not there, of this buffer and command, under the queue invariant; or no change and fewer than three descriptors free |
| VirtioDisk.Disk.PublishRequest | kernel/virtio_disk.c:276-280 | The increment of avail->idx makes the request visible to the device |
| VirtioDisk.Disk.Submit | kernel/virtio_disk.c:216-284 | The whole submission with the device running in between |
| VirtioDisk.Disk.DeviceTake | kernel/virtio_disk.c:216-292 | The device reads the next avail entry: it is the oldest request not yet taken |
| VirtioDisk.Disk.DeviceComplete | kernel/virtio_disk.c:295-327 | The device completes any request it has taken, in any order and with any status |
| VirtioDisk.Disk.Interrupt | kernel/virtio_disk.c:295-327 | Every completion found is delivered, while the device goes on, up to the first that reports an error; it panics exactly if there is one, and otherwise none is left done and undelivered |
| VirtioDisk.Disk.DeliverOne | kernel/virtio_disk.c:295-327 | One turn of the loop: a delivery, or the panic exactly on a status other than 0 and then no change; the loop ends |
| VirtioDisk.Disk.FinishRequest | kernel/virtio_disk.c:285-292 | The request is gone and its three descriptors are free |
| Pipe.TestsExact | kernel/pipe.c:77-130 | The tests on the wrapped 32-bit counters decide full and empty exactly |
| Pipe.PutOk | kernel/pipe.c:77-103 | Writing a byte when not full: the ring still holds the bytes sent and not received, in order |
| Pipe.GetOk | kernel/pipe.c:106-130 | The byte read is the oldest one not yet received |
| Pipe.Channel.constructor | kernel/pipe.c:23-56 | An open, empty pipe |
| Pipe.Channel.Put | kernel/pipe.c:90-98 | The byte is the next one sent |
| Pipe.Channel.Get | kernel/pipe.c:118-124 | The byte is the next one received |
| Pipe.Channel.Fill | kernel/pipe.c:77-103 | pipewrite's loop up to where it stops, and why it stops |
| Pipe.RefusedOnce | kernel/pipe.c:77-103 | Where the loop is refused is decided by what it is given: the answers of killed and copyin, the read end, and the room in the ring |
| Pipe.Channel.Write | kernel/pipe.c:77-103 | Exactly the bytes src[i0..i] go in, in order; asleep only on a full ring with the readers woken; -1 only for a closed read end or a kill; sleeping readers are left with bytes in the pipe if and only if the writer is killed between two of its bytes, before ring, source or copy stop it, or they were so before and it is refused at once |
| Pipe.Channel.Read | kernel/pipe.c:106-130 | What is returned is what was next in the pipe; asleep exactly if empty, open and not killed; zero bytes only at end of file; writers are woken |
| Pipe.Channel.Close | kernel/pipe.c:59-74 | The end is closed, the other side woken, and the page freed exactly when both are |
| Pipe.Channel.Killed | kernel/proc.c:601-619 | A killed sleeper leaves its channel |
| Pipe.KilledWriterStrandsReader | kernel/pipe.c:77-103 | A run after which a reader sleeps, the lock is free and a byte is in the pipe: the case that Channel.Write describes |
| Umalloc.Disjoint | user/umalloc.c:25-90 | Different blocks, live or free, do not overlap |
| Umalloc.FreeOk | user/umalloc.c:25-44 | After free, with or without joining on either side, the ring is in address order, no two free blocks touch, and the units are partitioned as before |
| Umalloc.FreeEnough | user/umalloc.c:25-44 | Right after free, freep or the block behind it has room for what was freed |
| Umalloc.UnitsFit | user/umalloc.c:70-70 | The units asked for have room for the bytes and the header, and less than one unit to spare |
| Umalloc.AskedIffInRange | user/umalloc.c:47-61 | sbrk's argument is the number of bytes that morecore takes over exactly for sizes below 2^31 bytes; above, it asks for fewer |
| Umalloc.Allocator.constructor | user/umalloc.c:21-23 | Nothing allocated |
| Umalloc.Allocator.FindSlot | user/umalloc.c:30-32 | The search ends, at the place in the ring between neighbours by address or at the wrap |
| Umalloc.Allocator.LinkIn | user/umalloc.c:33-43 | The four cases of joining |
| Umalloc.Allocator.Free | user/umalloc.c:25-44 | The block is no longer live, every other live block keeps its size, the units are the same, and the heap invariant holds |
| Umalloc.Allocator.Morecore | user/umalloc.c:47-61 | At least the units asked for are on the free list, from sbrk; or nothing changed |
| Umalloc.Allocator.Scan | user/umalloc.c:71-88 | The first block with room and its predecessor, or none has room; the search ends |
| Umalloc.Allocator.Take | user/umalloc.c:73-81 | The block leaves the ring, or its tail is cut off |
| Umalloc.Allocator.Init | user/umalloc.c:66-69 | The first call makes the ring of base alone |
| Umalloc.Allocator.Malloc | user/umalloc.c:64-90 | A block that was free, of exactly the units asked for; live blocks keep their sizes; morecore is called at most once, and only its refusal makes malloc fail |
| Umalloc.Allocator.RoomAfterMorecore | user/umalloc.c:84-88 | After morecore the search cannot fail again |
| Shell.GetTokenLoop | user/sh.c:267-309 | gettoken's loops compute the token function |
| Shell.SkipLoop | user/sh.c:312-321 | The loop over white space |
| ShellLoops.ParseRedirsLoop | user/sh.c:376-398 | parseredirs' loop computes the recursive function of the grammar |
| ShellLoops.ParseArgsLoop | user/sh.c:417-447 | The same for parseexec's loop, with its limit of words |
| ShellLoops.ParseLineLoop | user/sh.c:346-360 | parseline's loop computes the grammar function; the mutual recursion ends |
| ShellLoops.ParseCmdRun | user/sh.c:329-343 | parsecmd, with the test for leftovers |
| ShellTokens.LineWords | user/sh.c:346-447 | Every word of the tree is a maximal word of the line |
| ShellTokens.TerminatedReadsTokens | user/sh.c:451-494 | No terminator lands inside another token: each word then reads as its token |
| ShellTokens.TerminateWords | user/sh.c:451-466 | The loop of the EXEC case |
| ShellTokens.NulTerminate | user/sh.c:451-494 | A NUL at the end of every word of the tree and no other change |
| ShellTokens.ParseCommand | user/sh.c:329-343 | After parsecmd every argument and file name of the tree is, as a C string in the line's buffer, its token |
| ShellRoundTrip.WordToken | user/sh.c:267-309 | A plain word and a space are read as one token |
| ShellRoundTrip.ExecOk | user/sh.c:417-447 | A printed simple command parses to its words |
| ShellRoundTrip.RedirOk | user/sh.c:376-398 | A printed redirection parses to itself |
| ShellRoundTrip.BlockOk | user/sh.c:401-414 | A parenthesised line parses to its inside, with the redirections after it |
| ShellRoundTrip.PipeOk | user/sh.c:363-373 | A bar between two printed commands |
| ShellRoundTrip.ListOk | user/sh.c:346-360 | A semicolon between two printed commands |
| ShellRoundTrip.BackOk | user/sh.c:346-360 | A command sent to the background |
| ShellRoundTrip.LineOk | user/sh.c:346-447 | A printed tree anywhere in a line, before the end or a closing parenthesis, parses to a tree with the same text |
| ShellRoundTrip.RoundTrip | user/sh.c:329-494 | Every tree the shell can be told, with up to nine plain words in a simple command, printed with full parentheses, parses back to the same tree, and the whole line is used |
| ShellImage.ResolvePrintable | user/sh.c:346-447 | A parsed tree has plain words, at most nine of them in a simple command, and known redirections |
| ShellImage.PrintableIsImage | user/sh.c:329-343 | The trees that lines without NUL yield are exactly those the round trip is about |
| Grep.MatchesCons | user/grep.c:85-96 | The declarative meaning, by pieces of the text for items of the pattern, splits off the first item |
| Grep.MatchHere | user/grep.c:85-96 | 1 exactly if the items of the pattern can be given consecutive pieces of the text from here on |
| Grep.MatchStar | user/grep.c:99-106 | 1 exactly if some number of the character, then the rest, match |
| Grep.Match | user/grep.c:73-82 | 1 exactly if the pattern, with ^, $, . and *, matches at some place of the text; the recursion ends |

## Left out

- Assembly, traps, control registers, address-translation caches, memory ordering, interrupts other than the disk's, boot and the kernel's own page table.
- The inside of spinlocks: acquire and release are atomic changes of an owner.
- Console, UART, printing, system-call dispatch and the other user programs; the line loop of grep.
- copyin, copyout and copyinstr as code: what they yield is an argument of the callers.
- Names and directory contents: dirlookup, skipelem and the entries themselves; link counts are exact in what each call does to them, not as numbers of entries.
- mkfs beyond an empty file system with the superblock and the root inode: the entries of the root directory and the files it copies.
- Sleep channels other than sleep-locks, wait and pipes; the ticks counter; trace masks; growproc.
- Several inodes locked at once by different processes on one disk: file operations are modelled one at a time, and the log models give what makes that sound.
- The log's own blocks in the cache of the group-commit model: home blocks are cached there, log blocks are read and written directly; the class Log caches both.
- LogCommit.Log.LogWrite: the two size panics are preconditions; LogSpace says exactly when they hold.
- BufferCache.Cache.Bget: the panic for want of buffers is a precondition, as is device number 0, which marks unused buffers.
- FsFiles.Files.WriteBlock: after a failed copy from user memory the bytes of that block are any, as in the source.
- VmUser.Uvmalloc: new pages are not cleared, as in this version of the source, so nothing is said of their contents.
- VmProcess.Fork: there is less physical memory than user address space, as on this machine; the process table is in the Proc modules and the files are in RefPipe.ForkFiles.
- VmExec.Exec: the bytes of the argument strings on the stack are not modelled, only whether they fit; the machine has less than 4 GB, the source's 128 MB.
- ProcRuns.ZombieHasParent: that the parent does call wait is up to the program; what is proved is that nothing is lost until it does.
- RefCalls.Namex: the panic for want of inode slots is a precondition, with the calls that look paths up: what a path needs of the table is spelt out, and a full table that has its inodes is enough.
- RefCalls.SysChdir: the old directory is let go after the field changes, where the source does it before; no one else reads the field.
- RefCalls.SysUnlink: an inode without links is a precondition, where the source panics.
- Umalloc.Allocator.Malloc: addresses are counted in units of a header and sbrk returns multiples of them; a request of 2 GB or more is a precondition's matter unless the free list can serve it, as sbrk's argument then is another number (Umalloc.AskedIffInRange).
- VirtioDisk.Disk.PrepareRequest: the transfer of the data itself; -1 stands for the sleep that waits for descriptors, after which the caller tries again.
- Pipe.Channel.Write: one section between getting and giving up the pipe's lock; a call that sleeps goes on with another section.
- ShellRoundTrip.RoundTrip: the printer's words are plain, without spaces, symbols or NUL, as no others can be typed.
