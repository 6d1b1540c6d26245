# A verified model of the systems portfolio

A Dafny model of the parts of the portfolio that carry its hard promises, with proofs of those promises. Each
component is one group of modules: specification functions and state machines with theorems over all inputs, all
interleavings or all runs, and beside them classes and array methods that work in place as the C code does and are
proved to compute exactly the specified functions.

| group | what it models |
|---|---|
| `LogDisk`, `LogMachine`, `LogTheorems`, `LogDevice` | the xv6 redo log: group commit, crash recovery, the size panic |
| `BufferRing`, `BufferCache` | the buffer cache: the LRU ring, recycling, the block map it refines |
| `WritePath` | balloc, bmap, writei and filewrite: the bound on the blocks of a transaction |
| `WfsNames`, `WfsBlocks`, `WfsOps`, `WfsFiles`, `WfsSpace`, `WfsTheorems`, `WfsRuns`, `WfsDevice`, `WfsImage` | the WFS file system: names, block ownership, file contents, space, image layout |
| `KrPool`, `KrArena`, `KrAlloc` | the K&R allocator |
| `RwLock`, `BoundedBuffer`, `PipeBuffer` | the reader-writer lock, the bounded buffer and the pipe, for any number of threads |
| `ShLex`, `ShParse`, `ShScan`, `ShRoundTrip`, `ShImage`, `ShThins`, `ShWords`, `ShArrows` | the xv6 shell's scanner, parser and in-place NUL termination, and which commands a line can say |
| `ProcTable`, `ProcMachine`, `ProcTheorems`, `ProcRuns`, `ProcKills`, `ProcKernel` | processes and the STCF scheduler on one CPU |
| `PagePool`, `PageOps`, `PageNeeds`, `PageSizes`, `PageExec`, `PageRefs`, `PageSpaces`, `PageRuns`, `PagePanics`, `PageOwn`, `PageBoot`, `PageTables` | physical pages, page tables, shared directories and the address spaces of processes |

How the model sees the machine:

- A disk is a sequence of blocks, and writing one block is one step. A crash keeps the disk and loses everything else.
- What runs under a lock is one atomic step of a thread; threads interleave arbitrarily between steps.
- Integers are unbounded except where the code's 32 bits matter: pipe counters, `malloc` sizes, the argument of
  `sbrk`, `writei` ranges and tick arithmetic wrap or are shown not to.
- A WFS path is a list of components. A WFS data block is typed by its use (bytes, pointers or directory entries), and
  a block pointer is the block's number plus one; `WfsImage.OffsetRoundTrip` ties such numbers to byte offsets.
- The answers of `sbrk`, of memory allocation during `fork` in the process table, and the choice of the next thread are
  parameters. In the page runs allocation is not a parameter: it succeeds exactly while there are free pages.

Promises of the code that do not hold as one might state them, each with its exact condition:

- The "too big a transaction" panic is reachable by operations within their budget: `LogTheorems.PanicReachableIff`
  and `LogTheorems.AbsorbedPanicIff`.
- `rmdir` ignores entries called "." and "..", which `mknod` and `mkdir` accept: `WfsTheorems.RmDirKeeps` and
  `WfsTheorems.DotBreaks`. Runs are therefore proved for names that are not "." or "..".
- A WFS write that runs out of space keeps the bytes it stored beyond the size, and a later write can make them readable:
  `WfsSpace.WriteOkIff`, `WfsSpace.FailedWrite`, `WfsSpace.Exposed` and `WfsSpace.FullDisk`. Along runs it
  matters to that file alone: `WfsRuns.RunTape` and `WfsRuns.RunClean`. A write of no bytes beyond the end still raises
  the size: `WfsSpace.ZeroWrite`.
- The writers' semaphore of the reader-writer lock is not binary: `RwLock.SemaphoreBoundedIff`.
- `brelse` lets a holder release changed data that was neither logged nor written, and such a store can be lost:
  `BufferCache.StepInv` and `BufferCache.UnloggedStoreLost`. Runs of the cache are therefore proved for holders that do not.
- A killed pipe writer can leave readers asleep beside unread bytes: `PipeBuffer.ReadersStep` and
  `PipeBuffer.KilledWriter`.
- The child of a fork does not always run before its parent: `ProcRuns.ForkPreference` and `ProcRuns.ForkDecision` say
  when, with the part that `skip_target` plays. Under STCF there is no preemption, so nothing is claimed about the process
  that is running, only about each decision.
- Threads that share a page directory keep separate sizes, so `sbrk` can meet a mapped page and `fork` a missing one, and
  both panic; so does a `fork` after a shrink to nothing: `PagePanics.StepPanicsIff`, `PageOwn.OwnStep` and
  `PageBoot.BootPanics`.
- `kill` looks at pids alone and `allocproc` does not clear the flag it sets, so a process can start out killed:
  `ProcKills.StartsKilled` and `ProcKills.KillZero`.
- `malloc` of nearly 2^32 bytes wraps, and so does the argument of `sbrk` from 2^28 units on: `KrArena.UnitsSuffice`,
  `KrArena.SbrkArgExact` and `KrArena.EnteredIsGranted`.
- The shell's `>>` is parsed exactly like `>`: `ShArrows.DoubleIsSingle`.

`dafny verify dfyconfig.toml` checks the whole project.

## Model

| member | source | states |
|---|---|---|
| `LogDisk.HeaderCommits` | 03-xv6-stcf-scheduler/log.c:100-113 | Overwriting the one header block turns what recovery would deliver from the old contents into exactly the cache's view, provided the listed buffers are in the log blocks and every dirty buffer is listed |
| `LogDisk.CopyKeepsLogical` | 03-xv6-stcf-scheduler/log.c:176-190 | Filling a log block while the header is erased does not change what recovery would deliver |
| `LogDisk.InstallKeepsLogical` | 03-xv6-stcf-scheduler/log.c:69-82 | Writing one logged block home changes nothing that recovery would deliver; this is where the logged numbers must be distinct and outside the log region |
| `LogDisk.EraseKeepsLogical` | 03-xv6-stcf-scheduler/log.c:69-82 | Once everything is home, erasing the header leaves home blocks equal to what recovery would have delivered |
| `LogMachine.StepRefines` | 03-xv6-stcf-scheduler/log.c:69-233 | Every step of the log (a begin, write or end, one block write of commit or recovery, a crash) keeps the invariant and is a step of a two-value atomic disk on which only the header write of a commit moves the durable value |
| `LogMachine.RecoveryStep` | 03-xv6-stcf-scheduler/log.c:115-122 | Every recovery step leaves the deliverable contents alone; the last one leaves them in the home blocks |
| `LogMachine.InitialIff` | 03-xv6-stcf-scheduler/log.c:115-122 | A machine about to boot from any disk with a sane header is where the runs below start: the invariant admits no other boot state |
| `LogMachine.RunInv` | 03-xv6-stcf-scheduler/log.c:125-233 | The invariant holds in every state of every run, crashes included |
| `LogTheorems.CrashAtomicity` | 03-xv6-stcf-scheduler/log.c:69-122 | Whatever crashes strike commit and the recoveries after it, the surviving contents are all old or all new, never a mix, and whether the header write happened decides which; when recovery completes they are in the home blocks |
| `LogTheorems.RecoveryIdempotent` | 03-xv6-stcf-scheduler/log.c:115-122 | A recovery interrupted and restarted any number of times never changes what it will deliver |
| `LogTheorems.RecoveryTerminates` | 03-xv6-stcf-scheduler/log.c:115-122 | An undisturbed recovery completes after exactly as many steps as counted, with the contents home |
| `LogTheorems.DurableTransactions` | 03-xv6-stcf-scheduler/log.c:125-233 | In every run from boot the durable disk is the boot disk with exactly the writes of committed transactions applied in order, readers see the pending writes on top, and no operation is active while blocks are copied |
| `LogTheorems.OperationsAtomic` | 03-xv6-stcf-scheduler/log.c:125-233 | Every write belongs to the operation that made it, and in every run, crashes included, the writes of one operation are all durable, all undecided or all lost; the durable and undecided ones are those that DurableTransactions replays |
| `LogTheorems.GroupCommit` | 03-xv6-stcf-scheduler/log.c:125-174 | If every operation adds at most MAXOPBLOCKS blocks, then in every run the logged numbers are distinct home blocks, no operation is active during a commit, and logged blocks plus unused reservations fit LOGSIZE |
| `LogTheorems.RoomyNeverTooBig` | 03-xv6-stcf-scheduler/log.c:218-219 | With more than LOGSIZE log blocks the size panic cannot meet a within-budget write of a new block |
| `LogTheorems.TightLogPanics` | 03-xv6-stcf-scheduler/log.c:218-219 | With at most LOGSIZE log blocks, a concrete within-budget run that meets the panic on a new block |
| `LogTheorems.PanicReachableIff` | 03-xv6-stcf-scheduler/mkfs.c:25 | Within-budget operations can meet the size panic on a new block if and only if the log has at most LOGSIZE blocks, header included, which is the size mkfs gives it |
| `LogTheorems.AbsorbedPanicIff` | 03-xv6-stcf-scheduler/log.c:218-227 | The size panic can also meet a write of a block that is already logged, for every log that can hold a block: the guard runs before the absorption scan |
| `LogTheorems.FullLogPanics` | 03-xv6-stcf-scheduler/log.c:218-227 | The run that shows it |
| `LogDevice.Log.WriteLog` | 03-xv6-stcf-scheduler/log.c:176-190 | write_log copies every listed buffer; home blocks stay and each disk on the way still recovers to the old contents |
| `LogDevice.Log.WriteHead` | 03-xv6-stcf-scheduler/log.c:100-113 | The word-by-word fill and the one block write leave a header that announces exactly the in-memory list, and every other block as it was |
| `LogDevice.Log.ReadHead` | 03-xv6-stcf-scheduler/log.c:84-96 | read_head loads exactly the list the disk announces |
| `LogDevice.Log.InstallTrans` | 03-xv6-stcf-scheduler/log.c:69-82 | install_trans brings every logged block home and cleans its buffer; each disk on the way recovers to the same contents |
| `LogDevice.Log.InstallAndErase` | 03-xv6-stcf-scheduler/log.c:69-122 | After install and erase the home blocks are what the log promised, all buffers are clean, and each disk on the way recovers to the same contents |
| `LogDevice.Log.RecoverFromLog` | 03-xv6-stcf-scheduler/log.c:115-122 | recover_from_log leaves the promised contents in the home blocks and an erased header; power may fail between any two of its writes |
| `LogDevice.Log.WriteLogAndHead` | 03-xv6-stcf-scheduler/log.c:195-197 | The first half of commit: before the header write every disk recovers to the old contents, after it to the view |
| `LogDevice.Log.Commit` | 03-xv6-stcf-scheduler/log.c:192-202 | commit: the sequence of disks it writes splits at the header write into disks that recover to the old home blocks and disks that recover to the cache's view, and afterwards the home blocks are that view |
| `LogDevice.Log.BeginOp` | 03-xv6-stcf-scheduler/log.c:125-142 | begin_op admits an operation exactly when no commit runs and its whole reservation fits |
| `LogDevice.Log.EndOp` | 03-xv6-stcf-scheduler/log.c:145-174 | end_op never changes what readers see; the last one out makes all of it durable and empties the log, any other leaves disk and log alone; it panics exactly when a commit is running |
| `LogDevice.Log.Record` | 03-xv6-stcf-scheduler/log.c:223-231 | The list absorbs a block it has and appends one it lacks, and stays in step with the pinned dirty buffers |
| `LogDevice.Log.LogWrite` | 03-xv6-stcf-scheduler/log.c:213-233 | log_write changes one block of the view and no other; when it panics nothing changed |
| `BufferRing.Inverse` | 03-xv6-stcf-scheduler/bio.c:39-56 | next and prev are inverse on the whole ring |
| `BufferRing.Unlink` | 03-xv6-stcf-scheduler/bio.c:132-133 | The two assignments that unlink a buffer leave a ring of the others in the same order |
| `BufferRing.Push` | 03-xv6-stcf-scheduler/bio.c:134-137 | The four assignments that link a buffer behind the head leave a ring with it in front |
| `BufferCache.Bcache.constructor` | 03-xv6-stcf-scheduler/bio.c:39-56 | binit puts every buffer into the ring exactly once, the last one in front |
| `BufferCache.Bcache.Bget` | 03-xv6-stcf-scheduler/bio.c:61-93 | The two pointer scans find the buffer the list order says: the cached one, else the last idle clean one |
| `BufferCache.Bcache.Deref` | 03-xv6-stcf-scheduler/bio.c:120-141 | A release that drops the last reference moves the buffer to the front and keeps the rest in order |
| `BufferCache.ScanGives` | 03-xv6-stcf-scheduler/bio.c:61-93 | bget returns a buffer for the wanted block; one already caching it is only counted, one that is recycled was unreferenced and clean, and no other buffer cached the block |
| `BufferCache.Recycles` | 03-xv6-stcf-scheduler/bio.c:61-93 | The recycled buffer is the least recently released among the idle clean ones, and bget panics if and only if the block is not cached and there is none |
| `BufferCache.StepInv` | 03-xv6-stcf-scheduler/bio.c:61-141 | A step keeps the invariant (each buffer once in the ring in order of release, no block in two buffers, clean unheld buffers equal to the disk) if and only if it is not a brelse of changed data that was neither logged nor written |
| `BufferCache.StepView` | 03-xv6-stcf-scheduler/memide.c:38-60 | No step but such a release changes the content of a block seen through the cache except a store by the holder, which sets its block; a fetched buffer shows the content of its block |
| `BufferCache.RunInv` | 03-xv6-stcf-scheduler/bio.c:39-141 | The cache invariant in every state of every run without such a release |
| `BufferCache.RunView` | 03-xv6-stcf-scheduler/bio.c:96-116 | The cache refines a plain block map: in every run without such a release each block reads as the last value stored into it |
| `BufferCache.LossyRun` | 03-xv6-stcf-scheduler/bio.c:61-141 | A run from a fresh cache with such a release |
| `BufferCache.UnloggedStoreLost` | 03-xv6-stcf-scheduler/bio.c:120-141 | In it the last store to a block is lost: brelse allows what the refinement needs ruled out |
| `WritePath.BmapLogs` | 03-xv6-stcf-scheduler/fs.c:372-400 | bmap logs at most the new block, one bitmap block per allocation and the indirect block, and changes only the entry asked for |
| `WritePath.LoopChain` | 03-xv6-stcf-scheduler/fs.c:497-504 | writei's loop is a chain of single-block turns on exactly the blocks the range touches |
| `WritePath.ChainLogs` | 03-xv6-stcf-scheduler/fs.c:497-504 | A chain logs one data block per turn, a bitmap block per missing block, and perhaps one more for the indirect block |
| `WritePath.ChunkBlocks` | 03-xv6-stcf-scheduler/file.c:133-138 | Touched plus missing blocks of one chunk are at most seven: an unaligned chunk starts in a block that exists |
| `WritePath.LoopFits` | 03-xv6-stcf-scheduler/fs.c:481-511 | The loop of a chunk logs at most nine blocks and leaves no hole |
| `WritePath.ChunkFits` | 03-xv6-stcf-scheduler/fs.c:481-511 | Every chunk of filewrite logs at most MAXOPBLOCKS distinct blocks whatever the number of bitmap blocks, keeps the file free of holes, and writes all of its bytes or none |
| `WritePath.Tight` | 03-xv6-stcf-scheduler/file.c:133-138 | The bound is reached: a concrete chunk that logs exactly ten blocks |
| `WritePath.FileT.AllocBlock` | 03-xv6-stcf-scheduler/fs.c:56-78 | balloc takes the first clear bit and logs its bitmap block and the zeroed block; full disk panics |
| `WritePath.FileT.MapBlock` | 03-xv6-stcf-scheduler/fs.c:372-400 | bmap as the specification that BmapLogs is about |
| `WritePath.FileT.WriteBlocks` | 03-xv6-stcf-scheduler/fs.c:497-504 | The in-place loop computes the specified chain, or panics exactly when that runs out of blocks |
| `WritePath.FileT.WriteInode` | 03-xv6-stcf-scheduler/fs.c:481-511 | writei with its range checks on 32-bit values |
| `WritePath.FileT.WriteChunk` | 03-xv6-stcf-scheduler/file.c:136-151 | One transaction: at most MAXOPBLOCKS blocks, all of the chunk or nothing, offset and size move together |
| `WritePath.FileT.FileWrite` | 03-xv6-stcf-scheduler/file.c:117-156 | filewrite succeeds exactly on a range that starts within the file and ends within the largest file, every transaction it makes fits MAXOPBLOCKS, and no hole appears |
| `WfsNames.OnePath` | 01-fuse-filesystem-wfs/wfs.c:510-551 | No inode is reached by two paths |
| `WfsNames.ExactlyOneEntry` | 01-fuse-filesystem-wfs/wfs.c:395-551 | Every allocated inode but the root is named by exactly one live entry |
| `WfsNames.CreateTree` | 01-fuse-filesystem-wfs/wfs.c:581-673 | Adding a leaf keeps the namespace a tree with right link counts |
| `WfsNames.CreateResolve` | 01-fuse-filesystem-wfs/wfs.c:581-673 | Adding a leaf changes the resolution of exactly one path |
| `WfsNames.RemoveTree` | 01-fuse-filesystem-wfs/wfs.c:829-1008 | Removing a leaf keeps the namespace a tree with right link counts |
| `WfsNames.RemoveResolve` | 01-fuse-filesystem-wfs/wfs.c:829-1008 | Removing a leaf changes the resolution of exactly one path |
| `WfsNames.SameEntry` | 01-fuse-filesystem-wfs/wfs.c:476-504 | Removing by inode number hits the very entry that was found by name |
| `WfsNames.CutOrphans` | 01-fuse-filesystem-wfs/wfs.c:948-970 | Cutting off a directory that still has a live entry always breaks the tree |
| `WfsBlocks.AttachOwnership` | 01-fuse-filesystem-wfs/wfs.c:269-283 | Taking a free block for an empty pointer keeps: a data bit is set exactly when one pointer of one allocated inode leads to its block |
| `WfsBlocks.AttachKeepsNs` | 01-fuse-filesystem-wfs/wfs.c:316-375 | Growing a file or directory by a block changes no name |
| `WfsBlocks.ReleaseOwnership` | 01-fuse-filesystem-wfs/wfs.c:877-901 | Giving up all blocks of an inode keeps the ownership of all others |
| `WfsBlocks.ReleaseEntry` | 01-fuse-filesystem-wfs/wfs.c:877-901 | and leaves every other directory's entries alone |
| `WfsBlocks.SetDentNs` | 01-fuse-filesystem-wfs/wfs.c:426-472 | Writing one slot changes one entry of one directory |
| `WfsOps.LocateIsResolve` | 01-fuse-filesystem-wfs/wfs.c:510-551 | The path walk over blocks reaches an inode if and only if the path resolves in the abstract tree, and then the same one |
| `WfsOps.LocateErrors` | 01-fuse-filesystem-wfs/wfs.c:510-551 | Otherwise it answers ENOTDIR if and only if the path goes through something that is not a directory, else ENOENT |
| `WfsOps.CreateInAbstract` | 01-fuse-filesystem-wfs/wfs.c:581-673 | A successful mknod or mkdir is the abstract addition of one leaf at the first free slot; a failed one has undone everything |
| `WfsOps.UnlinkAbstract` | 01-fuse-filesystem-wfs/wfs.c:829-908 | A successful unlink cuts the file its path names; a failed one changes nothing |
| `WfsOps.RmDirAbstract` | 01-fuse-filesystem-wfs/wfs.c:911-1008 | A successful rmdir cuts the directory its path names, which looked empty; a failed one changes nothing |
| `WfsOps.NotSelf` | 01-fuse-filesystem-wfs/wfs.c:911-1008 | No directory contains itself |
| `WfsFiles.EnsureGrows` | 01-fuse-filesystem-wfs/wfs.c:316-375 | data_offset with allocation moves no name, no size and no byte of any file, and the block it returns is the one the file block maps to |
| `WfsFiles.ChunkWrote` | 01-fuse-filesystem-wfs/wfs.c:717-751 | One turn of the write loop stores its chunk and touches no other byte of any file |
| `WfsFiles.LoopWrote` | 01-fuse-filesystem-wfs/wfs.c:729-741 | The whole write loop, however far it gets, stores a prefix of the buffer and changes no other byte of any file, no size and no name |
| `WfsFiles.WriteRefinesFlat` | 01-fuse-filesystem-wfs/wfs.c:717-751 | A write that succeeds is an overlay of a flat byte array, extended with zeros, when nothing lay stored beyond the size; every other file keeps its bytes and the tree its names |
| `WfsFiles.ReadBack` | 01-fuse-filesystem-wfs/wfs.c:676-751 | What a successful write stored reads back, across direct and indirect blocks |
| `WfsFiles.ReadIsSlice` | 01-fuse-filesystem-wfs/wfs.c:676-714 | A read delivers exactly the slice of the flat file that the range covers |
| `WfsSpace.EnsureSpace` | 01-fuse-filesystem-wfs/wfs.c:316-375 | data_offset with allocation succeeds if and only if the free blocks cover what the block costs (itself and the indirect block where missing), and takes just those |
| `WfsSpace.LoopStored` | 01-fuse-filesystem-wfs/wfs.c:729-741 | How many bytes the write loop stores, computed from the image before the call |
| `WfsSpace.WriteOkIff` | 01-fuse-filesystem-wfs/wfs.c:717-751 | A write succeeds if and only if the last block is within the largest file and the missing blocks of the range, with the indirect block if needed, do not outnumber the free ones; otherwise it answers ENOSPC |
| `WfsSpace.FailedWrite` | 01-fuse-filesystem-wfs/wfs.c:733-741 | A write leaves nothing nonzero beyond the size if and only if there was space for all of it or the part there was space for is zero there; a write cut short keeps the size and exactly that part |
| `WfsSpace.Exposed` | 01-fuse-filesystem-wfs/wfs.c:717-751 | A nonzero byte left beyond the size becomes readable as soon as a later write extends the file past it, where a flat file would read zero |
| `WfsSpace.ZeroWrite` | 01-fuse-filesystem-wfs/wfs.c:717-751 | A write of no bytes beyond the end raises the size and nothing else |
| `WfsSpace.FullDisk` | 01-fuse-filesystem-wfs/wfs.c:733-741 | A new file on any disk with few free blocks: a write that is one byte too long is refused, and the next small write makes a byte of it readable |
| `WfsSpace.FreshFile` | 01-fuse-filesystem-wfs/mkfs.c:43-130 | Such a disk is one mknod away from a fresh image |
| `WfsTheorems.CreateKeeps` | 01-fuse-filesystem-wfs/wfs.c:581-673 | Creation keeps the whole invariant; on failure the image is unchanged, on success exactly one more path resolves, to the new inode |
| `WfsTheorems.UnlinkKeeps` | 01-fuse-filesystem-wfs/wfs.c:829-908 | Unlink keeps the invariant, returns exactly the victim's blocks and inode, and exactly its path stops resolving |
| `WfsTheorems.RmDirKeeps` | 01-fuse-filesystem-wfs/wfs.c:911-1008 | After a successful rmdir the invariant holds if and only if the directory had no live entry at all; rmdir itself ignores entries called "." and ".." |
| `WfsTheorems.RmDirExact` | 01-fuse-filesystem-wfs/wfs.c:948-970 | The if-and-only-if behind it |
| `WfsTheorems.CreateOkIff` | 01-fuse-filesystem-wfs/wfs.c:581-673 | Creation succeeds if and only if the path is new, its parent is a directory with a free slot and a block for it, the name is neither empty nor too long, and an inode is free |
| `WfsTheorems.UnlinkOkIff` | 01-fuse-filesystem-wfs/wfs.c:829-908 | Unlink succeeds if and only if the path names a file and does not end in "." or ".." |
| `WfsTheorems.RmDirOkIff` | 01-fuse-filesystem-wfs/wfs.c:911-1008 | Rmdir succeeds if and only if the path names a directory other than the root whose live entries are all called "." or ".." |
| `WfsTheorems.DotBreaks` | 01-fuse-filesystem-wfs/wfs.c:948-970 | A file called "." created in an empty directory always makes rmdir accept the directory and break the tree |
| `WfsTheorems.NoDotsEmpty` | 01-fuse-filesystem-wfs/wfs.c:948-970 | Without "." and ".." entries the scan accepts only really empty directories |
| `WfsTheorems.CreateBytes` | 01-fuse-filesystem-wfs/wfs.c:581-673 | Creation leaves every file's bytes alone; a new file is empty and clean |
| `WfsTheorems.DropBytes` | 01-fuse-filesystem-wfs/wfs.c:877-901 | Unlink and rmdir leave every other file's bytes alone |
| `WfsTheorems.NextHealthy` | 01-fuse-filesystem-wfs/wfs.c:581-1008 | Every operation with its real outcome, a write that runs out of space included, keeps tree, link counts and block ownership |
| `WfsTheorems.RunHealthy` | 01-fuse-filesystem-wfs/wfs.c:581-1008 | So they hold in every state of every run |
| `WfsDevice.AllocateBlock` | 01-fuse-filesystem-wfs/wfs.c:227-241 | The word-by-word bitmap scan finds the first clear bit, or -1 when there is none |
| `WfsDevice.Wfs.AllocateDataBlock` | 01-fuse-filesystem-wfs/wfs.c:269-283 | Marks and zeroes the first free block, or changes nothing |
| `WfsDevice.Wfs.DentryToNum` | 01-fuse-filesystem-wfs/wfs.c:395-421 | The scan bounded by the directory size finds the first live entry of that name |
| `WfsDevice.Wfs.GetInode` | 01-fuse-filesystem-wfs/wfs.c:510-551 | The component loop computes the recursive path walk, errors included |
| `WfsDevice.Wfs.AddDentry` | 01-fuse-filesystem-wfs/wfs.c:426-472 | The entry goes to the first slot that is not live, growing size and blocks as needed; on failure nothing changed |
| `WfsDevice.Wfs.RemoveDentry` | 01-fuse-filesystem-wfs/wfs.c:476-504 | Clears the first slot with the number, or reports ENOENT and changes nothing |
| `WfsDevice.Wfs.Create` | 01-fuse-filesystem-wfs/wfs.c:581-673 | mknod and mkdir in place compute the specified image and result, the undo on failure included |
| `WfsDevice.Wfs.MakeInode` | 01-fuse-filesystem-wfs/wfs.c:609-626 | When add_dentry fails, bitmap, inode and the parent's link count are as before |
| `WfsDevice.Wfs.FreeBlock` | 01-fuse-filesystem-wfs/wfs.c:298-311 | The offset of a data block frees that block and zeroes it; an offset below the data region, inside a block or past the last one changes nothing |
| `WfsDevice.Wfs.ReleaseInode` | 01-fuse-filesystem-wfs/wfs.c:877-901 | The sweep over direct pointers, indirect entries, indirect block and inode frees exactly what the inode owned |
| `WfsDevice.Wfs.Unlink` | 01-fuse-filesystem-wfs/wfs.c:829-908 | wfs_unlink in place computes the specified image and result |
| `WfsDevice.Wfs.RmDir` | 01-fuse-filesystem-wfs/wfs.c:911-1008 | wfs_rmdir in place computes the specified image and result |
| `WfsDevice.Wfs.IsEmpty` | 01-fuse-filesystem-wfs/wfs.c:948-970 | The scan by size sees every live entry but those called "." and ".." |
| `WfsDevice.Wfs.DataOffsetAlloc` | 01-fuse-filesystem-wfs/wfs.c:316-375 | data_offset with allocation, including the indirect block allocated just before a failure |
| `WfsDevice.Wfs.DataOffset` | 01-fuse-filesystem-wfs/wfs.c:316-375 | data_offset without allocation |
| `WfsDevice.Wfs.ReadAt` | 01-fuse-filesystem-wfs/wfs.c:676-714 | The read loop delivers the bytes of the range, zeros for missing blocks |
| `WfsDevice.Wfs.CopyIn` | 01-fuse-filesystem-wfs/wfs.c:729-741 | The in-place write loop leaves the image and the byte count of the specified loop, wherever it stops |
| `WfsDevice.Wfs.WriteAt` | 01-fuse-filesystem-wfs/wfs.c:717-751 | wfs_write in place computes the specified image and result, the part kept by a failed write included |
| `WfsDevice.Wfs.Write` | 01-fuse-filesystem-wfs/wfs.c:717-751 | wfs_write from the path on computes the specified image and result, all error cases included |
| `WfsDevice.Wfs.Read` | 01-fuse-filesystem-wfs/wfs.c:676-714 | wfs_read from the path on, all error cases included |
| `WfsImage.RoundUp` | 01-fuse-filesystem-wfs/mkfs.c:12-14 | The least multiple not below the number |
| `WfsImage.LayoutDisjoint` | 01-fuse-filesystem-wfs/mkfs.c:17-40 | Superblock, bitmap bits, inodes and blocks occupy disjoint bits inside any image that passed the fit test |
| `WfsImage.OffsetRoundTrip` | 01-fuse-filesystem-wfs/wfs.c:269-311 | free_block accepts exactly the offsets that allocate_data_block hands out |
| `WfsImage.FormattedHealthy` | 01-fuse-filesystem-wfs/mkfs.c:43-130 | A fresh image satisfies every invariant |
| `WfsImage.CountFree` | 01-fuse-filesystem-wfs/wfs.c:1013-1042 | The counting loop returns the number of clear bits |
| `WfsImage.FreeIsTheRest` | 01-fuse-filesystem-wfs/wfs.c:1013-1042 | The free count is the number of blocks less the number of pointers that inodes hold |
| `WfsRuns.RunTape` | 01-fuse-filesystem-wfs/wfs.c:581-1008 | In every run every file holds exactly what its own history says: nothing since its creation but the parts of the writes to it that there was space for, those beyond the size included; what happens to other files does not matter |
| `WfsRuns.HarmlessIff` | 01-fuse-filesystem-wfs/wfs.c:717-751 | One operation leaves a file with nothing stored beyond its size if and only if it is not a write to that file that runs out of space after nonzero bytes beyond the size, as the image before it tells |
| `WfsRuns.RunClean` | 01-fuse-filesystem-wfs/wfs.c:717-751 | A file to which every operation since its creation was harmless in that sense has nothing stored beyond its size and reads as the overlay of the writes to it, with zeros in the gaps, whatever failed on other files |
| `WfsRuns.FreshRun` | 01-fuse-filesystem-wfs/mkfs.c:43-130 | From a fresh image on: every state of every run is healthy, every file holds what its history says, and is the flat file its writes made if they were harmless to it |
| `KrPool.Disjoint` | 03-xv6-stcf-scheduler/umalloc.c:24-90 | Blocks, free or live, never overlap |
| `KrPool.ReleasedInv` | 03-xv6-stcf-scheduler/umalloc.c:24-44 | Freeing keeps the list sorted with gaps between all free blocks and loses no unit; other live blocks stay |
| `KrPool.HandedInv` | 03-xv6-stcf-scheduler/umalloc.c:63-90 | Handing out keeps the same and yields a new live block of exactly the size asked for |
| `KrArena.UnitsSuffice` | 03-xv6-stcf-scheduler/umalloc.c:69 | The rounded size holds the request if and only if the 32-bit sum did not wrap, and is the least that does |
| `KrArena.SbrkArgExact` | 03-xv6-stcf-scheduler/umalloc.c:46-61 | The signed argument of sbrk is the byte count if and only if the units are below 2^28 |
| `KrArena.AfterFreeInv` | 03-xv6-stcf-scheduler/umalloc.c:24-44 | A freed block ends up in the list, joined with every neighbour it touches |
| `KrArena.FreeOk` | 03-xv6-stcf-scheduler/umalloc.c:24-44 | free of any live block keeps the arena in order, gives up that block alone and conserves every unit |
| `KrArena.GrowOk` | 03-xv6-stcf-scheduler/umalloc.c:46-61 | morecore keeps the arena in order, adds exactly the chunk, and afterwards some free block has its size |
| `KrArena.FullTurn` | 03-xv6-stcf-scheduler/umalloc.c:74-89 | One turn of the ring finds a block if and only if there is one large enough |
| `KrArena.HandOk` | 03-xv6-stcf-scheduler/umalloc.c:75-84 | Once something fits, one new live block of exactly the size asked for; the rest stays |
| `KrArena.MallocMeans` | 03-xv6-stcf-scheduler/umalloc.c:63-90 | A request fails if and only if no free block is large enough and sbrk fails, and then changes no block; otherwise there is one new live block of the size asked for, the old ones keep address and size, and sbrk was asked exactly when nothing fitted |
| `KrArena.StepMeans` | 03-xv6-stcf-scheduler/umalloc.c:24-90 | What one call does to the units in blocks and to the set of live blocks |
| `KrArena.EnteredIsGranted` | 03-xv6-stcf-scheduler/umalloc.c:46-61 | morecore enters into the list what sbrk granted, no more, if and only if the argument of sbrk did not wrap |
| `KrArena.RunKeeps` | 03-xv6-stcf-scheduler/umalloc.c:24-90 | In every run of malloc and free the list is sorted with gaps and without overlaps, the live blocks are those handed out and not freed, and the units in blocks are those morecore entered; they are exactly those sbrk granted if and only if no request needed 2^28 units or more |
| `KrAlloc.Heap.constructor` | 03-xv6-stcf-scheduler/umalloc.c:70-73 | An arena with no block in it, before the first call |
| `KrAlloc.Heap.Free` | 03-xv6-stcf-scheduler/umalloc.c:24-44 | free in place computes the specified arena |
| `KrAlloc.Heap.Insert` | 03-xv6-stcf-scheduler/umalloc.c:24-44 | The pointers and sizes afterwards spell the abstract list |
| `KrAlloc.Heap.Locate` | 03-xv6-stcf-scheduler/umalloc.c:30-32 | The circular walk from freep ends at the last free block below the freed one |
| `KrAlloc.Heap.Morecore` | 03-xv6-stcf-scheduler/umalloc.c:46-61 | morecore in place computes the specified arena, or changes nothing when sbrk fails |
| `KrAlloc.Heap.Search` | 03-xv6-stcf-scheduler/umalloc.c:74-87 | One turn stops at the first fit from freep, or back at freep when nothing fits |
| `KrAlloc.Heap.Grab` | 03-xv6-stcf-scheduler/umalloc.c:75-84 | The exact fit leaves the list, a larger block loses its tail |
| `KrAlloc.Heap.Malloc` | 03-xv6-stcf-scheduler/umalloc.c:63-90 | malloc in place, for every 32-bit size, computes the specified arena and address after at most one morecore |
| `RwLock.StepInv` | 04-threading-concurrency-primitives/src/readers_writers.c:33-139 | Every atomic step of any thread keeps the counts in agreement with the threads and loses no wakeup: with the lock free and a writer waiting, the semaphore is positive or a writer is on its way to recheck |
| `RwLock.RunInv` | 04-threading-concurrency-primitives/src/readers_writers.c:33-139 | In every state of every interleaving of any number of threads |
| `RwLock.MutualExclusion` | 04-threading-concurrency-primitives/src/readers_writers.c:33-139 | Never two writers, never a reader beside a writer |
| `RwLock.WriterPriority` | 04-threading-concurrency-primitives/src/readers_writers.c:33-53 | While a writer waits no reader enters |
| `RwLock.WriterGetsIn` | 04-threading-concurrency-primitives/src/readers_writers.c:88-115 | With the lock free and a writer waiting, two steps of one waiting writer bring it in |
| `RwLock.NoDeadlock` | 04-threading-concurrency-primitives/src/readers_writers.c:33-139 | Whenever a writer waits, a thread can take a step that is not a reader's failed retry |
| `RwLock.SemaphoreGrows` | 04-threading-concurrency-primitives/src/readers_writers.c:88-139 | With two threads or more the count of the writers' semaphore can reach any number |
| `RwLock.SemaphoreBoundedIff` | 04-threading-concurrency-primitives/src/readers_writers.c:88-139 | It stays below some bound in all runs if and only if there is at most one thread |
| `RwLock.RwLockT.constructor` | 04-threading-concurrency-primitives/src/sync_utils.c:28-54 | A free lock with nobody waiting |
| `RwLock.RwLockT.RLockTurn` | 04-threading-concurrency-primitives/src/readers_writers.c:33-53 | One turn of rw_rlock as the step of the protocol |
| `RwLock.RwLockT.RUnlock` | 04-threading-concurrency-primitives/src/readers_writers.c:63-75 | rw_runlock posts exactly when the last reader leaves a waiting writer behind |
| `RwLock.RwLockT.WLockEnter` | 04-threading-concurrency-primitives/src/readers_writers.c:88-115 | rw_wlock up to its first park |
| `RwLock.RwLockT.WLockRecheck` | 04-threading-concurrency-primitives/src/readers_writers.c:88-115 | rw_wlock after a wakeup |
| `RwLock.RwLockT.WUnlock` | 04-threading-concurrency-primitives/src/readers_writers.c:125-139 | rw_wunlock posts exactly when a writer waits |
| `BoundedBuffer.StepInv` | 04-threading-concurrency-primitives/src/sync_utils.c:158-210 | Every step keeps both semaphore counts plus in-flight threads equal to free and occupied slots |
| `BoundedBuffer.RunInv` | 04-threading-concurrency-primitives/src/sync_utils.c:158-210 | In every run of any number of producers and consumers the trays taken are a prefix of the trays put |
| `BoundedBuffer.NoOverwrite` | 04-threading-concurrency-primitives/src/sync_utils.c:158-182 | A store never hits a slot whose tray was not taken |
| `BoundedBuffer.BlockedMeans` | 04-threading-concurrency-primitives/src/sync_utils.c:158-210 | With nobody in between, a blocked producer means a full buffer and a blocked consumer an empty one |
| `BoundedBuffer.Queue.constructor` | 04-threading-concurrency-primitives/src/sync_utils.c:88-137 | bb_init with a positive capacity |
| `BoundedBuffer.Queue.Store` | 04-threading-concurrency-primitives/src/sync_utils.c:158-182 | The put region as the step of the protocol |
| `BoundedBuffer.Queue.Fetch` | 04-threading-concurrency-primitives/src/sync_utils.c:184-210 | The take region as the step of the protocol |
| `PipeBuffer.FillRing` | 03-xv6-stcf-scheduler/pipe.c:78-98 | A burst stores all of its bytes or as many as fit, across any wrap of the 32-bit counters |
| `PipeBuffer.DrainRing` | 03-xv6-stcf-scheduler/pipe.c:100-121 | A read returns the oldest unread bytes, as many as asked for or as there are |
| `PipeBuffer.StepInv` | 03-xv6-stcf-scheduler/pipe.c:59-121 | Sleeping writers face a full pipe with an open read end after every step, kills and closes included |
| `PipeBuffer.RunInv` | 03-xv6-stcf-scheduler/pipe.c:59-121 | In every run the bytes read are a prefix of the bytes stored, and the counters' difference modulo 2^32 is the number of unread bytes, at most 512 |
| `PipeBuffer.ReadersStep` | 03-xv6-stcf-scheduler/pipe.c:84-92 | Sleeping readers face an empty pipe after a step if and only if it is not the exit of a writer that stored bytes and leaves without waking them |
| `PipeBuffer.RunReaders` | 03-xv6-stcf-scheduler/pipe.c:78-121 | Over runs without such exits no sleeping reader misses a byte |
| `PipeBuffer.KilledRun` | 03-xv6-stcf-scheduler/pipe.c:78-121 | A run from an empty pipe to a killed writer beside a sleeping reader |
| `PipeBuffer.KilledWriter` | 03-xv6-stcf-scheduler/pipe.c:84-92 | Its next step is such an exit: 512 bytes are there, the write end is open, and the reader sleeps on |
| `PipeBuffer.PipeT.constructor` | 03-xv6-stcf-scheduler/pipe.c:33-36 | An empty pipe with both ends open |
| `PipeBuffer.PipeT.WriteBurst` | 03-xv6-stcf-scheduler/pipe.c:78-98 | The in-place loop of pipewrite up to sleep or return |
| `PipeBuffer.PipeT.ReadBurst` | 03-xv6-stcf-scheduler/pipe.c:100-121 | The in-place copy loop of piperead |
| `ShLex.NextToken` | 03-xv6-stcf-scheduler/sh.c:265-308 | gettoken delivers the token the scanner specification says and skips the white space after it |
| `ShLex.PeekFor` | 03-xv6-stcf-scheduler/sh.c:310-320 | peek skips white space and tests one character |
| `ShLex.LexTokens` | 03-xv6-stcf-scheduler/sh.c:265-308 | Tokens follow one another, and a word is a longest run of plain characters |
| `ShLex.LexCovers` | 03-xv6-stcf-scheduler/sh.c:265-308 | Every plain character is in a word |
| `ShLex.InStep` | 03-xv6-stcf-scheduler/sh.c:265-308 | Scanning on demand and scanning the whole line give the same tokens |
| `ShLex.PeekSees` | 03-xv6-stcf-scheduler/sh.c:310-320 | peek for symbols sees exactly the kind of the next token |
| `ShParse.ParseCmdWords` | 03-xv6-stcf-scheduler/sh.c:327-446 | In every accepted line the argument and file strings of the tree are exactly the words of the line, each once |
| `ShParse.ParseLineFits` | 03-xv6-stcf-scheduler/sh.c:415-446 | Accepted commands have at most nine arguments, so argv keeps its terminator |
| `ShParse.StringIsWord` | 03-xv6-stcf-scheduler/sh.c:415-446 | Every string of an accepted line is a whole word of it |
| `ShArrows.DoubleIsSingle` | 03-xv6-stcf-scheduler/sh.c:375-397 | Blanking out the second sign of any >> of a line changes neither whether it is accepted nor the command it parses to |
| `ShParse.NulTerminate` | 03-xv6-stcf-scheduler/sh.c:448-493 | The recursive walk zeroes exactly the ends of the strings of the tree |
| `ShParse.Terminated` | 03-xv6-stcf-scheduler/sh.c:448-493 | Only positions outside words are overwritten, and each pointer then reads as a C string equal to its word |
| `ShScan.ReadCmd` | 03-xv6-stcf-scheduler/sh.c:327-342 | The recursive parser that moves a character position with peek and gettoken accepts the lines that the parser over tokens accepts, and builds the same tree |
| `ShScan.ReadLine` | 03-xv6-stcf-scheduler/sh.c:344-358 | parseline on the character position, ampersands and semicolons included |
| `ShScan.ReadExec` | 03-xv6-stcf-scheduler/sh.c:415-446 | parseexec on the character position, its argument limit and redirections included |
| `ShRoundTrip.SpellingReads` | 03-xv6-stcf-scheduler/sh.c:344-446 | The spelling of any command within the limits, parentheses only where precedence needs them and words and redirections in their order on the line, parses back to the command with nothing left over |
| `ShImage.SpellingParses` | 03-xv6-stcf-scheduler/sh.c:344-446 | A command whose words leave room for its symbols is parsed, positions included, from a line that can be drawn for it |
| `ShThins.ParsedFits` | 03-xv6-stcf-scheduler/sh.c:344-446 | Whatever the parser builds from a line is within the limits and its words leave that room |
| `ShThins.ParserImage` | 03-xv6-stcf-scheduler/sh.c:344-446 | So the parser builds a command, positions included, from some line if and only if it is within the limits and has the room |
| `ShWords.RoundTrip` | 03-xv6-stcf-scheduler/sh.c:344-446 | Every tree of words within the limits is printed to a line that parses to a command saying exactly that tree |
| `ShWords.SpeakableIff` | 03-xv6-stcf-scheduler/sh.c:344-446 | The trees that some line says are exactly those of words without white space and symbols, at most nine a call, with files read as 0 or written as 1 |
| `ProcTable.Wakeup1` | 03-xv6-stcf-scheduler/proc.c:609-616 | Exactly the sleepers on the channel become runnable |
| `ProcTable.PassChildren` | 03-xv6-stcf-scheduler/proc.c:359-365 | All children go to init, and init is woken if one of them is a zombie |
| `ProcTable.ScanChildren` | 03-xv6-stcf-scheduler/proc.c:386-411 | The scan finds the first zombie child, or tells whether there is any child |
| `ProcTable.PickNext` | 03-xv6-stcf-scheduler/proc.c:433-472 | The two passes compute the specified choice |
| `ProcTable.ChargeExact` | 03-xv6-stcf-scheduler/proc.c:37-44 | Below 2^31 ticks the wrapped charge is the plain difference |
| `ProcTheorems.FamilyExit` | 03-xv6-stcf-scheduler/proc.c:330-374 | Exit leaves no child without a living parent and no waiting parent asleep beside a zombie |
| `ProcTheorems.FamilyWait` | 03-xv6-stcf-scheduler/proc.c:378-418 | Wait goes to sleep only without a zombie child |
| `ProcTheorems.FamilyStep` | 03-xv6-stcf-scheduler/proc.c:213-660 | Every step keeps: nobody sleeps in wait beside a zombie child, every parent is alive, and the processes without a parent are exactly init and the unused slots |
| `ProcRuns.PidsStep` | 03-xv6-stcf-scheduler/proc.c:98-149 | Pids stay unique and below the counter, and reaped ones never come back |
| `ProcRuns.SkipsStep` | 03-xv6-stcf-scheduler/sysproc.c:189-196 | While a process runs, skip_target is null or that process, and only skip_target has skip_once set |
| `ProcRuns.Decision` | 03-xv6-stcf-scheduler/proc.c:433-491 | Each decision takes the runnable process with the least time remaining, the higher pid on ties, among those other than skip_target whenever there is another, and then spends the skip; it idles exactly when nobody is runnable |
| `ProcRuns.RanksDecide` | 03-xv6-stcf-scheduler/proc.c:433-491 | The scheduler picks a process if and only if it is runnable and ranks ahead of every other runnable one, by skip_target first, then time remaining, then pid |
| `ProcRuns.SwitchTime` | 03-xv6-stcf-scheduler/proc.c:37-44 | Leaving the CPU charges the ticks since dispatch to the process that leaves, once, and to nobody else |
| `ProcRuns.TimeStep` | 03-xv6-stcf-scheduler/proc.c:213-616 | Every step keeps time remaining at or above 1 - ticks, so no signed subtraction overflows below 2^31 ticks |
| `ProcRuns.ForkPreference` | 03-xv6-stcf-scheduler/proc.c:247-258 | After a fork the child ranks ahead of its parent if and only if the parent is skip_target or was dispatched in this very tick, and the parent ahead of the child otherwise |
| `ProcRuns.ForkDecision` | 03-xv6-stcf-scheduler/proc.c:247-258 | The scheduler then runs the child if and only if the child ranks ahead and no other runnable process has less time remaining than the parent had |
| `ProcRuns.ForkAtOnce` | 03-xv6-stcf-scheduler/proc.c:247-258 | A run from boot in which the parent forks in the tick of its dispatch and the child is picked |
| `ProcRuns.ForkLater` | 03-xv6-stcf-scheduler/proc.c:247-258 | One in which it forks a tick later and the parent is picked |
| `ProcRuns.ForkSkipped` | 03-xv6-stcf-scheduler/sysproc.c:189-196 | One in which it forks a tick later but is still skip_target, and the child is picked |
| `ProcRuns.RunInv` | 03-xv6-stcf-scheduler/proc.c:213-660 | Family, pid and skip invariants in every state of every run on one CPU |
| `ProcRuns.RunTime` | 03-xv6-stcf-scheduler/proc.c:37-44 | The time accounts hold in every run of fewer than 2^31 ticks |
| `ProcRuns.ReapedOnce` | 03-xv6-stcf-scheduler/proc.c:378-418 | No two waits of a run return the same pid |
| `ProcKills.UnusedKilled` | 03-xv6-stcf-scheduler/proc.c:643-660 | In every run an unused slot is marked as killed if and only if a kill has found it by its pid since it became unused |
| `ProcKills.StartsKilled` | 03-xv6-stcf-scheduler/proc.c:98-118 | So a new process starts out killed if and only if a kill has hit its slot while nothing was in it: allocproc does not clear the flag |
| `ProcKills.KillZero` | 03-xv6-stcf-scheduler/proc.c:643-660 | A run from boot: kill(0), then a fork whose child is killed before it runs |
| `ProcKernel.Kernel.Leave` | 03-xv6-stcf-scheduler/proc.c:37-44 | Charge, new state and switch as the step of the machine |
| `ProcKernel.Kernel.Schedule` | 03-xv6-stcf-scheduler/proc.c:422-491 | One round of the scheduler as the step Decision is about |
| `ProcKernel.Kernel.YieldCpu` | 03-xv6-stcf-scheduler/proc.c:537-546 | yield |
| `ProcKernel.Kernel.GiveCpuAway` | 03-xv6-stcf-scheduler/sysproc.c:189-196 | give_cpu sets the skip and yields |
| `ProcKernel.Kernel.SetRemain` | 03-xv6-stcf-scheduler/sysproc.c:117-136 | remain refuses non-positive times, and otherwise sets the time remaining and yields exactly when it grew |
| `ProcKernel.Kernel.ForkChild` | 03-xv6-stcf-scheduler/proc.c:213-261 | fork: the child inherits the time remaining before the parent is charged; without memory or slot -1, the pid being used up in the first case |
| `ProcKernel.Kernel.CloneThread` | 03-xv6-stcf-scheduler/proc.c:266-325 | clone |
| `ProcKernel.Kernel.ExitCurrent` | 03-xv6-stcf-scheduler/proc.c:330-374 | exit up to the switch; for init it panics and changes nothing |
| `ProcKernel.Kernel.WaitTurn` | 03-xv6-stcf-scheduler/proc.c:378-418 | One turn of wait: a reaped pid, -1, or asleep |
| `ProcKernel.Kernel.KillPid` | 03-xv6-stcf-scheduler/proc.c:643-660 | kill flags the process of that pid and wakes it |
| `ProcKernel.Kernel.TimerTick` | 03-xv6-stcf-scheduler/trap.c:50-58 | A tick advances time and wakes timed sleepers |
| `PagePool.TakeFree` | 03-xv6-stcf-scheduler/kalloc.c:82-95 | A page from kalloc was owned by nobody |
| `PagePool.GiveFree` | 03-xv6-stcf-scheduler/kalloc.c:59-77 | A freed page is on the list once |
| `PagePool.MapUserInv` | 03-xv6-stcf-scheduler/vm.c:84-104 | Mapping a page in hand keeps: each page is free once or owned by one position |
| `PagePool.UnmapInv` | 03-xv6-stcf-scheduler/vm.c:282-306 | Unmapping frees exactly the page that was mapped |
| `PagePool.DropTableInv` | 03-xv6-stcf-scheduler/vm.c:310-337 | Freeing a table without user entries keeps the ownership of every page |
| `PageOps.DeallocCuts` | 03-xv6-stcf-scheduler/vm.c:282-306 | deallocuvm removes exactly the entries between the two sizes and frees their pages, whatever tables are missing; no other entry and no other directory changes |
| `PageOps.FreeDirFrees` | 03-xv6-stcf-scheduler/vm.c:310-337 | The free pages after a directory is freed are those before and its own page, tables and user pages, no more and no fewer |
| `PageOps.MapOneNot` | 03-xv6-stcf-scheduler/vm.c:59-104 | Adding a page: it goes through, fails for want of a page, fails for want of a table with a page in hand, or panics, each if and only if the state says so |
| `PageOps.AllocMeans` | 03-xv6-stcf-scheduler/vm.c:248-276 | allocuvm: on success exactly the range is added, on zeroed pages; on failure the whole range is unmapped, so nothing changed if nothing in it was mapped |
| `PageOps.SetupOkIff` | 03-xv6-stcf-scheduler/vm.c:142-160 | setupkvm succeeds if and only if there is a free page for the directory and each table of the kernel part, and takes just those |
| `PageOps.SetupFresh` | 03-xv6-stcf-scheduler/vm.c:142-160 | The new directory has exactly the kernel pages, each with its physical page and permissions, and no other entry, and nothing outside it changed |
| `PageOps.SetupFails` | 03-xv6-stcf-scheduler/vm.c:142-160 | On failure every directory, entry, owner and page content is as before, and the free set too |
| `PageOps.CopyMeans` | 03-xv6-stcf-scheduler/vm.c:354-384 | copyuvm: on success a copy of every page, with its flags and contents, in pages that were free, and nothing else changed |
| `PageOps.CopyKeys` | 03-xv6-stcf-scheduler/vm.c:354-384 | The user part of the copy has exactly the pages below the size, its kernel part those of setupkvm |
| `PageOps.CopyFails` | 03-xv6-stcf-scheduler/vm.c:354-384 | On failure everything is as before, the free set included |
| `PageNeeds.AllocIff` | 03-xv6-stcf-scheduler/vm.c:248-276 | allocuvm returns the new size if and only if nothing in the range is mapped and the free pages cover the range and its missing tables; it panics if and only if they cover the way to a mapped page and one more |
| `PageNeeds.CopyIff` | 03-xv6-stcf-scheduler/vm.c:354-384 | copyuvm returns a directory if and only if no page below the size is missing and the free pages cover setupkvm, the copies and their tables; it panics if and only if one is missing and they cover the way to it |
| `PageExec.ImageGrown` | 03-xv6-stcf-scheduler/exec.c:38-68 | exec's new image is made without a panic by work on the new directory alone, and that then maps exactly the size that comes out |
| `PageExec.ImageIff` | 03-xv6-stcf-scheduler/exec.c:38-68 | It is made if and only if the segments end below the kernel, the first not at 0, and the free pages cover segments, stack and tables; the size is two pages above the segments |
| `PageRefs.EntryAvailable` | 03-xv6-stcf-scheduler/vm.c:16-35 | While a process slot is free so is a reference-table entry, so clone never loses track of a directory |
| `PageRefs.ShareInv` | 03-xv6-stcf-scheduler/proc.c:278-284 | clone keeps every count equal to the number of processes on the directory |
| `PageRefs.AttachInv` | 03-xv6-stcf-scheduler/proc.c:213-261 | A process with a directory of its own needs no entry |
| `PageRefs.LastDropFrees` | 03-xv6-stcf-scheduler/vm.c:310-337 | The table says that a directory is to be freed if and only if the last process using it drops it |
| `PageRuns.CloneOk` | 03-xv6-stcf-scheduler/proc.c:266-284 | clone keeps: every page is free or in exactly one use (a directory, a table, a user page or the kernel stack of one process), the directories are those of the processes, and the counts count their users |
| `PageRuns.ForkOk` | 03-xv6-stcf-scheduler/proc.c:213-235 | fork keeps the same, whether it succeeds or fails at any allocation |
| `PageRuns.ForkFails` | 03-xv6-stcf-scheduler/proc.c:213-235 | A fork without memory leaves every page as it was, the kernel stack included |
| `PageRuns.SbrkOk` | 03-xv6-stcf-scheduler/proc.c:192-208 | growproc keeps the same, up or down |
| `PageRuns.WaitFrees` | 03-xv6-stcf-scheduler/proc.c:393-405 | wait frees the kernel stack, and the directory with its tables and pages if and only if no other process uses it; nothing else becomes free |
| `PageRuns.WaitOk` | 03-xv6-stcf-scheduler/proc.c:393-405 | wait keeps the same |
| `PageRuns.ExecFrees` | 03-xv6-stcf-scheduler/exec.c:96-104 | exec's commit frees the old directory with its tables and pages if and only if no other process uses it, and nothing else |
| `PageRuns.ExecFails` | 03-xv6-stcf-scheduler/exec.c:106-113 | A failed exec, wherever it fails, leaves every page as it was |
| `PageRuns.ExecOk` | 03-xv6-stcf-scheduler/exec.c:38-113 | exec never panics and keeps the same |
| `PageRuns.RunOk` | 03-xv6-stcf-scheduler/proc.c:192-418 | So it is after every run of fork, clone, sbrk, exec and wait, and no page is ever lost or gained |
| `PagePanics.SbrkIff` | 03-xv6-stcf-scheduler/proc.c:192-208 | sbrk grows the process, or panics with "remap", if and only if the pages mapped and the free pages before the call say so |
| `PagePanics.ForkIff` | 03-xv6-stcf-scheduler/proc.c:213-235 | fork makes a child, or panics at a page that is not there, if and only if the slots, pages and free pages before the call say so |
| `PagePanics.ExecIff` | 03-xv6-stcf-scheduler/exec.c:38-104 | exec of a file and arguments that pass its checks replaces the address space if and only if the segments are in order and the free pages cover the new directory, the segments and the stack |
| `PagePanics.StepPanicsIff` | 03-xv6-stcf-scheduler/vm.c:84-104 | No other call panics |
| `PageOwn.OwnStep` | 03-xv6-stcf-scheduler/proc.c:192-418 | A process whose directory nobody shares and which has exactly the pages of its size does not panic, and this stays so over any call, of whatever process, if and only if that is not its own clone that finds a slot and a stack, its own shrink to nothing, or the wait for it |
| `PageOwn.OwnRun` | 03-xv6-stcf-scheduler/proc.c:192-418 | Over runs in which the process makes no such call, whatever the others do: it never panics, and if the run ends in a panic then in a call of another one |
| `PageOwn.OwnExec` | 03-xv6-stcf-scheduler/exec.c:96-104 | An exec that goes through gives a process such an address space, whatever it shared before, and takes none away from others |
| `PageOwn.TidyStep` | 03-xv6-stcf-scheduler/proc.c:192-418 | While all processes are like that no call panics, and this stays so if and only if the call is neither a clone that finds a slot and a stack nor a shrink to nothing |
| `PageOwn.TidyRun` | 03-xv6-stcf-scheduler/proc.c:192-418 | So runs without these two never panic |
| `PageBoot.BootOk` | 03-xv6-stcf-scheduler/proc.c:153-186 | The first process is such a state, made from any list of distinct free pages that is long enough |
| `PageBoot.CloneThenGrow` | 03-xv6-stcf-scheduler/proc.c:266-284 | For any process with exactly its pages: clone, sbrk in one thread and sbrk in the other panics with "remap", given the memory |
| `PageBoot.CloneThenShrink` | 03-xv6-stcf-scheduler/proc.c:266-284 | For any such process: clone, a shrink in one thread and fork in the other panics in copyuvm, given the memory |
| `PageBoot.ShrinkThenFork` | 03-xv6-stcf-scheduler/proc.c:192-208 | A shrink to nothing frees the pages but keeps the size, and fork then panics, without any thread |
| `PageBoot.BootPanics` | 03-xv6-stcf-scheduler/proc.c:153-186 | All three runs from the first process |
| `PageTables.NeverStale` | 03-xv6-stcf-scheduler/vm.c:310-337 | In every such state freevm meets no count below one and setupkvm no page that the table still lists |
| `PageTables.Memory.Walk` | 03-xv6-stcf-scheduler/vm.c:59-79 | walkpgdir finds or makes the table, and fails only without free pages, changing nothing |
| `PageTables.Memory.MapPage` | 03-xv6-stcf-scheduler/vm.c:84-104 | mappages for a page: the specified entry, -1 without a page for the table, panic at a present entry |
| `PageTables.Memory.DeallocUvm` | 03-xv6-stcf-scheduler/vm.c:282-306 | The in-place loop with its jumps computes what DeallocCuts is about |
| `PageTables.Memory.FreeVm` | 03-xv6-stcf-scheduler/vm.c:310-337 | freevm with its reference count: a directory that others use only loses a count, else it is freed as FreeDirFrees says; it panics exactly at a count below one and at directory 0 |
| `PageTables.Memory.AllocUvm` | 03-xv6-stcf-scheduler/vm.c:248-276 | allocuvm in place computes what AllocMeans and AllocIff are about, both failures and the panic included |
| `PageTables.Memory.SetupKvm` | 03-xv6-stcf-scheduler/vm.c:142-160 | setupkvm in place computes what SetupOkIff, SetupFresh and SetupFails are about |
| `PageTables.Memory.CopyUvm` | 03-xv6-stcf-scheduler/vm.c:354-384 | copyuvm in place computes what CopyMeans, CopyFails and CopyIff are about, both failures and the panics included |
| `PageTables.Memory.LocateRef` | 03-xv6-stcf-scheduler/vm.c:16-35 | The scan finds the entry in use for the directory |
| `PageTables.Memory.AllocateRef` | 03-xv6-stcf-scheduler/vm.c:16-35 | The scan takes the first free entry |
| `PageTables.Memory.ShareDir` | 03-xv6-stcf-scheduler/proc.c:278-284 | clone's part of the table protocol that ShareInv is about |
| `PageTables.Memory.GrowProc` | 03-xv6-stcf-scheduler/proc.c:192-208 | growproc in place is the sbrk step of the runs; it reports success exactly when the size was set |
| `PageTables.Memory.ForkSpace` | 03-xv6-stcf-scheduler/proc.c:213-235 | The address-space part of fork in place is the fork step of the runs |
| `PageTables.Memory.CloneSpace` | 03-xv6-stcf-scheduler/proc.c:266-284 | The address-space part of clone in place is the clone step of the runs |
| `PageTables.Memory.MakeImage` | 03-xv6-stcf-scheduler/exec.c:40-88 | The in-place loop over the segments and the stack pages compute what ImageGrown and ImageIff are about, or stop at a failed check |
| `PageTables.Memory.ExecSpace` | 03-xv6-stcf-scheduler/exec.c:38-113 | The address-space part of exec in place is the exec step of the runs, and freevm does not panic in it |
| `PageTables.Memory.WaitSpace` | 03-xv6-stcf-scheduler/proc.c:393-405 | The freeing part of wait in place is the wait step of the runs, and freevm does not panic in it |

## Left out

- Boot, assembly, interrupt controllers, IDE ports, UART, keyboard, console, ELF loading: hardware plumbing; the disk has the meaning of `memide.c`.
- Spinlock internals, memory ordering and several CPUs: regions under a lock are atomic steps; the scheduler's `skip_target` is modelled for one CPU only.
- The lock order between `ptable.lock` and `tickslock`, which differs between `yield` and the timer interrupt.
- FUSE glue, `mmap`, timestamps, extended attributes, colours, ANSI stripping, splitting path strings, `readdir` and `getattr` of WFS: library or cosmetic code.
- Mode bits, uid and gid of WFS inodes.
- WFS images whose sizes make the 32-bit products of `setup_sb` overflow: sizes are unbounded here.
- The shell `wsh`, its hash map and dynamic array: system calls and textbook containers.
- The xv6 inode cache, sleep locks, `namex`, `sysfile.c`: the inode is locked throughout the write path.
- `readi`, `itrunc` and the bytes of xv6 files: `WritePath` models which blocks are allocated and logged, not their contents.
- Device and directory inodes in `writei`, and orphan inodes after a crash.
- Pid wrap-around after 2^31 forks; the value limit of POSIX semaphores.
- KrAlloc.Heap.Malloc: what happens to the process when the argument of `sbrk` has wrapped and the header of the block is written to memory that was not granted; `KrArena.EnteredIsGranted` says exactly when that is.
- KrAlloc.Heap.Free: freeing an address that is not a live block is outside its contract, as in the source.
- LogDevice.Log.LogWrite: `log_write` tests the size and the number of operations before it takes `log.lock`; here the tests and the update are one step.
- LogDevice.Log.BeginOp: the sleep and the retry are the caller's; the method is one pass of the loop.
- WfsTheorems.RunHealthy: runs use names other than "." and ".."; `WfsTheorems.RmDirKeeps` states exactly what happens otherwise.
- ProcRuns.RunTime: fewer than 2^31 ticks; beyond that the 32-bit tick count changes sign.
- ProcKernel.Kernel.ForkChild: memory, files and names of processes are not part of the process table; the state EMBRYO never shows because a new slot is filled in one step.
- Of `exec` the file, the ELF header and the argument strings: the ends of the segments and the outcome of its checks are parameters. Of `exec2` only the time is modelled, as `remain`.
- BufferCache.RunView: runs in which no changed buffer is released without `log_write` or `bwrite`; `BufferCache.StepInv` says that such a release is exactly what breaks the invariant.
- PageOps.CopyMeans: the bytes of a page are one abstract value; what `loaduvm` and `copyout` store is not modelled.
- PageRuns.RunOk: of the kernel's own pages only the kernel stacks are in the pool; `kpgdir` and pipes are not.
- `uva2ka` and `inituvm` of more than a page.
- Page-table pages are found through the directory entry that names them rather than by walking physical memory.
- `freerange`: the first free list is any list of distinct pages.
- RwLock.WriterGetsIn: readers spin rather than block in `rw_rlock`, so nothing is claimed about their progress.
- The snack-bar driver, logging and jitter of the threading project, `grep`, the test programs and the small user programs.
