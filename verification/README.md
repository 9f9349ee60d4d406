# Models of the systems coursework repository

Dafny models of the parts of the repository whose correctness is least obvious, with proofs about every
run of them: the xv6 file system stack (log, buffer cache, inodes, files), xv6's sleeping, pipes and
processes, its user-space allocator and page tables, its shell parser and pattern matcher, the threaded
merge sort, and the chained-inode file system NUFS.

Code that updates structures in place is modelled by classes and methods with loops; each method is
proved against a specification, and the specification has theorems of its own.  Code that several
processes or threads run at once is modelled by transition systems in which any process may take the
next step, and the theorems hold after every run.

| part | modules |
|---|---|
| redo log and buffer cache | `Journal` (steps), `JournalInvariant`, `JournalRefinement`, `JournalAtomicity` (theorems), `LogBounds`, `LogOverflow` (what the sizes decide), `LogCode` (log.c, bio.c) |
| inodes, blocks, files | `FsLayout`, `FsModel` (theorems), `FsCode` (fs.c, filewrite), `FileCrash` (files over the log) |
| sleep and wakeup, pipes, sleep locks | `SleepWakeup` (steps), `SleepInvariant`, `PipeBytes` (theorems), `StrandedReader`, `PipeCode` (the ring) |
| process table | `ProcTable` (steps and theorems), `ProcCode` (proc.c's loops) |
| malloc and free | `HeapModel` (theorems), `HeapCode` (umalloc.c) |
| page tables and pages | `VmModel` (theorems), `VmCode` (vm.c, kalloc.c) |
| merge sort | `Merging`, `SortCode` (msort.c), `SortThreads` (tmsort.c) |
| shell parser | `ShellModel` (grammar), `ShellRoundTrip`, `ShellParens`, `ShellTokens` (theorems), `ShellCode` (sh.c) |
| pattern matcher | `Regexp` (grep.c) |
| NUFS | `NufsModel` (theorems), `NufsCode` (inode.c, blocks.c, storage.c) |
| shared definitions | `Common` |

`dafny verify dfyconfig.toml` checks everything.

## Results

**Log and cache.**  The disk, the cache and the log together behave as one simple disk with two images:
what readers see now, and what survives a crash.  Every step of every interleaving, crashes included, is
a step of that disk (`RunRefines`); the surviving image changes at one point only, the header write of
commit (`CommitAtomic`), and after a crash the first recovery that completes, however many crashes cut
earlier ones short, leaves exactly that image (`CrashAtomicity`).  It is what readers saw at a moment when
no operation was running, so each operation is recovered whole or not at all (`OperationAtomic`).

log_write is two steps, because it tests the size before it takes log.lock: others may append in between.
The theorems hold for a log area of more than LOGSIZE blocks, or of at least as many blocks as there are
buffers, which mkfs.c and param.h satisfy; at all other sizes, given NBUF buffers and blocks to write, some
run loses crash atomicity (`AtomicExactly`).  What the race can do to the header is bounded at every size
(`RunBounds`, `HeaderBound`).

The methods of `LogCode` record the steps they take, so an execution of one of them is a stretch of one of
those runs; where a method would sleep it stops, and the steps of others in between are those of the runs.
`Transact` puts them together: begin_op, any writes to at most MAXOPBLOCKS blocks, end_op. The cache
reuses, of the buffers it may, the one whose last reference was dropped longest ago in the recorded steps
(`BGet`).

**Files.**  A file is a byte sequence. `Writei` replaces the bytes written and touches no other file;
`Readi` returns the slice asked for and never allocates; `Itrunc` frees every block of the file once; and
each transaction of `Filewrite` logs at most the ten blocks that begin_op reserved. The file system is a
function of the disk alone, inodes included. `Filewrite` lists the block writes of its transactions; a
crash anywhere in a run that performs them, whatever else the machine does that writes nothing, and
recovery, leave a consistent file system in which the file has a whole number of the 1536-byte chunks, and
a write of at most 1536 bytes is there or not (`FilewriteOverLog`). On a kernel where nobody else uses the
log they all complete, and leave filewrite's last disk (`CarryOut`).

**Sleeping.**  Over every interleaving, whoever sleeps on a sleep lock, a pipe or the log while the spin
lock is free has reason to (`NoLostWakeup`).  The one exception is proved to be exactly that: pipewrite's
early return with a reader waiting (`AbortExactly`), and `StrandedReader.LostWakeup` is a run that does it.
Over every run the bytes that pipereads return, call after call, are a prefix of the bytes that pipewrites
have passed (`BytesThrough`).

**Processes.**  A process whose last step was to sleep in wait, and that still sleeps, has no zombie child
(`NoZombieBeside`); exit of a child and kill end the wait; every process has a live parent; every exit is
reaped once.

**Memory.**  malloc's free list stays sorted, disjoint and fully merged, no unit is lost or shared, and
malloc needs morecore at most once.  Every physical page is in exactly one place; a failed allocuvm
restores every mapping, a failed copyuvm gives every page back, and deallocuvm's skipping of absent tables
does what walking every page would.

**Sorting, parsing, matching.**  Every interleaving of the threaded sort gives the sequential result and
creates one thread fewer than the smaller of thread_count and the number of elements. Every command tree
of plain words is read back from its printed line, no line read as the tree has fewer parentheses
(`FewestParens`), and the C strings that parsecmd leaves in memory are its words. What is read depends on
the tokens alone (`TokensDecide`). match answers what the pattern denotes, said of patterns without stars
and with one on the text alone (`PlainMatches`, `StarMatches`).

**NUFS.**  Growing, writing and reading chained inodes is a flat byte array, and files share nothing.

### Where the code does less than it should

- log.c: log_write tests the size before it looks for the block.  An operation within its budget can meet
  the size panic when it appends exactly if nlog is at most LOGSIZE, as mkfs lays it out; with any nlog it
  can when it writes a block again that is logged already and the header is full (`PanicExactly`,
  `SizePanic`).
- log.c: log_write tests the size before it takes log.lock.  The header can grow past the log area exactly
  if nlog is at most LOGSIZE (`InsideExactly`), by at most two entries (`HeaderBound`).  With more buffers
  than nlog the commit then writes over blocks behind the log, and a crash loses them (`AtomicExactly`); with
  NBUF buffers and mkfs's nlog it finds no buffer for the log block and panics first.
- bio.c, param.h: NBUF equals LOGSIZE.  A commit can find every buffer pinned, and bget panics, exactly if
  nlog is at least LOGSIZE - 1 (`StarvedExactly`).
- pipe.c: a killed writer that finds the pipe full returns without waking readers (`AbortExactly`).
- proc.c: kill(0) finds the first slot with pid 0, a free one, and marks it killed; the process that fork puts
  there is killed from the start (`KillZero`).  A slot is marked exactly when kill has hit it since it was
  last freed (`KilledExactly`).
- storage.c: storage_read walks past the end of the chain, or copies as many bytes as a wrapped negative
  size says, exactly when the offset is beyond the file, or at its end where the size is a positive multiple
  of the block size (`StorageRead`; `ReadAtBlockEnd` builds such a file).
- inode.c: grow_inode promises a negative result on failure, which storage_write would pass on; when inodes
  run out, exactly if fewer are free than the growth needs, it goes on with get_inode(-1) instead
  (`GrowInode`, `StorageWrite`).
- sh.c: `>>` is parsed into the same command as `>` (`DoubleArrow`).  blocks.c: the comment puts the inode bitmap in
  block 1; the code keeps it in block 0, after the block bitmap.  In both the model follows the code.

## Model

| member | source | states |
|---|---|---|
| Journal.EncodeHead | xv6 Hacking/xv6/log.c:101-113 | the header written by write_head decodes to the same block list, and the rest of the block keeps its old words |
| JournalInvariant.StepKeeps | xv6 Hacking/xv6/log.c:125-233 | every step of any process, of commit, of recovery or a crash, log_write's test and append apart, keeps: one buffer per block, clean buffers equal to disk, logged blocks dirty and cached until installed, space reserved for every running operation, and no write outside the log area at the sizes of AtomicExactly |
| JournalInvariant.RunKeeps | xv6 Hacking/xv6/bio.c:62-141 | the same after every run, in any interleaving |
| JournalRefinement.StepRefines | xv6 Hacking/xv6/log.c:177-233 | one step is at most one step of a disk with a current and a stable image: a write changes the current one, the commit point makes it stable, a crash makes the stable one current |
| JournalRefinement.RunRefines | xv6 Hacking/xv6/log.c:69-233 | every run is a run of that disk |
| JournalRefinement.ReadsLatest | xv6 Hacking/xv6/bio.c:96-106 | a buffer that bread returned holds the latest write of its block |
| JournalRefinement.LogsLatest | xv6 Hacking/xv6/log.c:177-190 | write_log copies the current image of a block from a dirty buffer, never stale disk contents |
| JournalRefinement.CommitAtomic | xv6 Hacking/xv6/log.c:192-202 | during a commit what a crash would leave is the old image until the header write and the new one from then on, whatever else runs |
| JournalRefinement.CommitIsDurable | xv6 Hacking/xv6/log.c:192-202 | when commit is over, what readers see is what a crash would leave |
| JournalRefinement.FinishedImages | xv6 Hacking/xv6/log.c:69-82 | and the home blocks themselves hold it |
| JournalRefinement.RecoveryKeepsStable | xv6 Hacking/xv6/log.c:115-122 | recovery, cut by any number of crashes, never changes the stable image |
| JournalRefinement.RecoveryDone | xv6 Hacking/xv6/log.c:115-122 | a recovery that completes leaves the stable image in the home blocks |
| JournalRefinement.CrashAtomicity | xv6 Hacking/xv6/log.c:69-122 | after any run, a crash, and any crashes inside recovery, the first recovery to complete leaves each committed transaction whole and no other |
| JournalRefinement.NoCommitDuringOps | xv6 Hacking/xv6/log.c:145-174 | while any operation is outstanding no commit is in progress |
| JournalRefinement.SizePanic | xv6 Hacking/xv6/log.c:213-233 | with nlog above LOGSIZE, logged blocks plus remaining budgets never exceed LOGSIZE, and the test of log_write, for a block logged already or within budget, panics exactly when the block is logged and the header full |
| LogOverflow.PanicExactly | xv6 Hacking/xv6/log.c:213-233 | from boot, with NBUF buffers or more and blocks to write, some run leads a log_write within budget that appends to the size panic if and only if nlog is at most LOGSIZE; one that absorbs can get there for every nlog |
| LogOverflow.InsideExactly | xv6 Hacking/xv6/log.c:218-231 | from boot, with NBUF buffers or more and blocks to write, some run makes the header longer than the log area if and only if nlog is at most LOGSIZE: the test is not under the lock |
| LogOverflow.AtomicExactly | xv6 Hacking/xv6/log.c:69-122 | from boot, with NBUF buffers or more and blocks to write, in every run and after every crash the first recovery to complete leaves what was committed, if and only if nlog is above LOGSIZE or at least the number of buffers |
| LogBounds.RunBounds | xv6 Hacking/xv6/log.c:124-233 | at any sizes, every run keeps: at most three operations, budgets inside LOGSIZE, every pinned block in the header, and a header at most as long as the passed tests allow |
| LogBounds.AppendPossible | xv6 Hacking/xv6/log.c:223-231 | at any sizes, a process that has passed log_write's tests finds its buffer as it was and, if the block is new, an entry left in log.lh.block |
| LogBounds.HeaderBound | xv6 Hacking/xv6/log.c:218-231 | at any sizes, the header outgrows the log area by at most two entries and never its array |
| LogOverflow.StarvedExactly | xv6 Hacking/xv6/bio.c:78-93 | with NBUF buffers, some run leads to a commit that finds every buffer pinned if and only if nlog is at least LOGSIZE - 1 |
| JournalAtomicity.StableMoment | xv6 Hacking/xv6/log.c:143-202 | what would survive a crash is what readers saw at some moment when no operation was running |
| JournalAtomicity.BootSettled | xv6 Hacking/xv6/log.c:52-66 | boot, before recovery, is a state with no operation running in which what readers will see is what survives a crash, so StableMoment and OperationAtomic hold of runs from boot |
| JournalAtomicity.OperationAtomic | xv6 Hacking/xv6/log.c:116-174 | for an operation begun at step i and not ended before step j, recovery brings back what was seen at a moment not between them; if it is after j, that is the image at i with every write since, the operation's own among them |
| LogCode.Kernel.constructor | xv6 Hacking/xv6/bio.c:38-56 | binit lists every buffer once, and boot starts from the disk as it is |
| LogCode.Kernel.FindCached | xv6 Hacking/xv6/bio.c:66-76 | finds the buffer of the block, and none only if no buffer has it |
| LogCode.Kernel.FindFree | xv6 Hacking/xv6/bio.c:78-93 | finds the least recently used buffer that is neither referenced nor dirty, and none only if there is none |
| LogCode.Kernel.BGet | xv6 Hacking/xv6/bio.c:61-93 | a cached buffer gains a reference; otherwise, of the buffers neither referenced nor dirty, the one whose last reference was dropped longest ago in the recorded steps is taken over, never-used ones first; it panics exactly when there is neither |
| LogCode.Kernel.BRead | xv6 Hacking/xv6/bio.c:96-106 | returns the block's only buffer locked and valid, changing no other buffer, or leaves the caller asleep on its lock |
| LogCode.Kernel.FillBuffer | xv6 Hacking/xv6/memide.c:38-60 | a read transfer puts the disk block in the buffer and makes it valid |
| JournalInvariant.WrittenCache | xv6 Hacking/xv6/bio.c:108-116 | after bwrite every clean valid buffer still equals its disk block, no block has two buffers, and references and locks are as counted |
| LogCode.Kernel.BRelse | xv6 Hacking/xv6/bio.c:118-141 | unlocks and drops the reference; the list stays in the order in which last references were dropped in the recorded steps, the latest first |
| LogCode.Kernel.ReleaseRanks | xv6 Hacking/xv6/bio.c:129-138 | the step that drops a last reference puts its buffer before every other, and any other step leaves the order |
| LogCode.Kernel.BeginOp | xv6 Hacking/xv6/log.c:124-141 | starts an operation exactly when no commit runs and ten blocks fit beside all reservations |
| LogCode.Kernel.LeaveOp | xv6 Hacking/xv6/log.c:149-166 | ends an operation; the last one starts the commit |
| LogCode.Kernel.FinishCommit | xv6 Hacking/xv6/log.c:168-172 | after commit, operations may begin again |
| LogCode.Kernel.EndOp | xv6 Hacking/xv6/log.c:143-174 | the last operation commits for all: on return readers' image is stable and home and the log is empty; otherwise nothing but the count changes; commit stops, with begin_op shut, only if every buffer is pinned or another process is using one |
| LogCode.Kernel.Transact | xv6 Hacking/xv6/log.c:124-174 | begin_op, the writes of an operation to at most MAXOPBLOCKS blocks, end_op: readers see exactly the writes in order; if it was the only operation the home blocks hold them for good; with the cache to itself and room in log and cache it succeeds |
| LogCode.Kernel.HeaderIndex | xv6 Hacking/xv6/log.c:223-226 | finds the block in the header, or the end |
| LogCode.Kernel.LogTest | xv6 Hacking/xv6/log.c:218-221 | passes the test before the lock exactly when the header is shorter than LOGSIZE and than the log area |
| LogCode.Kernel.LogAppend | xv6 Hacking/xv6/log.c:223-232 | whatever the header has become since the test, absorbs a block already logged or appends it, pins its buffer and charges the operation, and the header stays inside its array |
| LogCode.Kernel.LogWrite | xv6 Hacking/xv6/log.c:213-233 | both with nobody in between: panics exactly when the header is too long, and otherwise the block is logged once |
| LogCode.Kernel.Modify | xv6 Hacking/xv6/log.c:208-212 | a change to a locked buffer inside an operation changes what readers see of its block and nothing that survives a crash |
| LogCode.Kernel.FetchPair | xv6 Hacking/xv6/log.c:69-82 | the committer gets the log block and the home block of a round in two buffers, whoever else uses the cache; with every buffer pinned it fails, and with one unpinned and nobody else in the cache it does not |
| LogCode.Kernel.WriteLogBlocks | xv6 Hacking/xv6/log.c:176-190 | copies every logged block to the log area without changing either image; with nobody else in the cache it succeeds exactly when the header is shorter than the cache |
| LogCode.Kernel.FillHeader | xv6 Hacking/xv6/log.c:101-113 | the loop writes the header that decodes to the block list |
| LogCode.Kernel.ReadHeader | xv6 Hacking/xv6/log.c:84-96 | the loop reads back the block list |
| LogCode.Kernel.CommitHeader | xv6 Hacking/xv6/log.c:98-113 | the header write makes the current image the stable one |
| LogCode.Kernel.InstallTrans | xv6 Hacking/xv6/log.c:68-82 | copies every logged block home without changing either image |
| LogCode.Kernel.EraseHeader | xv6 Hacking/xv6/log.c:192-202 | empties the header in memory and on disk without changing either image |
| LogCode.Kernel.Commit | xv6 Hacking/xv6/log.c:192-202 | on success the home blocks hold what readers saw, for good; it needs a header that is empty or shorter than the cache, and with nobody else in the cache that is enough |
| LogCode.Kernel.ReadLogHeader | xv6 Hacking/xv6/log.c:84-96 | the block list in memory is the one in the header on disk |
| LogCode.Kernel.RecoverFromLog | xv6 Hacking/xv6/log.c:115-122 | recovery always completes and leaves the stable image in the home blocks |
| FsLayout.WordPut | xv6 Hacking/xv6/fs.c:387-397 | an entry of an indirect block reads back as written, lowest byte first on disk, and no other entry changes |
| FsLayout.BitMarkUsed | xv6 Hacking/xv6/fs.c:64-70 | setting a block's bit changes no other block's bit |
| FsLayout.BitMarkFree | xv6 Hacking/xv6/fs.c:88-93 | clearing a block's bit changes no other block's bit |
| FsLayout.BitPlace | xv6 Hacking/xv6/fs.h:44-48 | block b's bit is bit b % 8 of byte b % 4096 / 8 of block bmapstart + b / 4096 |
| FsModel.AllocKeeps | xv6 Hacking/xv6/fs.c:57-78 | a block balloc hands out was owned by nobody, and the free map stays exact |
| FsModel.AttachKeeps | xv6 Hacking/xv6/fs.c:372-400 | storing it in one slot keeps every block owned by exactly one slot |
| FsModel.WriteRoundFile | xv6 Hacking/xv6/fs.c:497-503 | a round of writei's loop extends the written part of the file and keeps exactly the first blocks mapped |
| FsModel.WriteRoundOthers | xv6 Hacking/xv6/fs.c:497-503 | and changes no other file |
| FsModel.RoundCost | xv6 Hacking/xv6/fs.c:497-503 | and allocates a block exactly when the file grows by one |
| FsModel.NextSlotSet | xv6 Hacking/xv6/fs.c:414-431 | no block is freed twice by itrunc: the next one's bit is still set |
| FsModel.TruncKeeps | xv6 Hacking/xv6/fs.c:407-435 | after itrunc the free map is exact again and other files are untouched |
| FsModel.ChunkBudget | xv6 Hacking/xv6/file.c:134-141 | data, bitmap, indirect and inode blocks of a 1536-byte write at an offset up to the size come to at most ten |
| FsModel.SpliceAppend | xv6 Hacking/xv6/file.c:142-158 | two writes in a row are one write of both |
| FsModel.InodeReadBack | xv6 Hacking/xv6/fs.c:298-307 | the inode that ilock reads from words written by iupdate is the one written |
| FsModel.PutInode | xv6 Hacking/xv6/fs.c:226-233 | one dinode of a block is replaced and reads back, and the other seven do not change |
| FsModel.OnDisk | xv6 Hacking/xv6/fs.c:372-400 | where on disk the fields of inode w, the address of its block and byte o of the file are: dinode w % 8 of block inodestart + w / 8, twelve direct addresses, then the indirect block |
| FsModel.FsInvFromMap | xv6 Hacking/xv6/fs.c:221-236 | ownership and contents depend on the free map and the data blocks only, so writing inode blocks changes no file |
| FsCode.FileSystem.constructor | xv6 Hacking/xv6/mkfs.c:236-251 | zeroed blocks with the metadata marked in the free map are a consistent file system of empty files |
| FsCode.FileSystem.TakeIfFree | xv6 Hacking/xv6/fs.c:66-74 | a clear bit is set and its block zeroed and logged; otherwise nothing changes |
| FsCode.FileSystem.Balloc | xv6 Hacking/xv6/fs.c:55-78 | the first free block, marked and zeroed; panics exactly when every bit is set |
| FsCode.FileSystem.Bfree | xv6 Hacking/xv6/fs.c:80-95 | clears the bit; panics exactly when it is clear already |
| FsCode.FileSystem.Iupdate | xv6 Hacking/xv6/fs.c:216-236 | the cached inode reads back from its inode block, every other inode on disk is the same, and only that block is written and logged |
| FsCode.FileSystem.Bmap | xv6 Hacking/xv6/fs.c:369-400 | returns the block's address, allocating only if it was absent, keeping ownership exact and every file's bytes, and logging at most the blocks listed |
| FsCode.FileSystem.WritePieces | xv6 Hacking/xv6/fs.c:497-503 | the loop writes all bytes and logs at most one data block a piece, one bitmap block a new block and one indirect block |
| FsCode.FileSystem.Writei | xv6 Hacking/xv6/fs.c:478-511 | on a file, refused exactly when off exceeds the size or the end exceeds the maximum; otherwise exactly the bytes from off on are replaced, the size is the maximum, other files are unchanged and inode blocks are up to date; on a device the driver's answer, or -1 without a driver |
| FsCode.FileSystem.ReadPiece | xv6 Hacking/xv6/fs.c:469-474 | one block's part of the file, with nothing allocated |
| FsCode.FileSystem.Readi | xv6 Hacking/xv6/fs.c:450-476 | on a file, the slice asked for, cut at the end, or -1 exactly past the end or on wrap-around; on a device the driver's answer; the disk is not changed |
| FsCode.FileSystem.Itrunc | xv6 Hacking/xv6/fs.c:402-435 | frees exactly the blocks of the file, each once, so bfree's panic is not reached; the file is empty and the others unchanged |
| FsCode.WriteChunk | xv6 Hacking/xv6/file.c:147-152 | one transaction: the disk after it is the one before with the listed writes, to inode, map and data blocks only and to at most MAXOPBLOCKS of them |
| FsCode.NextChunk | xv6 Hacking/xv6/file.c:143-160 | one round writes the next chunk, and the disk between rounds holds the files with that many chunks written |
| FsCode.Filewrite | xv6 Hacking/xv6/file.c:120-164 | the file gets the bytes up to where writing stopped, off advances by as many: all of them, or the 1536-byte pieces that fit into the largest file of 71680 bytes, or none past the end; there is one transaction for every 1536 bytes begun, each in its budget, leading from disk to disk; n is returned exactly when everything fits; between transactions the disk is consistent with whole pieces written |
| FileCrash.HoldsAgain | xv6 Hacking/xv6/log.c:69-82 | which files there are is determined by the home blocks |
| FileCrash.CrashedWrite | xv6 Hacking/xv6/file.c:143-160 | a crash anywhere in a run in which, whenever the last operation ends, readers see the disk between two chunks, with any crashes in recovery, leaves a consistent disk with every other file as it was and this one changed by a whole number of chunks |
| FileCrash.PerformsLeaves | xv6 Hacking/xv6/file.c:143-160 | a run in which one process makes the listed writes of filewrite's transactions in order, each between begin_op and end_op, and nobody else writes, is such a run |
| FileCrash.FilewriteOverLog | xv6 Hacking/xv6/file.c:120-164 | filewrite, then any run that performs the transactions it made, cut by a crash anywhere and recovered: the files are as they were, the file changed by whole 1536-byte pieces or all of the data; a write of at most 1536 bytes is there or not |
| FileCrash.CarryOut | xv6 Hacking/xv6/file.c:143-160 | the transactions of a filewrite, carried out on the log and cache by a process alone in the log, leave the home blocks of its last disk; with nobody else in the cache all of them complete |
| SleepInvariant.TestOwes | xv6 Hacking/xv6/pipe.c:84-94 | a test that makes a waiter's condition false leaves the process owing the wakeup |
| SleepInvariant.CopyOwes | xv6 Hacking/xv6/pipe.c:113-118 | so does a read |
| SleepInvariant.WaitersAtWakeup1 | xv6 Hacking/xv6/proc.c:454-474 | wakeup pays what is owed: no process is between release(lk) and SLEEPING while wakeup1 runs |
| SleepInvariant.SoundStep | xv6 Hacking/xv6/proc.c:415-474 | every step keeps lock ownership, pipe contents and sleep-lock ownership, killed writers or not |
| SleepInvariant.StepKeeps | xv6 Hacking/xv6/proc.c:415-474 | every step but pipewrite's early return beside a waiting reader also keeps: whoever waits has its condition true or its wakeup owed by the lock's holder |
| SleepInvariant.NoLostWakeup | xv6 Hacking/xv6/sleeplock.c:22-42 | after every run without such a return, whenever a lock is free everyone asleep on its object or on the way there has its wait condition true |
| SleepInvariant.AbortExactly | xv6 Hacking/xv6/pipe.c:85-92 | pipewrite's early return keeps the invariant exactly when no reader waits |
| SleepInvariant.StrandedReader | xv6 Hacking/xv6/pipe.c:85-89 | otherwise a reader is left asleep with the lock free and bytes in the pipe |
| StrandedReader.LostWakeup | xv6 Hacking/xv6/pipe.c:85-89 | a run from idle in which a killed writer does that |
| SleepInvariant.SleepLocksExclude | xv6 Hacking/xv6/sleeplock.c:22-53 | at most one process has a sleep lock, and holdingsleep tells it so |
| SleepInvariant.FullMeans | xv6 Hacking/xv6/pipe.c:85-106 | the tests on 32-bit counters mean full and empty, also after they wrap |
| SleepInvariant.PipeFifo | xv6 Hacking/xv6/pipe.c:78-121 | after every run the bytes taken out are a prefix of the bytes put in and at most 512 are between |
| PipeBytes.BytesThrough | xv6 Hacking/xv6/pipe.c:78-121 | after every run the bytes that pipereads have returned, call after call, then those the one holding the lock has copied, are a prefix of the bytes that pipewrites have moved past, at most 512 behind |
| PipeBytes.ReadStretch | xv6 Hacking/xv6/pipe.c:113-118 | what a piperead has got is what has been taken out of the pipe since its copy loop began |
| PipeBytes.WriteStretch | xv6 Hacking/xv6/pipe.c:84-94 | a pipewrite at index i has passed exactly the first i bytes of its buffer, in order |
| PipeBytes.ReadReturns | xv6 Hacking/xv6/pipe.c:101-121 | a piperead returns with all it asked for or the pipe empty, and with nothing only if the write end is closed or it was killed |
| PipeBytes.WriteReturns | xv6 Hacking/xv6/pipe.c:78-98 | a pipewrite returns with everything written, or with 512 bytes waiting and the read end closed or itself killed |
| PipeBytes.KilledReturns | xv6 Hacking/xv6/pipe.c:85-111 | a killed reader or writer returns where it would have slept |
| SleepInvariant.KillWakes | xv6 Hacking/xv6/proc.c:476-497 | a killed process is awake until it goes to sleep again of its own |
| SleepInvariant.BeginFits | xv6 Hacking/xv6/log.c:124-141 | begin_op goes on exactly when no commit runs and ten blocks for it and each other operation fit into thirty, and sleeps otherwise |
| SleepInvariant.SchedHoldsOneLock | xv6 Hacking/xv6/proc.c:358-382 | sleep enters sched with ptable.lock and no other lock, so its lock panics are not reached |
| PipeCode.Ring.constructor | xv6 Hacking/xv6/pipe.c:33-36 | a new pipe is empty |
| PipeCode.Ring.Fill | xv6 Hacking/xv6/pipe.c:84-94 | bytes go in in order until all are in or the pipe is full |
| PipeCode.Ring.Drain | xv6 Hacking/xv6/pipe.c:113-117 | as many bytes come out as are asked for and there, oldest first |
| ProcTable.ExitEffect | xv6 Hacking/xv6/proc.c:250-266 | exit's effect on each slot: children to init, the parent awake, init awake if it inherits a zombie |
| ProcTable.ExitWaiters | xv6 Hacking/xv6/proc.c:250-266 | exit leaves nobody asleep in wait beside a zombie child |
| ProcTable.StepKeeps | xv6 Hacking/xv6/proc.c:180-312 | every step of fork, exit, wait, kill and the scheduler keeps parents live, waiters right, pids distinct and each exit counted once |
| ProcTable.NoZombieMissed | xv6 Hacking/xv6/proc.c:270-312 | after every run no process asleep on its own address has a zombie child |
| ProcTable.NoZombieBeside | xv6 Hacking/xv6/proc.c:270-312 | in every run, a process whose last step was to sleep in wait, and that still sleeps, has no zombie child |
| ProcTable.ExitEndsWait | xv6 Hacking/xv6/proc.c:250-253 | and the exit of any child of it makes it ready to run |
| ProcTable.KillEndsWait | xv6 Hacking/xv6/proc.c:303-308 | so does kill, and wait then returns with a zombie child or -1 |
| ProcTable.KilledNeverWaits | xv6 Hacking/xv6/proc.c:303-308 | until its slot is freed a killed process does not sleep in wait again |
| ProcTable.KilledExactly | xv6 Hacking/xv6/proc.c:476-497 | a slot is marked killed exactly when kill has hit it since it was last freed, in use or not |
| ProcTable.ForkMakes | xv6 Hacking/xv6/proc.c:180-220 | when fork is done the child has the caller for a parent, a pid nobody else has, and is ready to run; it is killed already exactly when kill hit its slot before |
| ProcCode.KillZero | xv6 Hacking/xv6/proc.c:476-497 | a run from boot in which kill(0) marks a free slot and the next child is born killed |
| ProcTable.ParentsLive | xv6 Hacking/xv6/proc.c:255-262 | after every run each process but init has a parent that is neither free, nor half made, nor a zombie |
| ProcTable.ReapedOnce | xv6 Hacking/xv6/proc.c:286-300 | the exited pids are the reaped ones and the zombies', each once |
| ProcCode.Ptable.Wakeup1 | xv6 Hacking/xv6/proc.c:454-465 | the loop wakes exactly the sleepers of the channel |
| ProcCode.Ptable.AllocProc | xv6 Hacking/xv6/proc.c:79-92 | takes the first free slot with a new pid; fails exactly when there is none |
| ProcCode.Ptable.PassChildren | xv6 Hacking/xv6/proc.c:255-262 | the loop gives every child to init and wakes init if one is a zombie |
| ProcCode.Ptable.Exit | xv6 Hacking/xv6/proc.c:227-268 | panics exactly for init; otherwise one exit step, with the table consistent again |
| ProcCode.Ptable.WaitOnce | xv6 Hacking/xv6/proc.c:280-311 | reaps the first zombie child, returns its pid and leaves its slot as new; or fails without children or when killed; or sleeps |
| ProcCode.Ptable.Kill | xv6 Hacking/xv6/proc.c:476-497 | marks the first process with the pid killed and wakes it, changing no other; fails exactly when no slot has it |
| HeapModel.SearchEnds | xv6 Hacking/xv6/umalloc.c:30-32 | free's search ends at the node the block belongs after and at no other |
| HeapModel.InsertedOk | xv6 Hacking/xv6/umalloc.c:33-43 | after free the list is in address order, disjoint, with no two adjacent free blocks |
| HeapModel.InsertedUnits | xv6 Hacking/xv6/umalloc.c:33-43 | and covers exactly the old free units and the units freed |
| HeapModel.LinkedPut | xv6 Hacking/xv6/umalloc.c:33-37 | the first if links the block to what follows it, merged or not |
| HeapModel.LinkedJoin | xv6 Hacking/xv6/umalloc.c:38-43 | the second if completes the circular list, merged or not |
| HeapModel.ShrunkUnits | xv6 Hacking/xv6/umalloc.c:76-82 | malloc takes the last units of a block, or the whole block, and no others |
| HeapModel.NotBoth | xv6 Hacking/xv6/umalloc.c:64-90 | no unit is both free and in use |
| HeapModel.UnitsConserved | xv6 Hacking/xv6/umalloc.c:46-90 | free units plus units in use are all units sbrk gave |
| HeapCode.Heap.constructor | xv6 Hacking/xv6/umalloc.c:21-22 | nothing is free or in use before the first call |
| HeapCode.Heap.Insert | xv6 Hacking/xv6/umalloc.c:29-43 | finds the place, in a search that ends, and links and merges the block there |
| HeapCode.Heap.Free | xv6 Hacking/xv6/umalloc.c:24-44 | the block is no longer in use and its units are free; other blocks and the list stay sound |
| HeapCode.Heap.MoreCore | xv6 Hacking/xv6/umalloc.c:46-61 | sbrk's memory joins the free list, which then has a block of the size asked for |
| HeapCode.Heap.Take | xv6 Hacking/xv6/umalloc.c:75-84 | a block of exactly the units asked for, all of them free before |
| HeapCode.Heap.Malloc | xv6 Hacking/xv6/umalloc.c:63-90 | ends after at most one morecore; a new block big enough and apart from all others, or 0 only when sbrk failed and no free block fits; morecore only when none fitted |
| VmModel.MoveKeeps | xv6 Hacking/xv6/kalloc.c:59-95 | a step that moves one page from one place to another keeps every page in exactly one place |
| VmModel.AllocMoves | xv6 Hacking/xv6/kalloc.c:79-95 | kalloc moves one page off the free list and changes no mapping |
| VmModel.FreeMoves | xv6 Hacking/xv6/kalloc.c:55-77 | kfree moves it back |
| VmModel.PutPteLookup | xv6 Hacking/xv6/vm.c:36-55 | writing one entry of a two-level table remaps one page of one directory |
| VmModel.FreeRangeKeeps | xv6 Hacking/xv6/vm.c:264-277 | a page-by-page walk unmaps and frees exactly the pages mapped in the range |
| VmModel.SkipTable | xv6 Hacking/xv6/vm.c:266-268 | skipping an absent table does what walking its pages would |
| VmModel.OnlyTablesKept | xv6 Hacking/xv6/vm.c:235-246 | a call that restores mappings and holders can keep nothing but page tables |
| VmModel.AllGivenBack | xv6 Hacking/xv6/vm.c:342-344 | one that restores the directories as well keeps nothing |
| VmModel.FreedExactly | xv6 Hacking/xv6/vm.c:283-298 | what becomes free with a directory is what it had |
| VmCode.Vm.constructor | xv6 Hacking/xv6/kalloc.c:20-24 | no page is free before kinit1 |
| VmCode.Vm.Freerange | xv6 Hacking/xv6/kalloc.c:46-53 | exactly the whole pages between the addresses become free |
| VmCode.Vm.Kalloc | xv6 Hacking/xv6/kalloc.c:79-95 | the first page of the list; none exactly when it is empty |
| VmCode.Vm.Kfree | xv6 Hacking/xv6/kalloc.c:55-77 | the page goes to the front of the list, filled with junk |
| VmCode.Vm.Walkpgdir | xv6 Hacking/xv6/vm.c:32-55 | the table of the page, made if asked for and missing; no mapping changes; none exactly when it is absent and cannot be made |
| VmCode.Vm.Mappages | xv6 Hacking/xv6/vm.c:57-80 | the pages touched by size bytes at va are mapped in order to the pages given, user and kernel; it stops with a first part of them mapped, with the remap panic exactly at the first page that was mapped already, or without memory |
| VmCode.Vm.Deallocuvm | xv6 Hacking/xv6/vm.c:251-279 | the state a walk over every page of the range would leave, free list order included |
| VmCode.Vm.Allocuvm | xv6 Hacking/xv6/vm.c:219-249 | each new page maps zeroed memory of its own; on failure every mapping is as before and only page tables may be kept |
| VmCode.Vm.Freevm | xv6 Hacking/xv6/vm.c:281-298 | the pages, tables and directory become free, nothing else does, and no other mapping changes |
| VmCode.Vm.Setupkvm | xv6 Hacking/xv6/vm.c:117-136 | a new directory in which, row by row, each page of the row maps the page of its range with the row's flags and nothing else is mapped, or everything as before |
| VmCode.Vm.Copyuvm | xv6 Hacking/xv6/vm.c:313-345 | the child has the same contents and flags page by page in memory of its own, the kernel's rows above KERNBASE and nothing between; on failure every page is given back |
| Merging.SortIsSorted | Concurrent Sorting/msort.c:72-86 | the result is sorted and has the same elements |
| SortCode.MergeHeads | Concurrent Sorting/msort.c:48-61 | the loop places the smaller head each time, so that the rest still to be merged completes the result |
| SortCode.MergeInto | Concurrent Sorting/msort.c:44-69 | the two slices merged, nothing outside the slice written |
| SortCode.MergeSortAux | Concurrent Sorting/msort.c:72-86 | sorts a slice on which the arrays agree, writing neither array outside it |
| SortCode.MergeSort | Concurrent Sorting/msort.c:89-105 | a new array, sorted, with the same elements |
| SortThreads.OkFrame | Concurrent Sorting/tmsort.c:83-89 | what a thread has achieved depends on its own slice of the arrays only |
| SortThreads.StepKeeps | Concurrent Sorting/tmsort.c:46-93 | whichever thread moves, every call stays right and writes only its slice |
| SortThreads.StepWorks | Concurrent Sorting/tmsort.c:72-93 | every step brings the end nearer |
| SortThreads.NotStuck | Concurrent Sorting/tmsort.c:84-89 | until the sort is done some thread can move: joins do not deadlock |
| SortThreads.EitherMoves | Concurrent Sorting/tmsort.c:83-87 | while both halves are unfinished, either thread can take the next step |
| SortThreads.StepSpares | Concurrent Sorting/tmsort.c:83-87 | a call never creates more threads than its count allows |
| SortThreads.ParallelSort | Concurrent Sorting/tmsort.c:46-102 | for every thread count and interleaving: the sequential result, in boundedly many steps, with exactly one thread fewer created than the smaller of thread_count and the number of elements |
| ShellModel.GetToken | xv6 Hacking/xv6/sh.c:265-308 | tokens advance the cursor, and a word is a whole run of word characters |
| ShellRoundTrip.RedirsParse | xv6 Hacking/xv6/sh.c:374-397 | printed redirections are read back in order |
| ShellRoundTrip.SimpleParse | xv6 Hacking/xv6/sh.c:415-446 | so are the words and redirections of a simple command |
| ShellRoundTrip.ExecParse | xv6 Hacking/xv6/sh.c:399-446 | and commands in parentheses with theirs |
| ShellRoundTrip.PipeParse | xv6 Hacking/xv6/sh.c:361-372 | and pipelines |
| ShellRoundTrip.LineParse | xv6 Hacking/xv6/sh.c:344-359 | and lines with & and ; |
| ShellRoundTrip.RoundTrip | xv6 Hacking/xv6/sh.c:327-446 | every tree of nonempty symbol-free words with at most nine arguments a command is read back from its printed line |
| ShellRoundTrip.TenWords | xv6 Hacking/xv6/sh.c:429-445 | a command of ten words or more is an error |
| ShellRoundTrip.WordCharIs | xv6 Hacking/xv6/sh.c:262-263 | which thirteen characters end a word |
| ShellParens.FewestParens | xv6 Hacking/xv6/sh.c:344-446 | every line that is read as the tree has at least as many opening and as many closing parentheses as the printed one |
| ShellParens.PairNeeded | xv6 Hacking/xv6/sh.c:399-413 | the printed line without one of its pairs is an error or reads as another tree |
| ShellTokens.TokensDecide | xv6 Hacking/xv6/sh.c:265-446 | lines with the same tokens, a doubled > counting as one, are both errors or read as the same tree |
| ShellTokens.AnyWhiteSpace | xv6 Hacking/xv6/sh.c:262-276 | so are lines that differ in which of blank, tab, carriage return, newline and vertical tab they use |
| ShellTokens.DoubleArrow | xv6 Hacking/xv6/sh.c:288-294 | and lines with >> in the place of a > |
| ShellCode.Gettoken | xv6 Hacking/xv6/sh.c:265-308 | the loops find the token, its ends and the next cursor |
| ShellCode.PeekAt | xv6 Hacking/xv6/sh.c:310-320 | the cursor skips white space and the answer is about the next character |
| ShellCode.Parseredirs | xv6 Hacking/xv6/sh.c:374-397 | the loop collects the redirections, each file a whole word; fails exactly on a missing file |
| ShellCode.Arguments | xv6 Hacking/xv6/sh.c:429-445 | the loop collects arguments and redirections; fails on a stray symbol or the tenth argument |
| ShellCode.Parseexec | xv6 Hacking/xv6/sh.c:415-446 | a simple command or a block, of whole words of the line |
| ShellCode.Parseblock | xv6 Hacking/xv6/sh.c:399-413 | a line in parentheses; fails exactly without the closing one |
| ShellCode.Parsepipe | xv6 Hacking/xv6/sh.c:361-372 | a pipeline, grouped to the right |
| ShellCode.Parseline | xv6 Hacking/xv6/sh.c:344-359 | a line, the loop wrapping one background command an ampersand |
| ShellCode.Nulterminate | xv6 Hacking/xv6/sh.c:448-493 | NULs are written at the ends of the command's words and nowhere else |
| ShellCode.EndsOutside | xv6 Hacking/xv6/sh.c:448-493 | none of those places is inside a word |
| ShellCode.WordsSurvive | xv6 Hacking/xv6/sh.c:448-493 | so every word, read up to its NUL, is the word that was parsed |
| ShellCode.MemoryIs | xv6 Hacking/xv6/sh.c:448-493 | the tree whose words are the C strings in memory is the tree that was parsed |
| ShellCode.Parsecmd | xv6 Hacking/xv6/sh.c:327-342 | the command for the whole line, its words C strings in memory; leftovers are an error and leave the line alone |
| ShellCode.ParsePrinted | xv6 Hacking/xv6/sh.c:327-342 | parsecmd of a printed line leaves the tree that was printed in memory |
| Regexp.HereStar | xv6 Hacking/xv6/grep.c:98-106 | a starred item matches here exactly when some run of fitting characters is followed by a match of the rest |
| Regexp.MatchHere | xv6 Hacking/xv6/grep.c:84-96 | true exactly when a prefix of the text is denoted by the pattern, the whole text under a final $ |
| Regexp.MatchStar | xv6 Hacking/xv6/grep.c:98-106 | true exactly when a run of fitting characters is followed by a match |
| Regexp.Match | xv6 Hacking/xv6/grep.c:72-82 | true exactly when some suffix starts with a match, or the whole text under a leading ^; the recursion ends |
| Regexp.PlainMatches | xv6 Hacking/xv6/grep.c:72-96 | on the text alone: a pattern without stars occurs in it, a dot for any character, at the start under ^ and at the end before $ |
| Regexp.StarMatches | xv6 Hacking/xv6/grep.c:72-106 | on the text alone: a pattern with one c* is what comes before, then any number of characters equal to c, or any if c is a dot, then what comes after, anchored in the same way |
| NufsModel.GetPut | File System/files/bitmap.c:16-35 | putting a bit changes that bit only |
| NufsModel.SomeBlockFree | File System/files/blocks.c:94-107 | there is always a free block for another inode |
| NufsModel.PatchFlat | File System/files/storage.c:131-149 | a piece copied into one block replaces just those bytes of the file |
| NufsModel.GrownFiles | File System/files/inode.c:93-113 | growing one file keeps its old bytes, all other files, and no two share an inode or block |
| NufsCode.Nufs.constructor | File System/files/blocks.c:59-71 | the image after blocks_init and directory_init is consistent, with the root as its one file |
| NufsCode.Nufs.NewFile | File System/files/storage.c:197-201 | a new empty file, all others unchanged; -1 exactly when no inode is free |
| NufsCode.Nufs.AllocBlock | File System/files/blocks.c:94-107 | the first free block, or -1 exactly when there is none |
| NufsCode.Nufs.AllocInode | File System/files/inode.c:41-68 | an unused inode with an unused block; -1 exactly when no inode is free, never for want of a block |
| NufsCode.Nufs.GrowRound | File System/files/inode.c:101-111 | one round gives the next node its size, making and linking it if it is missing |
| NufsCode.Nufs.GrowInode | File System/files/inode.c:88-113 | node k says size - k * BLOCK_SIZE and the chain ends where that fits a block; it runs out of inodes exactly when fewer are free than it needs |
| NufsCode.Nufs.Walk | File System/files/storage.c:64-69 | ends at the node that holds the offset, or past the chain exactly when it has too few nodes |
| NufsCode.Nufs.CopyAll | File System/files/storage.c:124-149 | the loops replace exactly the bytes from the offset on |
| NufsCode.Nufs.StorageWrite | File System/files/storage.c:97-152 | the file has the new bytes at the offset, the old ones elsewhere, and is as long as it must be; other files are unchanged; it fails exactly when inodes run out |
| NufsCode.PastTheEnd | File System/files/storage.c:66-69 | up to the end of the file the chain falls short exactly at the end on a block boundary |
| NufsCode.Nufs.CopyOut | File System/files/storage.c:71-92 | the loops copy the slice asked for |
| NufsCode.Nufs.StorageRead | File System/files/storage.c:40-95 | the slice asked for, cut at the end; it leaves the file, by a wrapped size or past the chain, exactly when the offset is beyond the file or at its end on a block boundary other than zero |
| NufsCode.ReadAtBlockEnd | File System/files/storage.c:60-69 | a file of one full block, made by blocks_init, mknod and one write, cannot be read at its end |

## Left out

- Hardware and boot code, interrupts and memory ordering: spin locks are atomic and every disk block transfer is one step.
- Directories, path names and link counts of xv6 and of NUFS: they would add members without harder proofs.
- Device drivers: readi and writei pass on a driver's answer, which is a parameter.
- Inode allocation and the inode cache of fs.c (ialloc, iget, iput): the cached inodes are a given table.
- growproc, exec and copyout: page properties are stated for the functions of vm.c.
- NUFS shrinking, freeing and truncation: after the first node the freeing loop of shrink_inode goes on with the node it has just cleared, so a cut chain is not given back.
- The other shell, the other allocator, the queue and vector libraries and the assembly programs.
- Freeing of a struct pipe when both ends are closed, and creation of processes in the sleep model, whose processes are a fixed set.
- Integer overflow of sizes, pids and midpoints: malloc sizes, nextpid and (from + to) / 2 are unbounded; 32-bit counters and offsets are modelled where the code relies on them (pipes, readi, writei).
- FsCode.FileSystem.Writei: when balloc panics nothing is stated but that every bit is set.
- FsCode.FileSystem.constructor: makes no root directory and adds no files, as mkfs goes on to do.
- FsCode.Filewrite: is for inodes that are not devices.
- FileCrash.FilewriteOverLog: is for runs in which nobody else writes while filewrite runs; a buffer is changed in one step between bread and log_write.
- FileCrash.CarryOut: is for an empty log, as it is when no operation runs.
- LogCode.Kernel.constructor: is for the sizes at which LogOverflow.AtomicExactly says the code is atomic; other sizes are covered by LogBounds and LogOverflow.
- LogCode.Kernel.LogTest: is for a caller inside an operation that has budget for a new block, which is what begin_op reserves; callers outside an operation panic in the source.
- LogCode.Kernel.LogWrite: is for the same caller, with nobody between test and append; LogTest and LogAppend are the two steps with others between them.
- LogCode.Kernel.BeginOp: is one pass of the loop; the sleep between passes is in the sleep model.
- LogCode.Kernel.EndOp: is for a caller that has called log_write for every buffer it changed and still holds; the wakeups are in the sleep model.
- LogCode.Kernel.BRelse: is for a holder that has called log_write if it changed the buffer.
- LogCode.Kernel.Commit: stops where it would sleep on a buffer that another process is using.
- LogCode.Kernel.RecoverFromLog: is for boot, when nobody else uses the cache, with two buffers or more.
- SleepInvariant.NoLostWakeup: is for runs in which the read end of a pipe is closed with nobody inside piperead, as file reference counts ensure, and sleep locks are released by their holders.
- ProcCode.Ptable.Exit: leaves out closing files and dropping the current directory.
- ProcCode.Ptable.WaitOnce: is one pass of the loop, and leaves out freeing the child's kernel stack and page table.
- HeapCode.Heap.Free: is for pointers that malloc returned and that are still in use.
- VmCode.Vm.Allocuvm: asks that no page of the range be mapped yet; otherwise mappages panics.
- VmCode.Vm.Mappages: is for a size above zero and a range that does not wrap around, and physical pages, not addresses, are given; user pages must be held by the caller.
- VmCode.Vm.Deallocuvm: is for ranges below KERNBASE, where pages are owned.
- VmCode.Vm.Copyuvm: asks that every page below sz be present; otherwise the source panics.
- SortThreads.ParallelSort: thread creation always succeeds; the source ignores its result.
- NufsCode.Nufs.StorageWrite: bytes between the old end and an offset beyond it are not specified: they are what the blocks held.
- NufsCode.Nufs.constructor: the entries that directory_put adds to the root are left out.
- NufsCode.Nufs.NewFile: the entry that directory_put adds for the new file is left out.
