# Verified models of an xv6 kernel and of scheduling simulators

Dafny models of the parts of the repository that carry invariants across functions, with
proofs. `dafny verify dfyconfig.toml` checks everything.

| file | models |
|---|---|
| Blocks, RedoLog | the disk, atomic block writes, crashes, and what the on-disk redo log means |
| Bio, Log | the LRU buffer cache with pins, and the log above it: admission, absorption, commit, recovery |
| Bitmap, Files | the free map, block allocation, the inode block map and its copy on disk, file contents, truncation, chunked writes |
| FilesShared, FilesCrash | several processes on one file system, and files across crashes: the file system on top of the redo log |
| PageTable, UserMemory | the frame allocator, three-level page tables, growing, copying, sharing and tearing down address spaces |
| Umalloc | the user-level allocator: one circular address-ordered free list with coalescing |
| ExitWait, ExitWaitRuns, ExitWaitProgress, SleepWake | process life cycle, and semaphores and sleep locks, as interleaved steps with explicit locks |
| Virtio, Pipe | the disk driver against its device, and pipes |
| Sched, Edf, Mlfq, Rms | multiprocessor scheduling simulators |
| Paths, Grep | path building and resolution, and the pattern matcher with its line loop |

How things are modelled:

- The disk holds numbered blocks and performs single-block writes atomically in the order
  issued. A crash keeps a prefix of the writes and drops all memory.
- The log, cache, file, memory, pipe and driver code is imperative, with the source's
  fields. Ghost state beside the fields gives its meaning: the logical contents of blocks,
  the owner of each block or frame, the flat map that page tables implement.
- A frame is named by its number, its address being 4096 times that. One invariant covers
  the tables of all processes at once, so what an operation does not mention is unchanged
  for every process.
- Process and driver code is cut at the points where another CPU or the device can
  interfere. Spinlocks are ownership steps. A process that holds its own lock and is past
  its last test counts as asleep.
- The device takes requests in ring order and finishes them in any order, with status 0.
- Files refine byte sequences on the logical blocks that the log presents. Inodes are a
  table in memory, of which iupdate() writes one entry into its block; between transactions
  all copies on disk are right. Every block an operation changes is among those it logs.
- A block that balloc() has marked and its caller has not yet put into a slot is pending for
  that caller; the invariant allows any number of them, for any processes.
- While a commit runs, readers take and release buffers between its steps in any way.

Assumptions that the code makes of its callers appear as `requires` clauses: home blocks
lie outside the log area; an operation logs fewer than MAXOPBLOCKS distinct blocks; only
the holder of a buffer edits and logs it; a buffer has one disk request at a time; threads
die before the parent whose memory they borrow, and neither resizes meanwhile; path names
have no NUL; simulators start with bursts of at least 1, arrivals of at least 0 and no
start times, and RMS periods at least 0.

Where the code does less than it seems to, the exact condition is proved: run_edf() ends if
and only if every deadline is below 100000; malloc() hands out memory beyond the break
exactly when a request of 2^27 units or more fits no free block and sbrk() succeeds;
getcwd() stays inside its array exactly for directories at most 32 deep; grep stops at a
line of more than 1022 characters.

## Model

| member | source | states |
|---|---|---|
| RedoLog.CrashAtomicity | Groupname_Project1_xv6CustomizeSystemCalls/xv6-riscv/kernel/log.c:66-204 | Through any number of power cycles, each cut at any write inside commit() and at any writes inside any number of recoveries, the home blocks equal the result of whole transactions in order, and an interrupted one counts exactly when its header write reached the disk. |
| RedoLog.CommitCrash | Groupname_Project1_xv6CustomizeSystemCalls/xv6-riscv/kernel/log.c:179-204 | After any prefix of commit()'s writes the log is well formed, and recovery would give the old home blocks before the header write and the new ones from it on. |
| RedoLog.RecoveryCrash | Groupname_Project1_xv6CustomizeSystemCalls/xv6-riscv/kernel/log.c:66-124 | A crash after any prefix of recovery's writes leaves a disk from which recovery gives the same home blocks; all of them leave a clean log. |
| RedoLog.Published | Groupname_Project1_xv6CustomizeSystemCalls/xv6-riscv/kernel/log.c:102-115 | Once the header is written the log says exactly which block holds which data, and no home block has moved yet. |
| RedoLog.OverlaySameHome | Groupname_Project1_xv6CustomizeSystemCalls/xv6-riscv/kernel/log.c:66-84 | Applying a transaction's blocks depends only on home blocks, never on what the log area holds. |
| Bio.BCache.constructor | Groupname_Project1_xv6CustomizeSystemCalls/xv6-riscv/kernel/bio.c:36-53 | binit(): the ring is a permutation of all buffers, every one unused. |
| Bio.BCache.FindCached | Groupname_Project1_xv6CustomizeSystemCalls/xv6-riscv/kernel/bio.c:58-73 | The buffer found is the one that caches the block, and NBUF means none does. |
| Bio.BCache.FindVictim | Groupname_Project1_xv6CustomizeSystemCalls/xv6-riscv/kernel/bio.c:75-88 | The victim is unused and was released before every other unused buffer; none is returned exactly when all are in use. |
| Bio.BCache.Bget | Groupname_Project1_xv6CustomizeSystemCalls/xv6-riscv/kernel/bio.c:58-89 | At most one buffer caches a block afterwards; a hit keeps contents and adds a reference, a miss recycles the least recently released buffer. |
| Bio.BCache.Bread | Groupname_Project1_xv6CustomizeSystemCalls/xv6-riscv/kernel/bio.c:92-103 | The returned buffer is locked, valid and counted once more; only that buffer changes. |
| Bio.BCache.Brelse | Groupname_Project1_xv6CustomizeSystemCalls/xv6-riscv/kernel/bio.c:116-137 | The reference is dropped, and a buffer that becomes unused moves to the most recent end, so ring order is release order. |
| Bio.ToFrontPermutation | Groupname_Project1_xv6CustomizeSystemCalls/xv6-riscv/kernel/bio.c:124-134 | Moving a buffer to the front leaves the ring a permutation of all buffers. |
| Bio.ToFrontRecency | Groupname_Project1_xv6CustomizeSystemCalls/xv6-riscv/kernel/bio.c:124-134 | Moving to the front keeps the ring sorted by time of release. |
| Bio.UnlinkLinked | Groupname_Project1_xv6CustomizeSystemCalls/xv6-riscv/kernel/bio.c:125-127 | Taking a node out rewrites exactly two links and leaves a ring of the others. |
| Bio.PushLinked | Groupname_Project1_xv6CustomizeSystemCalls/xv6-riscv/kernel/bio.c:128-133 | Linking a node in behind the head gives the ring with it in front. |
| Log.TxnLog.Bread | Groupname_Project1_xv6CustomizeSystemCalls/xv6-riscv/kernel/bio.c:92-103 | A client reads the last contents logged for the block, however stale the disk is, or meets "no buffers" only when all are referenced and the block is not pinned. |
| Log.UnusedEqualsDisk | Groupname_Project1_xv6CustomizeSystemCalls/xv6-riscv/kernel/bio.c:75-88 | A valid buffer that nobody references equals the disk, so recycling it loses nothing. |
| Log.TxnLog.BeginOp | Groupname_Project1_xv6CustomizeSystemCalls/xv6-riscv/kernel/log.c:126-143 | An operation is admitted exactly when no commit runs and the log has room for it and all that run; the reservation invariant is kept. |
| Log.TxnLog.LogWrite | Groupname_Project1_xv6CustomizeSystemCalls/xv6-riscv/kernel/log.c:206-236 | The block is recorded and pinned once however often it is logged, the logical contents are updated, and neither panic can happen to an operation within its budget; no commit is under way. |
| Log.TxnLog.EndOp | Groupname_Project1_xv6CustomizeSystemCalls/xv6-riscv/kernel/log.c:145-176 | The reservation is given back, and the caller must commit exactly when it was the last. |
| Log.AdmitLog | Groupname_Project1_xv6CustomizeSystemCalls/xv6-riscv/kernel/log.c:206-236 | The reservation of an operation that logs fewer than MAXOPBLOCKS distinct blocks covers every block it logs, whatever the others do. |
| Log.AdmitBegin | Groupname_Project1_xv6CustomizeSystemCalls/xv6-riscv/kernel/log.c:126-143 | The admission test leaves room for the new operation's whole budget. |
| Log.TxnLog.Commit | Groupname_Project1_xv6CustomizeSystemCalls/xv6-riscv/kernel/log.c:194-204 | Whatever readers take and release between its steps, a commit that does not panic for want of a buffer lets the disk see exactly the writes that crash atomicity is about, in that order; afterwards disk and logical contents agree, the log is empty and every pin is gone. Without readers an unused buffer is enough. |
| Log.TxnLog.Settle | Groupname_Project1_xv6CustomizeSystemCalls/xv6-riscv/kernel/bio.c:75-88 | Readers may hold and release any home blocks; the commit waits only for the block it wants, and finds a buffer unless all are referenced and none caches its log block. |
| Log.TxnLog.WriteLog | Groupname_Project1_xv6CustomizeSystemCalls/xv6-riscv/kernel/log.c:178-192 | The logical contents of the listed blocks reach the log blocks in order, with readers between the blocks, and no home block changes. |
| Log.TxnLog.WriteHead | Groupname_Project1_xv6CustomizeSystemCalls/xv6-riscv/kernel/log.c:100-115 | The header written holds the count and the block list. |
| Log.TxnLog.InstallTrans | Groupname_Project1_xv6CustomizeSystemCalls/xv6-riscv/kernel/log.c:65-84 | Every logged block reaches its home and loses its pin; the logical contents stay. |
| Log.TxnLog.ReadHead | Groupname_Project1_xv6CustomizeSystemCalls/xv6-riscv/kernel/log.c:86-98 | The block list in memory is what the header on disk says. |
| Log.TxnLog.RecoverFromLog | Groupname_Project1_xv6CustomizeSystemCalls/xv6-riscv/kernel/log.c:117-124 | The disk sees exactly the writes of recovery and the log opens with home blocks equal to what was durable. |
| Log.CommitFindsBuffer | Groupname_Project1_xv6CustomizeSystemCalls/xv6-riscv/kernel/log.c:178-192 | With nobody holding a buffer, some buffer is unused if and only if fewer than NBUF blocks are logged; NBUF equals LOGBLOCKS. |
| Log.TxnLog.CommitAlone | Groupname_Project1_xv6CustomizeSystemCalls/xv6-riscv/kernel/log.c:178-204 | While nobody holds a buffer a commit always completes: admission keeps fewer than LOGBLOCKS = NBUF blocks in the log, so a buffer is unused; the disk sees exactly the commit writes and equals the logical contents. |
| Bitmap.BytesPack | Groupname_Project1_xv6CustomizeSystemCalls/xv6-riscv/kernel/fs.c:64-89 | A block packed from bytes reads back as those bytes. |
| Bitmap.MarkedOne | Groupname_Project1_xv6CustomizeSystemCalls/xv6-riscv/kernel/fs.c:76-81 | Setting or clearing the mark of one block leaves the mark of every other as it was. |
| Bitmap.FindFree | Groupname_Project1_xv6CustomizeSystemCalls/xv6-riscv/kernel/fs.c:72-88 | The scan finds the first unmarked block, and finds none only when all are marked. |
| Files.MarkedIsReached | Groupname_Project1_xv6CustomizeSystemCalls/xv6-riscv/kernel/fs.c:64-106 | Block conservation: a block is marked exactly when it is metadata, pending for one caller of balloc(), or in some inode's slot, and then in one slot only. |
| Files.EmptyDisk | Groupname_Project1_xv6CustomizeSystemCalls/xv6-riscv/mkfs/mkfs.c:92-252 | For every layout there is a disk in order: all inodes empty, exactly the metadata blocks marked. |
| Files.FileSystem.Balloc | Groupname_Project1_xv6CustomizeSystemCalls/xv6-riscv/kernel/fs.c:64-89 | A newly marked and zeroed block that was free and is now pending for the caller, or 0 exactly with every block marked; the invariant holds, and no file changes. |
| Files.FileSystem.Bfree | Groupname_Project1_xv6CustomizeSystemCalls/xv6-riscv/kernel/fs.c:91-106 | Frees exactly one block; "freeing free block" cannot happen to a block that an inode reaches. |
| Files.FileSystem.Bmap | Groupname_Project1_xv6CustomizeSystemCalls/xv6-riscv/kernel/fs.c:402-444 | The block at an index, allocated with the indirect block if need be; a mapped index changes nothing, no file's contents change, and 0 means a full disk. |
| Files.FileSystem.Iupdate | Groupname_Project1_xv6CustomizeSystemCalls/xv6-riscv/kernel/fs.c:222-242 | The copy of the inode on disk becomes that in memory; no file and no mark changes, and the block is logged. |
| Files.StoredAgain | Groupname_Project1_xv6CustomizeSystemCalls/xv6-riscv/kernel/fs.c:222-242 | After an operation on one inode and its iupdate() the copies of all inodes on disk are right again. |
| Files.Attach | Groupname_Project1_xv6CustomizeSystemCalls/xv6-riscv/kernel/fs.c:405-444 | Putting a pending block into an empty slot keeps the whole invariant: marks, slots and sizes. |
| Files.FileSystem.Readi | Groupname_Project1_xv6CustomizeSystemCalls/xv6-riscv/kernel/fs.c:490-519 | With k the smaller of n and what the file has from the offset: -1 exactly when fewer than k bytes can be copied out, else k bytes; what is delivered is always the file's bytes from the offset on; an offset past the end or a sum of 2^32 or more gives 0 and no data; nothing changes. |
| Files.FileSystem.Writei | Groupname_Project1_xv6CustomizeSystemCalls/xv6-riscv/kernel/fs.c:521-562 | -1 exactly for an offset past the size, a sum of 2^32 or more, or an end past the largest file, changing nothing; else the first r bytes are spliced into the file, all of them unless every block is in use or the next chunk, up to the end of its block or of the data, cannot be copied in; every other file is the same; every block that changed is logged, and inodes on disk are as in memory again. |
| Files.FileSystem.WriteThenRead | Groupname_Project1_xv6CustomizeSystemCalls/xv6-riscv/kernel/fs.c:490-562 | The round trip: after writei() a readi() from the same offset, of any length at least as large, begins with the bytes that were written. |
| Files.WrittenIsThere | Groupname_Project1_xv6CustomizeSystemCalls/xv6-riscv/kernel/fs.c:540-556 | A file into which bytes were spliced holds those bytes there. |
| Files.DataStep | Groupname_Project1_xv6CustomizeSystemCalls/xv6-riscv/kernel/fs.c:539-551 | Writing one block of a file changes those bytes of that file and no byte of any other, across the direct and indirect parts. |
| Files.WritingDone | Groupname_Project1_xv6CustomizeSystemCalls/xv6-riscv/kernel/fs.c:553-561 | When the loop of writei() ends, the file is the old one with the written bytes spliced in, and every block below the new size is mapped. |
| Files.KeptFile | Groupname_Project1_xv6CustomizeSystemCalls/xv6-riscv/kernel/fs.c:405-562 | A file whose mapped blocks keep their places and contents is the same byte sequence. |
| Files.FileSystem.Itrunc | Groupname_Project1_xv6CustomizeSystemCalls/xv6-riscv/kernel/fs.c:446-476 | The inode is empty, exactly its blocks are free, each freed once, and all other files are the same; every block that changed is logged, and inodes on disk are as in memory again. |
| Files.TruncationRestores | Groupname_Project1_xv6CustomizeSystemCalls/xv6-riscv/kernel/fs.c:405-476 | A file that owned nothing, grown in any way and truncated, leaves every mark as it was. |
| Files.FileSystem.Filewrite | Groupname_Project1_xv6CustomizeSystemCalls/xv6-riscv/kernel/file.c:148-173 | The bytes written are a prefix, all unless it stops for a stated reason (a full disk, data that cannot be copied in, the offset or the size); the file is spliced and the offset moves with them; the work is a chain of transactions, each a writei() of at most 3072 bytes that starts where the one before wrote all it was asked to, and logs every block it changes, at most seven when the free map is one block. |
| Files.ChainWrote | Groupname_Project1_xv6CustomizeSystemCalls/xv6-riscv/kernel/file.c:155-173 | Such a chain splices into the file exactly the bytes it wrote, and one whose last transaction fell short stopped for one of those reasons. |
| Files.SevenBlocks | Groupname_Project1_xv6CustomizeSystemCalls/xv6-riscv/kernel/file.c:149-153 | Any set of logged blocks that a write across four block indices allows has at most seven members. |
| Files.SpliceTwice | Groupname_Project1_xv6CustomizeSystemCalls/xv6-riscv/kernel/file.c:155-172 | Writing two chunks in turn is writing them as one. |
| FilesShared.SharedStep | Groupname_Project1_xv6CustomizeSystemCalls/xv6-riscv/kernel/fs.c:64-106 | With any number of processes between balloc() and the assignment of the slot, every step of any of them keeps the whole invariant and every file but the one whose lock it holds; balloc() takes no block that is pending for another. |
| FilesShared.RunKeepsOk | Groupname_Project1_xv6CustomizeSystemCalls/xv6-riscv/kernel/fs.c:405-444 | However the steps of several writei() interleave, each state of the run keeps block conservation and the rest of the invariant. |
| FilesShared.HolderUndisturbed | Groupname_Project1_xv6CustomizeSystemCalls/xv6-riscv/kernel/fs.c:521-562 | Whatever the others do, the inode that a process holds, its file, and the blocks pending for it stay as they are. |
| FilesShared.AppendAlone | Groupname_Project1_xv6CustomizeSystemCalls/xv6-riscv/kernel/fs.c:521-562 | The steps of a process that appends a block are a run of the model: taking the lock, balloc(), the slot, the page, the size, iupdate(); after it the file is the old one with the page behind it. |
| FilesShared.TakeEffect | Groupname_Project1_xv6CustomizeSystemCalls/xv6-riscv/kernel/fs.c:64-89 | balloc() marks exactly one block more, zeroes it, and it is pending for the caller. |
| FilesShared.WriteEffect | Groupname_Project1_xv6CustomizeSystemCalls/xv6-riscv/kernel/fs.c:540-556 | A write step changes the file's bytes in one block to those of the page, and no others. |
| FilesCrash.FilesSurvive | Groupname_Project1_xv6CustomizeSystemCalls/xv6-riscv/kernel/log.c:66-204 | Through any number of power cycles, cut anywhere in commits and recoveries, the disk ends up holding the file system, in order and with its files, exactly as the last transaction whose header write reached the disk left it. |
| FilesCrash.FilewriteCrash | Groupname_Project1_xv6CustomizeSystemCalls/xv6-riscv/kernel/file.c:148-173 | A power failure at any write of any transaction of a filewrite() leaves, after recovery, the old file with a prefix of the data in it, that of whole transactions, and all other files as they were. |
| FilesCrash.CrashInFilewrite | Groupname_Project1_xv6CustomizeSystemCalls/xv6-riscv/kernel/file.c:148-173 | For every chain of transactions that filewrite() makes there are commits within the log's size, and a crash in any of them leaves what FilewriteCrash says. |
| FilesCrash.GroupCrash | Groupname_Project1_xv6CustomizeSystemCalls/xv6-riscv/kernel/log.c:127-167 | filewrite() shares group commits with any operations of other processes on other files: after a crash at any write of a commit, and of any recoveries, the disk holds the file system, in order, as it was between two groups, and the file has the bytes that filewrite() had written by then; those of the torn group count exactly when its header write reached the disk. |
| FilesCrash.CrashInGroup | Groupname_Project1_xv6CustomizeSystemCalls/xv6-riscv/kernel/log.c:194-236 | For every run of operations cut into groups that fit in the log there are such commits, one for each group, and a crash in any of them is as GroupCrash says. |
| FilesCrash.OtherWrite | Groupname_Project1_xv6CustomizeSystemCalls/xv6-riscv/kernel/file.c:148-173 | A transaction of a filewrite() on another file is one of those operations. |
| FilesCrash.RunKeeps | Groupname_Project1_xv6CustomizeSystemCalls/xv6-riscv/kernel/file.c:155-173 | In every state of such a run the file system is in order and the file has exactly the prefix written so far, whatever comes between the transactions. |
| FilesCrash.OperationIsTxn | Groupname_Project1_xv6CustomizeSystemCalls/xv6-riscv/kernel/log.c:206-236 | An operation that logged every home block it changed is a transaction of the log with the same effect. |
| FilesCrash.HeldFiles | Groupname_Project1_xv6CustomizeSystemCalls/xv6-riscv/kernel/fs.c:41-48 | A disk whose home blocks are those of a file system in order mounts with the same inodes and the same files. |
| PageTable.PxIsDigit | Groupname_Project1_xv6CustomizeSystemCalls/xv6-riscv/kernel/riscv.h:372-374 | The index macro extracts the base-512 digit of the page number for its level. |
| PageTable.PteParts | Groupname_Project1_xv6CustomizeSystemCalls/xv6-riscv/kernel/riscv.h:364-369 | Frame, flags and each tested bit of an entry come back out as they went in. |
| PageTable.TranslateIsFlat | Groupname_Project1_xv6CustomizeSystemCalls/xv6-riscv/kernel/vm.c:76-104 | Walking the three levels in memory as the processor does gives exactly the flat map's entry for every address below MAXVA. |
| PageTable.Memory.Kalloc | Groupname_Project1_xv6CustomizeSystemCalls/xv6-riscv/kernel/kalloc.c:68-82 | Takes the head of the free list, filled with junk, or fails exactly when the list is empty. |
| PageTable.Memory.Kfree | Groupname_Project1_xv6CustomizeSystemCalls/xv6-riscv/kernel/kalloc.c:46-63 | The page becomes the head of the free list; no table and no data page changes. |
| PageTable.Memory.Freerange | Groupname_Project1_xv6CustomizeSystemCalls/xv6-riscv/kernel/kalloc.c:33-40 | Exactly the given frames become free. |
| PageTable.Memory.Walk | Groupname_Project1_xv6CustomizeSystemCalls/xv6-riscv/kernel/vm.c:88-104 | Finds the level-0 entry, adding tables only when asked; it then fails exactly when there are fewer free frames than missing tables on the way, and takes exactly one for each; no translation of any root changes. |
| PageTable.Memory.Mappages | Groupname_Project1_xv6CustomizeSystemCalls/xv6-riscv/kernel/vm.c:132-160 | The flat map gains exactly the pages mapped so far, and no other translation of any root changes; it fails if and only if the tables missing on the way to the pages of the range outnumber the free frames, and otherwise takes exactly one frame for each. |
| PageTable.Memory.Uvmunmap | Groupname_Project1_xv6CustomizeSystemCalls/xv6-riscv/kernel/vm.c:176-194 | The flat map loses exactly the range; asked to free, it frees exactly the frames those pages own. |
| PageTable.Memory.Freewalk | Groupname_Project1_xv6CustomizeSystemCalls/xv6-riscv/kernel/vm.c:241-255 | Frees exactly the tables at and below one, and "freewalk: leaf" cannot happen once the pages are gone. |
| PageTable.NewTable | Groupname_Project1_xv6CustomizeSystemCalls/xv6-riscv/kernel/vm.c:97-100 | A zeroed page becomes a table without changing any translation. |
| PageTable.MapRangeAt | Groupname_Project1_xv6CustomizeSystemCalls/xv6-riscv/kernel/vm.c:146-158 | What a mapped range says of each page of each root. |
| PageTable.UnmapRangeAt | Groupname_Project1_xv6CustomizeSystemCalls/xv6-riscv/kernel/vm.c:183-193 | What an unmapped range says of each page of each root. |
| PageTable.LifetimeConserves | Groupname_Project1_xv6CustomizeSystemCalls/xv6-riscv/kernel/vm.c:257-263 | Whatever a root took and then gave back, pages and tables, leaves the use of every frame as it was. |
| PageTable.TookThenGave | Groupname_Project1_xv6CustomizeSystemCalls/xv6-riscv/kernel/vm.c:208-218 | Giving back all pages taken leaves only page tables taken: every leaf frame is returned. |
| UserMemory.Uvmalloc | Groupname_Project1_xv6CustomizeSystemCalls/xv6-riscv/kernel/vm.c:198-221 | All pages up to the new size are new, zeroed and mapped to frames of their own; or none is and every leaf frame is returned, exactly when pages and missing tables together outnumber the free frames. |
| UserMemory.Uvmdealloc | Groupname_Project1_xv6CustomizeSystemCalls/xv6-riscv/kernel/vm.c:227-237 | Exactly the pages between the sizes go, with their frames, whatever the alignment. |
| UserMemory.Uvmcopy | Groupname_Project1_xv6CustomizeSystemCalls/xv6-riscv/kernel/vm.c:271-297 | The child's pages are mapped where the parent's are, with the same permissions and contents in frames of their own; it fails, keeping nothing but tables, exactly when the parent's mapped pages and the tables missing for them outnumber the free frames. |
| UserMemory.Uvmshare | Groupname_Project1_xv6CustomizeSystemCalls/xv6-riscv/kernel/vm.c:451-475 | The thread's pages are the parent's very entries and no frame is taken but for tables; it fails, with nothing left mapped, exactly when the missing tables outnumber the free frames. |
| UserMemory.Uvmcreate | Groupname_Project1_xv6CustomizeSystemCalls/xv6-riscv/kernel/vm.c:164-171 | A new root with no pages, or nothing, exactly when no frame is free. |
| UserMemory.Uvmfree | Groupname_Project1_xv6CustomizeSystemCalls/xv6-riscv/kernel/vm.c:259-263 | All tables and owned pages of the root are free; all other roots keep their translations, frames and data. |
| UserMemory.Vmfault | Groupname_Project1_xv6CustomizeSystemCalls/xv6-riscv/kernel/vm.c:417-436 | A page appears, zeroed and in a frame of its own, if and only if it is below the size, not yet mapped, and frames are left for it and its missing tables; otherwise the result is 0 and nothing changes but tables. |
| UserMemory.ProcPagetable | Groupname_Project1_xv6CustomizeSystemCalls/xv6-riscv/kernel/proc.c:193-221 | An address space with exactly the two special pages if and only if three frames are free; else every frame as it was. |
| UserMemory.SpecialPages | Groupname_Project1_xv6CustomizeSystemCalls/xv6-riscv/kernel/proc.c:205-218 | What those two pages are: the trampoline readable and executable, the trapframe readable and writable, neither open to user code, and nothing else mapped. |
| UserMemory.FreePagetable | Groupname_Project1_xv6CustomizeSystemCalls/xv6-riscv/kernel/proc.c:162-176 | A process gives its tables and own pages back, a thread its tables only. |
| UserMemory.FreeprocMemory | Groupname_Project1_xv6CustomizeSystemCalls/xv6-riscv/kernel/proc.c:155-176 | freeproc() frees exactly the two trapframe pages, the tables and, for a process, its own pages. |
| UserMemory.Growproc | Groupname_Project1_xv6CustomizeSystemCalls/xv6-riscv/kernel/proc.c:247-264 | Growing succeeds if and only if the new size is at most TRAPFRAME and the free frames cover the new pages and their missing tables, and takes only those; shrinking always succeeds and frees exactly the frames of the pages that go; no data and no translation of another process changes; failure changes no translation; when the sum falls below zero nothing changes at all. |
| UserMemory.SysSbrk | Groupname_Project1_xv6CustomizeSystemCalls/xv6-riscv/kernel/sysproc.c:52-81 | The size moves at once, under the exact condition of growproc(), or lazily, exactly up to TRAPFRAME and without taking memory, or stays; shrinking unmaps exactly the pages between the sizes; the process always owns exactly what freeproc() will give back. |
| UserMemory.Allocproc | Groupname_Project1_xv6CustomizeSystemCalls/xv6-riscv/kernel/proc.c:98-151 | A trapframe, a signal trapframe and an address space with the two special pages if and only if five frames are free; else, whichever step fails, every frame as before. |
| UserMemory.Kfork | Groupname_Project1_xv6CustomizeSystemCalls/xv6-riscv/kernel/proc.c:268-313 | fork() succeeds if and only if the free frames cover the child's five, a copy of each mapped page, and the tables those need; 5 + 3 for each page below the size is always enough. The child then has private copies of the parent's pages as they were, and its registers with a0 = 0; on failure every frame, translation and datum is as before. |
| UserMemory.Kclone | Groupname_Project1_xv6CustomizeSystemCalls/xv6-riscv/kernel/proc.c:707-757 | Succeeds if and only if the free frames cover the thread's five and the tables that the parent's mapped pages need; 5 + 2 for each page is always enough. The thread then has the parent's very pages, and its registers but for pc, stack pointer and argument; on failure every frame, translation and datum is as before. |
| UserMemory.EnoughFrames | Groupname_Project1_xv6CustomizeSystemCalls/xv6-riscv/kernel/vm.c:271-297 | A frame and two tables for each page bound what copying needs, two tables what sharing needs. |
| UserMemory.ThreadLifetime | Groupname_Project1_xv6CustomizeSystemCalls/xv6-riscv/kernel/proc.c:707-757 | Creating a thread with its trapframes and freeing it, whatever fails on the way, leaves the parent's translations, all data and the use of every frame as they were. |
| UserMemory.ForkLifetime | Groupname_Project1_xv6CustomizeSystemCalls/xv6-riscv/kernel/proc.c:268-313 | Forking, trapframes included, and freeing the child, whatever fails on the way, leaves all translations, data and uses of frames as they were. |
| UserMemory.GrowLifetime | Groupname_Project1_xv6CustomizeSystemCalls/xv6-riscv/kernel/proc.c:98-264 | A process that is made, grows, shrinks, grows lazily and faults in any order, and is freed, gives back exactly what it took; all else is untouched. |
| Umalloc.OneOwner | Groupname_Project1_xv6CustomizeSystemCalls/xv6-riscv/user/umalloc.c:24-90 | Every unit of the spans obtained is in exactly one block, free or live. |
| Umalloc.FreeInsertOk | Groupname_Project1_xv6CustomizeSystemCalls/xv6-riscv/user/umalloc.c:33-42 | Freeing keeps the list ordered with no two blocks adjacent, and adds exactly the freed units. |
| Umalloc.SlotTest | Groupname_Project1_xv6CustomizeSystemCalls/xv6-riscv/user/umalloc.c:30-32 | The loop test of free() holds at the block's place in the circle and nowhere else, so the search stops there. |
| Umalloc.FreeStep | Groupname_Project1_xv6CustomizeSystemCalls/xv6-riscv/user/umalloc.c:33-43 | The four header updates of free() turn the circle into the one with the block inserted and joined. |
| Umalloc.CarveStep | Groupname_Project1_xv6CustomizeSystemCalls/xv6-riscv/user/umalloc.c:75-84 | Unlinking or splitting keeps the circle and the exact partition, and touches no live block. |
| Umalloc.GrowStep | Groupname_Project1_xv6CustomizeSystemCalls/xv6-riscv/user/umalloc.c:54-58 | A fresh span above the break is apart from everything and extends the partition by exactly itself. |
| Umalloc.PayloadIsFree | Groupname_Project1_xv6CustomizeSystemCalls/xv6-riscv/user/umalloc.c:24-44 | A program may overwrite any unit of its block but the header without harming the allocator. |
| Umalloc.Heap.Free | Groupname_Project1_xv6CustomizeSystemCalls/xv6-riscv/user/umalloc.c:24-44 | The block leaves the live ones and joins the list at its place; other live memory is untouched, and the search terminates. |
| Umalloc.Heap.Morecore | Groupname_Project1_xv6CustomizeSystemCalls/xv6-riscv/user/umalloc.c:46-61 | It fails, changing nothing, exactly when sbrk() does. Else some free block fits the request and the circle grew by one span above all blocks, which lies below the break exactly when the request is below 2^27 units. |
| Umalloc.Heap.Round | Groupname_Project1_xv6CustomizeSystemCalls/xv6-riscv/user/umalloc.c:74-89 | One turn round the circle finds the first block that fits, or none exactly when none fits. |
| Umalloc.Heap.Malloc | Groupname_Project1_xv6CustomizeSystemCalls/xv6-riscv/user/umalloc.c:63-90 | A fresh live block of enough units from the first fit or from new memory, others untouched; 0 exactly when nothing fits and sbrk() fails; the second turn always succeeds. All blocks stay in memory that sbrk() gave if and only if the request is below 2^27 units, or fits a free block, or sbrk() fails; otherwise the block handed out ends above the break. |
| ExitWait.ExitWaitSafe | Groupname_Project1_xv6CustomizeSystemCalls/xv6-riscv/kernel/proc.c:317-416 | In every state of every interleaved run parents are live, each ZOMBIE has a live parent, and with wait_lock free nobody sleeps in wait or join for a child that is a ZOMBIE. |
| ExitWait.ReapedOnce | Groupname_Project1_xv6CustomizeSystemCalls/xv6-riscv/kernel/proc.c:386-402 | Of any two steps of a run at most one reaps a given pid. |
| ExitWait.InvStep | Groupname_Project1_xv6CustomizeSystemCalls/xv6-riscv/kernel/proc.c:268-416 | Every step of fork, exit, wait, join, kill, sleep, wakeup and the scheduler keeps the invariant. |
| ExitWait.ZombieStep | Groupname_Project1_xv6CustomizeSystemCalls/xv6-riscv/kernel/proc.c:359-364 | A process that becomes a ZOMBIE is no slot's parent, and its own parent is live and neither asleep in wait nor about to be. |
| ExitWait.ReparentStep | Groupname_Project1_xv6CustomizeSystemCalls/xv6-riscv/kernel/proc.c:317-326 | A child handed to init has init as its parent, and the wakeup that reaches init is still to come, under wait_lock. |
| ExitWait.InitWokenFirst | Groupname_Project1_xv6CustomizeSystemCalls/xv6-riscv/kernel/proc.c:317-326 | In any run from there wait_lock is let go only after the turn of wakeup() at init's own slot. |
| ExitWait.InitAwake | Groupname_Project1_xv6CustomizeSystemCalls/xv6-riscv/kernel/proc.c:564-576 | That turn leaves init neither asleep in wait nor about to be. |
| ExitWait.ReapStep | Groupname_Project1_xv6CustomizeSystemCalls/xv6-riscv/kernel/proc.c:389-402 | A parent frees a ZOMBIE of its own whose pid was never reaped before. |
| ExitWait.SleepTurn | Groupname_Project1_xv6CustomizeSystemCalls/xv6-riscv/kernel/proc.c:535-560 | Going to sleep with p->lock taken before wait_lock is released misses no exit. |
| ExitWaitRuns.WaitTurn | Groupname_Project1_xv6CustomizeSystemCalls/xv6-riscv/kernel/proc.c:373-416 | In every state of every run: a scan of wait or join collects the first ZOMBIE child that is wanted, clearing exactly its slot and noting its pid with its status (or, when copying out fails, clears nothing); it returns empty-handed exactly when there is no such child at all or the caller is killed, and then no wanted child is a ZOMBIE; or else it goes to sleep. |
| ExitWaitRuns.SleepsForChild | Groupname_Project1_xv6CustomizeSystemCalls/xv6-riscv/kernel/proc.c:762-800 | Whoever sleeps in wait or join has a child to wait for. |
| ExitWaitRuns.ExitStays | Groupname_Project1_xv6CustomizeSystemCalls/xv6-riscv/kernel/proc.c:331-369 | Whoever calls exit never comes back: it keeps pid and status, stays a ZOMBIE once it is one, and leaves only through its parent's wait. |
| ExitWaitRuns.StatusHandedOn | Groupname_Project1_xv6CustomizeSystemCalls/xv6-riscv/kernel/proc.c:331-416 | In every run, a pid collected by a wait belongs to a process that called exit with exactly the status handed on; and whoever called exit with a status is still going or was collected with it. |
| ExitWaitRuns.AllStep | Groupname_Project1_xv6CustomizeSystemCalls/xv6-riscv/kernel/proc.c:268-416 | Every step keeps, besides, what a scan knows of its children, who holds each process's lock, and that a slot in the making has no parent yet. |
| ExitWaitRuns.ForkMakes | Groupname_Project1_xv6CustomizeSystemCalls/xv6-riscv/kernel/proc.c:299-313 | Whatever the others do meanwhile, the child that fork lets go is RUNNABLE with the caller as its parent, and its pid is no other process's and was never collected. |
| ExitWaitRuns.ForkDone | Groupname_Project1_xv6CustomizeSystemCalls/xv6-riscv/kernel/proc.c:268-313 | fork() done in one go adds exactly one RUNNABLE child with the next pid. |
| ExitWaitRuns.ForkUndone | Groupname_Project1_xv6CustomizeSystemCalls/xv6-riscv/kernel/proc.c:274-284 | fork() that fails leaves everything as it was but for the pid used up. |
| ExitWaitProgress.WaitCanCollect | Groupname_Project1_xv6CustomizeSystemCalls/xv6-riscv/kernel/proc.c:373-416 | No state of a run blocks a wait for good: with a wanted ZOMBIE child there, some continuation has the wait collect one. |
| ExitWaitProgress.CanExit | Groupname_Project1_xv6CustomizeSystemCalls/xv6-riscv/kernel/proc.c:331-369 | From every state of a run any process but init that is at user level can exit: some continuation makes it a ZOMBIE with the status it gave. |
| ExitWaitProgress.CanFork | Groupname_Project1_xv6CustomizeSystemCalls/xv6-riscv/kernel/proc.c:268-313 | From every state of a run a process at user level can fork into a free slot. |
| ExitWaitProgress.KillEndsWait | Groupname_Project1_xv6CustomizeSystemCalls/xv6-riscv/kernel/proc.c:581-603 | From every state of a run a process in wait, asleep or not, can be killed, and its wait then returns. |
| SleepWake.NoLostWakeup | Groupname_Project1_xv6CustomizeSystemCalls/xv6-riscv/kernel/sysproc.c:310-356 | In every state of every run nobody sleeps, with the spinlock free, while the count is positive. |
| SleepWake.SemaphoreCounts | Groupname_Project1_xv6CustomizeSystemCalls/xv6-riscv/kernel/sysproc.c:310-356 | In every state of every run the count is 1 plus the posts less the waits that got through, both counted from the steps of the run, and it is never negative. |
| SleepWake.CallsDone | Groupname_Project1_xv6CustomizeSystemCalls/xv6-riscv/kernel/sysproc.c:310-356 | A process outside has got through in every wait it called, and counted in every post: no call returns without. |
| SleepWake.WaitSleeps | Groupname_Project1_xv6CustomizeSystemCalls/xv6-riscv/kernel/sysproc.c:323-325 | A wait that finds the count at 0 is by its own next steps asleep on the channel with both locks free. |
| SleepWake.WaitCanFinish | Groupname_Project1_xv6CustomizeSystemCalls/xv6-riscv/kernel/sysproc.c:310-356 | From every state of a run in which a process is in a wait and the count is positive, some continuation lets a wait through. |
| SleepWake.CanCall | Groupname_Project1_xv6CustomizeSystemCalls/xv6-riscv/kernel/proc.c:535-576 | Whoever is outside can come to run and call wait or post. |
| SleepWake.SleepLockExcludes | Groupname_Project1_xv6CustomizeSystemCalls/xv6-riscv/kernel/sleeplock.c:21-52 | In every state of every run holdingsleep() is true of a process exactly from the step in which its acquiresleep() gets through up to that in which it releases; between two that get through the first one has released; the lock is free exactly when nobody has it. |
| SleepWake.InvStep | Groupname_Project1_xv6CustomizeSystemCalls/xv6-riscv/kernel/proc.c:535-576 | Every step of sleep(), wakeup(), spurious wakes by kkill() and the scheduler keeps the no-lost-wakeup invariant. |
| Virtio.VirtioDisk.constructor | Groupname_Project1_xv6CustomizeSystemCalls/xv6-riscv/kernel/virtio_disk.c:22-59 | All descriptors free and nothing in flight. |
| Virtio.VirtioDisk.Alloc3Desc | Groupname_Project1_xv6CustomizeSystemCalls/xv6-riscv/kernel/virtio_disk.c:201-213 | Three distinct descriptors that were free, or, when fewer are free, the free flags as they were. |
| Virtio.VirtioDisk.FreeChain | Groupname_Project1_xv6CustomizeSystemCalls/xv6-riscv/kernel/virtio_disk.c:186-197 | Exactly the three descriptors of the request are freed, and free_desc() does not panic. |
| Virtio.VirtioDisk.Submit | Groupname_Project1_xv6CustomizeSystemCalls/xv6-riscv/kernel/virtio_disk.c:216-281 | A new request on descriptors of its own enters the available ring, or none when two are in flight; free descriptors plus three per request stay 8; no other request, and nothing that the device did, changes. |
| Virtio.VirtioDisk.DeviceFetch | Groupname_Project1_xv6CustomizeSystemCalls/xv6-riscv/kernel/virtio_disk.c:271-277 | The device takes from the available ring the heads in the order they were submitted, across index wrap. |
| Virtio.VirtioDisk.DeviceComplete | Groupname_Project1_xv6CustomizeSystemCalls/xv6-riscv/kernel/virtio_disk.c:235-264 | Whatever request the device finishes next, following its chain moves exactly that request's block between that request's buffer and the disk. |
| Virtio.VirtioDisk.Intr | Groupname_Project1_xv6CustomizeSystemCalls/xv6-riscv/kernel/virtio_disk.c:295-327 | The handler clears `disk` on the buffers of exactly the requests the device has finished; its panic cannot happen. |
| Virtio.VirtioDisk.Finish | Groupname_Project1_xv6CustomizeSystemCalls/xv6-riscv/kernel/virtio_disk.c:283-292 | Once its buffer is clear the request's three descriptors are free again, its info entry is cleared, and no other request is affected. |
| Virtio.VirtioDisk.Rw | Groupname_Project1_xv6CustomizeSystemCalls/xv6-riscv/kernel/virtio_disk.c:216-327 | A request from end to end: submitted, taken, done, acknowledged and freed, exactly the block named has moved between exactly that buffer and the disk, in the direction asked for, and the queue is as empty as before. |
| Virtio.DecodeFormatted | Groupname_Project1_xv6CustomizeSystemCalls/xv6-riscv/kernel/virtio_disk.c:235-264 | From the three descriptors, whose lengths and directions it checks, the device reads back exactly the request that was made. |
| Virtio.Idx16Ok | Groupname_Project1_xv6CustomizeSystemCalls/xv6-riscv/kernel/virtio_disk.c:272-277 | A wrapped 16-bit index selects the same slot as the count, and equal indices mean equal counts while at most 8 apart. |
| Virtio.RingPush | Groupname_Project1_xv6CustomizeSystemCalls/xv6-riscv/kernel/virtio_disk.c:271-277 | Adding to a ring keeps it showing exactly the chains in its phase. |
| Pipe.Pipe.Write | Groupname_Project1_xv6CustomizeSystemCalls/xv6-riscv/kernel/pipe.c:76-103 | It stops at the first byte before which all is written, no reader is left or the process is killed, the pipe is full, or the byte cannot be copied in, tested in this order, and the result says which; the bytes before that are appended in order. |
| Pipe.Pipe.Read | Groupname_Project1_xv6CustomizeSystemCalls/xv6-riscv/kernel/pipe.c:105-134 | It sleeps, or fails when killed, exactly if the pipe is empty with a writer left; otherwise it delivers exactly the least of what is asked for, what is held and what can be copied out, continuing what was delivered before, and gives -1 exactly when some is to be delivered and not even one byte can be copied out. |
| Pipe.Through | Groupname_Project1_xv6CustomizeSystemCalls/xv6-riscv/kernel/pipe.c:76-134 | The round trip: bytes written into an empty pipe come out as they are, and then the reader meets the end once the writing end is closed. |
| Pipe.Pipe.Close | Groupname_Project1_xv6CustomizeSystemCalls/xv6-riscv/kernel/pipe.c:57-74 | One end closes and the other stays as it was; the pipe is freed exactly when both are closed; no byte is lost. |
| Pipe.WrapOk | Groupname_Project1_xv6CustomizeSystemCalls/xv6-riscv/kernel/pipe.c:88-95 | Across the wrap of the 32-bit counters the ring slot and the tests for full and empty mean what they do on the true counts. |
| Edf.RunEdf | Groupname_Project2_2/Bhanu/src/edf.c:53-115 | Every process runs exactly its burst and finishes, and its start time is the first cycle that ran it; each cycle ran the earliest deadlines; the run ends within the makespan bound; on one CPU it meets every deadline if and only if some assignment of unit slots does. |
| Edf.RunCycles | Groupname_Project2_2/Bhanu/src/edf.c:53-112 | The exact condition for run_edf() to end: with every deadline below 100000 its loop is over within the makespan bound; with any other it is not over after any number of cycles, and the processes at 100000 or above are never run or changed. |
| Edf.KeepFeasible | Groupname_Project2_2/Bhanu/src/edf.c:69-112 | The exchange argument: running the most urgent job for a cycle keeps the rest schedulable, and what finishes is on time. |
| Edf.MetImpliesSchedulable | Groupname_Project2_2/Bhanu/src/edf.c:53-115 | A run that meets every deadline is itself a feasible assignment. |
| Edf.PickEarliestDeadline | Groupname_Project2_2/Bhanu/src/edf.c:5-16 | The first of the arrived READY processes with the earliest deadline below the sentinel. |
| Edf.Dispatch | Groupname_Project2_2/Bhanu/src/edf.c:69-92 | With every deadline below the sentinel, no arrived process waits afterwards while a CPU is idle or runs a later deadline; a running process gives way only to a strictly earlier deadline; processes at the sentinel or above stay as they are in any case. |
| Sched.Tick | Groupname_Project2_2/Bhanu/src/edf.c:96-112 | Each running process advances by one, those that end are finished and their CPUs idle, and the work left falls by one per busy CPU. |
| Sched.ProgressNext | Groupname_Project2_2/Bhanu/src/edf.c:69-112 | A work-conserving cycle of any policy keeps the accounts of the chart and the pacing towards the makespan bound. |
| Sched.BegunNext | Groupname_Project2_2/Bhanu/src/edf.c:83-87 | After each cycle the start time of every process is the first cycle whose row holds it, or -1 if none does. |
| Sched.PacedBound | Groupname_Project2_2/Bhanu/src/edf.c:66-112 | While a process is unfinished the cycle is below last arrival plus work over CPUs plus longest burst. |
| Sched.ChartGrows | Groupname_Project2_2/Bhanu/src/edf.c:96-112 | The chart with the new row still gives each process exactly its burst, on one CPU at a time. |
| Sched.ChartUrgentGrows | Groupname_Project2_2/Bhanu/src/edf.c:69-112 | A cycle of urgent dispatch keeps the chart urgent for all cycles so far. |
| Mlfq.PickByQueue | Groupname_Project2_2/Bhanu/src/mlfq.c:8-19 | The first of the arrived READY processes on the best level. |
| Mlfq.Dispatch | Groupname_Project2_2/Bhanu/src/mlfq.c:79-102 | Afterwards no arrived process waits while a CPU is idle or runs one of a worse level, and a running process gives way only to a strictly better level; levels stay, and a CPU that changes hands starts the whole quantum of the level. |
| Mlfq.Boost | Groupname_Project2_2/Bhanu/src/mlfq.c:67-77 | Everything unfinished is back on level 0, every busy CPU has the quantum of level 0, and nothing else changes. |
| Mlfq.Tick | Groupname_Project2_2/Bhanu/src/mlfq.c:106-127 | Exactly the running processes advance: each finishes, is demoted by one level when its quantum ends, or goes on with a cycle less of it; waiting processes keep everything. |
| Mlfq.RunMlfq | Groupname_Project2_2/Bhanu/src/mlfq.c:47-131 | Every process runs exactly its burst, starts at the first cycle that ran it, and finishes within the makespan bound; in every cycle the best levels ran; and over the whole run levels start at 0 and change only by one at the end of a quantum and to 0 at multiples of 30, quanta only by the cycle, by dispatch and by the boost. |
| Mlfq.LevelsAreEarned | Groupname_Project2_2/Bhanu/src/mlfq.c:66-128 | In every cycle of a run a process on level 1 has run at least 4 cycles since the last boost, the quantum of level 0, one on level 2 at least 12, those of both levels, and a running one what its quantum lacks besides. |
| Rms.SortByPeriod | Groupname_Project2_2/Ayush/src/algorithms.c:213-222 | The ready list is a permutation of what it was, in ascending order of period. |
| Rms.FindWorst | Groupname_Project2_2/Ayush/src/algorithms.c:231-247 | An idle CPU if there is one, else one with the longest period. |
| Rms.Considered | Groupname_Project2_2/Ayush/src/algorithms.c:228-274 | Each candidate placed, or left behind every CPU; a displaced process is left behind every CPU too. |
| Rms.FillIdle | Groupname_Project2_2/Ayush/src/algorithms.c:279-303 | Idle CPUs take what waits, shortest period first, until none idles while one waits. |
| Rms.RunRms | Groupname_Project2_2/Ayush/src/algorithms.c:179-328 | Every process runs exactly its burst and starts at the first cycle that ran it; each cycle ran the shortest periods; the run ends within the makespan bound. |
| Paths.GetcwdResolves | Groupname_Project1_xv6CustomizeSystemCalls/xv6-riscv/kernel/syscall.c:176-279 | In a tree of directories of any depth the path of the names on the way up resolves to the directory, 14-character names included. |
| Paths.Getcwd | Groupname_Project1_xv6CustomizeSystemCalls/xv6-riscv/kernel/syscall.c:176-282 | It stays inside its arrays if and only if the directory is at most 32 deep; then the path is the names on the way up, top down with one slash before each, takes at most 481 bytes and has no NUL, and it fails exactly when the way is lost, the user's buffer is smaller or copying out fails. |
| Paths.TrailMeans | Groupname_Project1_xv6CustomizeSystemCalls/xv6-riscv/kernel/syscall.c:190-250 | The names on the way up: from each directory to its "..", each name being that of the first entry with the child's inode in the parent, up to a directory that is its own "..", or until the way is lost. |
| Paths.GetcwdThenNamei | Groupname_Project1_xv6CustomizeSystemCalls/xv6-riscv/kernel/syscall.c:176-282 | The round trip as calls: namei() of the path that getcwd() gave is the directory, whatever the current directory is by then; getcwd() gives one for every directory at most 32 deep and a buffer of 481 bytes. |
| Paths.SkipElem | Groupname_Project1_xv6CustomizeSystemCalls/xv6-riscv/kernel/fs.c:645-668 | The next element cut to 14 characters, with or without a NUL, and the rest without leading slashes. |
| Paths.Namei | Groupname_Project1_xv6CustomizeSystemCalls/xv6-riscv/kernel/fs.c:674-714 | The loop looks the elements up one by one from the root or the current directory; with ResolveMeans: to the inode reached, or 0. |
| Paths.ResolveMeans | Groupname_Project1_xv6CustomizeSystemCalls/xv6-riscv/kernel/fs.c:674-714 | What a path resolves to, said of the path itself: it is names between runs of slashes; each name leads to the first used entry with it in the directory before; and the result is where the last leads, or 0 exactly because at some name there is no directory or no used entry with that name. |
| Paths.ResolvePadded | Groupname_Project1_xv6CustomizeSystemCalls/xv6-riscv/kernel/fs.c:674-707 | Names written with any number of slashes between, before and after resolve to where walking them leads. |
| Paths.Nameiparent | Groupname_Project1_xv6CustomizeSystemCalls/xv6-riscv/kernel/fs.c:716-720 | The directory before the last element, or 0 when a step fails or there is no element; the name buffer holds the last element. |
| Paths.ParentMeans | Groupname_Project1_xv6CustomizeSystemCalls/xv6-riscv/kernel/fs.c:674-720 | nameiparent() walks all names but the last, to a directory; looking the last up there is what namei() does. |
| Paths.DirLookup | Groupname_Project1_xv6CustomizeSystemCalls/xv6-riscv/kernel/fs.c:575-598 | 0 if and only if no used entry has the name, which is compared up to its first 14 characters; otherwise the inode of an entry that has it, no used entry before that one having it too. |
| Paths.Namecmp | Groupname_Project1_xv6CustomizeSystemCalls/xv6-riscv/kernel/fs.c:566-570 | Equal exactly when the field, read up to a NUL or 14 characters, is the name or its first 14 characters. |
| Paths.LookupIsFound | Groupname_Project1_xv6CustomizeSystemCalls/xv6-riscv/kernel/fs.c:575-598 | The inode that the other results speak of is the one that dirlookup() finds. |
| Paths.ResolveJoin | Groupname_Project1_xv6CustomizeSystemCalls/xv6-riscv/kernel/fs.c:674-707 | Resolving names joined by slashes is looking them up one after another. |
| Grep.Match | Groupname_Project1_xv6CustomizeSystemCalls/xv6-riscv/user/grep.c:72-82 | 1 exactly when some substring of the text is in the language of the pattern, as the anchors require. |
| Grep.MatchHere | Groupname_Project1_xv6CustomizeSystemCalls/xv6-riscv/user/grep.c:84-96 | The matcher at one place agrees with the language of the pattern on prefixes of the text. |
| Grep.MatchStar | Groupname_Project1_xv6CustomizeSystemCalls/xv6-riscv/user/grep.c:98-106 | Tries every run of the starred character, and so misses no match. |
| Grep.Filter.Run | Groupname_Project1_xv6CustomizeSystemCalls/xv6-riscv/user/grep.c:11-35 | For NUL-free input the output is a function of the input alone, however reads split it. |
| Grep.MissesUnread | Groupname_Project1_xv6CustomizeSystemCalls/xv6-riscv/user/grep.c:17-34 | What is missed is exactly what lies from the first line of more than 1022 characters on; all matching lines are written if and only if none of that matches. |
| Grep.ShortLinesAll | Groupname_Project1_xv6CustomizeSystemCalls/xv6-riscv/user/grep.c:17-34 | With lines of at most 1022 characters all matching lines are written. |
| Grep.LongLineMissed | Groupname_Project1_xv6CustomizeSystemCalls/xv6-riscv/user/grep.c:18-18 | A matching line of 1023 characters is not written. |

## Left out

- Boot, trap entry, device registers, console, exec, signals, message queues and the shell: no invariant across functions.
- Memory fences and weak memory: spinlocks are taken as atomic ownership steps.
- Liveness: that a woken process eventually runs, or that a request is eventually finished, is assumed nowhere and proved nowhere; what is proved is that from every state of a run some continuation gets there.
- Log.TxnLog.Commit: readers run between the copying of two blocks and before each header write, not between the two bread() calls of one block, where they could only take buffers that the commit does not need.
- Log.TxnLog.Bread: a caller that would wait for a locked buffer is modelled as calling when it is free.
- Files.FileSystem.Writei: a chunk is copied from user memory whole or not at all; a copy that fails half way through a chunk changes a cached block without logging it, which is not modelled. Type and link count of an inode are kept as they are.
- Files.FileSystem.Filewrite: the budget of seven blocks is stated for a free map of one block, as the file system image has.
- FilesCrash.GroupCrash: the operations of one group come one after another; that steps of several may interleave is FilesShared. An operation on the same file between two transactions of filewrite() is not covered.
- FilesShared.SharedStep: the blocks of itrunc() are freed under the inode's lock by one process at a time in Files; here processes only write.
- Inode allocation, link counts, the inode cache and directory linking: each is one scan or one counter.
- Paths.Getcwd: where it would write past the end of its array the model stops; directories are sequences of entries, not bytes.
- UserMemory.Uvmshare: page table entries are copied, and that a thread must end before its parent is left to the caller as in the code.
- Umalloc.Heap.Malloc: after a block beyond the break has been handed out, only free() is described; what the machine does with accesses there is not part of this model.
- ExitWait.InvStep: closing files and freeing memory at exit and reaping are separate models and not part of a step; kill() names its process by slot, finding the slot by pid is a scan.
- SleepWake.NoLostWakeup: one semaphore or sleep lock at a time; sleeping on other channels appears only as spurious wakes.
- Virtio.VirtioDisk.DeviceComplete: a device that reports failure makes the driver panic and is not modelled.
- Pipe.Pipe.Read: sleeping and waking are the callers' steps; that no wakeup is lost there is the pattern proved in SleepWake.
- Grep.Filter.Run: opening files and the usage message.
- Lottery and round-robin scheduling, printing, and the other simulators of the repository: random, or simpler versions of what is here.
