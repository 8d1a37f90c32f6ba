# A Dafny model of xv6-riscv with topfree

This project models the storage, memory, process and device layers of an xv6 kernel for RISC-V, its
user-level allocator and its shell parser, and proves what they keep over whole runs. `dafny verify
dfyconfig.toml` checks all of it.

Each part has the source's form. State that the C code updates in place is a class with loops and
contracts; its meaning is a single value (a view of the cache, of the file system, of physical memory,
of the heap) with its invariant, and each operation is tied to a step of that value. Protocols between
processes and CPUs are step systems, and their theorems are about every run.

| part | files |
|---|---|
| buffer cache | `Blocks`, `Collections`, `Ring`, `Cache` |
| redo log and group commit | `RedoLog`, `Log`, `GroupCommit` |
| file system and file writes | `Bitmap`, `Inodes`, `FsState`, `FsContents`, `FileData`, `FileSystem`, `File` |
| file system, log and cache over crashes | `CrashConsistency`, `Machine`, `Interleaving` |
| page tables, address spaces, fork, user memory | `PageTable`, `TableSteps`, `Spaces`, `Teardown`, `VirtualMemory`, `Processes`, `UserMemory` |
| user heap | `HeapState`, `Umalloc` |
| scheduling, sleep and wakeup, exit and wait | `Scheduling`, `ExitWait` |
| disk driver queue | `Virtio` |
| pipes | `Pipe` |
| shell parser | `Shell`, `ShellPrinter`, `ShellRoundTrip`, `ShellTokens`, `ShellParser`, `ShellGrammar` |

Main results, in the system's own terms:

- A crash after any disk write of a commit, followed by any number of crashes during recovery and one
  recovery that completes, leaves all home blocks old or all of them new.
- File system, log and cache as one machine: over every script of writes, truncations, begin_op, end_op
  and power losses, at whichever disk write, every disk recovers to a consistent file system that a
  prefix of the operations made, and what end_op committed is in that prefix (`Machine.Run`,
  `Machine.Machine.PowerLoss`, `Machine.Machine.End`, `CrashConsistency.CrashLeavesWholeOperations`).
  Nothing about the operations is assumed: each is a call of writei or itrunc, and its block changes go
  through log_write in the order they were made. When an operation panics is exact, and those that keep
  to their budget never do (`Machine.BracketIsDurable`). Where the block writes of operations interleave, a
  crash leaves the log_writes that were asked for, in order, up to a commit, and of each operation all or
  none (`Interleaving.RunFollowsActions`, `Interleaving.CrashInInterleavedCommit`).
- Cache and log together stand for one logical disk: a dirty block is pinned or held, is never
  evicted, and every reader sees the last contents.
- Over all interleavings of file-system operations the log never holds more than was reserved and
  commits whole operations only. One claim is false of the code: an operation within its budget can
  panic, exactly when the log is full and it rewrites a block that is listed already
  (`GroupCommit.PanicsOnlyWhenFull`, with a reachable run in `GroupCommit.AbsorbedWriteCanPanic`).
- A commit can also run out of buffers, exactly when every buffer is pinned or referenced, because the
  cache has no more buffers than the log has blocks (`Log.Log.Commit`); three operations within their
  budgets get there (`Log.FullLogCannotCommit`).
- Every data block is free or owned by one slot of one inode; files are byte sequences; every chunk
  that filewrite issues fits one transaction.
- The three-level page table is a flat map; frames are conserved by every mix of growth, faults, fork
  and teardown; fork copies exactly or changes nothing, and like growth it fails only if frames are short;
  pages not allocated yet read as zero.
- The user heap's free list stays one sorted, coalesced circle, and free and live blocks partition it.
- A process is on one CPU at most; no wakeup is lost; waiting parents do not miss a zombie child, and
  whoever sleeps in kwait has a child to wait for. One claim is false of the code: a free slot can be marked
  as killed, exactly when kkill of pid 0 has found it, and its next process is then born killed
  (`ExitWait.MarkedFreeExactly`, `ExitWait.BornKilled`).
- Disk descriptors are partitioned, rings never overwrite unconsumed entries, the device finds the
  request that was submitted, and completions reach their own buffer, with 16-bit indices that wrap.
  The handler panics exactly when a pending completion carries an error status
  (`Virtio.VirtioDisk.Intr`, with a run in `Virtio.ErrorStatusPanics`).
- A pipe is a lossless first-in first-out queue under 32-bit wrap-around. One claim is false of the
  code: a reader may sleep beside unread data. Reading, closing and killing keep the claim; a write
  breaks it exactly when a reader sleeps, the read end is open and the writer's kill comes after the
  first byte it stores and before its bytes or the ring run out (`Pipe.Pipe.Write`, with a run in
  `Pipe.KilledWriterLeavesReaderAsleep`).
- The shell parser accepts exactly the texts that its grammar derives and builds the tree they derive,
  and the grammar is unambiguous (`ShellGrammar.ParserIsGrammar`). It inverts a printer, on exactly the
  trees it can build; no token of a text is lost, and tokens survive NUL termination.

Inputs that come from outside are parameters: how many bytes a user copy can transfer, what sbrk
returns, when a process is killed, and the device's steps.

## Model

| member | source | states |
|---|---|---|
| `Cache.BufferCache.constructor` | xv6-riscv/kernel/bio.c:35-50 | all NBUF buffers are on one doubly linked ring, none belongs to a block, and buffer 0 is the first that will be recycled |
| `Cache.BufferCache.Lookup` | xv6-riscv/kernel/bio.c:66-80 | finds the buffer of a block if and only if there is one, whatever the order of the ring |
| `Cache.BufferCache.FindVictim` | xv6-riscv/kernel/bio.c:82-101 | finds an unreferenced buffer released no later than any other unreferenced one, never-used buffers first; None exactly when all are referenced |
| `Cache.BufferCache.Bget` | xv6-riscv/kernel/bio.c:55-102 | the "no buffers" panic happens exactly when the block is not cached and all NBUF buffers are referenced or pinned; a hit moves nothing; a miss recycles the least recently released buffer and only that one, so a pinned or held block is never evicted; lookups = hits + recycles |
| `Cache.BufferCache.Bread` | xv6-riscv/kernel/bio.c:105-114 | the buffer returned is locked and holds the block's contents as last stored through the cache, even while the disk is stale |
| `Cache.BufferCache.ReadsCaughtUp` | xv6-riscv/kernel/bio.c:82-114 | while no buffer is referenced, disk reads equal recycles, and lookups are hits plus disk reads |
| `Cache.BufferCache.Data` | xv6-riscv/kernel/bio.c:105-114 | what the holder of a buffer reads is the logical contents of that block |
| `Cache.BufferCache.Bwrite` | xv6-riscv/kernel/bio.c:117-121 | one block of the disk becomes the logical contents, as one step of the disk's history |
| `Cache.BufferCache.Brelse` | xv6-riscv/kernel/bio.c:125-144 | the reference is dropped; the last one moves the buffer to the front of the ring and stamps it; the whole cache invariant is kept |
| `Cache.BufferCache.MoveFront` | xv6-riscv/kernel/bio.c:133-141 | six pointer assignments keep prev and next one ring of exactly the NBUF buffers in release order, with this one first |
| `Cache.BufferCache.Bpin` | xv6-riscv/kernel/bio.c:146-150 | a held block becomes pinned; nothing else of the logical view changes |
| `Cache.BufferCache.Bunpin` | xv6-riscv/kernel/bio.c:152-156 | the pin is taken back; nothing else changes |
| `Cache.BufferCache.CountFree` | xv6-riscv/kernel/bio.c:158-171 | BSIZE times the buffers that are neither referenced nor pinned |
| `RedoLog.HeaderRoundTrip` | xv6-riscv/kernel/log.c:84-110 | the header that write_head stores is the header that read_head loads |
| `RedoLog.InstalledAt` | xv6-riscv/kernel/log.c:64-81 | after any prefix of install_trans a block holds the log block of its last entry in that prefix, and every other block is untouched |
| `RedoLog.InstallIdempotent` | xv6-riscv/kernel/log.c:64-81 | installing again over a partly installed log gives the fully installed disk |
| `RedoLog.CrashInRecovery` | xv6-riscv/kernel/log.c:112-118 | after every disk write of a recovery the disk still recovers to the same home blocks |
| `RedoLog.CrashesKeepMeaning` | xv6-riscv/kernel/log.c:112-118 | so it does after any number of recoveries that crash at any points |
| `RedoLog.RecoveryCompletes` | xv6-riscv/kernel/log.c:112-118 | one recovery that runs to its end, after any number that crashed, leaves an empty log and the recovered home blocks |
| `RedoLog.CommittedMeansNew` | xv6-riscv/kernel/log.c:183-192 | from the header write on, the disk stands for the new contents |
| `RedoLog.LoggedMeansOld` | xv6-riscv/kernel/log.c:168-181 | up to the header write, the disk stands for the old contents |
| `RedoLog.CrashInCommit` | xv6-riscv/kernel/log.c:183-192 | after each write of a commit the disk recovers to all old or all new home blocks, and the header write decides which |
| `Log.CommitIsAtomic` | xv6-riscv/kernel/log.c:64-118 | end to end on the cache's disk history: after any write of commit, any crashes in recovery and one completed recovery, every home block has its old value or every one its new value |
| `Log.Log.WriteLog` | xv6-riscv/kernel/log.c:168-181 | copies the pinned blocks from the cache to the log area in order; fails exactly when no buffer is left |
| `Log.Log.InstallTrans` | xv6-riscv/kernel/log.c:63-81 | the disk goes through exactly the install prefixes; home blocks are unpinned unless recovering |
| `Log.Log.WriteHead` | xv6-riscv/kernel/log.c:99-110 | one disk write: the header block with the in-memory header in it |
| `Log.Log.ReadHead` | xv6-riscv/kernel/log.c:84-94 | the in-memory header is what the disk's header block says |
| `Log.Log.Commit` | xv6-riscv/kernel/log.c:183-192 | succeeds exactly when nothing is logged or a buffer is free (NBUF equals LOGBLOCKS, so the log alone can take them all); then the disk history is the commit sequence, nothing is dirty or pinned, and logical contents are unchanged |
| `Log.Log.RecoverFromLog` | xv6-riscv/kernel/log.c:112-118 | boots to the recovered disk through exactly the recovery writes, with an empty log |
| `Log.Log.BeginOp` | xv6-riscv/kernel/log.c:121-135 | one more operation is admitted exactly when no commit is running and the log has room for all budgets |
| `Log.Log.EndOp` | xv6-riscv/kernel/log.c:139-166 | the last operation, and no other, commits; each panic has its exact condition |
| `Log.FullLogCannotCommit` | xv6-riscv/kernel/log.c:168-192 | a concrete run and the state it ends in: three admitted operations have changed LOGBLOCKS blocks, every buffer is in use, and the last end_op finds none |
| `Log.Log.Update` | xv6-riscv/kernel/log.c:194-222 | bread, change, log_write and brelse together change one block of the logical disk, leave the disk alone and keep the log's invariant; each panic has its exact condition |
| `Log.Log.LogWrite` | xv6-riscv/kernel/log.c:203-222 | refuses exactly when the log is full, before looking for absorption, or outside a transaction; otherwise lists the block once and pins it once, keeping "dirty blocks are listed and pinned" |
| `GroupCommit.StepKeepsInv` | xv6-riscv/kernel/log.c:121-222 | every begin_op, log_write, end_op and commit keeps: logged blocks plus unused budgets at most LOGBLOCKS; committing implies no operation runs; idle implies an empty log; sleepers have a reason |
| `GroupCommit.RunsKeepInv` | xv6-riscv/kernel/log.c:121-222 | the same for every interleaving of any number of processes |
| `GroupCommit.PanicsOnlyWhenFull` | xv6-riscv/kernel/log.c:203-210 | the two other panics are unreachable, and "too big a transaction" happens exactly when the log is full, and then only to a write that would be absorbed |
| `GroupCommit.CommitsWholeOperations` | xv6-riscv/kernel/log.c:139-166 | while a commit runs no operation is in progress and the log holds exactly what finished operations wrote |
| `GroupCommit.OneTransactionPerOperation` | xv6-riscv/kernel/log.c:121-166 | everything an operation writes is in the one transaction that was open when it began |
| `GroupCommit.AbsorbedWriteCanPanic` | xv6-riscv/kernel/log.c:203-215 | a reachable run in which three operations, each within its budget, fill the log and the rewrite of a logged block panics |
| `GroupCommit.BeginAdmitted` | xv6-riscv/kernel/log.c:121-135 | an operation begins in the interleaved model exactly under the test that `Log.Log.BeginOp` makes, in the open transaction and with nothing written; otherwise the process sleeps |
| `Bitmap.BitOfSetBit` | xv6-riscv/kernel/fs.c:70-76 | setting or clearing one bit of a bitmap block changes that bit and no other |
| `Inodes.InodeRoundTrip` | xv6-riscv/kernel/fs.c:219-233 | the inode that iupdate stores is the one ilock loads, and the other inodes of the block are untouched |
| `FileSystem.FreshImage` | xv6-riscv/kernel/fs.h:7-22 | an image whose inodes are empty and whose bitmap marks the metadata alone satisfies the file system's invariant |
| `FileSystem.FileSystem.Balloc` | xv6-riscv/kernel/fs.c:63-85 | the lowest free block, now marked and zeroed, with ownership and file contents kept; 0 only if every block is in use |
| `FileSystem.FileSystem.Bfree` | xv6-riscv/kernel/fs.c:88-101 | clears the bit; the "freeing free block" panic happens exactly when it is clear already |
| `FileSystem.FileSystem.Bmap` | xv6-riscv/kernel/fs.c:384-422 | returns the block of the file, allocating it and the indirect block only if missing; every data block stays owned by exactly one slot or free; no byte of any file changes; says which blocks were logged |
| `FileSystem.FileSystem.Iupdate` | xv6-riscv/kernel/fs.c:219-233 | the disk copy equals the in-memory inode; files and other inodes are unchanged |
| `FileSystem.FileSystem.Itrunc` | xv6-riscv/kernel/fs.c:426-452 | exactly the blocks of this inode lose their owner and their bit, its addresses and size become zero, no other inode or file byte changes, every bfree finds its block in use, and if all inodes were stored on disk they still are; it logs its inode block and the bitmap blocks of what it frees, no more |
| `FileSystem.TruncationFits` | xv6-riscv/kernel/fs.c:426-452 | so a truncation fits a budget when the freed blocks' bits lie in fewer bitmap blocks than that, and always on a disk with that few |
| `FileSystem.FileSystem.Put` | xv6-riscv/kernel/log.c:194-222 | a block change with its log_write is one entry of the operation's ordered changes, whose replay over the disk at its begin gives the disk now |
| `FileSystem.FileSystem.Writei` | xv6-riscv/kernel/fs.c:500-532 | -1 exactly for an offset beyond the size or a range beyond MAXFILE; otherwise the bytes copied lie at the offset, size covers the bytes reported, nothing else of any file changes; short only if the copy failed, or the disk is full and the file had no block for the next byte; at most 2t+3 blocks logged for t blocks touched, one fewer if the first is there; hole-freedom kept, and if all inodes were stored on disk they still are |
| `FileSystem.FileSystem.Readi` | xv6-riscv/kernel/fs.c:468-493 | returns exactly the file's bytes from the offset on, up to the size; short only if the copy failed, or at a hole on a full disk; without holes it allocates and logs nothing and fails only if the copy does |
| `FileSystem.FreeTotal` | xv6-riscv/kernel/fs.c:683-706 | metadata, owned blocks and free bits add up to the disk |
| `FileSystem.FileSystem.CountFreeDisk` | xv6-riscv/kernel/fs.c:683-706 | BSIZE times the unowned blocks if and only if that product fits an int |
| `CrashConsistency.HomeConsistent` | xv6-riscv/kernel/fs.h:7-22 | a disk that differs in the log area only holds the same consistent file system, byte for byte |
| `CrashConsistency.UpdateSeen` | xv6-riscv/kernel/log.c:194-222 | a logged change of a block is one change of the disk the file system sees |
| `CrashConsistency.CommitKeeps` | xv6-riscv/kernel/log.c:183-192 | if every disk so far stands for a prefix of the operations, so does every disk of a commit: the old prefix up to the header write, then all operations |
| `CrashConsistency.BootKeeps` | xv6-riscv/kernel/log.c:112-118 | so does every disk of a recovery: the prefix that the disk it started from stood for |
| `CrashConsistency.CrashLeavesWholeOperations` | xv6-riscv/kernel/log.c:112-192 | a crash at any such disk, interrupted recoveries and a complete one leave an empty log and a consistent file system with exactly the contents that prefix of operations made |
| `Machine.Boot` | xv6-riscv/kernel/log.c:53-118 | recovery, and inodes read back from their blocks, give the file system that the disk stood for |
| `Machine.Machine.LogAll` | xv6-riscv/kernel/log.c:194-222 | the ordered changes of an operation, each through bread, log_write and brelse, give the logical disk that the file system sees; one of them panics exactly if no operation has begun or the log is full when its turn comes, and then the disk is as before |
| `Machine.Machine.Write` | xv6-riscv/kernel/fs.c:500-532 | writei on the machine, with writei's exact results: one more operation exactly if the log has room for its changes, a panic otherwise; a chunk of filewrite to a hole-free file never panics once begin_op has kept room for it, even if it fills the log, because the inode's block comes last |
| `Machine.Machine.Truncate` | xv6-riscv/kernel/fs.c:426-452 | itrunc on the machine: one more operation exactly if the log has room for its changes; never a panic in reserved room if the bitmap has fewer blocks than the budget |
| `Machine.Machine.End` | xv6-riscv/kernel/log.c:139-192 | the last of the operations commits, and panics exactly if the log is full; after a commit the disk stands for all operations so far |
| `Machine.Machine.PowerLoss` | xv6-riscv/kernel/log.c:112-118 | after a loss of power at any disk of the run, in a commit or in a recovery too, exactly the operations that this disk stands for are left, whole and in order, and the file system is consistent |
| `Machine.Run` | xv6-riscv/kernel/log.c:112-222 | every script of operations, brackets and power losses is carried out command by command, each with its exact effect; all disks stand for prefixes of the operations, each operation did what writei or itrunc promises, and the file system is consistent |
| `Machine.Step` | xv6-riscv/kernel/log.c:112-222 | one command with its effect on the operations so far, the log, the panics and what the disks stand for |
| `Machine.RoomSuffices` | xv6-riscv/kernel/log.c:203-216 | changes that end with their inode's block never meet a full log when their blocks fit, even exactly |
| `Machine.BracketIsDurable` | xv6-riscv/kernel/log.c:121-192 | begin_op, one chunk of filewrite or one truncation within its budget, and end_op: no panic, and the operation is on disk to stay |
| `Machine.FreshMachine` | xv6-riscv/kernel/fs.h:7-22 | there is such a machine: a freshly made disk starts one |
| `Interleaving.StepKeepsOk` | xv6-riscv/kernel/log.c:121-222 | each begin_op, log_write, end_op and commit keeps: an entry is committed exactly if its transaction is over, an operation has one transaction, and the disk has an empty log and holds exactly the committed entries |
| `Interleaving.RunFollowsActions` | xv6-riscv/kernel/log.c:121-222 | in every run the entries are, in order, block and data of the log_writes among its actions; each carries the number of operations that had been let in before the last one its process began; the committed ones are those before the last commit; all as functions of the actions alone |
| `Interleaving.CrashBetween` | xv6-riscv/kernel/log.c:112-166 | in every interleaving, between commits and through interrupted recoveries, the disk recovers to the first disk with the log_writes of the actions, in order, up to the last commit; these hold all of an operation or none, and none of a running one |
| `Interleaving.CrashInInterleavedCommit` | xv6-riscv/kernel/log.c:112-192 | in every interleaving, after any disk write of a commit and through interrupted recoveries, the disk recovers to the log_writes of the actions up to the commit before, or to all of them if the header is written; each operation is whole in it |
| `FileData.WroteContent` | xv6-riscv/kernel/fs.c:500-532 | as byte sequences: a complete write splices its bytes in, and every other file is unchanged |
| `FileData.ReadBack` | xv6-riscv/kernel/fs.c:468-532 | reading a spliced file gives the written bytes inside the written range and the old ones outside |
| `File.OpenFile.Chunk` | xv6-riscv/kernel/file.c:137-160 | one transaction of filewrite, at any offset of a hole-free file, logs at most MAXOPBLOCKS distinct blocks, and what it wrote adds to what was written before |
| `File.WroteTwice` | xv6-riscv/kernel/file.c:143-160 | writes at adjacent offsets add up to one write |
| `File.OpenFile.Filewrite` | xv6-riscv/kernel/file.c:124-167 | each transaction logs at most MAXOPBLOCKS blocks; n is returned exactly when all n bytes were written, and otherwise the reported prefix is in the file, the offset follows it, and the next chunk begins beyond the size or does not fit the largest file, the disk is full and the next byte needs a new block, or the source bytes ended |
| `TableSteps.EntryLookups` | xv6-riscv/kernel/vm.c:93-111 | setting one leaf entry changes the mapping of one page of one address space: the tree is a flat map |
| `PageTable.PxInjective` | xv6-riscv/kernel/riscv.h:330-333 | distinct pages have distinct index triples |
| `VirtualMemory.Kernel.constructor` | xv6-riscv/kernel/kalloc.c:28-38 | every frame of the range is on the free list once |
| `VirtualMemory.Kernel.Kalloc` | xv6-riscv/kernel/kalloc.c:64-77 | hands out a frame that has no role, or fails exactly when the list is empty |
| `VirtualMemory.Kernel.Kfree` | xv6-riscv/kernel/kalloc.c:44-59 | the frame is free again; frames stay partitioned into free ones and ones with a role |
| `VirtualMemory.Kernel.CountFreeRam` | xv6-riscv/kernel/kalloc.c:79-93 | PGSIZE times the frames without a role |
| `VirtualMemory.Kernel.Walk` | xv6-riscv/kernel/vm.c:93-111 | finds the table of a page; with alloc it only adds page-table pages, and no mapping of any address space changes; fails only if the page is unmapped, and with alloc only if memory is out |
| `VirtualMemory.Kernel.Mappages` | xv6-riscv/kernel/vm.c:139-166 | maps one page and nothing else; the "remap" panic happens exactly when it is mapped already; at most two frames go into tables; failure means fewer than two were free, and adds only page-table pages |
| `VirtualMemory.Kernel.Uvmunmap` | xv6-riscv/kernel/vm.c:183-200 | exactly the mapped pages of the range lose mapping and frame; every other page of every address space keeps mapping and contents |
| `VirtualMemory.Kernel.Uvmcreate` | xv6-riscv/kernel/vm.c:170-178 | an address space with nothing mapped on a frame that was free; None exactly if none was, and then nothing changes |
| `VirtualMemory.Kernel.Uvmalloc` | xv6-riscv/kernel/vm.c:205-229 | all new pages, zeroed, on frames that were free; or 0 with all of them given back and only page-table pages added, and then fewer than three frames per page were free before the call |
| `VirtualMemory.Kernel.Uvmdealloc` | xv6-riscv/kernel/vm.c:235-246 | drops exactly the pages between the rounded sizes |
| `VirtualMemory.Kernel.Freewalk` | xv6-riscv/kernel/vm.c:250-264 | frees every table of the subtree once and nothing else; the "leaf" panic is unreachable |
| `VirtualMemory.Kernel.Uvmfree` | xv6-riscv/kernel/vm.c:268-272 | no frame belongs to the address space any more; all others keep role and contents |
| `VirtualMemory.Kernel.Uvmcopy` | xv6-riscv/kernel/vm.c:280-306 | the child gains exactly the parent's pages with equal permissions and bytes on frames that were free; or nothing but page-table pages, and then fewer than three frames per mapped page were free before the call |
| `VirtualMemory.Kernel.Vmfault` | xv6-riscv/kernel/vm.c:426-446 | maps a zeroed page exactly where a page below the size was missing; fails only beyond the size, on a mapped page or with fewer than three free frames |
| `Spaces.OtherSpace` | xv6-riscv/kernel/vm.c:93-272 | what is done to one address space changes no mapping and no byte of another |
| `Spaces.BackToStart` | xv6-riscv/kernel/vm.c:248-272 | building an address space and tearing it down restores every role and the set of free frames |
| `Processes.Process.Growproc` | xv6-riscv/kernel/proc.c:222-239 | keeps: user pages below the rounded size, which stays below the trapframe; grows by zeroed pages, shrinks by exactly the dropped ones; fails only beyond TRAPFRAME or with fewer than three free frames per new page; shrinking below zero changes nothing and reports success |
| `Processes.Process.Sbrk` | xv6-riscv/kernel/sysproc.c:43-67 | the same for eager, lazy and negative growth; lazy growth changes only the size and fails exactly beyond TRAPFRAME |
| `Processes.Process.Fault` | xv6-riscv/kernel/vm.c:426-446 | a fault keeps the same invariant and touches no other address space |
| `Processes.ProcPagetable` | xv6-riscv/kernel/proc.c:167-196 | an address space with only trampoline and trapframe, at the cost of at most five frames; or every role and free frame as before, and then fewer than five were free |
| `Processes.Freeproc` | xv6-riscv/kernel/proc.c:147-204 | every page, page-table page and the trapframe go back to the pool once; nothing else changes |
| `Processes.Kfork` | xv6-riscv/kernel/proc.c:243-259 | success: child maps exactly the parent's pages with equal bytes and flags on fresh frames; failure at any allocation: all roles, free frames, tables and contents as before, and fewer than 3m+6 frames were free before the call, for m mapped pages of the parent; the parent is unchanged either way |
| `Processes.SpaceElsewhere` | xv6-riscv/kernel/proc.c:167-239 | another process keeps its address space, its size bound and every byte |
| `UserMemory.FaultInvisible` | xv6-riscv/kernel/vm.c:426-446 | a fault changes no byte that can be read |
| `UserMemory.EagerLikeLazy` | xv6-riscv/kernel/sysproc.c:43-67 | memory grown eagerly reads the same as memory only promised |
| `UserMemory.Copyin` | xv6-riscv/kernel/vm.c:358-379 | returns the process's bytes in order, memory unchanged; stops only at an address it may not touch or at a page that is not there yet when at most one frame is free |
| `UserMemory.Copyout` | xv6-riscv/kernel/vm.c:322-353 | stores the bytes at the address and changes no other byte of any address space; stops only at an address it may not touch, a read-only page, or a page that is not there yet when at most one frame is free |
| `Umalloc.Allocator.Free` | xv6-riscv/user/umalloc.c:24-42 | the block leaves the live set; the list stays one address-ordered circle of disjoint blocks of which no two touch; units are conserved; some free block is at least as large |
| `Umalloc.Allocator.FindPlace` | xv6-riscv/user/umalloc.c:27-30 | the search ends, at the free block after which this one belongs |
| `Umalloc.Allocator.Morecore` | xv6-riscv/user/umalloc.c:44-58 | the granted units join the heap and a free block large enough exists, also when it merged into freep |
| `Umalloc.Allocator.Malloc` | xv6-riscv/user/umalloc.c:60-86 | a block of exactly the needed units, disjoint from all live ones, which keep their sizes: the end of the first block behind the last place that is large enough, and the heap grows only if none is; null only if sbrk failed and every free block is too small; the search ends |
| `HeapState.Disjoint` | xv6-riscv/user/umalloc.c:11-86 | no two blocks, free or live, overlap |
| `HeapState.FreedKeeps` | xv6-riscv/user/umalloc.c:31-41 | putting a block back, with either, both or neither neighbour joined, keeps order, partition and coalescing |
| `HeapState.TakeTailKeeps` | xv6-riscv/user/umalloc.c:74-78 | splitting off the tail of a free block keeps them too |
| `Scheduling.StepKeepsInv` | xv6-riscv/kernel/proc.c:400-571 | every step of scheduler, sched, yield, sleep, wakeup, kkill and kexit keeps: locks held by who says so, one CPU per process, states that agree with where a process is, and no forgotten sleeper |
| `Scheduling.OneCpuPerProcess` | xv6-riscv/kernel/proc.c:400-471 | in every run on any number of CPUs a process is current on at most one, and none is switched to while another CPU is on its stack |
| `Scheduling.NoLostWakeup` | xv6-riscv/kernel/proc.c:510-551 | in every run, while the condition lock is free whoever sleeps on the channel still has reason to |
| `Scheduling.WakeupReachesAll` | xv6-riscv/kernel/proc.c:539-551 | when wakeup returns nobody sleeps on the channel |
| `Scheduling.WakesOnlySleepers` | xv6-riscv/kernel/proc.c:539-551 | no step of wakeup changes the state of a process that does not sleep on the channel, and none that it has passed sleeps on |
| `Scheduling.ChangedUnderLock` | xv6-riscv/kernel/proc.c:400-571 | a step changes the state of a process only if its CPU holds that p->lock; the state is then the one that was asked for |
| `Scheduling.SleeplockExclusion` | xv6-riscv/kernel/sleeplock.c:19-35 | with the read of `locked` and the write to it as separate steps: in every run at most one process holds a sleeplock, and it is marked held exactly then |
| `ExitWait.StepKeepsInv` | xv6-riscv/kernel/proc.c:243-391 | every step of kfork, kexit, reparent, kwait and kkill keeps parents alive, waiters without unseen zombies and the reap count |
| `ExitWait.ParentsLive` | xv6-riscv/kernel/proc.c:292-344 | in every run no parent pointer names an UNUSED or ZOMBIE process and every zombie has a living parent |
| `ExitWait.NoneWaitsForZombie` | xv6-riscv/kernel/proc.c:348-391 | in every run, while wait_lock is free no process sleeps in kwait that has a zombie child |
| `ExitWait.ReapedOnce` | xv6-riscv/kernel/proc.c:348-391 | every exit is reaped at most once; the unreaped ones are the zombies |
| `ExitWait.ReapedByParent` | xv6-riscv/kernel/proc.c:290-391 | in every run whoever reaps a process is the very process that forked it, not a later one in its slot, or init |
| `ExitWait.RunsKeepCounted` | xv6-riscv/kernel/proc.c:348-391 | in every run havekids is set exactly if some slot that the scan has passed is a child |
| `ExitWait.SleepersHaveChildren` | xv6-riscv/kernel/proc.c:383-389 | in every run whoever sleeps in kwait, or is about to, is the parent of some slot |
| `ExitWait.WaitAnswersRightly` | xv6-riscv/kernel/proc.c:381-389 | in every run, at the end of a scan, kwait returns -1 only to a process that has no child or was killed, sleeps only in one that has a child and was not, and does one of the two |
| `ExitWait.RunsKeepTidy` | xv6-riscv/kernel/proc.c:243-286 | in every run each slot that kfork has allocated and not made RUNNABLE is still in the hands of that kfork |
| `ExitWait.MarkedUntilFreed` | xv6-riscv/kernel/proc.c:556-579 | a slot is marked as killed exactly from a kkill or setkilled that finds it until it is freed, and kkill ends a wait |
| `ExitWait.MarkedFreeExactly` | xv6-riscv/kernel/proc.c:556-572 | that no free slot is marked as killed is false: in every run a free slot is marked if and only if a kkill of pid 0 has found it and no kfork has taken it since |
| `ExitWait.BornKilled` | xv6-riscv/kernel/proc.c:114-142 | in any table with a second slot, a run in which kkill of pid 0 marks a free slot and the next process in it is killed before it is born |
| `Virtio.VirtioDisk.constructor` | xv6-riscv/kernel/virtio_disk.c:124-144 | all descriptors are free and both rings empty |
| `Virtio.VirtioDisk.AllocDesc` | xv6-riscv/kernel/virtio_disk.c:154-162 | takes one free descriptor; -1 exactly when none is free |
| `Virtio.VirtioDisk.FreeDesc` | xv6-riscv/kernel/virtio_disk.c:165-176 | frees it; its panics happen exactly for a number out of range or a free descriptor |
| `Virtio.VirtioDisk.Alloc3` | xv6-riscv/kernel/virtio_disk.c:193-203 | three distinct free descriptors, or none taken because there are no three |
| `Virtio.VirtioDisk.FreeChain` | xv6-riscv/kernel/virtio_disk.c:179-189 | follows the chain, frees exactly its three descriptors and ends without a panic |
| `Virtio.VirtioDisk.Submit` | xv6-riscv/kernel/virtio_disk.c:205-283 | keeps free descriptors and in-flight chains a partition; the new head goes where no unconsumed entry is, also when the 16-bit index wraps; the request carries direction and sector |
| `Virtio.VirtioDisk.DeviceTake` | xv6-riscv/kernel/virtio_disk.c:237-279 | following the chain of the entry it takes, the device finds that request's type and sector, its buffer with the right length and direction, and the status byte |
| `Virtio.VirtioDisk.Intr` | xv6-riscv/kernel/virtio_disk.c:296-327 | it panics exactly when a pending completion carries an error, at the first such one; every request reported before that, and no other, becomes acknowledged and its own buffer is released |
| `Virtio.ErrorStatusPanics` | xv6-riscv/kernel/virtio_disk.c:316-317 | a concrete run and the state it ends in: one request, answered with an I/O error and still pending, and the handler panics |
| `Virtio.VirtioDisk.Finish` | xv6-riscv/kernel/virtio_disk.c:285-293 | the request is forgotten and exactly its descriptors are free |
| `Virtio.AckKeeps` | xv6-riscv/kernel/virtio_disk.c:312-324 | the entry the handler reads is the oldest unread completion, with the status that was reported and its own buffer recorded |
| `Virtio.MoreToAck` | xv6-riscv/kernel/virtio_disk.c:312 | comparing two wrapping indices tells whether completions are left |
| `Virtio.RoomInAvail` | xv6-riscv/kernel/virtio_disk.c:268-276 | the available ring cannot be full while a descriptor is free |
| `Virtio.RoomInUsed` | xv6-riscv/kernel/virtio_disk.c:310-314 | the used ring has room for every request the device has |
| `Pipe.Pipe.constructor` | xv6-riscv/kernel/pipe.c:31-35 | an empty pipe open at both ends |
| `Pipe.Pipe.Write` | xv6-riscv/kernel/pipe.c:72-97 | the bytes taken from the caller are appended in order and none is lost; it sleeps only when the ring is full and open; -1 exactly when the reader is gone or the kill comes before bytes and room run out; afterwards every sleeping reader has reason to sleep, exactly unless a kill cut the call short |
| `Pipe.Pipe.Read` | xv6-riscv/kernel/pipe.c:99-126 | what is read is the next bytes written, in order, at most n; a failed copy takes nothing; it sleeps exactly when empty, open and not killed; 0 means end of file; sleeping readers keep their reason |
| `Pipe.Pipe.Close` | xv6-riscv/kernel/pipe.c:56-70 | closing an end wakes those who wait for it; the page is freed exactly when both are closed |
| `Pipe.Pipe.Kill` | xv6-riscv/kernel/proc.c:556-573 | the killed process sleeps no longer; sleeping readers keep their reason |
| `Pipe.Push` | xv6-riscv/kernel/pipe.c:86-91 | a byte stored at a wrapped counter overwrites no unread byte |
| `Pipe.Wrapped` | xv6-riscv/kernel/pipe.c:82-106 | full and empty tests on 32-bit counters are tests on the true counts |
| `Pipe.KilledWriterLeavesReaderAsleep` | xv6-riscv/kernel/pipe.c:77-97 | a concrete run in which a writer killed between two bytes leaves a reader asleep beside unread data |
| `ShellTokens.SkipSpace` | xv6-riscv/user/sh.c:260-262 | the loop skips exactly the leading white space |
| `ShellTokens.PeekToken` | xv6-riscv/user/sh.c:299-307 | tells whether the next character is one of the given |
| `ShellTokens.SkipWord` | xv6-riscv/user/sh.c:283-286 | the loop passes exactly the word |
| `ShellTokens.ScanToken` | xv6-riscv/user/sh.c:256-297 | the scanning loops compute the token function, and the two pointers delimit its text |
| `ShellParser.Redirs` | xv6-riscv/user/sh.c:358-380 | the loop over one text computes the redirections of the grammar and leaves the pointer after them |
| `ShellParser.Args` | xv6-riscv/user/sh.c:407-426 | so does the loop over words |
| `ShellParser.Execs` | xv6-riscv/user/sh.c:382-405 | so does the choice between a block and a simple command |
| `ShellParser.Pipes` | xv6-riscv/user/sh.c:346-356 | so does the recursion over pipes |
| `ShellParser.Backs` | xv6-riscv/user/sh.c:334-338 | so does the loop over background marks |
| `ShellParser.Line` | xv6-riscv/user/sh.c:330-344 | so does the recursion over lists |
| `ShellParser.ParserRange` | xv6-riscv/user/sh.c:314-426 | a tree is one the printer and parser invert if and only if some text parses to it |
| `ShellGrammar.ParserIsGrammar` | xv6-riscv/user/sh.c:314-426 | a text parses to a tree if and only if the grammar, which guesses where parts end, derives the tree from the tokens of the text; in particular a text is refused exactly if it has no derivation |
| `ShellGrammar.Unambiguous` | xv6-riscv/user/sh.c:314-426 | a text derives at most one tree |
| `ShellGrammar.NothingLost` | xv6-riscv/user/sh.c:314-327 | in an accepted text the parentheses balance, and its other tokens are those of its printed tree, each as often |
| `ShellRoundTrip.RoundTrip` | xv6-riscv/user/sh.c:314-426 | every command tree with at most MAXARGS-1 words per command, printed with parentheses where precedence needs them, parses back to itself |
| `ShellRoundTrip.LineParsed` | xv6-riscv/user/sh.c:330-344 | the same inside any text that ends the line |
| `ShellRoundTrip.ExecParsed` | xv6-riscv/user/sh.c:382-426 | a simple or parenthesised command with its redirections, before any text that ends it |
| `ShellTokens.LineSound` | xv6-riscv/user/sh.c:330-426 | every token the parser records is a whole word of the text, ending before a separator |
| `ShellTokens.Nulterminate` | xv6-riscv/user/sh.c:430-473 | a NUL is written at the end of every recorded token and nowhere else |
| `ShellParser.ParseCommand` | xv6-riscv/user/sh.c:314-327 | the tree or error is that of the parse functions, so the text is refused exactly if the grammar does not derive it; after nulterminate every recorded token is a C string equal to its scanned text, and a refused buffer is unchanged |

## Left out

- Log.Log.Commit: other processes may hold buffers, but not those of the log or of the blocks being committed; waiting for such a buffer is not modelled.
- Log.Log.LogWrite: the caller holds the buffer of a home block, as every caller in the source does.
- Cache.BufferCache.Bread: a caller that already has the same buffer locked would wait for itself and is excluded; blocks are those of one device.
- FileSystem.FileSystem.Writei: works on the disk as seen through cache and log; bytes of a failed copy are visible there though they were not logged, and their loss on eviction is not modelled.
- FileSystem.FileSystem.CountFreeDisk: the loop counters' own int range is not modelled; neither is it for balloc.
- VirtualMemory.Kernel.Mappages: one page at a time, which is how every user page table is built; longer ranges occur only for the kernel's own map.
- VirtualMemory.Kernel.Kfree: page-table entries are values of a datatype and frames are numbers, so address alignment and the bit layout of entries do not appear.
- Processes.Kfork: only memory; registers, open files, the parent pointer and the search for a slot are not in this member (the parent pointer and the slot are in ExitWait).
- Umalloc.Allocator.Malloc: requests whose size in bytes does not fit the int argument of sbrk are excluded, and sbrk returns fresh memory above the allocator's own header.
- Machine.Machine.Write: the caller's bytes can all be read; when a copy fails inside a block, writei changes that buffer without log_write (`FileSystem.FileSystem.Smear`), and what becomes of the change is not modelled.
- Machine.Machine.LogAll: the log_writes of an operation reach the log after the file system has computed them, in their order; operations are whole here and interleave in Interleaving, where their data is arbitrary.
- Scheduling.StepKeepsInv: acquire and release are atomic steps, memory ordering and interrupt masking are not modelled, and kkill of pid 0 is excluded.
- ExitWait.StepKeepsInv: closing files and releasing the current directory on exit are not modelled.
- Virtio.VirtioDisk.Intr: completions that the device adds while the handler's loop runs are taken to have arrived before it.
- Pipe.Pipe.Write: the sleeper calls again when woken; that wakeups reach it is in Scheduling.
- ShellParser.ParseCommand: the message and exit on a syntax error are an error value.
- Inode allocation and the in-memory inode table's reference counts (fs.c): would add easy members.
- Reference counts of open files (file.c) and pipealloc: easy members.
- Directories and path names (fs.c): link counts there need side conditions the code does not keep.
- copyinstr, uvmclear, kvmmake and exec: plumbing around the same page-table steps.
- Liveness and fairness of scheduling: only safety is stated.
- Device registers, traps, boot, console, the topfree program and the remaining user programs.
