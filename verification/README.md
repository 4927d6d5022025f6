# xv6, modelled and proved in Dafny

This project models the parts of the xv6 kernel for RISC-V, of mkfs and of three user programs where being right is
hard, and proves what they guarantee. `dafny verify dfyconfig.toml` checks all of it.

| part | modules | form |
|---|---|---|
| buffer cache and log | `Blocks`, `Bio`, `Log`, `LogInv`, `LogRuns`, `LogCode`, `Reservation`, `LogFull` | `Bio.Bcache` and `LogCode.Journal` are the code, on fields updated in place. `Log` is a transition system of every interleaving of processes, disk writes and crashes; `LogInv` is its invariant `LogRuns` what holds over whole runs, and `LogFull` a run that fills the log. |
| blocks, inodes, files | `FsModel`, `Fs`, `Mkfs`, `Mount` | `Fs.FileSystem` and `Mkfs.Image` are the code; `FsModel` is the ownership of blocks and the contents of files. `Mount` starts the first on what the second has made. |
| directories and link counts | `LinkModel`, `LinkRuns`, `Links`, `RootTree` | `Links.FileTree` is the code, `LinkRuns` runs of its operations. `RootTree` reads the tree they start from out of the bytes that mkfs has written. |
| page tables and pages | `VmModel`, `VmSteps`, `Kalloc`, `Sv39`, `Rights`, `Vm`, `ProcMemory`, `UserMemory` | `Vm.Memory` is the code over physical pages; `VmModel.View` reads an address space as a finite map; `ProcMemory.Processes` is the memory of processes from allocproc to freeproc. `Sv39` is the translation the hardware does; `Rights` and `UserMemory` say what user code can load and store through it. |
| sleep, wakeup, exit, wait | `SleepLock`, `ExitWait`, `ExitWaitRuns`, `ExitWaitForks` | Transition systems: a step is what happens between two operations on shared data. `ExitWaitForks` looks at them through a record of the forks that have returned and of what was passed to exit. |
| disk driver | `Virtio`, `VirtioDevice` | `Virtio.Disk` is the driver and its queue; the device, which follows the descriptors to the data on its own, takes requests in order and completes them in any order. |
| pipe | `Pipe` | `Pipe.Pipe`, one method for each stretch of code between taking the lock and sleeping or returning. |
| user programs | `Umalloc`, `ShellGrammar`, `ShellTree`, `Shell`, `Grep` | Allocator, parser and matcher as methods, with a grammar, a meaning of patterns and a heap of blocks as references. |

`Folding` and `Params` serve the other modules. Panics of the code are preconditions of the methods that would panic;
that callers meet them is part of what is proved. System calls, clocks and user memory outside an address space are
parameters: what `copyin` can read, where `sbrk` puts memory, from when on a process has been killed.

## Model

| member | source | states |
|---|---|---|
| Bio.Bcache.constructor | kernel/bio.c:36-53 | binit links all 30 buffers into the ring, unreferenced |
| Bio.Bcache.Bget | kernel/bio.c:58-95 | the links stay a doubly linked ring over all buffers; the block is found, or else the unreferenced buffer whose last release is the longest ago is recycled, or else there is none; `Get` is the same on a list |
| Bio.Bcache.FindCached | kernel/bio.c:65-76 | the scan from the front finds the first buffer that holds the block |
| Bio.Bcache.FindUnused | kernel/bio.c:78-93 | the scan from the back finds the least recently used unreferenced buffer |
| Bio.Bcache.Brelse | kernel/bio.c:124-146 | one reference fewer, and with the last one the buffer counts as released now and goes to the front of the ring, which stays in the order of last releases |
| Bio.Bcache.Bpin | kernel/bio.c:148-153 | one more reference and nothing else |
| Bio.Bcache.Bunpin | kernel/bio.c:155-160 | one reference fewer and nothing else |
| Bio.Bcache.Run | kernel/bio.c:58-160 | over any list of bget, brelse, bpin and bunpin calls, each bget that does not find its block takes the unreferenced buffer whose last release is the longest ago |
| Bio.Bcache.PushFront | kernel/bio.c:139-142 | the four link assignments put an unlinked buffer first and keep the ring |
| Bio.Bcache.Unlink | kernel/bio.c:137-138 | the two link assignments take exactly that buffer off the ring |
| Bio.MovePermutes | kernel/bio.c:124-146 | moving a buffer to the front leaves the list a permutation of all buffers |
| Bio.MoveAges | kernel/bio.c:134-143 | moving the buffer that is released now to the front keeps the list in the order of last releases |
| Bio.GetOldest | kernel/bio.c:58-95 | on such a list the scan from the back recycles the buffer released first |
| Bio.GetCases | kernel/bio.c:58-95 | a hit only counts a reference; a miss takes an unreferenced buffer, and only if no buffer holds the block |
| Bio.ReferencedIsFound | kernel/bio.c:58-95 | while the one buffer of a block is referenced, bget returns it with its data: it is never recycled |
| Bio.NoBuffersMeans | kernel/bio.c:94 | the panic happens if and only if all buffers are referenced and none holds the block |
| Log.HeaderRoundTrip | kernel/log.c:93-122 | read_head reads back the block numbers that write_head stored, for every list of up to 30 |
| LogInv.InitInv | kernel/log.c:55-69 | the invariant of cache, log and disk holds at the start |
| LogRuns.StepKeeps | kernel/log.c:72-258 | each of the 19 steps of bget, bread, brelse, begin_op, log_write, end_op, commit, crash and recovery keeps the invariant |
| LogRuns.RunKeeps | kernel/log.c:72-258 | so does every run of them |
| LogRuns.CacheCoherence | kernel/bio.c:58-160 | in every reachable state the list is a permutation, no block has two claimed buffers, counts equal holders, waiters and pin, a valid unlocked buffer that differs from disk is in the log header and referenced, and bread of any block gives its latest contents |
| LogRuns.DirtyIsPinned | kernel/log.c:234-258 | a buffer the disk has not caught up with is logged and pinned |
| LogRuns.ReadsLatest | kernel/bio.c:98-111 | cached or not, a block reads as last written |
| LogRuns.StepHistory | kernel/log.c:213-223 | only the write of the header commits, it commits exactly the operations since the last commit, and none is then in progress |
| LogRuns.CrashAtomicity | kernel/log.c:72-132 | after a crash at any moment of any run and any number of crashes during recovery, a completed recovery leaves on disk the writes of exactly the operations whose header write completed, each whole, none of them unfinished |
| LogRuns.IdleDisk | kernel/log.c:124-132 | when no operation is in progress the disk holds the committed contents |
| LogRuns.EndedIsDurable | kernel/log.c:157-195 | whenever the last operation has ended and its commit is over, the disk holds all that was written, and a crash would lose none of it |
| LogRuns.LogSpace | kernel/log.c:135-195 | in every interleaving a commit finds no operation in progress and no block modified but not yet logged, entries plus unused reservations fit LOGSIZE, and with operations of at most 9 new blocks at most 28 entries are used |
| LogCode.Journal.constructor | kernel/log.c:55-69 | an empty header over the given disk image |
| LogCode.Journal.LogWrite | kernel/log.c:234-258 | a block already listed is absorbed, any other becomes the last entry; entries stay distinct and outside the log |
| LogCode.Journal.WriteLog | kernel/log.c:198-211 | the log blocks hold the contents of the listed blocks, home blocks are untouched, and every disk state on the way recovers the old contents |
| LogCode.Journal.WriteHead | kernel/log.c:109-122 | the header on disk decodes to the header in memory and no other block changes |
| LogCode.Journal.HeaderBlock | kernel/log.c:112-121 | the loop encodes the header so that it decodes to itself |
| LogCode.Journal.ReadHead | kernel/log.c:93-104 | the header in memory becomes the one on disk |
| LogCode.Journal.InstallTrans | kernel/log.c:72-90 | every home block gets its committed contents, and every disk state on the way recovers the same contents |
| LogCode.Journal.ClearLog | kernel/log.c:220-221 | the empty header hits the disk and the committed contents stay |
| LogCode.Journal.Commit | kernel/log.c:213-223 | there is one write before which every disk state recovers the old contents and from which on every disk state recovers the new; at the end the home blocks hold the new |
| LogCode.Journal.RecoverFromLog | kernel/log.c:124-132 | recovery restores the committed contents and can be interrupted at every write |
| Reservation.ReservationHolds | kernel/log.c:135-195 | entries and unused reservations of operations within MAXOPBLOCKS never exceed LOGSIZE, and a commit runs with no operation in progress |
| Reservation.PanicFree | kernel/log.c:234-258 | with the 30 log blocks of mkfs, no run of operations of at most q new blocks meets "too big a transaction" if and only if q is at most 9 |
| Reservation.ThreeFullOperations | kernel/log.c:234-258 | in the counters alone, a run of three operations within MAXOPBLOCKS that does meet it |
| LogFull.PanicReached | kernel/log.c:234-258 | from every initial state over 30 log blocks there is a run of cache, log and disk, with every operation within MAXOPBLOCKS, to a log_write of a new block that finds the log full |
| FsModel.BlockOwnership | kernel/fs.c:416-498 | direct blocks, indirect blocks and indirect entries of all inodes are pairwise different data blocks, all marked in the bitmap, and no other data block is marked |
| Fs.FileSystem.constructor | kernel/fs.c:42-51 | the file system on a disk that holds a tree satisfying the invariant |
| Fs.FileSystem.Bzero | kernel/fs.c:54-63 | the block is zero, no other changes |
| Fs.FileSystem.Balloc | kernel/fs.c:69-96 | the lowest free block, zeroed and marked, which nobody owned; 0 only if no block is free, and then nothing changes |
| Fs.FileSystem.Bfree | kernel/fs.c:99-117 | the mark is cleared; a block that is not marked is the panic |
| Fs.FileSystem.Iupdate | kernel/fs.c:245-261 | the disk inode equals the one in memory |
| Fs.FileSystem.Bmap | kernel/fs.c:416-462 | block bn of the file, allocated if missing, with ownership and bitmap kept and no other file or byte changed; 0 only when the disk is full; at most one bitmap block for the data block and one for a new indirect block are logged |
| Fs.FileSystem.MapDirect | kernel/fs.c:422-431 | the same for a direct block |
| Fs.FileSystem.MapIndirect | kernel/fs.c:437-443 | the same for the indirect block |
| Fs.FileSystem.MapEntry | kernel/fs.c:444-458 | the same for an entry of the indirect block |
| Fs.FileSystem.Readi | kernel/fs.c:519-551 | exactly the bytes from the offset on, as many as asked for or up to the end of the file, -1 when the destination fails, 0 for an offset past the end or a wrapped range; nothing is allocated, logged or changed |
| Fs.FileSystem.ReadBlock | kernel/fs.c:532-548 | below the size every block is mapped, so the break for a missing block is never taken |
| Fs.FileSystem.Writei | kernel/fs.c:560-596 | the first done bytes of the source replace or extend those of one file at off, no other file changes, ownership holds even when space or the source runs out; r is short only for those two reasons and done exceeds it only when the source ends inside a chunk below the file's size; every changed block is logged but for that chunk's; rejected calls change nothing; a chunk of three blocks logs at most 10 blocks, 7 with one bitmap block |
| FsModel.ReadBack | kernel/fs.c:519-596 | what writei has written reads back, every other byte of the file reads as before, and the size grows only as far as the write reaches |
| FsModel.CountIsExact | kernel/fs.c:572-584 | exactly the r bytes that writei returns have changed if and only if the bytes that can be read do not end inside a chunk below the size of the file, or those of that chunk were in the file before; the condition speaks of arguments and file only |
| FsModel.Returned | kernel/fs.c:572-584 | with room on the disk writei returns all the bytes, or as many as fill whole chunks of those that can be read; it leaves more than it returns if and only if they end inside a chunk below the size |
| Mount.TornWrite | kernel/fs.c:576-581 | a write of two bytes that returns 0 and leaves the first byte changed |
| Fs.FileSystem.WriteLoop | kernel/fs.c:572-584 | the loop of writei: where it stops and why, how far bytes have changed, the number of rounds, and the blocks logged and not logged |
| Fs.FileSystem.StoreChunk | kernel/fs.c:576-578 | either_copyin changes exactly those bytes of the one block |
| Fs.FileSystem.SetSize | kernel/fs.c:585-593 | the new size leaves no hole and reaches the disk inode, and what was written is the file's as far as the size covers it |
| Fs.FileSystem.Itrunc | kernel/fs.c:467-498 | the file is empty and has no blocks, exactly its blocks are free, no other file changes and type and links stay; that it verifies shows "freeing free block" unreachable |
| FsModel.BareSwap | kernel/fs.c:212-238 | replacing an inode that has no blocks by another keeps ownership, and every other file |
| Fs.FileSystem.Ialloc | kernel/fs.c:212-238 | the first free inode, cleared, with the given type; 0 only if none is free; no block is lost, because a free inode has none |
| Fs.FileSystem.Iput | kernel/fs.c:363-393 | with the last reference and no links the inode is free, empty and owns no block, otherwise nothing changes; that free inodes own no blocks is kept |
| Fs.FileSystem.TruncDirect | kernel/fs.c:474-480 | the first loop frees the direct blocks |
| Fs.FileSystem.TruncIndirect | kernel/fs.c:483-494 | the entries of the indirect block and the block itself are free |
| Fs.FileSystem.WriteOp | kernel/file.c:170-175 | one transaction of filewrite logs at most 10 blocks, 7 with one bitmap block |
| Fs.FileSystem.FileWrite | kernel/file.c:155-183 | the offset moves by the bytes counted as written, each transaction stays within its budget, -1 only because the source, the disk or the maximal size ended it, and only if the source ended have more bytes changed, fewer than a block |
| Mkfs.Image.constructor | mkfs/mkfs.c:93-115 | an empty image with the first data block at 46 |
| Mkfs.Image.Ialloc | mkfs/mkfs.c:224-236 | the next inode number, with type and one link |
| Mkfs.Image.Balloc | mkfs/mkfs.c:238-252 | exactly the blocks below the first free one are marked |
| Mkfs.Image.Iappend | mkfs/mkfs.c:256-298 | the bytes are appended, exactly the blocks that needs are taken, no other file changes |
| Mkfs.Image.AppendAll | mkfs/mkfs.c:160-161 | a file read a block at a time goes in whole |
| Mkfs.Image.PutRoot | mkfs/mkfs.c:117-129 | the root directory with "." and ".." |
| Mkfs.Image.PutFile | mkfs/mkfs.c:131-164 | one argument of mkfs: an inode, an entry in the root, the contents |
| Mkfs.Image.Populate | mkfs/mkfs.c:117-164 | all files are there, with their entries |
| Mkfs.Image.Finish | mkfs/mkfs.c:166-174 | owners and bitmap are right, and the invariant holds if and only if the number of entries is not a multiple of 64 |
| Mkfs.RoundedRoot | mkfs/mkfs.c:166-172 | rounding the size of the root directory keeps the invariant if and only if the size was not a whole number of blocks |
| Mkfs.RoundedContents | mkfs/mkfs.c:166-172 | where it keeps it, every other file is unchanged and the root directory starts with its entries |
| Mkfs.HoleInRoot | mkfs/mkfs.c:166-172 | there is a list of files that fits the image and gives the root directory a multiple of 64 entries |
| Mkfs.MakeFs | mkfs/mkfs.c:68-177 | the image holds the files, with ownership and bitmap right in all cases and the invariant exactly when the root directory does not end on a block boundary; then the root directory is its entries, followed by zeroes up to its rounded size |
| Mount.MountImage | kernel/fs.c:42-51 | on such an image the kernel's file system starts valid, the root directory reads as entries and zeroes, each file as it was given to mkfs, all other inodes are free, and free inodes own no blocks |
| RootTree.EntryBack | mkfs/mkfs.c:154-158 | a directory entry that mkfs writes reads back as its inode number and its name cut to 14 characters |
| RootTree.MountedTree | mkfs/mkfs.c:117-172 | what the kernel reads from the mounted image is the tree of those files: their entries in order, then free entries up to the rounded size |
| RootTree.MountedCounts | mkfs/mkfs.c:117-172 | it satisfies the law of link counts, if mkfs was given different names |
| Links.FileTree.constructor | mkfs/mkfs.c:117-172 | the directory of an mkfs image, with the free entries that rounding its size adds, satisfies the law of link counts |
| Links.FileTree.Dirlookup | kernel/fs.c:611-641 | the entry with that name, or none if and only if the name is unused |
| Links.FileTree.Dirlink | kernel/fs.c:647-679 | it fails if and only if the name is used or there is no room; then the name stands for the inode, and every other name for what it stood for |
| Links.FileTree.IsDirEmpty | kernel/sysfile.c:178-191 | true if and only if no entry beyond the first two is in use |
| Links.FileTree.Ialloc | kernel/fs.c:212-238 | the first free inode number, 0 only if there is none |
| Links.FileTree.Iget | kernel/fs.c:266-299 | one more reference |
| Links.FileTree.Create | kernel/sysfile.c:250-310 | it makes an inode if and only if the name is new, an inode is free and the directories have room; then the name stands for it, every other name for what it stood for, and a directory has "." and ".."; it returns the existing file of that name only for type T_FILE; every failure restores the table; the law of counts survives if and only if the parent has links and, for a directory, its count is below 32767 |
| Links.FileTree.Existing | kernel/sysfile.c:261-269 | the inode of that entry if and only if a file was asked for and a file is there |
| Links.FileTree.LinkStart | kernel/sysfile.c:140-150 | -1 for a directory, otherwise the count goes up before the new entry exists |
| Links.FileTree.LinkFinish | kernel/sysfile.c:151-175 | the name comes to stand for the file if and only if parent, device, name and room allow it, and no other name changes; otherwise the count goes back |
| Links.FileTree.Unlink | kernel/sysfile.c:193-248 | it succeeds if and only if the name is there, is not "." or ".." and is not a non-empty directory; then that name, and no other, stands for nothing; the law of counts is kept and "unlink: nlink < 1" is unreachable |
| Links.FileTree.Erase | kernel/sysfile.c:227-238 | the entry is cleared and the counts of inode and parent go down |
| Links.FileTree.Iput | kernel/fs.c:363-393 | the inode is freed exactly with its last reference and no links, and then no live directory names it |
| LinkModel.AddFileKeeps | kernel/sysfile.c:270-301 | a new file in a directory with links keeps the law |
| LinkModel.AddDirKeeps | kernel/sysfile.c:270-301 | so does a new directory, with its parent's count one higher |
| LinkModel.LinkDownKeeps | kernel/sysfile.c:168-175 | the failing path of sys_link restores the law |
| LinkModel.RemoveFileKeeps | kernel/sysfile.c:193-248 | removing a file's entry keeps the law, and the count was at least 1 |
| LinkModel.RemoveDirKeeps | kernel/sysfile.c:193-248 | removing an empty directory keeps the law, and its count was 1 |
| LinkModel.FreeKeeps | kernel/fs.c:363-393 | freeing an inode without links keeps the law |
| LinkModel.AddFileIff | kernel/sysfile.c:250-310 | a new file keeps the law if and only if the directory has links |
| LinkModel.AddDirIff | kernel/sysfile.c:250-310 | a new directory if and only if the parent has links and fewer than 32767 |
| LinkModel.LinkUpIff | kernel/sysfile.c:147-150 | the increment of sys_link if and only if the count is below 32767 |
| LinkModel.AddLinkIff | kernel/sysfile.c:155-162 | the new entry of sys_link if and only if its directory has links |
| LinkModel.ImageInv | mkfs/mkfs.c:117-172 | the image of mkfs, free entries included, satisfies the law |
| LinkRuns.StepIff | kernel/sysfile.c:123-310 | any one operation keeps the law if and only if it is clean: no entry in a directory without links, no count at 32767 raised |
| LinkRuns.RunSound | kernel/sysfile.c:123-310 | the law holds after every operation of a run of clean ones |
| LinkRuns.RunIff | kernel/sysfile.c:123-310 | it holds all along a run if and only if every operation is clean |
| LinkRuns.LinkCounts | kernel/sysfile.c:123-310 | from an mkfs image on, with no sys_link under way, each nlink is the number of entries other than "." that name the inode from directories with links |
| LinkRuns.UnlinkKeeps | kernel/sysfile.c:193-248 | unlink keeps the law and never meets a count below 1 |
| LinkRuns.PutKeeps | kernel/fs.c:363-393 | iput keeps the law, frees exactly at the last reference without links, and then nothing names the inode |
| LinkRuns.MadeAndRemoved | kernel/sysfile.c:193-310 | a directory made and removed while held is left with count 0 |
| LinkRuns.RemovedDirectory | kernel/sysfile.c:250-310 | a file made in it breaks the law, from every sound state in which the directory can be made |
| LinkRuns.CountWraps | kernel/sysfile.c:147-150 | from every sound state with a file and a directory there is a run of calls of sys_link that keeps the law up to a count of 32767, which the next call makes -32768 |
| Vm.Memory.constructor | kernel/kalloc.c:26-44 | every page between the end of the kernel and PHYSTOP is on the free list, once |
| Vm.Memory.Kfree | kernel/kalloc.c:50-71 | the page goes to the front of the free list |
| Vm.Memory.Kalloc | kernel/kalloc.c:76-93 | the first free page, filled with 5; 0 if and only if there is none; no address space changes |
| Kalloc.Push | kernel/kalloc.c:68-69 | linking a page in front keeps the list of free pages |
| Kalloc.Pop | kernel/kalloc.c:82-84 | so does unlinking the first |
| VmModel.PteRoundTrip | kernel/riscv.h:350-357 | PTE2PA inverts PA2PTE on page addresses and the flag bits come back |
| VmModel.PXDigits | kernel/riscv.h:359-362 | the three indices are the base-512 digits of the page number |
| VmModel.PXInjective | kernel/riscv.h:359-368 | two addresses below MAXVA have the same three indices if and only if they are on the same page |
| VmModel.NoSharing | kernel/vm.c:266-374 | no two mappings below TRAPFRAME, in one address space or two, map the same page |
| Sv39.TranslationAgrees | kernel/vm.c:84-143 | the three-level translation of section 4.4 of the RISC-V privileged architecture agrees with the finite map for every address below MAXVA and kind of access, faults included |
| Rights.FlagBits | kernel/riscv.h:344-348 | what the hardware makes of a PTE depends on its flag bits alone |
| Vm.Memory.Walk | kernel/vm.c:98-120 | the place of the PTE for va; tables are made only if asked for, no mapping changes, and 0 with alloc only if memory is out |
| Vm.Memory.Mappages | kernel/vm.c:168-200 | exactly the pages of the range are inserted with their frames and flags, no other mapping changes; it fails only out of memory, keeping those entered, and takes at most two tables a page |
| Vm.Memory.MapPage | kernel/vm.c:182-198 | one page of it |
| Vm.Memory.Uvmunmap | kernel/vm.c:205-227 | exactly those mappings are removed and, with do_free, exactly their pages are free again |
| Vm.Memory.UnmapPage | kernel/vm.c:214-226 | one page of it |
| Vm.Memory.Uvmcreate | kernel/vm.c:231-240 | a new empty address space; 0 only if no page is free |
| Vm.Memory.Uvmalloc | kernel/vm.c:266-290 | fresh zero pages that the hardware lets user code load from, and store to or execute as xperm says; no other mapping changes; a failed call restores the mapping exactly and happens only with fewer than three free pages per page asked for |
| Vm.Memory.Uvmdealloc | kernel/vm.c:296-308 | exactly the pages above the new size are removed and free |
| Vm.Memory.Undo | kernel/vm.c:276-286 | the failure path of uvmalloc restores the address space |
| Vm.Memory.Uvmcopy | kernel/vm.c:346-374 | equal bytes and flags in pages of the child's own; a failed call restores the child exactly and happens only with fewer than three free pages per page |
| Vm.Memory.Freewalk | kernel/vm.c:312-328 | every table under the root is free again |
| Vm.Memory.Uvmfree | kernel/vm.c:332-338 | every page of the address space, data and tables, is free again and no other page changes hands |
| Vm.Memory.ProcPagetable | kernel/proc.c:187-220 | the topmost page is the trampoline, executable and not writable, the one below the given trapframe, writable and not executable, and user code sees neither; or every page taken is free again, which happens only with fewer than five free pages |
| Vm.Memory.ProcFreepagetable | kernel/proc.c:224-230 | every page of the address space but the trapframe page is free again |
| Vm.Memory.Walkaddr | kernel/vm.c:125-143 | the page a user address is mapped to, 0 if and only if it is not a valid user page |
| Vm.Memory.Copyin | kernel/vm.c:418-438 | the user's bytes, or failure because a byte of the range is not on a user page; memory is unchanged |
| Vm.Memory.Copyinstr | kernel/vm.c:444-481 | the string up to its first NUL, or failure because there is none among the first max bytes or a page is missing |
| Vm.Memory.CopyUntilNull | kernel/vm.c:459-472 | the inner loop stops at the first NUL and keeps it |
| Vm.Memory.Copyout | kernel/vm.c:393-413 | exactly the bytes up to the first address that is not the user's are written, and nothing else |
| ProcMemory.Processes.constructor | kernel/kalloc.c:26-44 | no process, every page free |
| ProcMemory.Processes.Start | kernel/proc.c:114-160 | allocproc gives a process its trapframe and page table, or changes nothing, which happens only with fewer than six free pages |
| ProcMemory.Processes.Free | kernel/proc.c:165-182 | all its pages are free, no other page changes hands |
| ProcMemory.Processes.GrowUp | kernel/proc.c:283-299 | zero pages up to the new size and the old contents below it, and the hardware lets user code load and store there and execute nothing, or nothing changed for want of memory |
| ProcMemory.Processes.Shrink | kernel/proc.c:283-299 | exactly the pages above the new size are free; a size that would be negative stays as it is |
| ProcMemory.Processes.Fork | kernel/proc.c:303-322 | the child has copies of the parent's pages on pages of its own, or nothing changed for want of memory |
| ProcMemory.Processes.Do | kernel/proc.c:114-322 | a call has its effect on the processes, or none |
| ProcMemory.Processes.Run | kernel/proc.c:114-322 | after any list of allocproc, growproc, fork and freeproc calls, freeing what is left puts every page on the free list once |
| ProcMemory.NothingInUse | kernel/proc.c:165-182 | without processes no page is in use |
| ProcMemory.UserAccess | kernel/proc.c:187-322 | in every state of every such run user code of a process can load and store exactly the bytes of its pages, and execute none of them |
| UserMemory.OwnBytes | kernel/vm.c:84-374 | no two addresses, of one process or of two, reach the same byte of memory |
| UserMemory.StoreLoads | kernel/vm.c:84-374 | a store changes that byte of that process and no other byte that any process can load |
| UserMemory.GrownLoads | kernel/proc.c:283-299 | after growproc a process loads what it had below its old size and zeroes above it |
| UserMemory.ForkedLoads | kernel/proc.c:303-322 | after fork parent and child load, at every address, what the parent loaded before |
| UserMemory.KernelSees | kernel/vm.c:125-143 | walkaddr takes an address to be the user's if and only if user code could load from it, so copyin and copyout see the bytes user code sees |
| SleepLock.StepKeeps | kernel/sleeplock.c:21-41 | every step of acquiresleep, releasesleep, sleep, wakeup, kill and the scheduler keeps the invariant |
| SleepLock.RunKeeps | kernel/proc.c:582-651 | so does every run, for any number of processes |
| SleepLock.MutualExclusion | kernel/sleeplock.c:21-41 | at most one process is between acquiresleep and releasesleep, and locked and pid say which |
| SleepLock.NoLostWakeup | kernel/sleeplock.c:21-41 | whenever the inner lock is free and the lock is not taken, nobody sleeps on it |
| SleepLock.HoldingSleep | kernel/sleeplock.c:43-52 | holdingsleep answers true exactly for the process that has the lock |
| SleepLock.KillWakes | kernel/proc.c:632-655 | whatever its victim sleeps on, once kill has looked at it, it is awake until it goes to sleep again |
| ExitWaitRuns.StepKeeps | kernel/proc.c:303-503 | every step of fork, exit, reparent, wait, sleep, wakeup, kill and the scheduler keeps the invariant |
| ExitWaitRuns.RunKeeps | kernel/proc.c:303-503 | so does every run, for any number of slots |
| ExitWaitRuns.NoMissedExit | kernel/proc.c:372-461 | whenever wait_lock is free, no process asleep in wait has a zombie child |
| ExitWaitRuns.ParentsAlive | kernel/proc.c:356-412 | every parent pointer names a process that is neither a zombie nor unused |
| ExitWaitRuns.NotLost | kernel/proc.c:372-461 | an exited process keeps its slot, pid and status until it is reaped |
| ExitWaitRuns.ReapedOnce | kernel/proc.c:416-461 | a successful wait returns a child that has exited, has not been reaped and is off its CPU, with its own status |
| ExitWaitRuns.ReapedForGood | kernel/proc.c:416-461 | what has been reaped stays reaped in every continuation |
| ExitWaitRuns.NoChildren | kernel/proc.c:416-461 | a wait that ends its scan without having seen a child has none, by the parent pointers |
| ExitWaitRuns.Books | kernel/proc.c:303-461 | only exit adds to the exited, with slot and status, and nothing is taken from the reaped |
| ExitWaitForks.StepLedger | kernel/proc.c:303-461 | every step keeps the record of forks right: who is in the table was forked by the process its parent pointer names, or that has left it to initproc |
| ExitWaitForks.WhoseChild | kernel/proc.c:303-412 | whenever wait_lock is free, a process that fork has returned and wait has not is in its slot, a child of the process that forked it until that exits, and of initproc from then on |
| ExitWaitForks.NoneLeft | kernel/proc.c:416-461 | when wait finds no child, every process its caller forked has been reaped; for initproc, every process whose forker has exited too |
| ExitWaitForks.ReapsOwn | kernel/proc.c:416-461 | what wait returns was forked by its caller, or its forker has exited and the caller is initproc |
| ExitWaitForks.ExitHeard | kernel/proc.c:372-461 | whenever wait_lock is free, nobody is asleep in wait while a process they are to wait for has exited and is not reaped |
| ExitWaitForks.StatusReturned | kernel/proc.c:372-461 | the status that wait hands over is the one the child passed to exit |
| ExitWaitForks.SlotsAccounted | kernel/proc.c:114-182 | every slot of the table is free, or that of a fork in progress, or that of a process which fork has returned and wait has not |
| Virtio.Disk.constructor | kernel/virtio_disk.c:61-153 | all descriptors free, rings empty |
| Virtio.Disk.AllocDesc | kernel/virtio_disk.c:156-166 | the lowest free descriptor, -1 only if there is none |
| Virtio.Disk.FreeDesc | kernel/virtio_disk.c:169-182 | the descriptor is cleared and free |
| Virtio.Disk.FreeChain | kernel/virtio_disk.c:185-197 | following the NEXT flags frees exactly the three descriptors of that request |
| Virtio.Disk.Alloc3Desc | kernel/virtio_disk.c:201-213 | three free descriptors, or none taken and fewer than three free |
| Virtio.Disk.Submit | kernel/virtio_disk.c:215-281 | it gets descriptors if and only if fewer than two requests are in flight; the chain describes this request, for the sectors of this block, and is queued without overwriting an entry the device has not taken |
| Virtio.Disk.Format | kernel/virtio_disk.c:238-269 | the three descriptors and the header of a request; what the device makes of them is `Virtio.Serves` |
| Virtio.Serves | kernel/virtio_disk.c:238-269 | a device that follows the chain from its head, by sections 2.6.5 and 5.2.6 of the Virtual I/O Device specification, reads or writes exactly that block, into or from that buffer, and reports success |
| Virtio.Disk.Publish | kernel/virtio_disk.c:267-277 | the head goes into the next place of the available ring, across 16-bit wrap |
| Virtio.Disk.DeviceTake | kernel/virtio_disk.c:271-277 | the device takes requests in the order they were queued |
| Virtio.Disk.DeviceComplete | kernel/virtio_disk.c:309-314 | any taken request may complete: its block is on the disk, or in its buffer, and no other block or buffer has changed; its used entry overwrites none the driver has not seen |
| Virtio.MovedBlocks | kernel/virtio_disk.c:215-292 | a completed write has put its buffer at block n and changed no other block, a completed read has filled its buffer with block n and changed no other buffer |
| Virtio.Disk.IntrOne | kernel/virtio_disk.c:312-324 | a completion clears the buffer of its own request, and its status is good |
| Virtio.Disk.Intr | kernel/virtio_disk.c:294-327 | every completion there is has been handled, in order |
| Virtio.Disk.Finish | kernel/virtio_disk.c:283-292 | exactly the three descriptors of this request are free again, and its buffer holds what was moved |
| Virtio.Partition | kernel/virtio_disk.c:155-213 | each descriptor is free or in exactly one request |
| Virtio.Counted | kernel/virtio_disk.c:155-213 | free descriptors and three for each request add up to 8 |
| Virtio.Enough | kernel/virtio_disk.c:199-213 | three are free if and only if fewer than two requests are in flight |
| Pipe.Pipe.constructor | kernel/pipe.c:22-60 | empty and open at both ends |
| Pipe.Counters | kernel/pipe.c:80-147 | equality and fullness tests on the 32-bit counters mean empty and full across wrap |
| Pipe.Pipe.WriteSection | kernel/pipe.c:80-114 | the next bytes of the source are accepted, until all are, or the source ends, the pipe is full, the reader is gone or the writer is killed; what it returns, whom it wakes, and exactly when a killed writer leaves a reader asleep beside bytes it has stored |
| Pipe.Pipe.StoreLoop | kernel/pipe.c:87-108 | its loop: bytes go in in order and the ring is never overrun |
| Pipe.Pipe.Leave | kernel/pipe.c:89-114 | readers are woken on every way out but the return of -1 |
| Pipe.Pipe.ReadSection | kernel/pipe.c:116-147 | it sleeps if and only if the pipe is empty and open for writing and it has not been killed; otherwise the next bytes in order, as many as asked for, held or accepted by user memory, with writers woken |
| Pipe.Pipe.CopyLoop | kernel/pipe.c:133-142 | its loop: as many bytes as asked for, held and accepted by user memory; one byte is lost when user memory refuses it |
| Pipe.Pipe.Close | kernel/pipe.c:62-78 | the other side is woken, and the pipe is freed when both ends are closed |
| Pipe.Pipe.InOrder | kernel/pipe.c:80-147 | nwrite - nread is the number of bytes held, at most 512, and what was delivered is a prefix of what was accepted if no copy to user memory failed |
| Pipe.MissedWakeup | kernel/pipe.c:89-92 | a run that leaves a reader asleep beside a byte |
| Umalloc.Allocator.constructor | user/umalloc.c:21-22 | before the first call there is no list and nothing in use |
| Umalloc.Allocator.Start | user/umalloc.c:70-73 | the first call makes the list of base alone |
| Umalloc.Allocator.Malloc | user/umalloc.c:63-90 | the nbytes bytes from the address returned on lie in one block, behind its header and with less than a unit to spare, that was not in use; blocks in use are left alone, the list stays circular, sorted and coalesced, free and used blocks partition the units sbrk gave, morecore is called at most once, and 0 only if sbrk failed and no free block is large enough |
| Umalloc.Allocator.Scan | user/umalloc.c:74-89 | its loop, which ends |
| Umalloc.Allocator.Take | user/umalloc.c:75-85 | the first block that fits is taken whole or gives up its tail |
| Umalloc.Allocator.Morecore | user/umalloc.c:46-61 | the units asked for, or 4096 if that is more, come from sbrk and become free, exactly those |
| Umalloc.Allocator.Free | user/umalloc.c:24-44 | the block whose header precedes the address is free and joined to its neighbours, no other block changes, no unit is lost |
| Umalloc.Allocator.Search | user/umalloc.c:30-32 | from wherever freep is the loop ends at the place where the block belongs |
| Umalloc.Partitioned | user/umalloc.c:24-90 | every unit of the arena lies in exactly one block, which is either in use or in the free list |
| Umalloc.SbrkFits | user/umalloc.c:46-61 | the number of bytes that morecore passes on is the number sbrk gets if and only if at most 0x7fff_ffe0 bytes were asked for |
| Umalloc.HugeRequest | user/umalloc.c:46-61 | for the largest request sbrk gets 16 bytes where morecore counts on 268435457 units |
| ShellGrammar.LexRuns | user/sh.c:268-313 | a word token is a maximal run of characters that are neither spaces nor symbols |
| ShellGrammar.LexSpells | user/sh.c:268-313 | the tokens spell the line without its spaces, in order |
| ShellGrammar.LexCuts | user/sh.c:268-313 | the tokens are cut from the line with nothing but spaces between them, each as long as possible |
| ShellGrammar.LexOne | user/sh.c:265-266 | which characters are white space, which are symbols, and that all others are letters of words |
| ShellGrammar.ParsesExactly | user/sh.c:335-470 | the parser returns a line of the grammar if and only if the tokens derive from it |
| ShellGrammar.Unique | user/sh.c:335-470 | no two lines of the grammar have the same tokens |
| ShellGrammar.FailsExactly | user/sh.c:335-470 | it fails if and only if there is no derivation |
| Shell.Parser.constructor | user/sh.c:335-341 | the cursor starts at the beginning of the line |
| Shell.Parser.GetToken | user/sh.c:268-313 | the next token of the line, its kind and place; the cursor stays within the line and moves on |
| Shell.Parser.Peek | user/sh.c:315-328 | whether the next token starts with one of the symbols, consuming only spaces |
| Shell.Parser.ParseRedirs | user/sh.c:391-415 | the redirections that come next, wrapped around the command in order, or the panic for a missing file |
| Shell.Parser.ParseExec | user/sh.c:433-470 | refines the grammar's parser: arguments, redirections in between, at most nine arguments |
| Shell.Parser.ParseBlock | user/sh.c:417-431 | refines it for a block in parentheses |
| Shell.Parser.ParsePipe | user/sh.c:376-389 | refines it for pipelines |
| Shell.Parser.ParseLine | user/sh.c:356-374 | refines it for lines, with '&' and ';' |
| Shell.Parser.ParseCmd | user/sh.c:335-352 | the tree of the one derivation of the line, or a panic if and only if there is none |
| Shell.Nulterminate | user/sh.c:473-517 | NULs are written at the ends of the tree's words and nowhere else |
| ShellTree.LineWords | user/sh.c:335-470 | the words of the tree are the words of the line, each once |
| ShellTree.LineSpells | user/sh.c:335-470 | the commands of the tree, left to right, and what joins them are those of the line, and so are its redirections, by descriptor and mode of open |
| ShellTree.LineOrdered | user/sh.c:335-470 | at every pipe and every list, all words on the left end before the first on the right begins |
| ShellTree.ShowParses | user/sh.c:335-470 | every tree that runcmd can run, written out with parentheses where they are needed, is parsed as that tree |
| ShellTree.LineProper | user/sh.c:335-470 | and no other tree is ever made: at most nine arguments, and a mode and descriptor for open that belong together |
| Shell.WordIsRun | user/sh.c:268-313 | every word of the tree is a maximal run of the line |
| Shell.ReadsWord | user/sh.c:473-517 | after nulterminate each word, read up to NUL, is its text |
| Shell.Parsecmd | user/sh.c:335-354 | for every line: failure if and only if there is no derivation; otherwise the one tree, which spells the line and keeps its order, and whose words are those of the line and read as their text |
| Grep.ParseCanonical | user/grep.c:64-105 | every pattern has a reading in normal form that shows as the pattern |
| Grep.ParseInverse | user/grep.c:64-105 | and no other reading in normal form does |
| Grep.MatchHere | user/grep.c:83-95 | true if and only if the pattern's reading matches a prefix of the text |
| Grep.MatchStar | user/grep.c:97-105 | true if and only if some number of repetitions is followed by a match of the rest |
| Grep.Match | user/grep.c:71-81 | true if and only if the pattern means a match somewhere, or at the beginning after '^' |
| Grep.FindsText | user/grep.c:64-105 | a pattern without special characters matches the lines that contain it, with '^' those that start with it, with '$' those that end in it, and with both that line alone |
| Grep.FindsAny | user/grep.c:64-105 | '.' matches any character, and a repetition matches nothing at all too |
| Grep.Grep | user/grep.c:10-34 | the output is that of the specification, however read cuts up the input |
| Grep.Scan | user/grep.c:20-32 | one buffer: complete lines are handled, the rest is moved to the front |
| Grep.PrintsMatching | user/grep.c:10-34 | for lines without NUL that fit the buffer, the output is exactly the matching lines, in order |
| Grep.BadLineStops | user/grep.c:10-34 | a line of 1023 bytes or more before its newline, or with a NUL in it, ends the output |
| Grep.PrintsMatchingIff | user/grep.c:10-34 | all patterns print exactly their matching lines if and only if every line is shorter than that and has no NUL in it |

## Findings

Properties one would expect that the code does not have, each with the condition under which it has it.

- mkfs rounds the size of the root directory up past its last entry, to the next block even from a block boundary
  (mkfs/mkfs.c:166-172). Then the directory has a block that is not mapped, which the kernel's readi does not expect.
  `Mkfs.RoundedRoot` and `Mkfs.MakeFs`: the image satisfies the file system's invariant if and only if the number of
  entries is not a multiple of 64. `Mkfs.HoleInRoot`: 62 empty files make one that is.
- The log reserves 10 blocks for each operation out of 30, but with mkfs's 30 log blocks log_write panics at 29 entries
  (kernel/log.c:240, mkfs/mkfs.c:25). `Reservation.PanicFree`: no run panics if and only if operations add at most 9
  blocks each. `LogFull.PanicReached`: a run of cache and log in which three operations within their reservation do.
  `Fs.FileSystem.FileWrite` shows that writes on such a disk add at most 7.
- When a write's source faults inside a chunk, either_copyin has already copied the readable part into the buffer, and
  writei releases the buffer without log_write and without counting those bytes (kernel/fs.c:578-581). They are in the
  cached file although writei has not reported them, and the buffer breaks the discipline of modify, log_write, brelse
  on which `LogRuns.CacheCoherence` rests. `FsModel.CountIsExact` gives the exact condition on the arguments and the
  file for this not to show: all bytes can be read, or those that can end on a block boundary, or the chunk where they
  end starts at or past the size, or the file already holds its readable bytes there. `Mount.TornWrite` is a write that
  returns 0 and has changed a byte.
- A pipewrite that is killed after it has stored bytes returns -1 without waking readers (kernel/pipe.c:89-92), although
  every other way out does. `Pipe.Pipe.WriteSection` gives the exact condition; `Pipe.MissedWakeup` is a run.
- grep stops at a line whose 1023rd byte is not yet its newline (user/grep.c:17) and at a line with a NUL in it
  (user/grep.c:21), as if the input had ended. `Grep.PrintsMatchingIff` and `Grep.BadLineStops`.
- create and link do not look whether the parent directory still has links (kernel/sysfile.c:155-162, 250-310), and do
  not look at the width of nlink. `LinkRuns.StepIff` and `LinkRuns.RunIff`: the law of link counts holds exactly along
  runs that do neither. `LinkRuns.RemovedDirectory`: from any sound state in which a directory can be made, making it,
  removing it while it is held and creating a file in it breaks the law. `LinkRuns.CountWraps`: from any sound state
  with a file and a directory, linking the file over and over takes its count to 32767 and then below zero.
- morecore hands sbrk an unsigned number of bytes, and sbrk takes an int (user/umalloc.c:54, kernel/sysproc.c:42-46).
  `Umalloc.SbrkFits`: the number arrives if and only if the request is at most 0x7fff_ffe0 bytes.
  `Umalloc.HugeRequest`: for the largest request sbrk grows by 16 bytes and morecore frees 268435457 units.
- growproc by a negative amount larger than the size leaves the size as it is and reports success
  (kernel/proc.c:283-299, kernel/vm.c:296-308), because the unsigned difference wraps. `ProcMemory.Processes.Shrink`.

Where comments and code differ the model follows the code: the comment in filewrite counts blocks for an operation in a
way that does not match what writei logs (kernel/file.c:156-161), and LOGSIZE is called the number of data blocks in the
log although one of the 30 blocks is the header (kernel/param.h:10).

## Left out

- Boot, traps, register access, spinlock internals, memory ordering and swtch: locks are assumed to give sequentially
  consistent mutual exclusion, and a switch is one step.
- Liveness and fairness: only safety is stated.
- The kernel's own page table, the contents of the trampoline, and pages above TRAPFRAME, which no process owns.
- exec, its use of address spaces, and mmap-like sharing; growproc, fork and freeproc are the only users of memory.
- Path walking (namex, skipelem): operations get the parent directory, and names are not cut to DIRSIZ characters.
- Inode cache eviction and ilock's read from disk: an inode in use is its fields; references are counted.
- Concurrency inside the file system and directory code: transactions of different processes are serialised by inode
  locks and are single calls here; their interleaving with commits and crashes is in `Log`.
- Device plumbing of virtio_disk_init, the console and UART, and read and write through file descriptors.
- runcmd, getcmd and the other user programs.
- ProcMemory.Processes.Fork: models the memory only; open files, registers and working directory of the child are not
  part of it.
- Fs.FileSystem.Balloc: the bitmap is a sequence of booleans, not bits packed into bytes of a block; which bitmap block
  is logged is modelled.
- Fs.FileSystem.Writei: the unlogged bytes of a failed copy stay in the model's blocks; in the kernel they also vanish
  if the buffer is recycled before the block is written again.
- Fs.FileSystem.Iupdate: the disk inodes are a sequence; packing them into inode blocks is not modelled, which inode
  block is logged is.
- Mkfs.HoleInRoot: gives the list of files; that its image has the hole is `Mkfs.MakeFs` on that list.
- LogCode.Journal.LogWrite: the list of blocks only; that bpin is called for a new entry, and what the pin is good for,
  is in `Log` and `LogRuns`.
- Fs.FileSystem.constructor: neither the test of the magic number nor initlog; recovery is `LogCode` and `Log`.
- Fs.FileSystem.Bfree: like Balloc, on booleans and not on bits packed into bytes.
- Fs.FileSystem.Iput: whether this is the last reference is a parameter; `Links.FileTree.Iput` counts references.
- LinkRuns.CountWraps: directories in `LinkModel` may be longer than the largest file of `Fs`, so the run may need
  several directories on a disk.
- Links.FileTree.Create: whether there is a disk block for new entries is a parameter.
- Links.FileTree.Dirlink: whether there is a disk block for a new entry is a parameter.
- Links.FileTree.Iget: references are counted per inode number; the size of the inode table and the panic when it is
  full are not modelled.
- Links.FileTree.Iput: the inode's blocks are not part of `Links`; that they are freed is `Fs.FileSystem.Iput`.
- ProcMemory.Processes.Start: models the memory only; pid, state and saved registers are not part of it.
- Vm.Memory.Uvmunmap: do_free is set exactly for pages below TRAPFRAME, as at every call in the kernel.
- Vm.Memory.Copyin: like the code, looks at the valid and user bits and not at the read bit.
- Vm.Memory.Copyout: like the code, looks at the valid and user bits and not at the write bit.
- Umalloc.Allocator.Malloc: for requests up to 0x7fff_ffe0 bytes, by `Umalloc.SbrkFits` exactly those for which sbrk is
  asked for what is then freed; the address sbrk returns is a parameter at or above the break.
- SleepLock.KillWakes: says that the victim wakes; the killed flag itself, which system calls look at, is not part of
  the model.
- Virtio.Disk.Submit: for blocks that are on the disk; for others the device reports an error and the driver panics.
- Shell.Parser.ParseExec: the exec node that the code fills in while it parses gets its arguments in one step at the
  end of each round.
- Grep.Grep: write is a returned string; the input is a sequence that read cuts up at will.
