# xv6 in Dafny

This project models the parts of an xv6-style RISC-V kernel and its user programs
where correctness is hardest to see from the code, and proves what they promise.
Verify everything with `dafny verify dfyconfig.toml`.

What the C code does step by step is imperative here too: a class per shared
structure, a method per function, a loop per loop, each proved against a
specification on values.  A `panic` is an obligation: either a precondition of the
caller excludes it and every caller in the model meets that precondition, or it is an
outcome of the method.  Sections under a spinlock are single steps.

| files | what is modelled | main results |
|---|---|---|
| `Journal`, `Durability`, `Log` | the redo log | crash atomicity over whole runs of commits, crashes and recoveries; commit and recovery produce exactly the modelled disk writes; stopping the machine after any write loses no committed group |
| `Reservation`, `Operation` | `begin_op`, `log_write`, `end_op` as a protocol, and one operation of it through the cache | the log never overruns, exactly when limit and log size leave room; what an operation writes is seen, and is one more state to recover |
| `Bio` | the LRU buffer cache | the cache is invisible: readers see a plain map of blocks |
| `FsState`, `FsContents`, `FileSystem`, `Directory` | bitmap, inodes, files, directories | every block has one owner; files are byte sequences; directories are finite maps |
| `DiskImage`, `DurableFiles`, `DurableDirectory` | files and directories on the log | wherever the machine stops, the files found after recovery are sound, with whole chunks of a write, a truncation or a rename done or not done |
| `PageTable`, `Vm`, `UserCopy`, `Memory`, `ProcessMemory` | Sv39 tables, the page allocator, user copies, all of memory, a process's part of it | tables are unshared trees that stand for maps; pages are conserved through all failure paths, and how many free pages decide between success and failure is exact; copies round-trip; memory is partitioned among all spaces in every run; a process's life returns every page |
| `Process`, `ProcessRuns`, `ProcessHistory`, `ProcessSwitch`, `ProcessWaits`, `ProcessProgress` | scheduling, sleep and wakeup, sleep locks, fork, exit, wait, kill | invariants of every interleaving: no lost wakeup under any lock, mutual exclusion, live parents; histories of every run: one reap per exit with the status given to it, the parent is who forked, kill marks whom it was called for, sleepers are woken on their channel only; no deadlock |
| `Virtio`, `Transfers` | the disk driver and its device | descriptors are partitioned, each completion is handled once, a finished request has moved its data whatever came between |
| `Umalloc` | the user allocator | free and live blocks tile the memory obtained; the free list is an ordered ring without touching blocks |
| `Shell`, `ShellGrammar` | the shell's parser | the loops compute the parser on values; what it accepts is exactly the sentences of a grammar, with exactly their meaning; terminated strings read back |
| `Grep` | the matcher and the line buffer | matching is membership in a declared language; patterns and their texts round-trip |
| `Pipe`, `Console` | byte rings | first in, first out across index wrap-around; what is left of a typed line after all corrections is what read delivers |

## How the larger proofs go

**Crash atomicity.** `Journal` treats a disk as a sequence of blocks and a commit or a
recovery as a sequence of single-block writes.  A crash keeps a prefix of them.
`CrashInCommit` and `CrashInRecovery` say what recovery makes of every prefix, and
`RunsAreAtomic` lifts this to every run.  `Log` is the C code over the buffer cache;
its methods are proved to perform exactly those writes.  A ghost list keeps what readers
saw at boot and at the end of each group; every method of `Log` keeps the fact, made
precise in `Durability.CrashSafe`, that a crash after any write recovers to the right
member of that list, and `Log.CrashAfter` reads it off.  `Operation.Perform` is the pattern
of every file-system call, begin_op, any number of logged writes, end_op, with all that
these methods ask of the cache proved on the way.

**Files that survive.** `DiskImage` lays the file system of `FsState` out on the journal's
disk; `MountImage` finds it again.  `DurableFiles.Files` has both the file system in memory
and the log: writei is traced by the blocks it logs, these go through `Perform`, and so
every state that a crash may bring back is the image of sound files.  `Files.Filewrite`
says which ones, and with `Files.constructor` the machine boots from any of them.
`Files.Truncate` and `DurableDirectory.Rename` do the same for itrunc and for the two
directory entries that rename writes in one operation.

**Block ownership.** `FsState.Owned` keeps, for every data block in use, the one inode
slot that refers to it, as an inverse map.  Balloc, bmap and itrunc keep it, so
`FsState.BlocksConserved` is a count that holds in every state.

**Address spaces.** `PageTable.TreeOk` keeps for every table page its one position in
the tree.  `Vm.Moved` says that an operation only moves pages between the free list and
one space.  `Memory` turns this into a partition of all of memory: `Next` lists what any
operation may do, births and deaths of spaces included, `RunKeeps` and `Isolated` are about
every run of such steps from kinit, and the methods of `Machine` show that the C functions
are such steps.  `ProcessMemory` builds proc_pagetable, growproc, the copy in fork and
proc_freepagetable from them.  `Vm.Missing` counts the table pages that a range of addresses
still needs; every allocating function says how many it took or that they were too many, so
`Uvmalloc`, `Uvmcopy`, `Growproc` and `ForkMemory` succeed if and only if a number of free
pages that their caller could compute is there.

**Processes.** `Process` gives every process a control point; a step is one critical
section, or the part of one between two lock operations.  The loops of wakeup, reparent,
wait and kill take one step per process, so everything else may happen in between, and a
process may be preempted at every point where it holds no spinlock.  An interrupt handler
may run on any CPU, idle or not, take a spinlock and wake processes.  Code that waits on a
condition (pipes, the log, the disk) is modelled by what all of it has in common: a
spinlock guards some data, a process sleeps on a channel only while its condition does not
hold, and whoever makes a condition hold wakes the channel before releasing the lock; a
sleep lock is one such client.  `ProcessRuns.Inv` is kept by each of the 35 kinds of step,
and the theorems at the end of that file read off what holds in every reachable state.
`ProcessHistory`, `ProcessSwitch` and `ProcessWaits` are about whole runs: they find, for
what is seen at the end, the step of the run that it came from.  For each kind of step they
say what it can do to a process that is not involved, so an effect that stores another
value, or stores it in another process, contradicts the history.  `ProcessProgress` orders
the locks: whoever waits for one waits, in at most two steps, for somebody who can go on.
The model is a transition system and not a class because the interleavings are the subject.

**The shell's grammar.** `ShellGrammar` declares tokens, how they may be spaced, and sentences
made of items, simple commands, pipelines and lines, each with the tree it means; none of this
mentions the parser.  `SentencesParse` says that every sentence is accepted and parses to its
meaning, `ParsedIsSentence` that nothing else is accepted.  Redirections may stand before,
between and behind the words, and the meaning says which one wins.

**Where the code and its documentation differ.** The comment on uvmdealloc allows an old
size larger than the process; its loop panics on an unmapped page.  `Uvmdealloc` says
exactly when, and `DeallocPanics` and `DeallocOnePagePast` say what this means for a
process.  The name `rename` suggests that an entry can move to another directory; the code
always links the new name into the old parent, and so does the model.  kill(0) finds an
unused slot, and the mark it leaves is inherited by the next process in that slot:
`KillFindsProcessIffNonzero`, `BornKilled` and `BornUnmarked` say exactly when.  pipewrite
returns at once when it finds itself killed, without waking readers of what it has written:
`Pipe.Write` says exactly when a channel becomes ready and is not woken, and `KilledWriter`
is an instance.

## Model

| member | source | states |
|---|---|---|
| `Journal.CrashInCommit` | kernel/log.c:179-203 | a crash after any number of a commit's writes recovers to the old state or to the whole group, depending only on whether the header was written |
| `Journal.CommitEnds` | kernel/log.c:194-203 | a commit that ends leaves the group at home and the header empty |
| `Journal.CrashInRecovery` | kernel/log.c:117-123 | a crash at any point of recovery does not change what recovery gives |
| `Journal.RecoveryCompletes` | kernel/log.c:117-123 | recovery leaves an empty header and is idempotent |
| `Journal.StepSound` | kernel/log.c:117-203 | each commit, recovery or crash changes what recovery gives by exactly the group it committed, if any |
| `Journal.RunsAreAtomic` | kernel/log.c:67-235 | in every run of commits, recoveries and crashes, recovery gives the initial state with exactly the groups applied whose header was written, in order |
| `Reservation.RunKeeps` | kernel/log.c:126-175 | in every run, logged blocks plus unused reservations fit the log and a commit never overlaps an operation |
| `Reservation.SmallOperationsNeverPanic` | kernel/log.c:214-235 | with room for two operations besides one full reservation in the log area, operations that log fewer than MAXOPBLOCKS new blocks never reach a panic of log_write or end_op |
| `Reservation.PanicFreeIffRoomy` | kernel/log.c:126-235 | for every limit on new blocks per operation and every size of the log area: no run panics if and only if the limit is 0, or is below MAXOPBLOCKS and MAXOPBLOCKS + 2 * limit + 1 is below the size |
| `Reservation.PanicFreeIffBelowLimit` | kernel/log.c:214-235 | in a log area of at least LOGSIZE blocks no run panics if and only if the limit is below MAXOPBLOCKS; at MAXOPBLOCKS - 1 if and only if the area has at least LOGSIZE blocks |
| `Durability.BootSafe` | kernel/log.c:117-123 | recovery at boot, stopped after any of its writes, recovers to what a finished one gives |
| `Durability.CommitSafe` | kernel/log.c:194-203 | if every crash point so far recovers to the state at the end of the last committed group, so does every one before, during and after one more commit |
| `Durability.CrashRecovers` | kernel/log.c:67-203 | after any write since boot the disk is one that recovery accepts, recovers to the end of the last group whose header was written, and later crash points never to an older one |
| `Log.Log.constructor` | kernel/log.c:54-65 | initlog performs exactly the writes of recovery; disk and cache then hold the recovered state with an empty header, and crash safety starts to hold |
| `Log.Log.InstallTrans` | kernel/log.c:68-83 | copies every logged block home, unpins it when not recovering, and changes no other block |
| `Log.Log.ReadHead` | kernel/log.c:86-97 | the in-memory header becomes what the header block on disk encodes |
| `Log.Log.WriteHead` | kernel/log.c:102-114 | writes the encoded header, one disk write: the commit point |
| `Log.Log.RecoverFromLog` | kernel/log.c:116-123 | performs exactly the writes of recovery; the disk is the recovered one, its header is empty, and the cache agrees with it |
| `Log.Log.BeginOp` | kernel/log.c:126-142 | admits an operation only if its reservation fits, otherwise it sleeps |
| `Log.Log.EndOp` | kernel/log.c:146-175 | with operations still outstanding the cache, the group and the recoverable states stay as they are; the last one commits: readers see no change, the disk writes are those of the journal's commit, the disk is clean and crash safety is kept, while other processes may be reading blocks outside the group; whenever begin_op becomes possible, sleepers are woken |
| `Log.Log.WriteLog` | kernel/log.c:178-191 | copies the cached blocks into the log, in order |
| `Log.Log.Commit` | kernel/log.c:193-203 | no home block changes for readers, the disk writes are exactly the journal's commit of the cached values, the header is empty again, and what readers saw becomes one more state that crashes recover to |
| `Log.Log.LogWrite` | kernel/log.c:214-235 | records the block and pins its buffer once more, or absorbs it if already logged and leaves the cache alone; the caller still holds the buffer, which is now pinned; neither panic is reachable within the reservation |
| `Log.Log.FindBlock` | kernel/log.c:225-228 | finds the block in the header or the first free position |
| `Log.Log.CrashAfter` | kernel/log.c:54-235 | after any sequence of calls: if the machine stops after any of the writes since boot, initlog accepts the disk and recovers what readers saw at the end of the last group whose header was written; a later stop never recovers an older state |
| `Operation.CacheHasSpare` | kernel/bio.c:74-88 | with fewer blocks pinned and buffers in use than there are buffers, the panic of bget is not reachable |
| `Operation.Update` | kernel/log.c:209-235 | bread, change, log_write, brelse: readers see the new block, it is pinned in the group, and every precondition of brelse is met |
| `Operation.UpdateAll` | kernel/log.c:209-235 | any number of logged writes change what readers see by exactly these writes and the group by exactly their blocks |
| `Operation.Perform` | kernel/log.c:126-235 | begin_op, any number of logged writes, end_op: readers see the writes; if it was the last operation the disk holds them, and one more state is there for crashes to recover, exactly when there was something to write |
| `Log.CrashLosesWholeGroup` | kernel/log.c:179-203 | after a crash inside commit, recovery gives the last committed disk or all that readers of the cache saw, nothing in between |
| `Bio.Bcache.constructor` | kernel/bio.c:36-53 | binit links all buffers into one ring and shows the disk as it is |
| `Bio.LinkAll` | kernel/bio.c:36-53 | binit's loop makes one doubly linked ring, last buffer first |
| `Bio.Bcache.Bget` | kernel/bio.c:58-89 | returns the buffer of a cached block, or recycles the least recently used unreferenced one; the block map is unchanged and no two buffers cache the same block; it panics exactly when the block is not cached and every buffer is referenced |
| `Bio.Bcache.Bread` | kernel/bio.c:92-103 | a locked buffer holding the latest value of the block |
| `Bio.Bcache.Bwrite` | kernel/bio.c:106-112 | one disk write of the buffer, invisible to readers |
| `Bio.Bcache.Brelse` | kernel/bio.c:116-137 | drops a reference, and with the last one moves the buffer to the front of the ring; requires what the log guarantees, that an unpinned changed buffer has reached the disk |
| `Bio.ToFrontLinks` | kernel/bio.c:128-133 | the six assignments to next and prev move one buffer to the front and keep the ring |
| `Bio.RecentFirst` | kernel/bio.c:116-137 | after any sequence of releases the ring is in order of the last release, the latest first, and buffers never released stay behind in their first order; so what bget recycles is the least recently used |
| `Bio.Bcache.Bpin` | kernel/bio.c:139-144 | an extra reference keeps the buffer from being recycled |
| `Bio.Bcache.Bunpin` | kernel/bio.c:146-151 | drops it once the contents are on disk |
| `Bio.ViewRecycle` | kernel/bio.c:74-86 | giving a clean buffer to another block does not change what readers see |
| `Bio.ViewStore` | kernel/bio.c:92-112 | changing a held buffer changes exactly its block of the map |
| `FsState.AllocKeeps` | kernel/fs.c:65-88 | a block that balloc returns was nobody's, is zero, and no reference to any block changes |
| `FsState.LinkWord` | kernel/fs.c:435-445 | storing a fresh block in the indirect block adds exactly one reference; this needs the zeroing of reused blocks |
| `FsState.FreeIndirect` | kernel/fs.c:467-477 | the indirect block can be freed once every block it lists is free |
| `FsState.BlocksConserved` | kernel/fs.c:49-125 | free, owned and metadata blocks always add up to the size of the disk |
| `FileSystem.FileSystem.Balloc` | kernel/fs.c:65-88 | the lowest free block, marked and zeroed, or 0 exactly when none is free |
| `FileSystem.FileSystem.Bfree` | kernel/fs.c:90-105 | clears one bit; its panic needs a block that is already free |
| `FileSystem.FileSystem.CountFreeBlocks` | kernel/fs.c:108-125 | the number of clear bits is the number of free blocks |
| `FileSystem.FileSystem.Bmap` | kernel/fs.c:410-449 | the block of a file position, allocated if missing, 0 only on a full disk; ownership stays one to one and no other reference changes |
| `FileSystem.FileSystem.Itrunc` | kernel/fs.c:453-481 | the file becomes empty and stays what it was, exactly its blocks become free, every other inode and file is as before, everything that changed is logged, the inode included, and nothing else but the bitmap is; "freeing free block" is not reachable |
| `FileSystem.FileSystem.Readi` | kernel/fs.c:499-524 | returns the slice of the file, clipped to its size, and never allocates |
| `FileSystem.FileSystem.Writei` | kernel/fs.c:533-567 | replaces exactly the written range and extends the size; on a full disk a prefix is written, up to a block that the file does not have; other files are untouched, and every block that changed was logged |
| `FileSystem.FileSystem.WriteThenRead` | kernel/fs.c:499-567 | readi of the range that writei wrote gives the bytes written |
| `FileSystem.FileSystem.Filewrite` | kernel/file.c:134-181 | returning n means the file is as after one large write; otherwise a prefix was written and the offset says how much, and this only for an offset behind the end, a file that would be too large or a full disk; every chunk logs at most seven blocks when the bitmap is one block |
| `FileSystem.WriteSplices` | kernel/fs.c:533-567 | patching one block of a file splices its bytes and changes no other file |
| `FileSystem.ChunkLogsSeven` | kernel/file.c:155-174 | four data blocks, for a chunk that is not aligned, indirect block, inode and bitmap: at most seven distinct blocks |
| `DiskImage.DecodeEncode` | kernel/fs.h:6-28 | the words of an indirect block or bitmap give the bytes of the block back |
| `DiskImage.MountImage` | kernel/fs.h:8-51 | mounting a disk whose home blocks are the image of a file system finds its inodes, bitmap and data, whatever the log area holds |
| `DiskImage.SameFilesOwned` | kernel/fs.c:49-125 | ownership of blocks does not depend on the other areas of the disk |
| `DiskImage.SameFilesContents` | kernel/fs.c:499-567 | neither do the contents of files |
| `DurableFiles.ImageWritten` | kernel/fs.c:254-269 | writing the logged blocks to a disk that holds the old file system makes it hold the new one |
| `DurableFiles.Commit` | kernel/file.c:162-167 | an operation that changed only what it logged, and logged fewer than MAXOPBLOCKS blocks: afterwards the disk holds what memory holds, and crashes have one more state to recover to |
| `DurableFiles.NoOlder` | kernel/log.c:126-235 | after a given moment a crash never brings back a state older than the one current then |
| `DurableFiles.Files.constructor` | kernel/fs.c:40-47 | booting from any disk whose recovery holds sound files finds these files |
| `DurableFiles.Files.CrashRecoversFiles` | kernel/file.c:134-181 | after any write since boot, a crash leaves a disk that recovers to one of the recorded states, with every block owned once and every file whole; it can be booted from again |
| `DurableFiles.Files.WriteChunk` | kernel/file.c:158-167 | a chunk is written as one operation: the file is spliced, other files are as before, and the new state is one that crashes recover to |
| `DurableFiles.Files.Filewrite` | kernel/file.c:148-175 | if the machine stops after any of the disk writes it makes, recovery finds the files as before, or with a number of whole chunks written, or with all that was written; once it has returned, all that was written; it fails only for an offset behind the end, a file that would be too large or a full disk |
| `DurableFiles.Files.Settled` | kernel/file.c:162-167 | between operations a crash brings back exactly what memory holds |
| `DurableFiles.Files.Truncate` | kernel/sysfile.c:358-360 | truncation as one operation: if the machine stops after any of its disk writes, recovery finds the file whole or empty, and empty once it has returned; every other file is as before |
| `Directory.SameName` | kernel/string.c:60-68 | strncmp is 0 exactly for names equal up to a NUL or the limit |
| `Directory.PadName` | kernel/string.c:70-81 | strncpy keeps the name's key |
| `Directory.Insert` | kernel/fs.c:606-634 | filling an unused entry with a new name inserts one binding and makes no duplicate |
| `Directory.Remove` | kernel/fs.c:636-660 | clearing an entry's inode number removes its one binding |
| `Directory.Dirlookup` | kernel/fs.c:577-603 | lookup in the finite map, with the entry's offset |
| `Directory.Dirlink` | kernel/fs.c:606-634 | insert if absent; an unused entry is used if there is one, and otherwise the directory grows by one; failing, it changes no binding, and with the name free it fails only if every entry is used and the directory cannot grow |
| `Directory.Dirunlink` | kernel/fs.c:636-660 | remove; fails exactly when the name is not bound |
| `Directory.Rename` | kernel/fs.c:701-744 | returning 0 moves exactly one binding, returning -1 changes none, and with the old name bound and the new one free it fails only if the directory cannot grow; for an entry that names the directory itself it never returns 0: it fails, or adds the new name and locks the same inode twice; what it logs is what two entries need |
| `DurableDirectory.EntryLogsFour` | kernel/fs.c:606-634 | writing an entry logs at most four blocks: its own, the indirect block, inode and bitmap |
| `DurableDirectory.TwoEntries` | kernel/fs.c:701-744 | two entries written in one operation log at most eight blocks, which is within the reservation |
| `DurableDirectory.Rename` | kernel/fs.c:701-744 | rename within a directory is atomic: if the machine stops after any of its disk writes, recovery finds the directory with the old name or with the new one, and with the new one once it has returned 0; it fails only for a missing old name, a new name in use or a directory that cannot grow; other files are as before |
| `PageTable.MakePteOk` | kernel/riscv.h:347-352 | address and flags survive being packed into an entry |
| `PageTable.AttachKeeps` | kernel/vm.c:85-103 | hanging a zeroed page into an empty entry keeps the tree unshared and maps nothing new |
| `PageTable.SetLeaf` | kernel/vm.c:142-192 | storing a bottom entry changes the map at exactly one page number |
| `PageTable.EmptyTree` | kernel/vm.c:269-287 | a table that maps nothing has only table entries, each to a table of its own |
| `Vm.Freerange` | kernel/kalloc.c:33-40 | every whole page of the range is free, once |
| `Vm.Mem.constructor` | kernel/kalloc.c:26-40 | kinit makes exactly the whole pages of the range free |
| `Vm.Mem.Kalloc` | kernel/kalloc.c:65-82 | the first free page, filled with junk, or 0 exactly when none is free |
| `Vm.Mem.Kfree` | kernel/kalloc.c:42-63 | puts a page that is not free back on the list; its panic is not reachable |
| `Vm.Mem.Walk` | kernel/vm.c:73-103 | the bottom table for an address, growing the tree if asked to; the map does not change; growing takes exactly the tables that were missing, and fails exactly when there are fewer free pages than that |
| `Vm.Mem.Mappages` | kernel/vm.c:138-165 | adds exactly the requested keys and takes exactly the table pages that were missing for them; it fails exactly when there are fewer free pages than that, and then has added a prefix |
| `Vm.Mem.Uvmunmap` | kernel/vm.c:167-192 | removes exactly the requested keys and frees exactly their frames if asked to; it panics if and only if the address is not aligned or some page number of the range is not mapped, at the first such one |
| `Vm.Mem.Uvmcreate` | kernel/vm.c:194-205 | a fresh space that maps nothing, or 0 |
| `Vm.Mem.Uvmalloc` | kernel/vm.c:223-249 | succeeds if and only if the free pages suffice for the new pages and the table pages missing on the way to them; then it adds zeroed owned pages at exactly the new sizes; on failure map and frames are as before and no page is lost |
| `Vm.Mem.Uvmdealloc` | kernel/vm.c:251-267 | frees exactly the pages between the two sizes; it panics if and only if one of them is not mapped |
| `Vm.DeallocPanics` | kernel/vm.c:251-267 | on a process of a given size: it panics exactly when the old size reaches a page past the process and the new size does not |
| `Vm.DeallocOnePagePast` | kernel/vm.c:251-267 | an old size one page beyond the process, which the comment allows, panics |
| `Vm.Mem.Uvmcopy` | kernel/vm.c:299-333 | succeeds if and only if the free pages suffice for the copies and the table pages missing in the child; then the child has the parent's flags and bytes in frames of its own; on failure nothing; the parent is untouched |
| `Vm.TwoEach` | kernel/vm.c:73-103 | no range of n pages is missing more than two table pages for each, so 3 n free pages are always enough |
| `Vm.Mem.Freewalk` | kernel/vm.c:269-287 | frees each table of the subtree once; "freewalk: leaf" is not reachable |
| `Vm.Mem.Uvmfree` | kernel/vm.c:289-297 | every frame and every table page of the space is free again, each once |
| `Memory.BootPartition` | kernel/kalloc.c:26-40 | after kinit every page is free and nothing else |
| `Memory.ChangeKeeps` | kernel/vm.c:138-333 | an operation on one space keeps the partition of memory and disturbs no other space |
| `Memory.CreateKeeps` | kernel/vm.c:194-205 | a new space takes its root page from the free list |
| `Memory.DestroyKeeps` | kernel/vm.c:289-297 | a freed space gives all its pages back |
| `Memory.HoldKeeps` | kernel/kalloc.c:65-82 | a page the kernel allocates for itself leaves the free list |
| `Memory.ReleaseKeeps` | kernel/kalloc.c:42-63 | and comes back when it frees it |
| `Memory.RunKeeps` | kernel/vm.c:138-371 | from kinit on, after every sequence of these operations with spaces coming and going, every page is free, held by the kernel or owned by exactly one space |
| `Memory.Isolated` | kernel/vm.c:138-371 | over every such run, a space that no operation works on keeps its map and the contents of its frames |
| `Memory.Machine.constructor` | kernel/kalloc.c:26-40 | kinit gives the machine that has booted |
| `Memory.Machine.Create` | kernel/vm.c:194-205 | uvmcreate is the birth of a space of one table page, and fails exactly when no page is free |
| `Memory.Machine.Grow` | kernel/vm.c:223-249 | uvmalloc is a change of one space: its old pages stay; it succeeds exactly when the free pages suffice, and then zeroed pages of its own, open to the user, are added at exactly the new numbers; otherwise its map is as before |
| `Memory.Machine.Shrink` | kernel/vm.c:251-267 | so is uvmdealloc: exactly the pages between the sizes go, the others keep their contents; it panics if and only if one is missing |
| `Memory.Machine.Map` | kernel/vm.c:138-165 | so is mappages: exactly the requested page numbers, or a prefix of them exactly when the missing table pages are more than the free ones; frames and their contents stay |
| `Memory.Machine.Unmap` | kernel/vm.c:167-192 | so is uvmunmap without freeing: exactly the requested page numbers; it panics if and only if the address is not aligned or one is missing |
| `Memory.Machine.Copy` | kernel/vm.c:299-333 | so is uvmcopy, of the child only, which gets the flags and bytes of the parent's pages in frames of its own, or, exactly when the free pages do not suffice, stays as it was |
| `Memory.Machine.Write` | kernel/vm.c:348-371 | so is copyout: exactly the addressed bytes up to the first page the user cannot reach; it succeeds if and only if there is none |
| `Memory.Machine.Destroy` | kernel/vm.c:289-297 | uvmfree is the death of a space |
| `Memory.Machine.Hold` | kernel/kalloc.c:65-82 | kalloc moves a page from the free list to the kernel, or there is none |
| `Memory.Machine.Release` | kernel/kalloc.c:42-63 | kfree moves it back |
| `UserCopy.Walkaddr` | kernel/vm.c:105-126 | the frame under a user address, 0 exactly if the user has no such page |
| `UserCopy.Copyout` | kernel/vm.c:348-371 | replaces exactly the addressed bytes, up to the first inaccessible page; succeeds exactly if all are accessible |
| `UserCopy.Copyin` | kernel/vm.c:373-396 | the addressed bytes, exactly if all are accessible |
| `UserCopy.CopyinAfterCopyout` | kernel/vm.c:348-396 | reading a range back gives what was written, across page boundaries |
| `UserCopy.CopyoutElsewhere` | kernel/vm.c:348-371 | every other user byte reads as before |
| `UserCopy.AddedUserOwned` | kernel/vm.c:223-333 | the pages that uvmalloc and uvmcopy add keep every user page one of the space's own frames |
| `UserCopy.AddedIsOpen` | kernel/vm.c:223-249 | the user can reach every page that uvmalloc adds, to read it, and to write or execute it exactly as it was asked to |
| `ProcessMemory.ProcUserOwned` | kernel/proc.c:174-207 | every page the user of a process can reach is one of its frames; trampoline and trapframe are out of reach |
| `ProcessMemory.RoomAbove` | kernel/proc.c:259-275 | a process can never grow into its trapframe, because memory is smaller than the address space |
| `ProcessMemory.ProcPagetable` | kernel/proc.c:174-207 | with at least three free pages a space with trampoline and trapframe and nothing else, otherwise 0 and everything as before |
| `ProcessMemory.ProcFreepagetable` | kernel/proc.c:209-217 | no panic is reachable, and every page of the process is free again |
| `ProcessMemory.Growproc` | kernel/proc.c:257-275 | the new size, or the old one and -1, exactly when the free pages do not suffice for the new pages and their missing tables; what is kept stays as it was, what is gained is zero and the user may read and write it, and a shrink below 0 wraps around and does nothing |
| `ProcessMemory.ForkMemory` | kernel/proc.c:287-297 | the child is a twin of the parent, flags and bytes, in pages of its own, if and only if there are free pages for its copies and its tables; otherwise everything is as before |
| `ProcessMemory.Life` | kernel/proc.c:134-297 | a process is made, grows, forks, and both end: with three free pages there is a process of the size asked for or 0, a twin of it exactly if the pages suffice, and whatever runs out on the way, the free pages are those from before |
| `ProcessRuns.StepKept` | kernel/proc.c:280-604 | every step of every process, scheduler and interrupt handler, with preemption wherever no spinlock is held, keeps the invariant |
| `ProcessRuns.RunKept` | kernel/proc.c:280-604 | so does every run |
| `ProcessRuns.NoLostWakeup` | kernel/proc.c:535-580 | for any spinlock, whatever it guards, any channel and any condition on it: a process asleep on the channel, with nobody inside the lock, sleeps because its condition does not hold, also when a handler on an idle CPU made the last change |
| `ProcessRuns.SleepersFindItLocked` | kernel/sleeplock.c:21-41 | in particular a process asleep on a sleep lock sleeps on a lock that is held |
| `ProcessRuns.SleepLocksExclude` | kernel/sleeplock.c:21-41 | a sleep lock has at most one holder, and has one exactly while locked |
| `ProcessRuns.HoldingsleepIsRight` | kernel/sleeplock.c:43-52 | holdingsleep's test holds exactly for the holder |
| `ProcessRuns.RunningIffCurrent` | kernel/proc.c:444-510 | with its lock free, a process is RUNNING exactly when it is the current process of one CPU |
| `ProcessRuns.ParentsAreAlive` | kernel/proc.c:280-386 | every parent pointer names a process that is neither UNUSED nor ZOMBIE |
| `ProcessRuns.PidsAreUnique` | kernel/proc.c:92-150 | no two processes have the same pid |
| `ProcessHistory.ReapedOnceWithStatus` | kernel/proc.c:343-435 | in every run each pid is returned by wait at most once, with the status that the process with this pid gave to exit in that run |
| `ProcessHistory.StatusWasGiven` | kernel/proc.c:343-386 | the status kept of a process that has exited, reaped or not, is the one it gave to exit |
| `ProcessHistory.ParentIsForker` | kernel/proc.c:280-386 | every started process but init was forked in the run, and its parent, which is alive, is the process that forked it or, if that one has called exit, init |
| `ProcessHistory.PidsConserved` | kernel/proc.c:92-172 | every pid ever given out is that of a process in the table until wait returns it, and of none after that |
| `ProcessSwitch.SwitchingIsInvisible` | kernel/proc.c:444-532 | scheduler, yield and the switches between change only who runs: no field a process can see and nobody asleep or awake |
| `ProcessSwitch.KillMarks` | kernel/proc.c:585-604 | kill, at the process it looks for, marks it and wakes it if it sleeps, and changes nobody else |
| `ProcessSwitch.KillFindsIt` | kernel/proc.c:585-604 | a process that has the pid when kill is called and when it has returned is marked, whatever happened between |
| `ProcessSwitch.MarkedWasAsked` | kernel/proc.c:585-604 | in every run a process is marked only if kill was called for its pid, or for 0 |
| `ProcessSwitch.WaitGivesUp` | kernel/proc.c:426-434 | after a scan without a zombie, wait returns exactly if it saw no child or is killed, and sleeps otherwise |
| `ProcessWaits.SleepsUntilCalled` | kernel/proc.c:535-604 | a step ends a process's sleep if and only if it is a wakeup of the channel it sleeps on, or kill, at that process; its channel stays the same until then |
| `ProcessWaits.AwakeWasCalled` | kernel/proc.c:535-604 | over every run: a process that sleeps at the beginning and not at the end was woken on its channel or killed in between |
| `ProcessWaits.NoChildStuck` | kernel/proc.c:280-326 | a process that is allocated and not started is the child of a fork that has not returned, so no child is left behind |
| `ProcessWaits.WaitKnowsItsChildren` | kernel/proc.c:388-435 | when the scan of wait ends without a zombie, it has noted children if and only if there are any |
| `ProcessProgress.MovesUnlessBlocked` | kernel/proc.c:280-604 | a process on a CPU can take its next step if and only if nobody holds the lock that step needs |
| `ProcessProgress.NoDeadlock` | kernel/proc.c:280-604 | in every reachable state a process on a CPU can take its next step, or the holder of the lock it needs can, or the holder of the p->lock that this one needs: no chain of waiting is longer |
| `ProcessProgress.ReadyCanRun` | kernel/proc.c:444-472 | an idle CPU can pick a process if and only if it is RUNNABLE and switched out |
| `ProcessRuns.ReapedByParent` | kernel/proc.c:388-435 | what wait reaps is a zombie child of the caller |
| `ProcessRuns.NoZombieMissed` | kernel/proc.c:330-435 | with wait_lock free, nobody sleeps in wait beside a zombie child |
| `ProcessRuns.WaitFailsWithoutChildren` | kernel/proc.c:399-430 | wait gives up for want of children only when there are none |
| `ProcessRuns.SchedNeverPanics` | kernel/proc.c:474-499 | at every call of sched only p->lock is held and the state has changed |
| `ProcessRuns.KillFindsProcessIffNonzero` | kernel/proc.c:585-604 | in every reachable state, the slot that kill(pid) finds holds a process if and only if pid is not 0 |
| `ProcessRuns.BornUnmarked` | kernel/proc.c:585-604 | in every run without a kill(0), a forked child is not born killed |
| `ProcessRuns.BornKilled` | kernel/proc.c:585-604 | a run from boot with a kill(0) whose forked child is ready to run and already killed |
| `Virtio.Disk.constructor` | kernel/virtio_disk.c:144-146 | all descriptors free, both rings empty |
| `Virtio.Disk.AllocDesc` | kernel/virtio_disk.c:155-166 | the first free descriptor, or -1 exactly if there is none |
| `Virtio.Disk.FreeDesc` | kernel/virtio_disk.c:168-182 | frees a descriptor in use; neither panic is reachable |
| `Virtio.Disk.FreeChain` | kernel/virtio_disk.c:184-197 | follows the chain and frees exactly its three descriptors |
| `Virtio.Disk.Alloc3Desc` | kernel/virtio_disk.c:199-213 | three distinct free descriptors, or none when no three are free, and then nothing stays allocated |
| `Virtio.Disk.Submit` | kernel/virtio_disk.c:215-281 | a new request on three free descriptors, recorded for its buffer, with a status that is not yet 0, and put in the avail ring; no other request changes |
| `Virtio.Disk.Complete` | kernel/virtio_disk.c:235-269 | the device, walking the descriptors, moves exactly the request's data and reports it once |
| `Virtio.Disk.Handle` | kernel/virtio_disk.c:312-324 | handles the oldest entry of the used ring: the status is 0, and only that request's buffer, which it wakes, is marked done |
| `Virtio.Disk.Intr` | kernel/virtio_disk.c:294-327 | every reported request is handled once, across index wrap-around, and exactly the buffers that are done now are woken |
| `Virtio.Disk.Finish` | kernel/virtio_disk.c:283-292 | frees exactly the request's three descriptors, once its buffer is done |
| `Transfers.Driver.Begin` | kernel/virtio_disk.c:215-281 | the request is made, and what it has to move is noted, if and only if fewer than two are in flight; otherwise nothing changes |
| `Transfers.Driver.Complete` | kernel/virtio_disk.c:235-269 | the device, carrying out requests in any order, moves exactly that request's data and spoils no request on another sector |
| `Transfers.Driver.End` | kernel/virtio_disk.c:215-292 | virtio_disk_rw as a whole: on return, whatever came between, buffer and sector agree, and hold what the buffer held when a write, the sector when a read was made, unless another request was made on the same sector meanwhile |
| `Virtio.DescriptorsConserved` | kernel/virtio_disk.c:155-213 | free descriptors and three for each request always add up to NUM, so at most two requests are in flight |
| `Umalloc.Heap.FindPlace` | user/umalloc.c:29-32 | the search ends, at the element of the ring after which the block belongs |
| `Umalloc.Heap.Free` | user/umalloc.c:24-44 | the block's units lie in one free block, merged with the neighbours it touches; the ring stays ordered without touching blocks and the tiling stays exact |
| `Umalloc.Heap.Morecore` | user/umalloc.c:46-61 | a free block of at least the units asked for and 4096, or failure with the list unchanged |
| `Umalloc.Heap.Malloc` | user/umalloc.c:63-90 | a new live block with room for the bytes; it asks for memory only when no free block is large enough, and returns 0 only when sbrk then refuses; terminates |
| `Umalloc.Heap.Take` | user/umalloc.c:75-85 | takes a whole block out of the ring or cuts its end off |
| `Umalloc.SplitTiles` | user/umalloc.c:79-81 | cutting a block in two covers the same units |
| `Umalloc.FreeJoined` | user/umalloc.c:33-35 | merging with the block above keeps order and ownership |
| `Umalloc.DownJoined` | user/umalloc.c:38-40 | merging with the block below keeps order and ownership |
| `Shell.GetToken` | user/sh.c:269-324 | the token at the cursor, its span, and the cursor behind it |
| `Shell.Peek` | user/sh.c:326-336 | whether one of the characters stands behind the white space |
| `Shell.ParseRedirs` | user/sh.c:390-432 | the redirections from the cursor on, giving back a word that starts with 2 |
| `Shell.ParseExec` | user/sh.c:450-481 | the simple command of the grammar; more than 9 arguments panic |
| `Shell.ParseBlock` | user/sh.c:434-448 | the parenthesised line of the grammar |
| `Shell.ParsePipe` | user/sh.c:377-388 | the pipeline of the grammar |
| `Shell.ParseLine` | user/sh.c:360-375 | the line of the grammar; terminates |
| `Shell.ParseCmd` | user/sh.c:343-358 | parses the whole line or panics; afterwards every argument and file string reads back as its slice of the line |
| `Shell.NulTerminate` | user/sh.c:483-528 | writes a 0 at exactly the ends of the command's words |
| `Shell.ReadsBack` | user/sh.c:483-528 | no word is cut: the C string at a word's start is the word |
| `ShellGrammar.SentencesParse` | user/sh.c:269-481 | every sentence of the grammar, with any white space between its tokens that keeps them apart, is accepted and parses to the tree it means: arguments in order, redirections wherever they stand |
| `ShellGrammar.ParsedIsSentence` | user/sh.c:269-481 | every line that is accepted is such a sentence, and what it parses to is that sentence's meaning |
| `ShellGrammar.LayoutReads` | user/sh.c:269-336 | tokens with white space between them are read as these tokens |
| `ShellGrammar.ReadsLayout` | user/sh.c:269-336 | what is read as tokens is these tokens with white space between them, and nothing is left over |
| `ShellGrammar.ParsePrint` | user/sh.c:269-481 | printing any legal tree fully parenthesised and parsing it gives the tree |
| `Grep.Match` | user/grep.c:71-81 | true exactly if some substring, or some prefix after ^, is in the language of the pattern |
| `Grep.MatchHere` | user/grep.c:83-95 | true exactly if a prefix of the text is in the language; the whole text when the pattern ends in $ |
| `Grep.MatchStar` | user/grep.c:97-105 | true exactly if some run of the character is followed by a match of the rest |
| `Grep.PrefixStar` | user/grep.c:97-105 | the language of a starred item, unfolded |
| `Grep.ShowParse` | user/grep.c:83-105 | no text is lost: every text is that of the pattern it is taken for |
| `Grep.ParseShow` | user/grep.c:83-105 | a pattern is what its text is taken for if and only if no single character stands before an item for a star and no $ for itself at the end |
| `Grep.GrepInput` | user/grep.c:10-34 | however the input is cut up by read, the output is the matching complete lines, up to a 0 byte, which hides the rest; reading ends early only when the buffer is full of what is no complete line |
| `Grep.SelectedMore` | user/grep.c:16-33 | selecting lines distributes over complete lines |
| `Grep.SelectedIsFilter` | user/grep.c:10-34 | what is selected from any lines are exactly those that match, in order |
| `Pipe.Pipe.constructor` | kernel/pipe.c:33-37 | an empty open pipe |
| `Pipe.Pipe.Close` | kernel/pipe.c:58-74 | the memory is freed exactly with the second end; whoever waits on the other end is woken |
| `Pipe.Pipe.Write` | kernel/pipe.c:76-103 | bytes are accepted in order; it fails exactly when it has more to write and there is no reader or it is killed, and sleeps exactly when the pipe is full instead; a channel that becomes ready is woken, unless the writer fails after writing into an empty pipe, and exactly then not |
| `Pipe.Pipe.Read` | kernel/pipe.c:105-130 | delivers exactly the oldest bytes; a byte that cannot be copied out is consumed; it waits or, when killed, fails exactly on an empty pipe that is open for writing; a channel that becomes ready is woken |
| `Pipe.KilledWriter` | kernel/pipe.c:82-89 | a writer killed after its first byte leaves a pipe that can be read and readers that were not woken |
| `Console.Console.Interrupt` | kernel/console.c:135-179 | one typed character acts on queue and line as the editing function says, and wakes readers exactly when the queue grows |
| `Console.Console.KillLine` | kernel/console.c:144-150 | erases exactly the line being edited |
| `Console.Console.Read` | kernel/console.c:79-127 | takes committed bytes in order and stops for exactly one of the stated reasons |
| `Console.CommittedStays` | kernel/console.c:135-179 | whatever is typed, committed bytes stay and the ring is not overrun |
| `Console.LineDelivered` | kernel/console.c:135-179 | a line typed with any corrections and ended by return, newline or ^D is queued as what a reader of the keys from the back would keep of it, with a newline for return |
| `Console.ReadsWholeLine` | kernel/console.c:79-127 | a read with room for the next line returns exactly that line and leaves what follows it |
| `Console.EofReadsNothing` | kernel/console.c:101-108 | a saved ^D makes the next read return 0 bytes |

## Left out

- Directory.Rename: models a run by itself inside one directory; reference counts, other processes and the error exits that keep references are not modelled.
- FileSystem.FileSystem.Writei: models copies that do not fault; a fault in the middle of a block may leave a changed buffer that is not logged.
- FileSystem.FileSystem.Filewrite: models the inode branch with n >= 0 and copies that do not fault; device and pipe branches go elsewhere.
- FileSystem.FileSystem.Readi: models destinations that do not fault.
- DurableFiles.Files.Filewrite: models one process at a time, a bitmap of one block, which FSSIZE gives, a log area of at least LOGSIZE blocks, and copies that do not fault.
- DurableDirectory.Rename: models an entry that does not name the directory itself; for such an entry rename locks the same inode twice and never returns, as Directory.Rename says.
- Operation.Perform: others may read blocks that the operation does not write; of the other outstanding operations only the reservations and the group are modelled.
- Bio.Bcache.Bget: models one device.
- Bio.Bcache.Bread: models a block whose sleep lock is free, with a buffer for it; waiting for the lock is the subject of ProcessRuns; NBUF equals LOGSIZE, so pinned buffers alone can fill the cache, and Operation.CacheHasSpare says when they do not.
- Log.Log.EndOp: others may read blocks outside the group while it commits; a reader of a block of the group makes commit wait for the sleep lock, which is left out as in Bread.
- Log.Log.BeginOp: returns whether the operation was admitted; sleeping and trying again is left to the caller.
- Vm.Mem.Mappages: remapping a mapped page, an empty range and addresses beyond MAXVA are panics of the source and preconditions here.
- Vm.Mem.Uvmdealloc: old sizes of 2^31 pages and more, whose count does not fit a C int, and ranges with mapped pages that the space does not own, such as the trapframe, are left out.
- ProcessRuns.StepKept: spinlocks are atomic, allocproc and the copying part of fork are one step that succeeds or changes nothing, a process exits only without sleep locks, and closing files before that is not modelled.
- Virtio.Disk.Complete: the device reports status 0 and completes each request once; errors and a misbehaving device are not modelled.
- Virtio.Disk.Submit: one attempt; sleeping until descriptors are free is left to the caller, as in Transfers.Driver.Begin.
- Umalloc.Heap.Malloc: addresses count whole headers, sbrk is assumed to give aligned, fresh, increasing regions below 2^32 units, and nbytes is small enough for sbrk's int argument.
- Shell.ParseExec: a simple command's redirections are kept in a list and wrapped around it at the end, where the source wraps them while the argument array still grows.
- Processor state, interrupts, context switches, memory fences and the boot code are steps of the environment or absent.
- Spinlocks are atomic sections; their implementation is not modelled.
- exec, the system-call layer, path names, inode reference counts, the UART and the device registers of the disk are not modelled.
- ProcessProgress.NoDeadlock: an interrupt handler counts as a thread of control of its own, so that one which spins on a lock of the process it interrupted, which push_off excludes, is not modelled.
- Liveness beyond the absence of deadlock is not claimed: nothing says that a runnable process is scheduled or that a woken one gets the lock.
- copyinstr, uvmclear, uvmfirst, ialloc and the kernel page table would only add easy members; the disk layout of an inode has no device numbers and link count.
- The shell's runcmd and the other user commands are wrappers around system calls.
