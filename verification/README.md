# xv6-riscv in Dafny

A model of the parts of xv6-riscv that have to be right for the rest to work, and proofs of what they
promise. Kernel code that changes state in place is modelled by classes whose methods follow the C
functions branch by branch; code that several processes or CPUs run at once is modelled by state machines
whose steps they take in any order; what both are proved against are functions on values and lemmas about
them.

| files | part of the system |
|---|---|
| `LogDisk`, `LogMachine`, `LogSafety`, `LogBudget`, `LogTrace` | the redo log: what is on disk when commit or recovery is cut short; every interleaving of operations, readers, the committing process and crashes over the buffer cache; how much an operation may log; the machine's commit against the class's |
| `Bio`, `Log` | the buffer cache with its linked LRU list, and log.c running on it, loop by loop |
| `FsModel`, `Fs` | bitmap allocation, direct and indirect blocks, truncation, reading and writing files, filewrite's chunks and how many blocks each of them logs |
| `HeapModel`, `Umalloc` | the user-level allocator and its circular, address-ordered free list |
| `VmModel`, `VmSteps`, `VmBytes`, `Vm` | Sv39 page tables built from the page pool, as a map from virtual pages to frames; user memory as bytes |
| `SleepWakeup` | sleep and wakeup on any channel with any condition under any spinlock, yield, the scheduler and sleep-locks, one lock operation or assignment a step |
| `Virtio` | descriptors, chains and both rings of the disk queue, with a device that completes in any order |
| `Regex` | grep's matcher |
| `Pipe` | the pipe's ring with its 32-bit counters |
| `Format`, `PanicLog` | printf, the panic logger's vsnprintf, and its ring of entries |
| `ShellModel`, `Shell` | the shell's grammar with a printer for it, and its parser |
| `Params`, `Ring`, `Basics` | sizes several parts depend on, rings with wrapping counters, and small shared definitions |

How to read the models:

- A kernel panic ends the operation. Where the source can avoid it, the proof shows that the call cannot
  reach it. Where it cannot (bget without a free buffer, log_write's two tests), the method returns
  `ok == false` and its contract says what is on disk then.
- Ghost state never decides anything. It records what the contracts are about: who owns a block, a frame or
  a unit of memory, which writes the disk has seen, which bytes a pipe has accepted.
- The environment comes in as arguments: what sbrk answers (`s`), how many bytes of a user buffer can be
  copied (`good`), whether a process has been killed, which requests the device takes and finishes, and when, the
  string at an address (`strings`), which buffer a process asks for and when the machine crashes.
- In `LogMachine` the history `mods` lists the changes made by operations in order, and `durable` says how
  many of them the disk means. A crash cuts the history there, so "an operation is atomic" says that no
  operation has changes on both sides of the cut.
- A file is the byte sequence `File(data, inode)`. Blocks that are not allocated yet read as the zeros that
  balloc would put in them, which is why allocation changes no byte; the same holds for user memory and
  vmfault.
- Virtual addresses are bytes; physical memory is counted in pages, page 0 standing for a null pointer. The
  entry format is that of section 4.4 of the RISC-V Privileged Architecture, version 20211203.
- The disk queue is that of section 2.6 of VIRTIO 1.1, and a request is the three-descriptor block request
  of its section 5.2.

Two places where the source is less than one might expect:

- log_write tests for a full log before it looks for the block in the list. An operation that passes no more
  than MAXOPBLOCKS different blocks to it can therefore still stop the system, by passing one of them twice
  (`LogBudget.TooBigThoughAbsorbed`). What is enough is that it has added fewer than MAXOPBLOCKS blocks each
  time it calls log_write (`LogSafety.ReservationHolds`), and the panic happens exactly with a full log,
  when every running operation has used its whole budget (`LogBudget.PanicMeansSpent`). filewrite stays
  below that bound (`Fs.FileSystem.FileWrite`).
- In the shell a background command ends its line unless `;` follows: `a & b` is a syntax error
  (`ShellModel.BackgroundThenWord`), and a line that starts with a background command is accepted exactly if
  nothing follows, or `;` and an acceptable line (`ShellModel.BackgroundLine`).

## Model

| member | source | states |
|---|---|---|
| LogDisk.CommitAtomic | xv6-riscv/kernel/log.c:66-204 | Crash atomicity: commit is cut after any number of its block writes, recovery is then cut any number of times, and one recovery completes; the home blocks are then wholly old if the header write was not reached and wholly new otherwise, and the on-disk list is empty |
| LogDisk.RecoverPrefix | xv6-riscv/kernel/log.c:66-124 | A crash after any number of recovery's writes leaves what every block means unchanged; a complete recovery puts that meaning into the home blocks and empties the list |
| LogDisk.AfterCrashesShows | xv6-riscv/kernel/log.c:118-124 | The same over any sequence of recoveries that are themselves cut short |
| LogDisk.CopiedMeans | xv6-riscv/kernel/log.c:67-84 | Copying any number of log slots home changes no block's meaning, and a full copy leaves that meaning in the home block |
| LogDisk.CutBeforePoint | xv6-riscv/kernel/log.c:180-204 | A commit cut anywhere before its header write still shows the old contents |
| LogDisk.CutIsRecovery | xv6-riscv/kernel/log.c:195-204 | Past the header write, what commit does to the disk is a prefix of what recovery would do |
| LogDisk.CutAfterPoint | xv6-riscv/kernel/log.c:195-204 | A commit cut from the header write on shows the new contents, and a complete one holds them at home with an empty list |
| LogDisk.CommittedMeans | xv6-riscv/kernel/log.c:104-115 | Right after the header write every home block means what the cache held |
| LogDisk.CommitSplit | xv6-riscv/kernel/log.c:195-204 | The writes of commit are those up to the commit point followed by exactly those recovery would make from there |
| LogDisk.PutHead | xv6-riscv/kernel/log.c:104-115 | Reading back the header that write_head stores yields the list in memory, and words past it are untouched |
| LogDisk.Find | xv6-riscv/kernel/log.c:216-236 | The absorption scan finds the block's first place in the list, or its end if the block is not listed |
| LogSafety.CrashSafe | xv6-riscv/kernel/log.c:127-236 | In every interleaving, at every moment: the disk means the changes of a prefix of the history; operations whose changes it contains have ended; and every operation's changes are wholly inside or wholly outside it |
| LogSafety.RecoveryCompletes | xv6-riscv/kernel/log.c:118-124 | A recovery that completes has put exactly the durable changes into the home blocks, with an empty list |
| LogSafety.CommitMakesDurable | xv6-riscv/kernel/log.c:148-176 | When end_op returns from commit, every change made so far is installed and survives any crash |
| LogSafety.CacheTransparent | xv6-riscv/kernel/bio.c:58-151 | Whoever reads a cached home block sees the latest change to it; refcnt is the holders plus one if the block is logged; a buffer nobody references agrees with the disk, so recycling it loses nothing |
| LogSafety.ReservationHolds | xv6-riscv/kernel/log.c:127-176 | In every interleaving lh.n plus the unused budget of running operations is at most LOGBLOCKS, nobody is inside an operation during a commit, and an operation that has added fewer than MAXOPBLOCKS blocks meets neither panic of log_write |
| LogSafety.StepKeeps | xv6-riscv/kernel/log.c:127-236 | Every step of every process, of the committer, of a crash and of recovery keeps the whole invariant |
| LogSafety.RunKeeps | xv6-riscv/kernel/log.c:54-236 | Every state that any run from power-on reaches satisfies it |
| LogSafety.GetKeeps | xv6-riscv/kernel/bio.c:58-103 | A lookup, also one that recycles a buffer, keeps it |
| LogSafety.ReleaseKeeps | xv6-riscv/kernel/bio.c:117-137 | So does letting a buffer go |
| LogSafety.BeginKeeps | xv6-riscv/kernel/log.c:127-143 | So does entering an operation, by begin_op's test |
| LogSafety.LogWriteKeeps | xv6-riscv/kernel/log.c:216-236 | log_write, absorbing or appending, keeps it, and cannot panic within budget |
| LogSafety.EndOpKeeps | xv6-riscv/kernel/log.c:148-176 | Leaving an operation keeps it and never finds a commit running |
| LogSafety.CopyKeeps | xv6-riscv/kernel/log.c:180-192 | One turn of write_log keeps it |
| LogSafety.WriteHeadKeeps | xv6-riscv/kernel/log.c:104-115 | The commit point keeps it and makes everything so far the durable state |
| LogSafety.InstallKeeps | xv6-riscv/kernel/log.c:67-84 | One turn of install_trans, with its unpinning, keeps it |
| LogSafety.EraseKeeps | xv6-riscv/kernel/log.c:195-204 | The erasing header write keeps it |
| LogSafety.CrashKeeps | xv6-riscv/kernel/log.c:118-124 | A crash between any two steps keeps it, with only durable changes left in the history |
| LogSafety.ReadHeadKeeps | xv6-riscv/kernel/log.c:88-98 | Reading the header after a crash keeps it |
| LogSafety.ReplayKeeps | xv6-riscv/kernel/log.c:67-84 | One turn of install_trans during recovery keeps it |
| LogSafety.FinishKeeps | xv6-riscv/kernel/log.c:118-124 | The end of recovery keeps it |
| LogSafety.CopyInOrder | xv6-riscv/kernel/log.c:180-192 | The machine's copy step makes the very write that commit's write sequence has at that place |
| LogSafety.PointInOrder | xv6-riscv/kernel/log.c:104-115 | So does its header write |
| LogSafety.InstallInOrder | xv6-riscv/kernel/log.c:67-84 | So does its install step |
| LogTrace.CommitTrace | xv6-riscv/kernel/log.c:180-204 | Whatever other processes do during a commit, the disk has gone through exactly the writes of commit(), on the list and the contents it started with, up to where its phase says |
| LogTrace.SameStates | xv6-riscv/kernel/log.c:195-204 | The machine and the class Log, on the same list and contents, take the disk through the same states |
| LogBudget.PanicMeansSpent | xv6-riscv/kernel/log.c:216-236 | In every reachable state log_write stops with "too big a transaction" just when lh.n is LOGBLOCKS, and then every running operation has added all of its MAXOPBLOCKS blocks |
| LogBudget.TooBigThoughAbsorbed | xv6-riscv/kernel/log.c:216-236 | A run in which every operation passes at most MAXOPBLOCKS distinct blocks to log_write, and the next log_write, by an operation of a block it has already logged, stops the system all the same, because the test comes before the scan |
| LogBudget.WithinBudget | xv6-riscv/kernel/log.c:216-236 | In that run the distinct blocks that each operation has passed to log_write are within its budget |
| Bio.VictimIsOldest | xv6-riscv/kernel/bio.c:58-89 | If any buffer has refcnt 0, bget's victim is one of refcnt 0 released no later than any other of them |
| Bio.UnlinkKeeps | xv6-riscv/kernel/bio.c:117-137 | Unlinking a buffer leaves one circular doubly linked list of the others in the same order |
| Bio.PushFrontKeeps | xv6-riscv/kernel/bio.c:37-53 | Linking a buffer behind the head gives one such list with that buffer first |
| Bio.BreadGot | xv6-riscv/kernel/bio.c:58-103 | bread returns a valid buffer of the requested block with the contents it had to have; nobody sees any block change; only that block's count moves; buffers in use stay put; no block is cached twice |
| Bio.BreadSeen | xv6-riscv/kernel/bio.c:58-103 | The same, block by block |
| Bio.LetGoSeen | xv6-riscv/kernel/bio.c:117-137 | brelse lowers one block's count and changes no block's visible contents |
| Bio.WriteSeen | xv6-riscv/kernel/bio.c:107-112 | Writing a buffer to its block changes nothing anyone sees |
| Bio.StatesReplay | xv6-riscv/kernel/bio.c:107-112 | Each state the device goes through is an earlier one with the writes in between applied |
| Bio.HistoryExtends | xv6-riscv/kernel/bio.c:107-112 | Later writes do not change the states already passed |
| Bio.BCache.Binit | xv6-riscv/kernel/bio.c:37-53 | After binit all buffers are on the list, last one first, none of them assigned |
| Bio.BCache.ScanForBlock | xv6-riscv/kernel/bio.c:58-74 | The forward scan stops at the first buffer of the block, or at the head |
| Bio.BCache.ScanForVictim | xv6-riscv/kernel/bio.c:75-89 | The backward scan stops at the last buffer with refcnt 0, or at the head |
| Bio.BCache.Bget | xv6-riscv/kernel/bio.c:58-89 | bget shares the cached buffer, else takes over the victim, else stops; the list, its order and the one-buffer-per-block rule hold |
| Bio.BCache.Bread | xv6-riscv/kernel/bio.c:93-103 | bread does that and reads the block if the buffer was not valid; its promise to the caller holds |
| Bio.BCache.Bwrite | xv6-riscv/kernel/bio.c:107-112 | The block becomes the buffer's data in one atomic write |
| Bio.BCache.Requeue | xv6-riscv/kernel/bio.c:117-137 | brelse's six assignments move the buffer to the front and keep the rest in order |
| Bio.BCache.Brelse | xv6-riscv/kernel/bio.c:117-137 | One reference fewer; the last one moves the buffer to the front, so the list stays sorted by release time |
| Bio.BCache.Bpin | xv6-riscv/kernel/bio.c:140-144 | One reference more, nothing else |
| Bio.BCache.Bunpin | xv6-riscv/kernel/bio.c:147-151 | One reference fewer, nothing else |
| Log.RecoverStates | xv6-riscv/kernel/log.c:118-124 | Every state the device passes through in recover_from_log, however far it gets, means what the disk meant before; the last one installs it |
| Log.CommitStates | xv6-riscv/kernel/log.c:195-204 | Every state the device passes through in commit, however far it gets, means the old contents up to the header write and the new ones from it on; the last one installs them |
| Log.LoggedIsPending | xv6-riscv/kernel/log.c:216-236 | Changing a block and log_writing it leaves only listed blocks for commit to write |
| Log.SettledIsPending | xv6-riscv/kernel/log.c:195-204 | What a commit or a recovery leaves is what the next commit starts from |
| Log.AfterCommit | xv6-riscv/kernel/log.c:67-84 | After the installs, disk and cache agree with what readers saw before commit |
| Log.Log.Init | xv6-riscv/kernel/log.c:54-63 | The log starts empty over a cache that shows the disk |
| Log.Log.CopyToLog | xv6-riscv/kernel/log.c:180-192 | One turn of write_log, through the cache |
| Log.Log.CopyHome | xv6-riscv/kernel/log.c:67-84 | One turn of install_trans, through the cache, unpinning unless recovering |
| Log.Log.WriteLog | xv6-riscv/kernel/log.c:180-192 | Exactly the log copies are written, in order; no home block changes |
| Log.Log.WriteHead | xv6-riscv/kernel/log.c:104-115 | The header block on disk becomes the list in memory, in one write |
| Log.Log.InstallTrans | xv6-riscv/kernel/log.c:67-84 | Exactly the listed blocks are written home, in order, each from its slot; each is unpinned once unless recovering |
| Log.Log.ReadHead | xv6-riscv/kernel/log.c:88-98 | The list in memory becomes the one on disk |
| Log.Log.RecoverFromLog | xv6-riscv/kernel/log.c:118-124 | The writes are a prefix of recovery's, all of them if it completes; then the list is empty and cache and disk agree |
| Log.Log.Publish | xv6-riscv/kernel/log.c:195-199 | The first part of commit writes the log copies and the header; readers see no home block change |
| Log.Log.InstallAndErase | xv6-riscv/kernel/log.c:200-203 | The second part writes the home copies and the empty header |
| Log.Log.Commit | xv6-riscv/kernel/log.c:195-204 | The writes are a prefix of commit's, all of them if it completes; then the list is empty, every logged block is unpinned once, readers see what they saw, and the disk agrees |
| Log.Log.TryBeginOp | xv6-riscv/kernel/log.c:128-143 | An operation gets in exactly if no commit is running and the log has room for MAXOPBLOCKS more for everybody |
| Log.Log.EndOp | xv6-riscv/kernel/log.c:148-176 | The last operation to leave commits everything, and only then is committing cleared; an earlier one writes nothing |
| Log.Log.LeaveOp | xv6-riscv/kernel/log.c:148-163 | The first critical section of end_op |
| Log.Log.LogWrite | xv6-riscv/kernel/log.c:216-236 | A listed block is absorbed; another is appended and pinned once; the two panics occur exactly under their tests |
| FsModel.BitsChange | xv6-riscv/kernel/fs.c:66-106 | Marking or freeing a block changes its bit and no other |
| FsModel.WordRoundTrip | xv6-riscv/kernel/fs.c:430-438 | Setting an entry of an indirect block sets that entry and no other |
| FsModel.BitMeaning | xv6-riscv/kernel/fs.c:66-106 | A bit is set iff its block is metadata or sits in a slot (direct, indirect or indirect entry) of some inode |
| FsModel.HeldOnce | xv6-riscv/kernel/fs.c:405-476 | No block sits in two slots, and only data blocks sit in slots |
| FsModel.FillSlot | xv6-riscv/kernel/fs.c:405-444 | Giving a free block to an empty slot keeps ownership exclusive |
| FsModel.EmptySlot | xv6-riscv/kernel/fs.c:448-476 | Freeing a slot's block and emptying the slot keeps it exact |
| FsModel.AllocDirect | xv6-riscv/kernel/fs.c:411-419 | A fresh zeroed block in a direct or the indirect slot keeps ownership and every byte of every file |
| FsModel.AllocEntry | xv6-riscv/kernel/fs.c:422-441 | So does one in an entry of the indirect block |
| FsModel.WritePage | xv6-riscv/kernel/fs.c:528-562 | Writing into one block of one file changes that block of that file only |
| FsModel.FreeAddr | xv6-riscv/kernel/fs.c:448-476 | The block that itrunc frees is a marked data block of that very slot, and freeing it keeps ownership |
| FsModel.FreeEntry | xv6-riscv/kernel/fs.c:462-472 | The same for an entry of the indirect block |
| FsModel.SpliceTwice | xv6-riscv/kernel/fs.c:539-551 | Two adjacent writes are one write of both |
| FsModel.WroteMore | xv6-riscv/kernel/fs.c:539-551 | One more block's worth of writei's loop extends the written range by exactly those bytes |
| FsModel.WroteFile | xv6-riscv/kernel/fs.c:528-562 | After the loop the file is the old one with the bytes spliced in |
| Fs.ProgressStep | xv6-riscv/kernel/fs.c:539-551 | One turn of writei's loop keeps: bytes so far written, nothing else changed, every block up to the position mapped |
| Fs.ProgressEnd | xv6-riscv/kernel/fs.c:553-562 | When the size is raised, the file is the old one with src[..tot] spliced at off, every block below the size is mapped, and no other file has changed |
| Fs.ReadStep | xv6-riscv/kernel/fs.c:494-519 | A piece of a mapped block is the matching piece of the file |
| Fs.TruncatedBits | xv6-riscv/kernel/fs.c:448-476 | After itrunc a bit is set iff it was and its block sat in no slot of the truncated inode |
| Fs.CostStep | xv6-riscv/kernel/fs.c:539-551 | A block of a write costs two log blocks, but one if it is the first and the write starts inside it |
| Fs.ChunkCost | xv6-riscv/kernel/file.c:148-173 | A filewrite chunk, at any offset, costs at most seven besides bitmap sharing, the indirect block and the inode |
| Fs.ThroughStep | xv6-riscv/kernel/file.c:148-173 | Chunk after chunk, the file is the old one with the bytes so far spliced in |
| Fs.FileSystem.Bzero | xv6-riscv/kernel/fs.c:51-60 | The block becomes zeros and is logged |
| Fs.FileSystem.Balloc | xv6-riscv/kernel/fs.c:66-89 | The first free block is marked and zeroed, and nothing else changes; 0 exactly if no block is free |
| Fs.FileSystem.Bfree | xv6-riscv/kernel/fs.c:92-106 | The bit of a marked block is cleared; callers below never reach "freeing free block" |
| Fs.FileSystem.Iupdate | xv6-riscv/kernel/fs.c:227-242 | The size and the addresses of the inode on disk become those in memory |
| Fs.FileSystem.FillAddr | xv6-riscv/kernel/fs.c:411-419 | An empty direct or indirect slot gets a fresh block, or the disk is full and nothing has changed |
| Fs.FileSystem.FillEntry | xv6-riscv/kernel/fs.c:422-441 | The same for an entry of the indirect block |
| Fs.FileSystem.Bmap | xv6-riscv/kernel/fs.c:405-444 | bmap returns the block of the slot, allocating only if it was empty; 0 only on a full disk, and then no block has been lost; no byte of any file changes |
| Fs.FileSystem.WriteChunk | xv6-riscv/kernel/fs.c:539-551 | One turn of writei's loop, with its log cost |
| Fs.FileSystem.WriteBlocks | xv6-riscv/kernel/fs.c:539-551 | The loop: tot bytes written, short only on a full disk or a failed user copy, with its log cost |
| Fs.FileSystem.Writei | xv6-riscv/kernel/fs.c:528-562 | -1 exactly for the ranges the source rejects, then nothing changes; otherwise the file is the old one with src[..tot] spliced at off, short only on a full disk or a failed user copy, and no other file changes |
| Fs.FileSystem.Readi | xv6-riscv/kernel/fs.c:494-519 | The bytes of the file in range, or -1 exactly if the user copy fails on the way; nothing is ever allocated |
| Fs.FileSystem.TruncDirect | xv6-riscv/kernel/fs.c:455-460 | The direct slots are emptied; their blocks, and only theirs, lose their owner |
| Fs.FileSystem.TruncIndirect | xv6-riscv/kernel/fs.c:462-472 | The same for the indirect block and its entries |
| Fs.FileSystem.Itrunc | xv6-riscv/kernel/fs.c:448-476 | The inode is empty; exactly the blocks of its slots have become free |
| Fs.FileSystem.FileWrite | xv6-riscv/kernel/file.c:135-179 | The bytes up to the new offset are spliced into the file and no other file changes; n or -1 is returned, -1 only for a file not open for writing, a negative n, a full disk, a failed user copy or a range writei rejects; every operation logs at most MAXOPBLOCKS distinct blocks, and fewer than that before each log_write |
| HeapModel.OneWrap | xv6-riscv/user/umalloc.c:24-44 | The list goes up in memory everywhere but at one node |
| HeapModel.LiveApart | xv6-riscv/user/umalloc.c:24-90 | A block that malloc gave out overlaps no free node |
| HeapModel.LivesApart | xv6-riscv/user/umalloc.c:24-90 | No two blocks that malloc gave out overlap |
| HeapModel.StopsAtPlace | xv6-riscv/user/umalloc.c:30-32 | The test in free's loop succeeds at the node the block belongs after and at no other |
| HeapModel.InsertRing | xv6-riscv/user/umalloc.c:24-44 | Linking a block in there keeps the list circular and address-ordered |
| HeapModel.MergeRing | xv6-riscv/user/umalloc.c:33-42 | Merging a node with the next keeps it so |
| HeapModel.UnlinkRing | xv6-riscv/user/umalloc.c:74-77 | Taking a node out keeps it so, and coalesced |
| HeapModel.SplitRing | xv6-riscv/user/umalloc.c:78-82 | Cutting the tail off a node keeps it so, and coalesced |
| HeapModel.SplitParted | xv6-riscv/user/umalloc.c:78-82 | The tail's units, and only they, change hands |
| HeapModel.GrowOk | xv6-riscv/user/umalloc.c:46-61 | Fresh memory above everything else becomes one live block |
| HeapModel.FreeOk | xv6-riscv/user/umalloc.c:24-44 | free keeps the heap whole: circular, ordered, fully coalesced, every unit with one owner, the block's units in the list |
| HeapModel.FreeLeft | xv6-riscv/user/umalloc.c:38-42 | The second merge of free restores full coalescing |
| Umalloc.Units | xv6-riscv/user/umalloc.c:69-69 | The fewest units that hold the request and one header |
| Umalloc.Allocator.constructor | xv6-riscv/user/umalloc.c:21-22 | Before the first malloc nothing is free and nothing is live |
| Umalloc.Allocator.Search | xv6-riscv/user/umalloc.c:24-32 | free's loop ends, at the right place, from wherever freep points |
| Umalloc.Allocator.Join | xv6-riscv/user/umalloc.c:33-42 | The words that free writes |
| Umalloc.Allocator.Free | xv6-riscv/user/umalloc.c:24-44 | The block leaves the live ones and its units are in a free node; all other blocks and the set of units stay |
| Umalloc.Allocator.Morecore | xv6-riscv/user/umalloc.c:46-61 | At least 4096 units more, or 0 and no change |
| Umalloc.Allocator.Take | xv6-riscv/user/umalloc.c:75-85 | The block handed out was not live and now is, with the requested size |
| Umalloc.Allocator.Malloc | xv6-riscv/user/umalloc.c:63-90 | Terminates after at most one morecore, asked for exactly if no free block is large enough; 0 exactly if that fails; otherwise a new live block of the requested units disjoint from all others, and units are conserved |
| VmModel.EncodeRoundTrip | xv6-riscv/kernel/riscv.h:352-369 | PTE2PA and PTE_FLAGS recover what an Sv39 entry was made of |
| VmModel.PxInjective | xv6-riscv/kernel/riscv.h:370-380 | The three 9-bit indices determine the page |
| VmModel.LowKnows | xv6-riscv/kernel/vm.c:97-115 | The tables on the way to a page belong to that tree and lie at those indices |
| VmModel.WalkInjective | xv6-riscv/kernel/vm.c:97-115 | walk sends distinct pages, also of distinct trees, to distinct entries |
| VmModel.AttachOk | xv6-riscv/kernel/vm.c:97-115 | A fresh zeroed table below an invalid entry keeps the forest of disjoint tables |
| VmModel.AttachSame | xv6-riscv/kernel/vm.c:97-115 | And changes no translation |
| VmModel.LeafSet | xv6-riscv/kernel/vm.c:145-174 | Writing a page's entry changes what that page maps to, in that tree, and nothing else |
| VmModel.MapOk | xv6-riscv/kernel/vm.c:145-174 | Mapping a page keeps every page of the pool in one use |
| VmModel.UnmapOk | xv6-riscv/kernel/vm.c:192-212 | So does unmapping one |
| VmSteps.MapStep | xv6-riscv/kernel/vm.c:145-174 | One mapped page: it translates, all others translate as before |
| VmSteps.ClearStep | xv6-riscv/kernel/vm.c:192-212 | One unmapped page: it no longer translates, all others do as before, and its frame has the use it was given |
| VmSteps.MappedIsFor | xv6-riscv/kernel/vm.c:97-115 | A frame in use by a tree is mapped at one page only |
| VmSteps.ForIsMapped | xv6-riscv/kernel/vm.c:97-115 | And it is mapped there |
| VmSteps.Undone | xv6-riscv/kernel/vm.c:216-240 | Mapping pages and unmapping them again leaves every frame in its old use, but for tables that stay |
| VmSteps.UnmappedAgain | xv6-riscv/kernel/vm.c:216-240 | And every translation as before |
| VmSteps.CopyStep | xv6-riscv/kernel/vm.c:296-324 | Pages copied so far stay as they are while the next one is copied |
| VmSteps.NewRoot | xv6-riscv/kernel/vm.c:178-187 | A new root maps nothing and disturbs nothing |
| VmSteps.DropTable | xv6-riscv/kernel/vm.c:262-278 | A table without valid entries may be freed; only the entry pointing to it is then wrong |
| VmSteps.CloseHole | xv6-riscv/kernel/vm.c:262-278 | Clearing that entry makes everything right again |
| VmSteps.ShrinkStep | xv6-riscv/kernel/vm.c:262-278 | One child freed and its entry cleared: only pages below have become free |
| VmSteps.AllFreed | xv6-riscv/kernel/vm.c:262-278 | When no entry is left, exactly the tables below have been freed |
| VmSteps.TreeGone | xv6-riscv/kernel/vm.c:282-288 | After uvmfree exactly the tree's tables and pages have become free |
| VmSteps.OtherTrees | xv6-riscv/kernel/vm.c:262-288 | Other trees map what they mapped |
| VmBytes.BytesKept | xv6-riscv/kernel/vm.c:97-174 | A step that keeps mappings and used pages keeps every byte of every process |
| VmBytes.BytesZero | xv6-riscv/kernel/vm.c:447-473 | So does faulting in a zeroed page |
| VmBytes.BytesWritten | xv6-riscv/kernel/vm.c:342-375 | Writing a frame through one page changes those bytes of that process and none of any other |
| VmBytes.CopyRoundTrip | xv6-riscv/kernel/vm.c:342-403 | copyin after copyout returns the bytes that went out |
| Vm.Memory.Kalloc | xv6-riscv/kernel/kalloc.c:69-82 | The first free page, filled with junk, or 0 exactly if none is free |
| Vm.Memory.Kfree | xv6-riscv/kernel/kalloc.c:47-63 | The page is on the free list again; only a page that is not free can be freed |
| Vm.Memory.Walk | xv6-riscv/kernel/vm.c:97-115 | The entry of the page, 0 exactly if there is none and none could be made, which means that at most one page was free; no translation changes, and without alloc nothing does |
| Vm.Memory.MapPage | xv6-riscv/kernel/vm.c:156-173 | One turn of mappages |
| Vm.Memory.Mappages | xv6-riscv/kernel/vm.c:145-174 | On success exactly the pages of the range are mapped, to consecutive frames; on failure the ones before are, and no page is left |
| Vm.Memory.UnmapPage | xv6-riscv/kernel/vm.c:199-211 | One turn of uvmunmap |
| Vm.Memory.Uvmunmap | xv6-riscv/kernel/vm.c:192-212 | Exactly the pages of the range are unmapped and their frames freed or left to the caller; tables stay |
| Vm.Memory.Uvmcreate | xv6-riscv/kernel/vm.c:178-187 | An empty tree, or 0 with nothing changed and no page free |
| Vm.Memory.AllocPage | xv6-riscv/kernel/vm.c:226-238 | A turn of uvmalloc and uvmcopy: a page taken, filled and mapped; on failure it is given back and is all that is left, and at most two pages were free before |
| Vm.Memory.Uvmalloc | xv6-riscv/kernel/vm.c:216-240 | Zeroed pages up to newsz with the given permissions; it fails only with fewer than three free pages for each page to map, and then every translation is as before and frames are conserved but for tables that stay |
| Vm.Memory.Uvmdealloc | xv6-riscv/kernel/vm.c:242-258 | Exactly the pages between the sizes are unmapped and freed |
| Vm.Memory.CopyPage | xv6-riscv/kernel/vm.c:303-318 | One turn of uvmcopy; it fails only on a mapped page, with at most two pages free |
| Vm.Memory.Uvmcopy | xv6-riscv/kernel/vm.c:290-324 | The child maps copies, with the same flags and bytes, of exactly the pages the parent maps; it fails only with fewer than three free pages for each of them, and then the child maps none and frames are conserved but for tables |
| Vm.Memory.Freewalk | xv6-riscv/kernel/vm.c:260-278 | With no leaf left, every table below is freed once, the panic is not reached, and nothing else changes |
| Vm.Memory.Uvmfree | xv6-riscv/kernel/vm.c:280-288 | Exactly the tree's pages and tables become free; other trees are untouched |
| Vm.Memory.Walkaddr | xv6-riscv/kernel/vm.c:117-138 | The frame if user code may touch the page, else 0 |
| Vm.Memory.Vmfault | xv6-riscv/kernel/vm.c:447-473 | A missing page below sz is mapped zeroed and writable, and 0 comes back only if va is not below sz, the page is there already, or at most two pages were free; no byte any process sees changes, and no other page translates differently |
| Vm.Memory.IsMapped | xv6-riscv/kernel/vm.c:475-486 | True exactly if the page translates |
| Vm.Memory.CopyoutPage | xv6-riscv/kernel/vm.c:349-373 | One turn of copyout |
| Vm.Memory.Copyout | xv6-riscv/kernel/vm.c:339-375 | The bytes are in that process's memory from dstva on and no other byte of any process changes; it succeeds on mapped writable pages, and on missing ones below sz with three free pages for each page touched |
| Vm.Memory.CopyinPage | xv6-riscv/kernel/vm.c:385-392 | The user page at an address, brought in if it is missing |
| Vm.Memory.Copyin | xv6-riscv/kernel/vm.c:377-403 | On success the bytes are those at srcva, and no byte of any process changes; it succeeds on mapped user pages, and on missing ones below sz with three free pages for each page touched |
| SleepWakeup.NoLostWakeup | xv6-riscv/kernel/proc.c:542-587 | In every interleaving, for any channel and any condition guarded by any spinlock: when the condition holds and nobody holds the lock, no process sleeps on the channel |
| SleepWakeup.SleeperIsAhead | xv6-riscv/kernel/proc.c:573-587 | While the process that made the condition true is still inside the lock, it owes a wakeup, and its loop has yet to reach every sleeper |
| SleepWakeup.MutualExclusion | xv6-riscv/kernel/sleeplock.c:21-41 | Between acquiresleep and releasesleep a process is alone with the lock, and the lock names it |
| SleepWakeup.TakenMeansOwned | xv6-riscv/kernel/sleeplock.c:21-41 | A taken lock is taken by a process that has it, or is on its way in or out |
| SleepWakeup.StepKeeps | xv6-riscv/kernel/proc.c:424-611 | Every step of every process and CPU keeps the invariant |
| SleepWakeup.RunKeeps | xv6-riscv/kernel/proc.c:424-611 | Every reachable state satisfies it |
| SleepWakeup.MoveKeeps | xv6-riscv/kernel/proc.c:542-587 | Each lock operation and assignment inside acquiresleep, sleep, releasesleep and wakeup keeps it |
| SleepWakeup.ActKeeps | xv6-riscv/kernel/proc.c:542-587 | So does what code in a critical section may do: sleep on a condition it finds false, make a condition true or false, wake, leave |
| SleepWakeup.FrameWaits | xv6-riscv/kernel/proc.c:542-587 | A sleeper keeps waiting for a false condition, or for a wakeup that is coming, through any step that passes on what it owes |
| SleepWakeup.WakeupPasses | xv6-riscv/kernel/proc.c:573-587 | The wakeup loop passes a process only if it does not sleep on the channel, or by waking it |
| SleepWakeup.KillKeeps | xv6-riscv/kernel/proc.c:593-611 | Killing a process, which may wake it early, keeps the invariant |
| SleepWakeup.StartKeeps | xv6-riscv/kernel/sleeplock.c:21-41 | Starting acquiresleep, releasesleep or a critical section keeps it |
| SleepWakeup.YieldKeeps | xv6-riscv/kernel/proc.c:493-501 | Starting to give up the CPU keeps it |
| SleepWakeup.SwitchKeeps | xv6-riscv/kernel/proc.c:472-501 | Switching away, and returning, keeps it |
| SleepWakeup.SchedulerKeeps | xv6-riscv/kernel/proc.c:424-463 | A CPU taking or passing over a process keeps it |
| SleepWakeup.DispatchKeeps | xv6-riscv/kernel/proc.c:424-463 | Running a process keeps it |
| Virtio.SlotOfIndex | xv6-riscv/kernel/virtio_disk.c:215-327 | The 16-bit index picks the same ring slot as the true count, since NUM divides 2^16 |
| Virtio.IndexTells | xv6-riscv/kernel/virtio_disk.c:294-327 | With at most NUM requests about, the 16-bit comparison tells the counts apart, also after wrap-around |
| Virtio.ChainsApart | xv6-riscv/kernel/virtio_disk.c:199-213 | The chains of different requests share no descriptor |
| Virtio.DeviceSeesRequest | xv6-riscv/kernel/virtio_disk.c:235-269 | A device following the chain finds the direction, sector, buffer and status byte of that very request |
| Virtio.TakeDesc | xv6-riscv/kernel/virtio_disk.c:155-166 | Taking a descriptor keeps the accounting: free, held and three per request add up to NUM |
| Virtio.GiveDesc | xv6-riscv/kernel/virtio_disk.c:168-182 | So does giving one back, and it was not free |
| Virtio.AddChain | xv6-riscv/kernel/virtio_disk.c:235-269 | So does making three held descriptors a chain |
| Virtio.DropChain | xv6-riscv/kernel/virtio_disk.c:283-292 | So does taking a chain apart |
| Virtio.AddToQueue | xv6-riscv/kernel/virtio_disk.c:271-281 | Posting a request keeps rings, indices and stages in agreement |
| Virtio.FetchOk | xv6-riscv/kernel/virtio_disk.c:271-281 | So does the device taking one |
| Virtio.CompleteOk | xv6-riscv/kernel/virtio_disk.c:294-327 | So does the device finishing any of those it has taken |
| Virtio.NoteOk | xv6-riscv/kernel/virtio_disk.c:312-324 | The entry that virtio_disk_intr reads is a finished request with status 0, and noting it keeps the agreement |
| Virtio.DropFromQueue | xv6-riscv/kernel/virtio_disk.c:283-292 | So does forgetting a request that has been noted |
| Virtio.Disk.constructor | xv6-riscv/kernel/virtio_disk.c:61-153 | All descriptors are free and both rings are empty |
| Virtio.Disk.AllocDesc | xv6-riscv/kernel/virtio_disk.c:155-166 | The first free descriptor and only that one is taken; -1 exactly if none is free |
| Virtio.Disk.FreeDesc | xv6-riscv/kernel/virtio_disk.c:168-182 | That descriptor and only that one is given back, and neither panic is reached |
| Virtio.Disk.GiveBack | xv6-riscv/kernel/virtio_disk.c:199-213 | The undo loop gives back exactly what had been taken |
| Virtio.Disk.Alloc3 | xv6-riscv/kernel/virtio_disk.c:199-213 | Three distinct descriptors exactly if three are free; otherwise the free ones are as before |
| Virtio.Disk.Post | xv6-riscv/kernel/virtio_disk.c:235-281 | The chain is made and posted |
| Virtio.Disk.Submit | xv6-riscv/kernel/virtio_disk.c:216-281 | A request is posted exactly if three descriptors are free |
| Virtio.Disk.DeviceFetch | xv6-riscv/kernel/virtio_disk.c:271-281 | The device takes the oldest posted request |
| Virtio.Disk.DeviceComplete | xv6-riscv/kernel/virtio_disk.c:235-269 | Whichever request it finishes, it saw the operation the caller asked for |
| Virtio.Disk.DeviceWorks | xv6-riscv/kernel/virtio_disk.c:294-327 | The device finishes requests while the handler runs, and nothing else changes |
| Virtio.LaterEnd | xv6-riscv/kernel/virtio_disk.c:312-324 | When the loop ends, the requests that were complete or have been completed meanwhile have been noted, and no others |
| Virtio.Disk.Intr | xv6-riscv/kernel/virtio_disk.c:294-327 | Every completion, also those the device adds while the loop runs, is noted once, and exactly their callers are released |
| Virtio.Disk.FreeChain | xv6-riscv/kernel/virtio_disk.c:184-197 | Exactly the three descriptors of the chain become free |
| Virtio.Disk.Finish | xv6-riscv/kernel/virtio_disk.c:283-292 | The caller's request is forgotten and exactly its three descriptors become free |
| Regex.Match | xv6-riscv/user/grep.c:72-82 | True iff some stretch of the text can be cut into one piece per item of the pattern, at the start after ^ and to the end before $ |
| Regex.MatchHere | xv6-riscv/user/grep.c:84-96 | True iff a beginning of the text can |
| Regex.MatchStar | xv6-riscv/user/grep.c:98-106 | True iff the text does after some run of characters that fit the starred one |
| Regex.OnePattern | xv6-riscv/user/grep.c:84-96 | What a character in front means in terms of cuts |
| Regex.ManyPattern | xv6-riscv/user/grep.c:98-106 | What a starred character in front means in terms of cuts |
| Regex.EmptyPattern | xv6-riscv/user/grep.c:84-96 | What the empty pattern and a final $ mean |
| Ring.WrapKeepsSlot | xv6-riscv/kernel/pipe.c:76-134 | A counter that wraps at a multiple of the ring size picks the same slot as one that never wraps |
| Pipe.SlotOfCount | xv6-riscv/kernel/pipe.c:76-134 | A wrapped 32-bit counter picks the same slot as the true count |
| Pipe.TestsTell | xv6-riscv/kernel/pipe.c:76-134 | The 32-bit tests for empty and full mean what they say, also after wrap-around |
| Pipe.PipeBuffer.constructor | xv6-riscv/kernel/pipe.c:22-56 | A new pipe is empty and open at both ends |
| Pipe.PipeBuffer.Close | xv6-riscv/kernel/pipe.c:58-74 | One end closes, the other and the bytes stay; the pipe is to be freed exactly if both are closed |
| Pipe.PipeBuffer.Put | xv6-riscv/kernel/pipe.c:88-98 | One byte is appended to what the pipe has accepted |
| Pipe.PipeBuffer.WriteTurn | xv6-riscv/kernel/pipe.c:76-103 | The next bytes of src are accepted in order; it sleeps only if the pipe is full; -1 exactly when reading end or process is gone before the end |
| Pipe.PipeBuffer.ReadTurn | xv6-riscv/kernel/pipe.c:105-134 | What is read is the oldest unread bytes in order; it sleeps only if the pipe is empty and a writer may come; it stops short only if the pipe is empty or the copy fails |
| Format.NumeralValue | xv6-riscv/kernel/printf.c:35-57 | The digits evaluate back to the number, without leading zeros |
| Format.NumeralFits | xv6-riscv/kernel/paniclog.c:53-144 | No 64-bit number overflows printint's buf[20] or vsnprintf's tmp[24] |
| Format.PaddedValue | xv6-riscv/kernel/printf.c:59-67 | The sixteen digits of a pointer evaluate back to it |
| Format.TopDigit | xv6-riscv/kernel/printf.c:59-67 | Shifting left by four drops the digit just printed |
| Format.FillDigits | xv6-riscv/kernel/printf.c:35-57 | The digit loop leaves the numeral's digits, last first |
| Format.Printint | xv6-riscv/kernel/printf.c:35-57 | The numeral of the argument, with its sign if it is printed as signed |
| Format.Printptr | xv6-riscv/kernel/printf.c:59-67 | 0x and sixteen digits |
| Format.PrintOne | xv6-riscv/kernel/printf.c:87-132 | The if-chain prints what the directive asks for and consumes what it takes |
| Format.Printf | xv6-riscv/kernel/printf.c:70-141 | Everything the format asks for, in order |
| Format.Putc | xv6-riscv/kernel/paniclog.c:65-65 | A character is stored if it fits, and otherwise dropped |
| Format.PutNumeral | xv6-riscv/kernel/paniclog.c:92-119 | The same digits as printint, through tmp |
| Format.PutPointer | xv6-riscv/kernel/paniclog.c:120-124 | The same sixteen digits as printptr |
| Format.Puts | xv6-riscv/kernel/paniclog.c:125-128 | The characters of a string up to its NUL, as far as they fit |
| Format.PutSigned | xv6-riscv/kernel/paniclog.c:75-91 | The sign and the digits of a signed number, as far as they fit |
| Format.PutOne | xv6-riscv/kernel/paniclog.c:75-137 | The same text for every directive as printf, as far as it fits |
| Format.Vsnprintf | xv6-riscv/kernel/paniclog.c:53-144 | Exactly the first n-1 characters of what the format asks for, then NUL; the count is returned |
| Format.SamePrefix | xv6-riscv/kernel/paniclog.c:53-144 | What vsnprintf stores is a beginning of what printf prints for the same arguments |
| PanicLog.LastPartUnique | xv6-riscv/kernel/paniclog.c:159-163 | There is one file name: what follows the last slash |
| PanicLog.Basename | xv6-riscv/kernel/paniclog.c:159-163 | log_add's loop finds it |
| PanicLog.LogBuffer.constructor | xv6-riscv/kernel/paniclog.c:24-29 | The log starts empty |
| PanicLog.LogBuffer.Add | xv6-riscv/kernel/paniclog.c:149-174 | One entry is added: level, line, cut file name and the formatted message; the oldest goes once the ring is full |
| PanicLog.LogBuffer.Flush | xv6-riscv/kernel/paniclog.c:227-253 | The last min(k, LOG_SIZE) of k entries, newest first |
| ShellModel.ShowThenParse | xv6-riscv/user/sh.c:333-452 | Printing any tree of words and parsing the line returns the tree |
| ShellModel.ParseThenShow | xv6-riscv/user/sh.c:333-452 | Whatever line is accepted, its printed tree parses to the same tree |
| ShellModel.ExecBack | xv6-riscv/user/sh.c:380-452 | Round trip for commands, blocks and redirections, whatever follows |
| ShellModel.PipeBack | xv6-riscv/user/sh.c:367-378 | Round trip for pipelines |
| ShellModel.LineBack | xv6-riscv/user/sh.c:350-365 | Round trip for lists and background commands |
| ShellModel.LexBack | xv6-riscv/user/sh.c:271-314 | Printed tokens are read back as those tokens |
| ShellModel.AfterBackground | xv6-riscv/user/sh.c:350-365 | Behind & the line goes on only at ;, and anything else is left over |
| ShellModel.BackgroundLine | xv6-riscv/user/sh.c:333-365 | A line with a background command in front is accepted iff that is all, or an acceptable line follows behind ; |
| ShellModel.BackgroundThenWord | xv6-riscv/user/sh.c:333-365 | a & b is not accepted |
| ShellModel.BackgroundThenLine | xv6-riscv/user/sh.c:333-365 | a & ; b is, as the list of a in the background and b |
| Shell.GetToken | xv6-riscv/user/sh.c:271-314 | gettoken returns the next token of the line, its place, and the position of the one after it |
| Shell.Peek | xv6-riscv/user/sh.c:316-326 | peek skips white space and tells whether the next character is one of those asked for |
| Shell.OneRedirection | xv6-riscv/user/sh.c:385-400 | One turn of parseredirs |
| Shell.ParseRedirections | xv6-riscv/user/sh.c:380-403 | parseredirs builds what the grammar says and consumes exactly its tokens |
| Shell.OneArgument | xv6-riscv/user/sh.c:438-448 | One turn of parseexec's loop, with its limit on arguments |
| Shell.ParseSimple | xv6-riscv/user/sh.c:421-452 | parseexec on words and redirections in any order, likewise |
| Shell.ParseBlock | xv6-riscv/user/sh.c:405-419 | parseblock, likewise |
| Shell.ParseExecAt | xv6-riscv/user/sh.c:421-452 | parseexec, likewise |
| Shell.ParsePipeAt | xv6-riscv/user/sh.c:367-378 | parsepipe, likewise |
| Shell.ParseLineAt | xv6-riscv/user/sh.c:350-365 | parseline, likewise |
| Shell.ParseCommand | xv6-riscv/user/sh.c:333-348 | parsecmd accepts exactly the lines of the grammar and returns their tree |
| Shell.NulTerminate | xv6-riscv/user/sh.c:454-499 | NULs are written at the ends of exactly the words of the tree |
| Shell.TokensAreStrings | xv6-riscv/user/sh.c:454-499 | After it every argument and file name is a C string equal to its token: no NUL falls inside another |

## Left out

- The relaxed memory model, fences and interrupts: a region protected by a lock, or a single assignment in `SleepWakeup`, is one step.
- Sleep-locks inside `Bio` and `Log`: these classes are one thread's view, and the interleavings are those of `LogMachine`. On the disk the two agree (`LogTrace.SameStates`); that the class's cache refines the machine's is not stated.
- That bget never runs out of buffers: NBUF and LOGBLOCKS are equal and commit needs a buffer more, so this is a stopping outcome.
- Loss of power inside a one-block write: such a write is atomic.
- Log.Log.TryBeginOp: one turn of begin_op's loop; that a waiting process ever gets in is not stated.
- Fs.FileSystem.Balloc: the bitmap blocks are one sequence of bytes, so the outer loop over bitmap blocks and the inner one over bits appear as one scan with the same first hit.
- Fs.FileSystem.Writei: a copy from user space fails or succeeds as a whole; one that fails half-way would leave its buffer changed and not logged.
- Fs.FileSystem.Readi: likewise for copies to user space.
- Fs.FileSystem.Iupdate: an inode's type, device numbers and link count are carried along by the source and are not modelled.
- Fs.FileSystem: file contents live in one sequence of blocks instead of in buffers, and begin_op, end_op and log_write appear as the count of distinct blocks an operation logs. What they do is in `Log` and `LogMachine`.
- Fs.FileSystem.FileWrite: the inode case only; pipes and devices are other functions.
- Fs.FileSystem.Itrunc: how many blocks it logs is not stated.
- Inode allocation and reference counts, directories, path names and link counts.
- Umalloc.Allocator.Malloc: a request fits an int together with its header, memory from sbrk is fresh, lies above everything before, and is aligned for a header. Addresses count headers.
- Umalloc.Allocator.Free: the pointer comes from malloc and is freed once.
- Vm.Memory.Kfree: the order of kfree and the clearing of the entry is the source's, but the junk it writes into a freed table is not looked at, since a free page is no table.
- Vm.Memory.Mappages: an unaligned or empty range, a page mapped twice and an address at or above MAXVA are the caller's errors, which panic.
- Vm.Memory.Uvmunmap: so are an unaligned start and an address at or above MAXVA; frames to be freed are the process's own.
- Vm.Memory.Uvmalloc: how many free pages are needed is bounded by three for each page, since a page may need two tables; the exact number depends on which tables are there already.
- Vm.Memory.Copyin: as for `Vm.Memory.Copyout`.
- Vm.Memory.Copyout: the page table is the process's own, so that a fault maps the page in the table that is then searched; the process owns the pages its user-accessible entries map.
- Frames outside the pool (devices, the kernel itself) have no contents here; kvmmake, uvmclear, copyinstr, the trampoline and translation caches are not modelled.
- SleepWakeup.NoLostWakeup: a process is in one critical section at a time and tests its condition there; nested spinlocks, fork, exit and wait are not modelled, and that a woken process finally runs is not stated.
- Virtio.Disk.constructor: the register handshake of virtio_disk_init; only the state it leaves is modelled.
- Virtio.Disk.DeviceComplete: the device answers with status 0 and its access to the data itself is not modelled, only that it was told the right buffer, sector and direction. Buffers and headers have symbolic addresses.
- Virtio.Disk.Submit: a caller that sleeps for descriptors or for its request calls again; the wakeups are those of `SleepWakeup`.
- Regex.Match: what follows in grep, its line buffer, is left out.
- Pipe.PipeBuffer.WriteTurn: the wakeup of readers.
- Pipe.PipeBuffer.ReadTurn: the wakeup of writers.
- Pipe.PipeBuffer.Close: the wakeups; freeing is an answer to the caller.
- Format.Printf: arguments are machine words, of which each conversion takes the bits that its type has; strings are looked up by address; `%c` prints a character in 0..255, since the console takes larger values for control codes. The second formatter in user/printf.c is left out as more of the same.
- PanicLog.LogBuffer.Flush: which entries are printed in which order, not the layout of a line.
- Panic-time register and stack capture, and the dump printers.
- Shell.ParseSimple: nodes are values, so the arguments are put into the command under its redirections at the end, where the source writes them through a pointer as they come. runcmd is left out.
- The console's line editing, exec's argument stack, nested interrupt disabling and the open-file table would add easier members.
