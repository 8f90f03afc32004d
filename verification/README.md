# xv6 and its editor, verified

A Dafny model of the core of an xv6 system that has an editor added to it, with proofs
about it. Run `dafny verify dfyconfig.toml` to check everything.

The parts, and the theorem each leads up to:

- `Recovery`, `LogRun`, `LogRoom`, `LogScript`: the redo log. A crash at any sector write of any
  transaction or recovery, any number of times, never leaves part of a transaction
  (`CrashAtomicity`); the code through the buffer cache makes exactly the writes this is
  about, and finds the buffers it needs exactly when the sectors it logs leave one free
  (`Transact`); a system call that holds several at a time finds them as long as all it may
  hold leave one free (`RunScript`).
- `BufferCache`, `Bio`, `Memide`: the buffer cache behaves as a plain array of sectors
  (`CacheRefines`), and recycles the buffer released longest ago (`RecyclesOldest`).
- `FileSystem`, `FileBytes`, `FileMaps`, `FileRoom`, `FileTrunc`, `FileWrite`, `FsRun`:
  blocks, inodes and files. Every block has one owner, `writei` and `readi` are byte
  sequence operations that panic exactly when blocks are missing, `itrunc` frees exactly
  the inode's blocks, and a write cut into transactions is one write.
- `FileLog`, `FileSteps`, `FileCrash`: the file layer on the log. A `filewrite`, with every
  `bread`, `log_write` and `brelse` in the order of the code, comes to its end on a cache of
  ten buffers (`RunFilewrite`); cut off anywhere, it recovers and boots with the bytes of
  its first chunks in the file and nothing else changed (`FilewriteCrash`).
- `FileHistory`: every history of file operations is one of a table of byte sequences
  (`FilesRefine`), and runs out of blocks exactly when the files of the table do not fit
  (`HistorySucceeds`).
- `Mkfs`, `Boot`, `Lookup`: the image `mkfs` makes is the one the kernel would have made, and
  exactly when it succeeds (`MakeImage`); the kernel mounts it by the superblock it reads
  from it; when boot leaves it as it is (`BootsAsMade`), what every history makes of it
  (`HistoryFromImage`), and what is found in its root by name (`FindInImage`).
- `Umalloc`: the allocator of Kernighan and Ritchie keeps its list sorted, coalesced and
  complete.
- `Vm`: page tables and page allocator over the life of a process: the user pages are those
  below the size, but for a last one that `allocuvm` lost; every page is accounted for, and
  how many pages are enough (`Lifecycle`); what `deallocuvm`'s skip misses (`SweptExact`).
- `Pipe`, `Proc`, `Ide`: pipes, fork/exit/wait and the interrupt-driven disk as state
  machines, safe in every interleaving (`PipeSafe`, `WaitExitSafe`, `IdeRefines`), with what
  every call does for its caller (`PipeCalls`, `CallsKeep`).
- `Grep`, `Shell`, `Editor`: the matcher decides its language, the shell takes exactly the
  lines of its grammar for the commands they stand for (`ParsesLine`) and its in-place NULs
  spoil no word, the editor loads and saves a file byte for byte.

Where the code updates things in place the model is a class whose methods have the code's
loops; each is proved equal to a function of the old state, and the theorems are about
those functions. Concurrency is a state machine over the steps that locks leave
indivisible. A panic is `None`, or `ok == false`.

Some things in the code are not what one would expect, and are stated as they are:

- `mkfs` leaves the bits of the log blocks clear and `balloc` searches up to the end of
  the disk, so a full disk is handed the log (`Mkfs.BallocInLog`, `Mkfs.FillingTaken`).
- `mkfs` itself puts files into the log if they are large enough, and boot takes such a
  block for a header (`Boot.BootsAsMade`, `Boot.SevenFiles`).
- `mkfs` rounds the root directory up by a whole block when its entries fill their last
  block; that block is not mapped (`Mkfs.RoundedRoot`), so a lookup allocates it outside of
  a transaction, and an entry written there gets a block that the inode on disk never
  learns of (`Boot.RootUnmapped`, `Boot.ThirtyFiles`).
- `allocuvm` does not look at what `mappages` returns: for want of a page table it loses
  the page, and if that was the last one it grants a size with a hole at its end
  (`Vm.Memory.Allocuvm`): a new process that asks for its first byte with one page free has
  no page (`Vm.HoleAtStart`). A fork of such a process panics (`Vm.Memory.Copyuvm`).
- `growproc` takes the 0 of `deallocuvm` for a failure: a process that gives back all its
  memory keeps its size (`Vm.Memory.Growproc`).
- `setupkvm` does not give back what it took when memory runs out, nor does `copyuvm` the
  page that `mappages` had no table for (`Vm.Memory.Setupkvm`, `Vm.Memory.Copyuvm`).
- `deallocuvm` skips 4 megabytes from an address that need not be aligned
  (`Vm.SweptExact`, `Vm.SweptMisses`).
- `strcat_n` drops a piece that does not fit instead of cutting it, so how a long line
  loads depends on how it was read (`Editor.LongLine`); and with all 256 entries of its
  table in use the editor reads past it (`Editor.Text.Save`, `Editor.Text.Del`).

## Model

| member | source | states |
|---|---|---|
| Recovery.HeaderRoundTrip | xv6_all_files/log.c:34-113 | What write_head puts into the header block read_head reads back: the count, and every sector in order. |
| Recovery.InstallPrefix | xv6_all_files/log.c:69-82 | After the first k writes of install_trans a home sector holds its log copy if its slot is below k, and is untouched otherwise. |
| Recovery.MeaningIsOverlay | xv6_all_files/log.c:69-122 | What a completed recovery leaves in the home sectors is the disk overlaid with the logged blocks the header names; with an empty header it is the disk itself, and recovery ends with an empty header. |
| Recovery.RecoveryStable | xv6_all_files/log.c:115-122 | Stopping recovery after any number of its sector writes does not change what the next recovery will make of the disk. |
| Recovery.LogPrefixInvisible | xv6_all_files/log.c:159-181 | However many of log_write's sector writes have been made, no home sector and not the header has changed. |
| Recovery.LogHoldsLast | xv6_all_files/log.c:159-181 | With absorption, the log of a transaction holds for every sector its last logged contents: overlaying it equals applying all updates in order. |
| Recovery.LogAllFits | xv6_all_files/log.c:159-181 | log_write panics exactly when the distinct sectors before the last write already fill the log; otherwise the header lists each written sector once. |
| Recovery.CommitIsRecovery | xv6_all_files/log.c:135-149 | The writes of commit_trans are the commit header followed by exactly the writes recovery would make. |
| Recovery.BeforeCommit | xv6_all_files/log.c:135-181 | A crash anywhere before the header is written recovers to the disk before the transaction. |
| Recovery.AfterCommit | xv6_all_files/log.c:135-181 | A crash anywhere after the header is written recovers to the disk with all updates of the transaction. |
| Recovery.CrashAtomicity | xv6_all_files/log.c:69-181 | For every run of transactions and recoveries, each cut off after any number of sector writes, the disk always stands for what indivisible transactions leave: a transaction happens entirely or not at all, and a clean disk is exactly that. |
| BufferCache.BGetContent | xv6_all_files/bio.c:61-93 | bget keeps the cache coherent (order a permutation, at most one buffer a sector, clean buffers equal to the disk) and changes no sector's contents; the buffer it returns is a cached copy or one recycled without loss. |
| BufferCache.GetOutcome | xv6_all_files/bio.c:61-93 | bget sleeps exactly when the sector's buffer is busy, and panics exactly when the sector is not cached and every buffer is busy or dirty. |
| BufferCache.BReadContent | xv6_all_files/bio.c:96-105 | bread returns the current contents of the sector, whether cached or not, and writes nothing to the disk. |
| BufferCache.StoreContent | xv6_all_files/bio.c:107-138 | A change to a held buffer changes the contents of its sector and of no other. |
| BufferCache.BWriteContent | xv6_all_files/bio.c:107-115 | bwrite makes the disk hold the buffer's data in that sector alone, by one sector write, and leaves the buffer clean. |
| BufferCache.BRelseContent | xv6_all_files/bio.c:119-138 | brelse, which moves the buffer to the front, keeps the cache coherent and all contents, provided a changed buffer was written or marked dirty. |
| BufferCache.CacheRefines | xv6_all_files/bio.c:61-138 | Every sequence of reads, changes, write-backs and releases that follows the interface sees what a plain array of sectors gives; the only other outcome is that all buffers are held. |
| BufferCache.RecentFirst | xv6_all_files/bio.c:119-138 | After any sequence of operations, of two buffers the one released last comes first in the list, and one never released after all that were. |
| BufferCache.RecyclesOldest | xv6_all_files/bio.c:83-91 | So a buffer that bget recycles was released before every other one it could have taken. |
| Bio.PushLinked | xv6_all_files/bio.c:47-54 | The pointer stores that put a buffer at the head keep the doubly linked circular list, which then is the old list with the buffer in front. |
| Bio.UnlinkLinked | xv6_all_files/bio.c:127-128 | The two stores that unlink a buffer leave the list without it. |
| Bio.Cache.FindCached | xv6_all_files/bio.c:68-80 | The first search of bget finds the buffer the list order gives for (dev, sector), or the head. |
| Bio.Cache.FindVictim | xv6_all_files/bio.c:83-91 | The second search, backwards, finds the least recently released buffer that is neither busy nor dirty. |
| Bio.Cache.Get | xv6_all_files/bio.c:61-93 | bget, over the linked list, does what BufferCache.BGet says. |
| Bio.Cache.Rw | xv6_all_files/memide.c:36-58 | iderw of the memory disk: panic conditions, and the copy in the right direction with the flags it leaves. |
| Bio.Cache.Read | xv6_all_files/bio.c:96-105 | bread, over the linked list, does what BufferCache.BRead says. |
| Bio.Cache.WriteBack | xv6_all_files/bio.c:107-115 | bwrite does what BufferCache.BWrite says, and panics exactly if the buffer is not busy. |
| Bio.Cache.Release | xv6_all_files/bio.c:119-138 | brelse, with its pointer stores, moves the buffer to the front of the order and frees it, and panics exactly if it is not busy. |
| LogRun.Log.InstallTrans | xv6_all_files/log.c:69-82 | Through the cache, install_trans makes exactly the writes of Recovery.InstallWrites, or stops after a first part of them, and leaves no dirty buffer. Where nobody holds a buffer it succeeds with nothing dirty, or with the logged sectors in fewer buffers than there are, and fails when they take all. |
| LogRun.Log.ReadHead | xv6_all_files/log.c:85-96 | read_head loads the sectors the header on disk names and writes nothing; it succeeds exactly if bread of the header does. |
| LogRun.Log.WriteHead | xv6_all_files/log.c:101-113 | write_head makes one write, the header block with the current sectors over its old contents; it succeeds exactly if bread of the header does. |
| LogRun.Log.RecoverFromLog | xv6_all_files/log.c:115-122 | recover_from_log makes exactly the writes of Recovery.RecoveryWrites or a first part of them, and ends with an empty log; where nobody holds a buffer, as at boot, it always comes to its end. |
| LogRun.Log.FindSlot | xv6_all_files/log.c:169-172 | The absorption loop finds the sector's slot, or the end of the list. |
| LogRun.Log.LogWrite | xv6_all_files/log.c:159-181 | log_write succeeds exactly if the log has room, a transaction is open and the log block can be had; it makes one write, to the log slot of the sector, which then holds the buffer's data, and marks the buffer dirty. |
| LogRun.Log.CommitTrans | xv6_all_files/log.c:135-149 | commit_trans makes exactly the writes of Recovery.CommitTrace or a first part of them, and ends the transaction with an empty log; where nobody holds a buffer it succeeds exactly if the sectors logged are fewer than the buffers. |
| LogRun.Log.Transact | xv6_all_files/log.c:124-181 | A whole transaction through the cache makes exactly the writes that CrashAtomicity reasons about, or a first part of them. Where nobody holds a buffer it succeeds exactly if log_write does not panic and the sectors it logs are fewer than the buffers, so on a log of at most ten blocks bget never runs out. |
| LogScript.ScriptRuns | xv6_all_files/log.c:159-181 | Every sequence of bread, log_write and brelse that holds several sectors at a time, starting with nobody holding a buffer, comes to its end without a panic or a sleep if all it may hold are fewer than the buffers and what it logs fits; it makes exactly the log writes of its log_write calls. |
| LogScript.RunStep | xv6_all_files/bio.c:61-138 | Each such step by the code of cache and log is the one on states. |
| LogScript.RunScript | xv6_all_files/log.c:124-181 | begin_trans, such a sequence and commit_trans, by the code of cache and log: it succeeds and makes exactly the writes of the transaction of its log_write calls. |
| LogRoom.OtherGot | xv6_all_files/bio.c:61-93 | With nobody holding a buffer, a sector that is not logged can be read exactly if the logged ones, whose dirty buffers are not recycled, leave a buffer. |
| LogRoom.LogBlockGot | xv6_all_files/bio.c:61-93 | In log_write, with the sector to log held and nothing else, there is a buffer for the log block exactly if the sectors logged and this one are fewer than the buffers. |
| LogRun.WriteAhead | xv6_all_files/log.c:135-181 | From begin_trans until the commit header no home sector has changed on disk, yet every sector reads as its latest logged contents, because dirty buffers are not recycled. |
| Umalloc.WalkStops | xv6_all_files/umalloc.c:30-32 | The test that ends free's search holds at exactly one place of the circular list, the chunk below the block. |
| Umalloc.InsertSorted | xv6_all_files/umalloc.c:33-42 | With the block merged to either side the list stays in address order with no two chunks overlapping or adjacent. |
| Umalloc.InsertCovers | xv6_all_files/umalloc.c:33-42 | The list then covers exactly the units it covered and those of the block. |
| Umalloc.FreedLinked | xv6_all_files/umalloc.c:33-43 | The pointer and size stores of free, in all four cases of merging, make the headers spell that list. |
| Umalloc.TakeCovers | xv6_all_files/umalloc.c:75-82 | malloc's split or unlink divides the units of the list between the list and the block handed out. |
| Umalloc.TakenPart | xv6_all_files/umalloc.c:78-82 | The stores of the split leave the headers of the list with the tail cut off. |
| Umalloc.TakenWhole | xv6_all_files/umalloc.c:76-77 | The one store that unlinks an exact fit leaves the headers of the list without it. |
| Umalloc.FreePartition | xv6_all_files/umalloc.c:24-44 | Free and live blocks still divide the units from sbrk between them after free. |
| Umalloc.TakePartition | xv6_all_files/umalloc.c:74-84 | So they do after malloc, and the block handed out overlaps no live one. |
| Umalloc.NUnits | xv6_all_files/umalloc.c:69 | The units asked for hold the bytes and the header, with less than one unit to spare. |
| Umalloc.Allocator.FindPlace | xv6_all_files/umalloc.c:30-32 | free's walk from anywhere in the circular list ends at the chunk below the block. |
| Umalloc.Allocator.Free | xv6_all_files/umalloc.c:24-44 | free keeps Valid (sorted, disjoint, never adjacent, free and live together the arena), takes the block from the live ones and inserts it in the list. |
| Umalloc.Allocator.Morecore | xv6_all_files/umalloc.c:46-61 | morecore adds at least 4096 units from sbrk to the arena, as free memory with a chunk large enough, or reports that sbrk failed and changes nothing. |
| Umalloc.Allocator.TakeFrom | xv6_all_files/umalloc.c:75-84 | Taking n units from a chunk that has them yields a new live block and the list with them removed. |
| Umalloc.Allocator.Malloc | xv6_all_files/umalloc.c:63-90 | malloc ends after at most one call of morecore, made only when no chunk is large enough; it returns a block of enough units disjoint from every live one, or 0 exactly when sbrk failed. |
| FileSystem.FirstFree | xv6_all_files/fs.c:52-76 | balloc's search: the block found is free and every block below it is in use. |
| FileSystem.AllocateUsed | xv6_all_files/fs.c:61-71 | Allocating sets the bit of that block and no other, across bitmap blocks and bytes. |
| FileSystem.FillOwned | xv6_all_files/fs.c:356-384 | Giving a block to an empty slot of an inode, direct, indirect pointer or indirect entry, keeps: every block number in a slot is a data block with that slot as its one owner, and the bitmap marks exactly metadata and owned blocks. |
| FileSystem.BmapExtends | xv6_all_files/fs.c:356-384 | bmap maps the block, keeps all ownership, changes no other inode and no byte of any file. |
| FileSystem.IupdateSync | xv6_all_files/fs.c:201-217 | iupdate makes the inode on disk the one in memory and leaves the other inodes of the block alone. |
| FileSystem.IupdateOwned | xv6_all_files/fs.c:201-217 | iupdate is not felt by the bitmap, the slots or the bytes of any file. |
| FileBytes.WriteAllSplices | xv6_all_files/fs.c:479-485 | writei's loop puts each byte where it belongs across block boundaries and over direct and indirect blocks, and changes no other byte of any file. |
| FileBytes.WriteiCorrect | xv6_all_files/fs.c:462-492 | writei turns the file's bytes into old[..off] + src + old[off+n..], growing it if need be, and leaves all other files and inodes alone; it returns -1, changing nothing, exactly for an offset past the end or a file that would be too large. |
| FileMaps.BmapRef | xv6_all_files/fs.c:356-384 | bmap fills exactly the slots its block needs, and no other slot of any inode. |
| FileMaps.WriteAllRef | xv6_all_files/fs.c:479-485 | A write gives blocks to exactly the slots its bytes need. |
| FileMaps.WriteiMapped | xv6_all_files/fs.c:462-492 | A file mapped exactly up to its size stays so under every writei. |
| FileMaps.WriteiSynced | xv6_all_files/fs.c:462-492 | After writei the inode on disk is the one in memory, if it was before, exactly when the write was refused, made the file longer and so reached iupdate, or found a block in every pointer of the inode it needs. Other inodes stay in step. |
| FileMaps.ReadiCorrect | xv6_all_files/fs.c:434-458 | readi returns the requested bytes clipped at the size, or -1 for a bad offset or length, on any consistent disk; it keeps ownership and every byte of every file, and leaves the file system as it was exactly when every pointer the bytes need has its block. |
| FileMaps.ReadiOutsideCorrect | xv6_all_files/fs.c:434-458 | Outside of a transaction, where log_write panics, readi returns those bytes exactly when every pointer they need has its block, and panics otherwise. |
| FileRoom.FillRoom | xv6_all_files/fs.c:52-76 | balloc fails for a pointer exactly when the pointer has no block and no bit of the bitmap is clear; one block is taken exactly if it had none, and one before any given block if there is one. |
| FileRoom.WriteiSucceeds | xv6_all_files/fs.c:462-492 | writei does not panic exactly when it refuses the write or the pointers it needs that have no block are no more than the free blocks; its result is decided by offset and length alone. |
| FileRoom.ReadiSucceeds | xv6_all_files/fs.c:434-458 | So it is with readi: it panics exactly when more blocks are missing than free. |
| FileTrunc.DirectFrees | xv6_all_files/fs.c:398-403 | The loop over the direct blocks frees exactly the inode's direct blocks, and bfree never finds one free already. |
| FileTrunc.IndirectFrees | xv6_all_files/fs.c:405-412 | The loop over the indirect block frees exactly the blocks it lists. |
| FileTrunc.ItruncCorrect | xv6_all_files/fs.c:391-419 | itrunc never panics, frees exactly the blocks the inode owns, leaves it empty on disk and in memory, and leaves every other inode and file as they were. |
| FileWrite.TransactionBound | xv6_all_files/file.c:132-144 | A transaction of filewrite, at any offset and alignment, logs at most seven distinct sectors where one block holds the bitmap. |
| FileWrite.OneTransaction | xv6_all_files/file.c:125-144 | A filewrite of at most 1536 bytes is one transaction. |
| FileWrite.DoneAll | xv6_all_files/file.c:133-152 | filewrite gets through all its bytes exactly if the whole write fits the file. |
| FileWrite.FilewriteCorrect | xv6_all_files/file.c:116-155 | filewrite, transaction by transaction, is one write of the bytes it gets through, with the offset advanced by them; every other file is left alone. |
| FileLog.WriteiFrames | xv6_all_files/fs.c:462-492 | writei changes no block that it does not log. |
| FileLog.WriteiBelow | xv6_all_files/fs.c:52-76 | While there are free blocks before the log for all that a write is missing, it logs no block of the log and no file gets one. |
| FileLog.WriteiSuper | xv6_all_files/fs.c:462-492 | writei neither logs nor changes the superblock, which balloc reads again each time. |
| FileLog.TransactionFits | xv6_all_files/file.c:125-144 | So log_write does not panic in a transaction of filewrite: its sectors lie before the log and fit any log of more than seven slots. |
| FileLog.ChunkAtomic | xv6_all_files/file.c:125-144 | A chunk of filewrite, its log_write calls in any order, cut off after any sector write: recovery makes of the disk the blocks before the chunk or those after it, and those after it if it came to its end, with the log clean for the next. |
| FileLog.WritesExist | xv6_all_files/log.c:159-181 | For every change that touches logged blocks alone there are log_write calls that make it. |
| FileSteps.WriteiFine | xv6_all_files/fs.c:462-492 | The breads, log_writes and brelses of writei in the order of the code, balloc's inside bmap while the indirect block is held: no sector is held twice, none stays held, only the superblock and the indirect block are held without being logged, and the log_write calls make exactly writei's change of the blocks. |
| FileSteps.ChunkRuns | xv6_all_files/file.c:125-144 | From a cache of ten buffers that nobody holds, these steps of a chunk of filewrite never end in a panic or a sleep, log at most seven sectors, leave no buffer held, and every sector then reads as writei left it. |
| FileSteps.RunChunk | xv6_all_files/file.c:125-144 | By the code of cache and log, such a chunk's transaction is committed and the disk has its blocks. |
| FileSteps.RunFilewrite | xv6_all_files/file.c:116-155 | So it is for a whole filewrite, transaction by transaction: where the disk has room it comes to its end, and the disk has what FileWrite.Filewrite says. |
| FileCrash.ChunkCrash | xv6_all_files/file.c:125-144 | A chunk cut off anywhere: the disk recovers and boots with the files before it, or after it if its header was written; come to its end, all is ready for the next. |
| FileCrash.FilewriteCrash | xv6_all_files/file.c:116-155 | A filewrite of any length cut off after any sector write of any of its transactions: the disk, by the superblock read from it, recovers and mounts, from the inodes on disk, as a file system in order, where the file has the bytes of the chunks whose header was written and every other file is as it was. |
| FileCrash.SmallWriteAtomic | xv6_all_files/file.c:116-155 | A filewrite of at most 1536 bytes, cut off anywhere, leaves all of its bytes or none. |
| FileCrash.CutOff | xv6_all_files/file.c:116-155 | For every write there is room for and every number of sector writes there is such a run that makes just that many, or fewer if it is then complete. |
| FileCrash.RoomNext | xv6_all_files/fs.c:462-492 | Room before the log for a whole write leaves, after its first part, room for the rest. |
| FileRoom.FreeCount | xv6_all_files/fs.c:52-76 | Where inodes have just the blocks of their sizes, the free blocks are all data blocks less those the files need. |
| FileHistory.HistorySucceeds | xv6_all_files/fs.c:391-492 | From such inodes a history of writei, readi and itrunc runs without a panic exactly if, after each of its operations, the files of the table of byte sequences need no more blocks than there are. |
| FileHistory.FilesRefine | xv6_all_files/fs.c:391-492 | Every history of writei, readi and itrunc, from any disk where each block has one owner, keeps that; it returned and left what a table of byte sequences does. Where inodes had exactly their blocks and were on disk as in memory, they still do. |
| FsRun.FileSys.FindFree | xv6_all_files/fs.c:59-65 | balloc's two nested loops find the first clear bit. |
| FsRun.FileSys.Balloc | xv6_all_files/fs.c:52-76 | balloc marks and zeroes that block, or panics exactly if there is none. |
| FsRun.FileSys.Bfree | xv6_all_files/fs.c:79-95 | bfree clears the bit, or panics exactly if it is clear already. |
| FsRun.FileSys.Bmap | xv6_all_files/fs.c:356-384 | bmap on buffers and inodes does what FileSystem.Bmap says and returns the block number in the slot. |
| FsRun.FileSys.Iupdate | xv6_all_files/fs.c:201-217 | iupdate on the inode's block does what FileSystem.Iupdate says. |
| FsRun.FileSys.Writei | xv6_all_files/fs.c:462-492 | writei with its loop and its checks does what FileBytes.Writei says, for every offset and length. |
| FsRun.FileSys.Readi | xv6_all_files/fs.c:434-458 | readi with its loop does what FileMaps.Readi says. |
| FsRun.FileSys.Itrunc | xv6_all_files/fs.c:391-419 | itrunc with its two loops does what FileTrunc.Itrunc says. |
| FsRun.FileSys.Filewrite | xv6_all_files/file.c:116-155 | filewrite with its loop does what FileWrite.Filewrite says. |
| Mkfs.ViewFree | xv6_all_files/mkfs.c:262-282 | Seen with the bitmap it will have, the block mkfs takes by counting is the one balloc would find. |
| Mkfs.ViewFill | xv6_all_files/mkfs.c:262-282 | Handing out the next block to a slot is what bmap does for that slot, and stops exactly when the disk is full. |
| Mkfs.Builder.Rinode | xv6_all_files/mkfs.c:188-199 | rinode reads the inode on disk. |
| Mkfs.Builder.Winode | xv6_all_files/mkfs.c:174-186 | winode replaces that inode on disk and nothing else. |
| Mkfs.Builder.Ialloc | xv6_all_files/mkfs.c:214-226 | ialloc hands out the next inode, empty, with its type and one link, and disturbs no file. |
| Mkfs.Builder.AppendAll | xv6_all_files/mkfs.c:259-290 | iappend's loop is writei's loop on that file system; it fails exactly when the file gets too large or the blocks run out, and takes exactly the blocks the new bytes need. |
| Mkfs.Builder.Iappend | xv6_all_files/mkfs.c:246-293 | iappend appends the bytes to that file alone, exactly as the kernel's writei at the end of the file does, and succeeds exactly if the files with them still fit the disk. |
| Mkfs.Builder.Balloc | xv6_all_files/mkfs.c:228-242 | balloc writes a bitmap with exactly the first bits set. |
| Mkfs.RoundedRoot | xv6_all_files/mkfs.c:143-148 | Rounding up the root's size leaves its last block unmapped exactly when the entries end at a block boundary. |
| Mkfs.Builder.FixRoot | xv6_all_files/mkfs.c:143-148 | After the rounding every file is in order, and the root reads as its entries and zeros. |
| Mkfs.SuperRead | xv6_all_files/fs.c:25-34 | readsb finds in mkfs's superblock the sizes the image was laid out by. |
| Mkfs.MakeImage | xv6_all_files/mkfs.c:58-153 | mkfs succeeds exactly when the files fit; readsb finds the image's sizes in its superblock, and mounted by them it is a file system where every block has at most one owner, the bitmap is exact and marks just the first blocks, every inode holds its file with its type and one link, the root lists them all under their numbers, and all but possibly the root are mapped exactly to their size. Blocks it did not hand out are zero, so with files that end before the log, at the place initlog computes, the log is empty. |
| Mkfs.BallocInLog | xv6_all_files/fs.c:52-76 | balloc does not look where the log begins: it hands out a block of the log exactly when every block before the log is in use and one of the log is not. |
| Mkfs.LogTaken | xv6_all_files/mkfs.c:228-242 | mkfs leaves the bits of the log clear: with files of 985 blocks the next block balloc hands out is the log header. |
| Mkfs.FillingTaken | xv6_all_files/mkfs.c:228-242 | Seven files with which this happens. |
| Mkfs.WantedTotal | xv6_all_files/mkfs.c:246-293 | The blocks of an image are those of the root and of each file, indirect blocks included. |
| Boot.RecoverIs | xv6_all_files/log.c:115-122 | recover_from_log on any disk, its header read for what it is, is the log's recovery where the header names a transaction. |
| Boot.BootUnchanged | xv6_all_files/log.c:53-122 | Boot leaves a disk as it is exactly when the first word of the log's header is zero. |
| Boot.BootsAsMade | xv6_all_files/mkfs.c:58-153 | An image boots as mkfs made it exactly when its files end before the log, or the block of a file that lies at the log's header begins with four zeros. |
| Boot.SevenFiles | xv6_all_files/mkfs.c:58-153 | Seven files of the largest size: mkfs makes the image, and recovery at boot runs past its array because it takes a block of a file for a header. |
| Boot.HistoryFromImage | xv6_all_files/fs.c:391-492 | Every history of file operations on an image of mkfs keeps block ownership, and returned and left what a table beginning with the files does. Where the root's entries do not fill their last block, inodes keep exactly their blocks and stay on disk as in memory, and the history runs without a panic exactly if the files of the table fit after each operation. |
| Lookup.Namecmp | xv6_all_files/fs.c:497-501 | namecmp, with strncmp's loop, does what NameIs says. |
| Lookup.Dirlookup | xv6_all_files/fs.c:504-530 | dirlookup returns the number and place of the first entry in use that has the name, or none exactly if there is no such entry. |
| Lookup.RootMatches | xv6_all_files/mkfs.c:104-132 | The entries of an image's root that match a name are exactly those whose names agree with it in the first 14 bytes; each has its file's inode number, and the zeros after them match nothing. |
| Lookup.FindInImage | xv6_all_files/fs.c:504-530 | So a lookup in a booted image returns the inode of the first file whose name agrees in 14 bytes, and none exactly if no name does. |
| Boot.ImageExact | xv6_all_files/mkfs.c:143-148 | In an image all inodes have exactly the blocks of their sizes if and only if the root's entries, two more than the files, are not a multiple of 32. |
| Boot.RootUnmapped | xv6_all_files/fs.c:434-492 | With such a root, reading the entry after the last panics outside of a transaction, as in a lookup by open. Writing it panics exactly if the image took every block, and otherwise leaves an inode on disk without the block. |
| Boot.ThirtyFiles | xv6_all_files/mkfs.c:143-148 | Thirty empty files make such an image; the write then succeeds and the inode on disk does not have its block. |
| Boot.ImageRoom | xv6_all_files/mkfs.c:228-242 | In an image of T blocks before the log there is room for 985 - T more, which is what FileLog.ChunkAtomic asks for. |
| Vm.PopChain | xv6_all_files/kalloc.c:93-96 | The head of the free list and its next pointer give the list without its first page. |
| Vm.PushChain | xv6_all_files/kalloc.c:77-79 | A page with the old head in its first word heads the list of all pages. |
| Vm.Memory.Kalloc | xv6_all_files/kalloc.c:87-104 | kalloc takes the first free page, and returns 0 exactly if there is none. |
| Vm.Memory.Kfree | xv6_all_files/kalloc.c:64-82 | kfree adds that page to the list and touches no other, and panics exactly outside the allocatable pages. |
| Vm.Memory.FreeRange | xv6_all_files/kalloc.c:50-57 | freerange frees exactly the pages of the range. |
| Vm.SpaceTable | xv6_all_files/vm.c:55-67 | A new zeroed page table keeps the address space: each page one use, and the same virtual pages mapped. |
| Vm.Memory.Walkpgdir | xv6_all_files/vm.c:49-69 | walkpgdir finds the table or adds one from the free list; no translation changes, no page is lost, and it fails exactly for want of a table or memory. |
| Vm.Memory.MapKernel | xv6_all_files/vm.c:74-94 | mappages maps exactly the pages of the range to consecutive physical pages and no others, or panics on a page mapped before, or fails with no page free at a page whose region has no table. |
| Vm.Memory.MapUser | xv6_all_files/vm.c:74-94 | mappages gives one user page its own physical page. |
| Vm.Memory.Setupkvm | xv6_all_files/vm.c:119-157 | setupkvm succeeds exactly if 65 pages are free, a directory and 64 tables, and never remaps. Every entry is then exact: physical memory is at KERNBASE, read-only from EXTMEM up to data and writable elsewhere, every address from DEVSPACE on is itself and writable, and nothing else is mapped. Otherwise all free pages are lost. |
| Vm.Memory.Allocuvm | xv6_all_files/vm.c:242-265 | Exactly what allocuvm comes to for any number of free pages: with one for each new page and each missing table it adds exactly the pages from PGROUNDUP(oldsz) up to newsz, zeroed, each its own and writable by the user; one short at the first page of a region it grants the size without the last page; else it takes back what it added. It loses a page exactly with such a hole, or when it runs out at the first page of a region on the way, and keeps the user's memory. |
| Vm.HoleAtStart | xv6_all_files/vm.c:242-265 | A fresh address space and one free page: asking for one byte is granted and no page is mapped. |
| Vm.SweptExact | xv6_all_files/vm.c:280-285 | Exactly which pages deallocuvm's loop with its 4 megabyte skip comes past: it misses the pages of the first region with a table that lie below the offset it started at, if its own region has none, and no others. |
| Vm.SweptMisses | xv6_all_files/vm.c:280-285 | An address space whose one mapped page is missed. |
| Vm.PrefixShrinks | xv6_all_files/vm.c:271-295 | Where the pages are the first so many deallocuvm leaves exactly those below PGROUNDUP(newsz). |
| Vm.Memory.Deallocuvm | xv6_all_files/vm.c:271-295 | deallocuvm frees exactly the mapped pages its loop comes past, each once, keeping the contents of the others and all other translations. |
| Vm.Memory.Freevm | xv6_all_files/vm.c:299-314 | freevm returns every page of the address space to the free list exactly once, user pages, tables and directory, and touches no other page. |
| Vm.Memory.Copyuvm | xv6_all_files/vm.c:331-358 | copyuvm panics exactly if it comes to a page that is not there while memory lasts, and succeeds exactly if all pages are there and there are pages for a new directory, its tables and the copies; it then yields the same user memory in pages of its own. The parent is left as it was, and the number of pages a failure loses is exact: all that were free where setupkvm fails, one where a page table is missing, else none. |
| Vm.Memory.Lifecycle | xv6_all_files/vm.c:119-314 | For every sequence of sizes, if 65 pages are free (else all are lost), after setupkvm and after each request: the user pages are exactly those below the size, or all but the last where allocuvm left its hole, with no page free then; every page is in one use, free or lost; memory below both sizes is kept and new memory zero; which size, hole and loss follow a request is decided by the free pages and tables before it. After freevm all but the lost pages are free; with enough pages for the largest size every request is granted, without hole or loss. |
| Vm.Memory.Growproc | xv6_all_files/proc.c:107-123 | Exactly when growproc fails and what size it leaves. The user pages are those below the size afterwards unless the process gave back exactly all it had, which leaves no page and the old size, or allocuvm left its hole; giving back more than there is changes nothing. |
| Pipe.CountersTell | xv6_all_files/pipe.c:83-113 | The 32-bit counters tell full and empty rightly even when they wrap. |
| Pipe.PutRing | xv6_all_files/pipe.c:77-97 | A byte written goes to the end of the queue in the ring, and what is in it stays. |
| Pipe.GetRing | xv6_all_files/pipe.c:99-120 | A byte read is the oldest one in the ring. |
| Pipe.StepInv | xv6_all_files/pipe.c:58-120 | Every step of pipewrite, piperead or pipeclose by any process keeps the ring, the locks and the claim that a waiting process is right to wait or about to be woken. |
| Pipe.PipeSafe | xv6_all_files/pipe.c:58-120 | In every state of every interleaving the bytes taken out are the first ones put in and at most 512 are outstanding; with the lock free a writer sleeps only while the pipe is full with its reader open, a reader only while it is empty with its writer open. When both ends are closed nobody is reading or writing. |
| Pipe.PipeCalls | xv6_all_files/pipe.c:77-120 | In every interleaving, for the calls as they were made: a write that returns n has put in its bytes, all and in order, and one that returns -1 a first part of them, with the reader closed and the pipe full; a write in progress has put in a first part. A read returns the bytes taken out last, at most n, fewer only from an empty pipe, and none, if it asked for any, only if the writer is closed too. What reads returned, in the order of their returns, is what was taken out, but for what one has in hand. |
| Proc.ProcessTable.Wakeup1 | xv6_all_files/proc.c:380-388 | wakeup1 makes runnable exactly the processes asleep on the channel. |
| Proc.ProcessTable.FindUnused | xv6_all_files/proc.c:41-43 | allocproc's search finds the first unused slot. |
| Proc.ProcessTable.ScanChildren | xv6_all_files/proc.c:217-238 | wait's scan finds the first zombie child, or tells whether there are children at all. |
| Proc.WaitRound | xv6_all_files/proc.c:214-246 | A round of wait's loop by that scan leaves the table, and returns or sleeps, as the step of the state machine does. |
| Proc.DoInv | xv6_all_files/proc.c:128-247 | Every step of fork, exit, wait and the scheduler, with a yield also inside fork, keeps the table's invariant: parents, zombies, sleepers and pids. |
| Proc.WaitExitSafe | xv6_all_files/proc.c:128-247 | In every state of every run a process asleep in wait has children and no zombie among them, every process but init has a parent that has not exited, and each pid wait returned was forked and is returned once. |
| Proc.CallsKeep | xv6_all_files/proc.c:128-247 | In every step of every run: wait returns -1 exactly if the caller is nobody's parent, the pid of a zombie child, whose slot alone it frees, exactly if there is one, and else sleeps; fork fails at once exactly if no slot is unused, and returns the pid of a new child of the caller that is ready to run, or -1 with the slot free again; a process that has exited is nobody's parent; a zombie stays one until its parent's wait returns its pid. |
| Grep.StarCorrect | xv6_all_files/grep.c:98-105 | matchstar succeeds exactly if some prefix is a run of the character followed by the rest of the pattern. |
| Grep.HereCorrect | xv6_all_files/grep.c:84-95 | matchhere succeeds exactly if some prefix of the text, all of it where the pattern ends in $, is in the pattern's language. |
| Grep.MatchCorrect | xv6_all_files/grep.c:71-81 | match succeeds exactly if some substring, anchored as ^ and $ demand, is in the language of literals, dots and stars. |
| Grep.RunMatchStar | xv6_all_files/grep.c:98-105 | matchstar's do-while loop does what the recursive MatchStar says, and ends. |
| Grep.RunMatch | xv6_all_files/grep.c:71-81 | match's do-while loop does what Match says, and ends. |
| Shell.Parser.GetToken | xv6_all_files/sh.c:266-309 | gettoken returns the kind and span of the next token, >> being one token, and leaves the rest of the tokens; 0 exactly at the end. |
| Shell.Parser.Peek | xv6_all_files/sh.c:311-321 | peek tells whether the next token starts with one of the characters and consumes none. |
| Shell.Parser.RunRedirs | xv6_all_files/sh.c:375-398 | parseredirs wraps the command in the redirections that follow, in order, and panics exactly where a file name is missing. |
| Shell.Parser.RunExec | xv6_all_files/sh.c:416-447 | parseexec collects up to nine words, with redirections between them going around the command, or reads a block; it panics on any other token and on a tenth word. |
| Shell.Parser.RunLine | xv6_all_files/sh.c:345-360 | parseline, with its loop over ampersands, reads what the grammar function says and leaves the rest. |
| Shell.PrintParses | xv6_all_files/sh.c:345-447 | For every command within MAXARGS, parsing the tokens of its parenthesised form gives the command and leaves nothing. |
| Shell.RoundTrip | xv6_all_files/sh.c:266-447 | So it is for the text: every command printed and parsed, blanks, symbols and all, is the same command with the same words. |
| Shell.ParsesGrammar | xv6_all_files/sh.c:328-447 | The parser accepts exactly the tokens that the grammar derives, written as derivation trees without the parser, and gives the command they stand for: pipes and lists lean to the right, an ampersand takes the pipe before it, the last redirection is outermost, < reads and > and >> write. |
| Shell.SpelledLexes | xv6_all_files/sh.c:266-309 | Tokens spelled with any blanks, which only words and a > before a > need between them, are the tokens of the line. |
| Shell.GapsFound | xv6_all_files/sh.c:266-309 | And every line is its tokens spelled so. |
| Shell.ParsesLine | xv6_all_files/sh.c:266-447 | So a line is read as a command exactly if its tokens, however spaced, are ones the grammar derives as that command. |
| Shell.TokensApart | xv6_all_files/sh.c:289-301 | Words of a line are never empty, and never start where another ends. |
| Shell.LineFrom | xv6_all_files/sh.c:345-447 | Every word of a parsed command, and every token left, comes from the line. |
| Shell.Nulterminate | xv6_all_files/sh.c:450-494 | nulterminate writes a NUL at the end of every word of the command and nowhere else. |
| Shell.ReadsBack | xv6_all_files/sh.c:450-494 | However the ends of a line's words are overwritten, each word reads back whole as a C string. |
| Shell.RunCmd | xv6_all_files/sh.c:328-343 | parsecmd accepts exactly the lines that stand for a command, and gives it; then every argument and file name is a C string equal to its word. |
| Ide.RequestQueue.Append | xv6_all_files/ide.c:138-142 | The walk to the last pointer of the queue puts the request at its end. |
| Ide.RequestQueue.Pop | xv6_all_files/ide.c:97-102 | The handler takes the request queued first. |
| Ide.DriveFollows | xv6_all_files/ide.c:69-88 | What the drive does to the sector and hands over for the buffer is what memide's iderw does. |
| Ide.DoAppendInv | xv6_all_files/ide.c:137-146 | Queueing a request keeps the queue linked, free of duplicates, and only its head with the drive. |
| Ide.IntrPopInv | xv6_all_files/ide.c:91-119 | The handler, popping the head, keeps the same. |
| Ide.DoInv | xv6_all_files/ide.c:69-155 | Every step of a caller, the drive or the handler keeps the invariant. |
| Ide.IdeRefines | xv6_all_files/ide.c:69-155 | In every interleaving of enabled steps requests are carried out in the order they were queued; disk and buffers are what memide's iderw leaves when called in that order; a caller returns only after its own sector moved; the queue holds no buffer twice and the drive works on its head; a sleeper is still queued or being woken. |
| Editor.Text.StrcatN | editor.c:248-260 | strcat_n appends all of the piece to the line, or nothing if it does not fit 255 bytes. |
| Editor.Text.LoadChunk | editor.c:83-113 | One buffer of the load loop: for a file that fits the lines are those of the file so far, wherever the buffer was cut. |
| Editor.Text.Load | editor.c:83-113 | The load loop yields the newline split of the file, for every way read cuts it, exactly if the file has at most 256 lines of at most 255 bytes and no NUL. |
| Editor.LongLine | editor.c:248-260 | A line that does not fit loads differently for different cuts. |
| Editor.JoinSplit | editor.c:511-517 | Splitting at newlines and joining with newlines is the identity. |
| Editor.Text.Save | editor.c:493-522 | com_save writes the lines with newlines between them, and reads past its table exactly if all 256 entries are in use. |
| Editor.LoadSave | editor.c:83-113 | A file that fits is saved back byte for byte, staying in the table exactly if it leaves an entry NULL. |
| Editor.SavedLoads | editor.c:493-522 | Text saved and loaded again is the same text. |
| Editor.Text.Ins | editor.c:322-374 | com_ins shifts the lines down and puts the new one in place, dropping the last of a full table; after an empty last line it fills that line and leaves an empty one. It refuses exactly the numbers out of range, and leaves its table exactly for line 257. |
| Editor.Text.Del | editor.c:445-470 | com_del closes the gap; the only line is emptied instead. It reads past its table exactly if all 256 entries are in use. |
| Editor.DeleteInserted | editor.c:322-470 | Deleting an inserted line gives the text back exactly unless the insertion filled an empty last line with something, and stays in the table exactly if an entry was left NULL. |

## Left out

- Path names and links (dirlink, namex), and the system calls over them: no harder claim than those on files. Lookup.Dirlookup has the directory's bytes; that it reads them entry by entry through readi is not modelled.
- The inode cache (iget, iput, ilock) and its reference counts; steps outside a transaction, such as iput of the working directory. The file model has the inode in memory or, if there is none, the one on disk.
- Device files: readi and writei of T_DEV inodes.
- More than one transaction waiting: begin_trans by a second process is a stop in LogRun, since only the owner of the transaction runs there.
- LogRun.Log.LogWrite: requires the sector to lie before the log, which balloc does not ensure on a full disk; Mkfs.BallocInLog says exactly when it does not, FileLog.WriteiBelow when all is well.
- LogRun.Log.Transact: with buffers held by others its success is not decided; nor is that of LogScript.RunScript.
- FileSteps.WriteiFine: the bread of the inode's block in ilock, released before writei, is not among the steps. With one block for the whole bitmap balloc's search holds no other.
- FileWrite.TransactionBound: assumes, as mkfs has it, a disk whose bitmap is one block; FileLog.ChunkAtomic, FileSteps and FileCrash do too.
- FileCrash.FilewriteCrash: needs inodes with just their blocks and room before the log for the whole write; the empty transaction of a chunk that writei refuses is not among the events.
- Mkfs.MakeImage: at most 198 files; mkfs does not count its inodes and would write past them.
- Mkfs.Builder.Iappend: reading past the end of the image is the failure; what wsect may have added to the image file before that is not modelled.
- Umalloc.Allocator.Malloc: sizes do not overflow 32 bits, and sbrk returns memory above all it returned before.
- Vm.Memory.MapKernel: ranges are page-aligned, as all in kmap are; `data` is a parameter.
- Vm.Memory.Lifecycle: the sizes are those allocuvm and deallocuvm are called for, with the size they return.
- inituvm, loaduvm, clearpteu, uva2ka, copyout, segments and the switch of address spaces.
- Pipe.PipeSafe: no kill, no freeing of the pipe's page, and an end is closed only when no process is using it, which file.c's reference counts see to.
- Proc.WaitExitSafe: no kill; the scheduler is any choice of a runnable process; pids do not wrap.
- Ide.IdeRefines: the drive makes no errors and interrupts once for each command; sleep is one step with giving up the lock; requests are for the disk and sectors memide serves.
- acquire and release, the interrupt flag, and the memory model under them: locks are atomic steps.
- runcmd and the rest of the shell; grep's line buffer and the other user programs.
- Boot.SevenFiles: what a kernel does once it has run past the array is not modelled.
- Editor.Text.Ins: records for undo, prompts and display are not modelled, nor are com_mod, com_rollback, com_init_file and the highlighting.
- The boot loader, traps, devices other than the disk, and everything in assembly.
