# Xinu kernel services: a verified model

This project models six parts of the Embedded Xinu x86 kernel in Dafny and proves what they promise, for every
input, every run and every interleaving.

**Local file system.** A file is a chain of index blocks, each mapping sixteen 512-byte data blocks, read and written
through a cache of one index block and one data block with dirty flags. `LocalFs` is the disk with its in-memory
directory, updated in place; a ghost `Image` records which blocks each file owns and what its bytes are. The methods
that position the cache, extend files, free them and write back are proved to keep `Consistent` (every block has one
owner; disk overlaid with cache denotes each file) and to refine a sequence of bytes with a cursor (`FileSpec`).
Formatting, the check of a format, and the packing of seven index blocks into a sector stand beside it. `LfsSessions`
puts it together: from a formatted disk on, sessions of any commands on any number of files and handles behave as on a
store of named byte sequences of limited size.

**Processes, queues, semaphores, the scheduler, sleepers and messages.** `QueueTable` is the one array of links that
holds all queues; `KernelState` is the kernel's tables over it. Each call is a method proved equal to a function on an
abstract `Kernel` value, and about those functions the invariant of all reachable states, the state diagram of
processes, what calls answer, who runs next (`KernelNext`), the queues of semaphores, the timing of sleepers,
round-robin scheduling and the delivery of messages are proved. A call that blocks is one step up to the rescheduling;
`Take` is what a receiver does when it runs again. A clock interrupt whose wakeups pass the processor on leaves the
interrupted process with the countdown of its slice still before it, which it makes when it runs again. Keys of queues
and counts of semaphores are signed words of 32 bits.

**Ports.** Bounded message queues over two semaphores and a shared pool of nodes, with a sequence number that tells a
blocked caller that its port was cleared meanwhile. Steps of senders, receivers, clearing and creating processes
interleave freely; `PortHistory` says what comes out of a port in terms of what callers asked for and were answered.
`PortTable` is the table with its linked nodes. `KernelPorts` runs kernel and ports together, with the semaphores of
the ports in the kernel, and shows that every such run is a run of the ports alone; `PortSystem` makes these steps on
the two sets of tables.

**Heap.** First fit from below, last fit from above, release with two-sided coalescing. A fully coalesced list is
determined by its set of free addresses, which gives release as the inverse of allocation and freeing in any order.
`FreeMemory` is the list as links in memory.

**Priority inheritance, sorting, CRC.** Recursive inheritance over the waits-for graph of processes and locks;
the in-place quicksort, on bytes, whose band of elements equal to the pivot grows and moves; the table-driven CRC-32.

Where the code differs from its comments or from what it is for, the code is followed: `unsleep` says that its caller
adjusts the delay behind the process it removes (xinu-x86/system/unsleep.c:6-8), but it does so itself (lines 39-42);
`semdelete` leaves the count of a deleted semaphore one too high; `clkhandler` and `insertd` take delays as signed
numbers, so that a sleep of 2^31 ms or more goes wrong (`KernelSleep.SleepsAsAsked`, `KernelOnTime.SleepsTooLong`); a
process that a clock interrupt preempts for those it wakes has a tick less when its next turn comes
(`KernelRoundRobin.TurnBegins`); `_ptclear` resets a port to a capacity cut to 16 bits (`PortRuns.ResetKeepsCapacity`
says exactly when that is the capacity it was created with); a timed receive with no time to wait at the head of the
list costs everybody behind it a tick (`KernelOnTime.SleepsExactly` says exactly when,
`KernelLateSleeper.SleepsLonger` gives a run); a heap request within 8 bytes of 2^32 rounds to nothing
(`HeapLaws.ServedUnlessWrapped`); creating a file does not mark the directory as changed (`LfsRuns.CreateUnwritten`);
a disk formatted for no index blocks is not a consistent file system (`LfsFormat.Create`).

## Model

| member | source | states |
|---|---|---|
| Ownership.Take | xinu-x86/device/lfs/lfdballoc.c:21-33 | a block that moves from the top of a free list to the end of a file keeps every block with exactly one owner |
| Ownership.UsedAlone | xinu-x86/device/lfs/lfsetup.c:105-114 | a block that stands in one place of one file stands in no other place, no other file, and not on the free list |
| Ownership.GiveBack | xinu-x86/device/lfs/lftruncate.c:50-97 | all blocks of one file put on the free list, in either order, keep one owner each |
| LfsLayout.TightAt | xinu-x86/device/lfs/lfsetup.c:78-106 | a file that owns just the blocks its bytes need lacks a data block, or an index block, for a position exactly when that position is its end and starts a new block |
| LfsImage.CachePlaces | xinu-x86/device/lfs/lfsetup.c:84-119 | in a consistent file system the cached blocks are blocks of the open file, and dirty ones are never null |
| LfsImage.FlushD | xinu-x86/device/lfs/lfflush.c:27-32 | writing the dirty data block back changes neither the bytes of this file nor of any other |
| LfsImage.FlushI | xinu-x86/device/lfs/lfflush.c:34-39 | writing the dirty index block back keeps all chains, pointers and bytes |
| LfsImage.ExtendChain | xinu-x86/device/lfs/lfsetup.c:80-93 | the index block put behind the last one, whose link is written through, extends the chain with offset 8192 more and leaves all bytes alone |
| LfsImage.AppendBlock | xinu-x86/device/lfs/lfsetup.c:105-114 | a fresh data block entered in the cached, unwritten index block keeps the file system consistent |
| LfsImage.StoreByte | xinu-x86/device/lfs/lflputc.c:48-60 | a byte stored at the byte pointer overwrites or appends exactly that byte of the file |
| LfsImage.CachedByte | xinu-x86/device/lfs/lflgetc.c:45-49 | the byte under the byte pointer is the byte of the file at the cursor, whatever is unwritten |
| LfsImage.Runout | xinu-x86/device/lfs/lfdballoc.c:21-24 | a write stopped for want of blocks after some bytes was short of them from the start |
| LfsImage.NotShort | xinu-x86/device/lfs/lfdballoc.c:21-24 | a write that went through was not short of blocks |
| LfsImage.NthIsChain | xinu-x86/device/lfs/lfsetup.c:45-92 | following the links on disk from the directory's first index block gives the chain of the file, in order |
| LfsImage.DiskDenotes | xinu-x86/device/lfs/lflclose.c:29-35 | when a file is closed, the directory's size and the walk over index and data blocks on disk alone give every byte it had |
| LfsImage.SizeBounded | xinu-x86/device/lfs/lflputc.c:51-54 | no file is larger than the disk, so its 32-bit size never wraps |
| LocalFileSystem.LocalFs.Flush | xinu-x86/device/lfs/lfflush.c:15-41 | a free handle is an error and changes nothing; otherwise directory and both dirty blocks are on disk and no byte of any file changed |
| LocalFileSystem.LocalFs.ReadIndex | xinu-x86/device/lfs/lfibget.c:20-30 | reading the file's c-th index block gives its pointers and link, and disturbs nothing |
| LocalFileSystem.LocalFs.AllocIBlk | xinu-x86/device/lfs/lfiballoc.c:17-32 | panics exactly when no index block is free; otherwise unlinks the head and the directory on disk is current |
| LocalFileSystem.LocalFs.AllocDBlk | xinu-x86/device/lfs/lfdballoc.c:21-39 | panics exactly when no data block is free; otherwise unlinks the head, writes the directory and fills the buffer |
| LocalFileSystem.LocalFs.StartFile | xinu-x86/device/lfs/lfsetup.c:50-58 | an empty file gets the head of the index free list as its first index block |
| LocalFileSystem.LocalFs.ExtendFile | xinu-x86/device/lfs/lfsetup.c:80-93 | the chain grows by the head of the free list, the old last block is written with its link, no byte changes; panics exactly when none is free |
| LocalFileSystem.LocalFs.AddBlock | xinu-x86/device/lfs/lfsetup.c:106-114 | the file gets the head of the data free list as its next block; panics exactly when none is free |
| LocalFileSystem.LocalFs.LoadFirst | xinu-x86/device/lfs/lfsetup.c:45-72 | afterwards an index block that does not lie past the cursor is cached: a new first one if the file had none, otherwise one of its own; panics exactly when a new one is needed and none is free |
| LocalFileSystem.LocalFs.NextIndex | xinu-x86/device/lfs/lfsetup.c:79-93 | one step along the chain: the next index block is cached, a new one if there was none, and no byte changes |
| LocalFileSystem.LocalFs.Advance | xinu-x86/device/lfs/lfsetup.c:78-94 | the walk ends at the index block that covers the cursor and adds at most one block |
| LocalFileSystem.LocalFs.Fetch | xinu-x86/device/lfs/lfsetup.c:100-119 | the data block under the cursor is cached, allocated if missing; the byte pointer is set; panics exactly when one is missing and none free |
| LocalFileSystem.LocalFs.Setup | xinu-x86/device/lfs/lfsetup.c:34-121 | panics exactly when the cursor needs a block that is not free; otherwise every file has the bytes it had, the pointer stands at the cursor, and the file owns just the blocks it needs |
| LocalFileSystem.LocalFs.Putc | xinu-x86/device/lfs/lflputc.c:23-63 | refines overwriting or appending one byte at the cursor; no other file's bytes, blocks or cache change; the directory on disk is then current or marked exactly if it was or a byte was appended |
| LocalFileSystem.LocalFs.Getc | xinu-x86/device/lfs/lflgetc.c:23-51 | returns the byte at the cursor and moves on, or EOF exactly at the end; no content changes, and it never panics |
| LocalFileSystem.LocalFs.Seek | xinu-x86/device/lfs/lflseek.c:18-40 | works exactly for the offsets up to the size, and then stands there; otherwise the cursor stays; all content is kept |
| LocalFileSystem.LocalFs.Write | xinu-x86/device/lfs/lflwrite.c:17-28 | refines putting the bytes one by one, for any length; panics exactly when the free lists cannot feed the file to its new size; keeps the directory current or marked exactly if it was or the file grew |
| LocalFileSystem.LocalFs.Read | xinu-x86/device/lfs/lflread.c:18-38 | returns the bytes from the cursor up to the count or the end, EOF if that is none of some asked for |
| LocalFileSystem.LocalFs.Close | xinu-x86/device/lfs/lflclose.c:22-37 | the file is closed with everything it and the directory owe written, and all bytes the same; the directory on disk is the one in memory exactly if it was current or marked as changed |
| LocalFileSystem.LocalFs.Attach | xinu-x86/device/lfs/lfsopen.c:148-175 | a handle set up for a closed file sees its bytes from position 0 |
| LocalFileSystem.LocalFs.Open | xinu-x86/device/lfs/lfsopen.c:27-179 | works exactly when the name is short enough, a handle is free, the name is not the empty one while any handle is in use, and the file exists or may be made; it opens on the first free handle, an existing file with its bytes, a new one empty |
| LocalFileSystem.FindHandle | xinu-x86/device/lfs/lfsopen.c:46-78 | the search over all handles finds the first free one; its test for a file that is open already, against a name that every handle keeps empty, fails the empty name as soon as a handle is in use and no other name ever |
| LocalFileSystem.LocalFs.OpenOn | xinu-x86/device/lfs/lfsopen.c:80-179 | once a handle is found: an existing file opens with its bytes unless it must be new, a new one empty unless it must exist or the directory is full |
| LfsLayout.Find | xinu-x86/device/lfs/lfsopen.c:93-111 | the first directory entry of that name, or their number when there is none |
| LocalFileSystem.FileHandle.constructor | xinu-x86/device/lfs/lflinit.c:20-45 | a handle starts out free, with a whole data block |
| FileSpec.WriteReplaces | xinu-x86/device/lfs/lflwrite.c:21-28 | a write replaces byte by byte just what stands at the cursor and grows the file past its end; nothing else changes |
| FileSpec.ReadsBack | xinu-x86/device/lfs/lflread.c:22-38 | reading from where a write began gives the bytes written, whatever the file held |
| FileSpec.SeekThenRead | xinu-x86/device/lfs/lflseek.c:25-40 | a seek works exactly for positions up to the end; a read then gives what stands from there on, cut to the count; one that fails changes nothing |
| LfsRuns.Run | xinu-x86/device/lfs/lfsetup.c:34-119 | any sequence of puts, gets and seeks answers as it would on a byte sequence with a cursor and leaves every other file alone; it stops if and only if the free lists cannot feed the file to the size the run gives it |
| LfsRuns.WriteSeekRead | xinu-x86/device/lfs/lflseek.c:30-37 | writing a buffer, seeking back to where the write began and reading as much gives the buffer, for every length and every start, unless the disk runs out of blocks |
| LfsRuns.ReopenAndRead | xinu-x86/device/lfs/lfsopen.c:148-175 | opening a closed file by name and reading it gives all its bytes |
| LfsRuns.WriteThenReopen | xinu-x86/device/lfs/lflclose.c:27-37 | write, close, open, read gives back the file with the written bytes laid over it, for every length and every start |
| LfsRuns.CreateUnwritten | xinu-x86/device/lfs/lfsopen.c:130-139 | a file created and closed unwritten is in the directory on disk if and only if that directory was marked as changed before |
| LfsSessions.FullIs | xinu-x86/device/lfs/lfdballoc.c:21-24 | blocks run out exactly when the files of the store, by their sizes alone, fill the disk |
| LfsSessions.OpenMeans | xinu-x86/device/lfs/lfsopen.c:46-178 | opening works exactly when the name is short enough, a handle is idle, the name is not the empty one while a file is open, and the file is there or may be made; the first idle handle then stands at the start of the first file of that name, or of a new empty one |
| LfsSessions.StoreKept | xinu-x86/device/lfs/lflputc.c:48-60 | no command changes a byte but by writing over it or truncating its file, renames a file, or moves a handle that it does not name |
| LfsSessions.PutThenGet | xinu-x86/device/lfs/lflgetc.c:45-49 | in any store a byte put is read again once its handle has gone back |
| LfsSessions.Step | xinu-x86/device/lfs/lfsopen.c:46-175 | with any number of files and handles, opening, putting, getting, seeking, truncating or closing does to a store of named byte sequences what it should, stops exactly on a full disk, and leaves every other file and handle as it was; opening takes the first free handle and fails for the empty name while a file is open |
| LfsSessions.Serve | xinu-x86/device/lfs/lfsetup.c:34-119 | so does every session of such commands, in any order |
| LfsSessions.FormatAndServe | xinu-x86/device/lfs/lfscreate.c:27-73 | from a freshly formatted disk on, what a session answers and where it stops depends only on its commands and on how many blocks of each kind the disk has |
| LfsTruncate.FreeDBlk | xinu-x86/device/lfs/lfdbfree.c:18-24 | the block becomes the head of the free list, linked to the old head, and the directory is written |
| LfsTruncate.FreePointers | xinu-x86/device/lfs/lftruncate.c:60-74 | exactly the data blocks that one index block points to are put on the free list, in order |
| LfsTruncate.WalkAt | xinu-x86/device/lfs/lftruncate.c:54-58 | the walk that frees a chain meets the old head of the free list only after the chain's last block, so it ends |
| LfsTruncate.ChainSpliced | xinu-x86/device/lfs/lftruncate.c:80-97 | a chain whose last block links to the old head is, put before it, again a linked free list |
| LfsTruncate.FreeChain | xinu-x86/device/lfs/lftruncate.c:54-90 | every index block of the chain is cleared once, all its data blocks are freed, no other file's blocks are touched |
| LfsTruncate.Truncate | xinu-x86/device/lfs/lftruncate.c:24-103 | the file becomes empty, the index free list is the old chain followed by the old list, exactly the file's data blocks join the data free list, other files keep their bytes |
| LfsFormat.Create | xinu-x86/device/lfs/lfscreate.c:27-73 | fails exactly when index blocks would take more than half the disk; otherwise all rounded-up index blocks and all other sectors are free, and the ownership invariant holds if and only if there is an index sector |
| LfsFormat.IndexSectorsFit | xinu-x86/device/lfs/lfscreate.c:33-35 | the sectors reserved are the fewest that hold the index blocks asked for, if and only if rounding up does not leave the request, a signed word, negative |
| LfsFormat.LinkIndex | xinu-x86/device/lfs/lfscreate.c:52-60 | the index blocks are linked in order, the last one to null |
| LfsFormat.LinkData | xinu-x86/device/lfs/lfscreate.c:62-71 | the remaining sectors are linked in order, the last one to null |
| LfsFormat.FreshConsistent | xinu-x86/device/lfs/lfscreate.c:40-71 | a disk so linked, with an empty directory, is a consistent file system in which everything is free |
| LfsFormat.NeedsIndexSector | xinu-x86/device/lfs/lfscreate.c:53-60 | a disk formatted for no index blocks, whose directory still names block 0 as free, is not consistent |
| LfsFormat.Check | xinu-x86/device/lfs/lfsckfmt.c:33-57 | both walks end and count exactly the blocks of the two free lists |
| LfsFormat.CreateThenCheck | xinu-x86/device/lfs/lfsckfmt.c:33-57 | a disk just formatted is counted as having all rounded-up index blocks and all remaining sectors free |
| LfsPacking.IbGet | xinu-x86/device/lfs/lfibget.c:20-30 | copies the 72 bytes of that index block out of its sector |
| LfsPacking.IbPut | xinu-x86/device/lfs/lfibput.c:21-42 | replaces those 72 bytes; every other index block, the six in the same sector too, and every other sector stay as they were |
| LfsPacking.Apart | xinu-x86/include/lfilesys.h:78-87 | two index blocks of one sector do not overlap and lie within it |
| LfsPacking.InArea | xinu-x86/include/lfilesys.h:66-87 | the first k sectors behind the directory are filled by just the first 7k index blocks, each of 72 bytes within one sector |
| LfsPacking.Layout | xinu-x86/include/lfilesys.h:71-76 | link, offset and pointers of an index block stand in this order among its bytes, each as 32 bits with the lowest byte first |
| LfsPacking.DecodeEncode | xinu-x86/include/lfilesys.h:69-76 | an index block that fits its C structure survives the trip through its bytes |
| LfsPacking.PutThenGet | xinu-x86/device/lfs/lfibput.c:21-42 | storing an index block updates just its place of the index area, and reading it gives the same block |
| QueueSpec.InsertLinked | xinu-x86/system/insert.c:29-34 | the four assignments put the process between two neighbours of a linked list, and the list stays linked both ways |
| QueueSpec.RemoveLinked | xinu-x86/system/getitem.c:53-57 | the two assignments take any process out of a linked list, and it stays linked both ways |
| QueueTables.InsertRepresents | xinu-x86/system/insertd.c:30-36 | an insertion into one queue leaves all other queues of the shared table what they are |
| QueueTables.RemoveRepresents | xinu-x86/system/getitem.c:53-57 | a removal from one queue leaves all others what they are |
| QueueTables.QueueTable.NewQueue | xinu-x86/system/newqueue.c:14-29 | two more entries of the table become an empty queue, and all others are as before |
| QueueTables.QueueTable.Enqueue | xinu-x86/system/queue.c:18-29 | the process joins the end of the queue; bad identifiers are errors that change nothing |
| QueueTables.QueueTable.Dequeue | xinu-x86/system/queue.c:42-51 | the first process leaves the queue, which tells if it is empty |
| QueueTables.QueueTable.Insert | xinu-x86/system/insert.c:18-35 | the process goes behind all whose key is as high or higher: descending order, first come first among equals |
| QueueTables.QueueTable.InsertDelta | xinu-x86/system/insertd.c:18-41 | the process goes where its delay is spent, and the key behind it is reduced by what is left, all in signed words of 32 bits that wrap |
| QueueTables.QueueTable.GetItem | xinu-x86/system/getitem.c:53-57 | a process is unlinked from any place of its queue |
| QueueTables.QueueTable.GetFirst | xinu-x86/system/getitem.c:16-21 | the first process is taken, or the queue is reported empty |
| QueueTables.QueueTable.GetLast | xinu-x86/system/getitem.c:35-40 | the last process is taken, or the queue is reported empty |
| KernelTables.KernelState.constructor | xinu-x86/system/initialize.c:121-173 | the tables the kernel starts with are the initial state: all queues empty, only the null process running |
| KernelTables.KernelState.Resched | xinu-x86/system/resched.c:19-49 | records an attempt while deferred; otherwise gives the processor to the first ready process unless the current one is eligible and higher |
| KernelTables.KernelState.Dispatch | xinu-x86/system/resched.c:41-47 | the first ready process gets the processor with a whole slice, less the countdown if it goes on in the middle of a clock interrupt |
| KernelTables.KernelState.ReschedCntl | xinu-x86/system/resched.c:60-80 | deferrals nest; the last one to end reschedules if an attempt was recorded |
| KernelTables.KernelState.Ready | xinu-x86/system/ready.c:17-28 | the process joins the ready list by priority and the processor is rescheduled |
| KernelTables.KernelState.Wait | xinu-x86/system/wait.c:18-38 | counts down, and blocks the caller at the end of the queue when below 0 |
| KernelTables.KernelState.Signal | xinu-x86/system/signal.c:17-30 | counts up and readies the longest waiter if the count was below 0 |
| KernelTables.KernelState.SignalN | xinu-x86/system/signaln.c:18-36 | that many signals under one deferral |
| KernelTables.KernelState.SemReset | xinu-x86/system/semreset.c:21-34 | readies all waiters in order and sets the count, under one deferral |
| KernelTables.KernelState.SemDelete | xinu-x86/system/semdelete.c:17-35 | frees the semaphore and readies all waiters in order, under one deferral |
| KernelTables.KernelState.NewSem | xinu-x86/system/semcreate.c:40-49 | the first free semaphore from where the last search ended, going round once |
| KernelTables.KernelState.SemCreate | xinu-x86/system/semcreate.c:20-27 | a negative count or a full table is an error; otherwise the semaphore starts with the count |
| KernelTables.KernelState.Yield | xinu-x86/system/yield.c:13-16 | just a rescheduling |
| KernelTables.KernelState.SleepMs | xinu-x86/system/sleep.c:33-49 | yields for no delay; otherwise puts the caller on the list of sleepers and reschedules |
| KernelTables.KernelState.Receive | xinu-x86/system/receive.c:16-20 | blocks the caller unless a message waits |
| KernelTables.KernelState.RecvTime | xinu-x86/system/recvtime.c:17-32 | a negative wait is an error; the caller blocks on the list of sleepers unless a message waits |
| KernelTables.KernelState.Take | xinu-x86/system/recvtime.c:34-43 | takes the message that waits, or reports that time ran out |
| KernelTables.KernelState.Send | xinu-x86/system/send.c:17-40 | delivers to a process that exists and has no message, and readies it if it waits, timed or not; `KernelMessages.SendAnswers` says what it answers |
| KernelTables.KernelState.Unsleep | xinu-x86/system/unsleep.c:24-46 | works exactly for sleepers and timed receivers: takes the process off the list, its delay going to the one behind |
| KernelTables.KernelState.Suspend | xinu-x86/system/suspend.c:17-40 | works exactly for a ready or current process other than the null process, and returns its priority |
| KernelTables.KernelState.Resume | xinu-x86/system/resume.c:17-30 | works exactly for a suspended process, and returns its priority |
| KernelTables.KernelState.Wakeup | xinu-x86/system/wakeup.c:13-18 | readies, under deferral, the sleepers at the front of the list with no time left |
| KernelTables.KernelState.ClkHandler | xinu-x86/system/clkhandler.c:9-45 | counts a millisecond, takes one off the first delay and wakes those whose time has come; if that passes the processor on, the interrupted process has the countdown still before it when it runs again, otherwise the slice is counted down at once and rescheduled at its end |
| KernelTables.SecondsClock.Tick | xinu-x86/system/clkhandler.c:11-24 | seconds and the milliseconds of the present one together count the interrupts, modulo 2^32 seconds |
| KernelInv.InsertDescending | xinu-x86/system/insert.c:22-34 | insertion by key keeps the ready list in descending order |
| KernelInv.ReschedScheduled | xinu-x86/system/resched.c:19-49 | after rescheduling the current process runs and nothing ready has a higher priority, or the attempt is recorded |
| KernelNext.PutReadyJoins | xinu-x86/system/ready.c:24-25 | a process made ready stands behind all ready ones of its priority; nobody else changes places |
| KernelNext.ReschedNext | xinu-x86/system/resched.c:19-49 | rescheduling, unless deferred, gives the processor to the first of the ready processes of highest priority exactly if the current one cannot run on or some ready one has its priority or more; the current one then goes behind its equals |
| KernelNext.CallNext | xinu-x86/system/resched.c:21-46 | after every call and every clock interrupt: who has the processor, in what order the others of each priority wait for it with those released behind the rest in order, whether rescheduling was put off and noted, and how deferrals nest |
| KernelCalls.SignalTimesInv | xinu-x86/system/signaln.c:28-33 | as long as the count stays a signed word, n signals add n to it and release the n longest waiters, or all |
| KernelCalls.DoInv | xinu-x86/system/resched.c:21-46 | every call that signals no semaphore past its greatest count keeps the invariant: states agree with queues, the ready list descends, one process runs at most, the null process can run, counts agree with queues, the current process is highest |
| KernelCalls.KeepsUnlessOverflow | xinu-x86/system/signal.c:26-28 | of the calls that can be made, exactly those that signal a semaphore past 2^31 - 1 break it: the count is then negative and nobody waits |
| KernelCalls.InitialInv | xinu-x86/system/initialize.c:123-173 | the initial state has the invariant |
| KernelCalls.RunInv | xinu-x86/system/resched.c:21-46 | every state of every run without such a call has it, whatever the calls, clock interrupts among them |
| KernelCalls.CountsFit | xinu-x86/system/wait.c:29-29 | in every such state every count is a signed word and that of a semaphore in use at least minus the number of processes, so that counting down does not wrap |
| KernelStates.ReschedStands | xinu-x86/system/resched.c:30-45 | rescheduling decides only which of the runnable processes has the processor; no process blocks or wakes by it |
| KernelStates.CallAnswers | xinu-x86/system/semcreate.c:20-49 | every call answers an error exactly where it does not work, and a timed receive in vain a timeout; suspend and resume answer the priority, a receive the message, creation the first free semaphore going round from the last |
| KernelStates.CallStandings | xinu-x86/system/ready.c:21-26 | every call changes the states of processes exactly as the process state diagram says: whom it blocks and how, whom it releases, and nobody else |
| KernelStates.ResumeUndoesSuspend | xinu-x86/system/resume.c:22-30 | resuming a process that was just suspended restores all states, and both calls return its priority |
| KernelStates.OnlySendWakes | xinu-x86/system/send.c:31-38 | a process that waits for a message goes on only by a send to it that works |
| KernelStates.RunsWithMessage | xinu-x86/system/receive.c:17-24 | over whole runs a process that blocked to receive is still blocked or has a message, until it takes one |
| PortSems.WaitIsDown | xinu-x86/system/wait.c:29-35 | a wait on one semaphore counts it down, queues the caller last if it blocks, and touches no other semaphore |
| PortSems.SignalIsUp | xinu-x86/system/signal.c:26-28 | a signal counts up and takes the longest waiter off the queue; no other semaphore changes |
| PortSems.SignalNReleases | xinu-x86/system/signaln.c:28-34 | n signals at once add n and release the n longest waiters |
| PortSems.ResetReleasesAll | xinu-x86/system/semreset.c:26-32 | after a reset nobody waits and the count is the one given |
| PortSems.DeleteReleasesAll | xinu-x86/system/semdelete.c:27-33 | after a deletion nobody waits and the semaphore is free |
| PortSems.CreateIsNew | xinu-x86/system/semcreate.c:20-27 | a created semaphore was free, has its count and nobody waiting |
| PortSems.CreateFails | xinu-x86/system/semcreate.c:40-49 | creation fails exactly for a negative count or when all semaphores are in use, wherever the search starts |
| KernelSemaphores.CallQueues | xinu-x86/system/wait.c:29-35 | what every call does to every semaphore: counts go down and up by what the calls say, whoever blocks joins the queue at the end, signals let go the longest waiters, and no other call touches count or queue |
| KernelSemaphores.NobodyOvertakes | xinu-x86/system/signal.c:26-28 | over whole runs, as long as a process waits on a semaphore, all that came to wait after it still wait, behind it |
| Delays.InsertTime | xinu-x86/system/insertd.c:22-39 | on the list of relative delays, as numbers, an insertion gives its process the delay asked for and changes nobody else's time; `KernelSleep.SleepsAsAsked` says for which delays the queue is that list |
| Delays.InsertFits | xinu-x86/system/insertd.c:22-39 | the relative delays add up to no more than before or than the new one, so that no key and no partial sum leaves the signed words where no delay does |
| Delays.RemoveTime | xinu-x86/system/unsleep.c:37-44 | a removal takes one process and changes nobody else's time |
| Delays.TickTime | xinu-x86/system/clkhandler.c:28-36 | on that list a tick takes the same off everybody's time, a millisecond or nothing, and wakes exactly those with no more left than that |
| Delays.TickTakesOne | xinu-x86/system/recvtime.c:25-26 | a tick takes a millisecond off a sleeper's time if and only if the first of the list had some time left |
| Delays.InsertOrder | xinu-x86/system/insertd.c:22-36 | a new sleeper goes behind all whose time is no later than its own and before all others, who keep their order |
| Delays.RemoveOrder | xinu-x86/system/unsleep.c:37-44 | a removal leaves the others in order |
| Delays.TickOrder | xinu-x86/system/wakeup.c:13-18 | those that a tick wakes are the first of the list, in order |
| Delays.WakesOnTime | xinu-x86/system/wakeup.c:13-18 | in any sequence of sleeps below 2^31 ms, removals and ticks a sleeper of n milliseconds that nobody removes wakes on exactly the tick after which n are spent; that is the n-th if and only if no tick found the list headed by somebody with no time left, and otherwise a later one |
| Delays.PositiveFull | xinu-x86/system/sleep.c:39-47 | where every sleep is for at least a millisecond no tick does, so that n milliseconds are n ticks |
| KernelSleep.PairsInsert | xinu-x86/system/insertd.c:22-39 | with keys as signed words, insertion of a delay below 2^31 ms into the queue by relative keys is insertion into the list of delays |
| KernelSleep.PairsRemove | xinu-x86/system/unsleep.c:37-44 | so is removal, with the key behind increased |
| KernelSleep.CallSleepers | xinu-x86/system/clkhandler.c:28-36 | every call, but a sleep of 2^31 ms or more, does one insertion, one removal, one tick or nothing to the list of delays, and which |
| KernelSleep.SleepsAsAsked | xinu-x86/system/sleep.c:39-47 | a process that goes to sleep stands on the queue with the delay it asked for, and everybody else with theirs, if and only if it asked for less than 2^31 ms |
| KernelOnTime.SleepsTooLong | xinu-x86/system/sleep.c:41-41 | a sleep of more than 2^31 ms ends at the next tick, and takes the first of the other sleepers with it exactly if that had n - 2^31 ms or more to go; one of 2^31 ms does not end then |
| KernelOnTime.KeysFit | xinu-x86/system/insertd.c:38-38 | over whole runs in which every sleep is below 2^31 ms the delays on the queue, and their sum, are never negative and never leave the signed words |
| KernelOnTime.SleepsExactly | xinu-x86/system/sleep.c:39-47 | over whole runs of the kernel in which every sleep is below 2^31 ms a process that goes to sleep for n milliseconds and is not woken by a message stays asleep until the tick after which n are spent and can run from then on; that is the n-th tick if and only if no tick meanwhile found the list headed by a process with no time left, and otherwise a later one |
| KernelOnTime.SleepsOnTime | xinu-x86/system/sleep.c:39-47 | in such runs where every sleep is for at least a millisecond it is the n-th tick and no other |
| KernelLateSleeper.SleepsLonger | xinu-x86/system/recvtime.c:24-31 | a run in which a process asks to sleep for 2 ms, another makes a timed receive of 0 ms, and after two ticks the first still sleeps |
| KernelRoundRobin.RingMembers | xinu-x86/system/ready.c:23-26 | the ring of the current process holds exactly the runnable processes of its priority |
| KernelRoundRobin.ReschedRotates | xinu-x86/system/resched.c:30-46 | rescheduling gives the processor to the next of the ring and puts the current process at its end |
| KernelRoundRobin.TakesTurns | xinu-x86/system/resched.c:30-46 | after n reschedulings the n-th of the ring, going round, has the processor |
| KernelRoundRobin.TickTurns | xinu-x86/system/clkhandler.c:28-44 | a tick that wakes nobody of the current priority or a higher one passes the processor on within the ring, once, exactly if it wakes anybody or ends the slice |
| KernelRoundRobin.TakeTurnsWhileQuiet | xinu-x86/system/clkhandler.c:28-44 | over any number of such ticks the processes of the ring take turns in order, whoever else wakes |
| KernelRoundRobin.ShareProcessor | xinu-x86/system/clkhandler.c:38-44 | as long as nobody wakes, however many sleep, processes of equal priority share the processor by turns of a quantum of ticks each, but for the first turn of those that owe a countdown, which is a tick shorter; after any number of ticks it says whose turn it is and how much of it is left |
| KernelRoundRobin.SliceAlways | xinu-x86/system/clkhandler.c:41-44 | in every state of every run the slice counter is between 1 and the quantum, so that as an unsigned number it never wraps, and the process that runs owes nothing |
| KernelRoundRobin.DoHands | xinu-x86/system/resched.c:42-46 | every call that passes the processor on gives the next process a whole slice if it owes nothing and a tick less otherwise; a process comes to owe a countdown only by a clock interrupt whose wakeups take the processor from it |
| KernelRoundRobin.OwesExactly | xinu-x86/system/clkhandler.c:33-44 | over whole runs just those processes owe a countdown that lost the processor in the middle of a clock interrupt, to those it woke, and have not had it since |
| KernelRoundRobin.TurnBegins | xinu-x86/system/clkhandler.c:33-44 | whenever in a run the processor passes to another process, that has a whole quantum if and only if it did not lose the processor so the last time it had it |
| KernelMessages.MessageKept | xinu-x86/system/send.c:23-29 | no call loses or overwrites a message that waits, except its recipient taking it |
| KernelMessages.SendAnswers | xinu-x86/system/send.c:18-40 | a send is answered OK exactly if its recipient exists and has no message, and otherwise an error, nothing changed |
| KernelMessages.SendDelivers | xinu-x86/system/send.c:28-40 | a send to a process that exists and has no message, whatever its state, leaves the message there and touches no other |
| KernelMessages.TakesWhatWasSent | xinu-x86/system/receive.c:21-24 | over whole runs a send to a process that exists and has no message is answered OK, what the process takes next is what was sent, and until then every other send to it fails |
| PortInv.EnqueueInv | xinu-x86/system/ptsend.c:40-58 | a sender past its semaphore, given a node, leaves all ports in order |
| PortInv.DequeueInv | xinu-x86/system/ptrecv.c:35-47 | a receiver past its semaphore always finds a message, and leaves all ports in order |
| PortCalls.WithinCapacity | xinu-x86/system/ptsend.c:29-37 | the messages of all ports, and one for a sender past its semaphore, fit in the capacities together |
| PortCalls.DoInv | xinu-x86/system/ptclear.c:21-49 | every step of every caller keeps the invariant; a receiver never faults, and a sender panics only if the capacities exceed the nodes |
| PortRuns.PortCounts | xinu-x86/system/ptsend.c:29-35 | of an allocated port, room counted + senders released + messages = capacity, and messages counted + receivers released = messages; where a semaphore could not be created nobody passes it |
| PortRuns.NodesConserved | xinu-x86/system/ptclear.c:34-38 | free nodes and nodes in use are together always all nodes, and none is in two places |
| PortRuns.FirstInFirstOut | xinu-x86/system/ptrecv.c:37-47 | in the history that a port keeps of an epoch, what was received is a prefix of what was sent, and the rest is in the queue in order; `PortHistory.HistoryIs` ties that history to what callers asked for and were answered |
| PortRuns.ResetKeepsCapacity | xinu-x86/system/ptclear.c:40-43 | a reset leaves an empty port with nobody waiting, of the same capacity if and only if that is at most 65535 |
| PortRuns.InitialInv | xinu-x86/system/ptinit.c:27-43 | the ports start in order |
| PortRuns.RunInv | xinu-x86/system/ptclear.c:21-49 | every state of every interleaving is in order |
| PortRuns.NeverOutOfNodes | xinu-x86/system/ptsend.c:36-38 | as long as the capacities together are no more than the nodes, no interleaving panics or finds a queue empty |
| PortRuns.StaleCallersFail | xinu-x86/system/ptsend.c:29-35 | a caller that was blocked acts on the port it blocked on if and only if nobody began to clear that port meanwhile; otherwise it fails and touches nothing, even if the port was made anew |
| PortRuns.CreateFails | xinu-x86/system/ptcreate.c:19-45 | creation fails exactly for a negative count or when no port is free, wherever the search starts |
| PortHistory.SendHistory | xinu-x86/system/ptsend.c:20-58 | a send fails exactly where the port is not allocated or has no semaphore for it; one answered OK puts just its message behind those in the port, any other send puts nothing, and no other port changes |
| PortHistory.RecvHistory | xinu-x86/system/ptrecv.c:19-47 | a receive that works is answered the first message of the port, which leaves it; any other takes nothing, and no other port changes |
| PortHistory.ResumeHistory | xinu-x86/system/ptsend.c:29-58 | a blocked caller that runs again does so with the message it had asked to send, or fails, exactly if the port was cleared meanwhile |
| PortHistory.HistoryIs | xinu-x86/system/ptsend.c:40-58 | over every interleaving the history that a port keeps is made of the messages of the sends that were answered OK, in that order, and of what the receives that worked were answered, since it was created or last began to be cleared |
| PortHistory.FirstSentFirstReceived | xinu-x86/system/ptrecv.c:37-47 | so the k-th receive that works is answered the message of the k-th send that worked, and what was sent and not yet received is in the port, in order |
| PortHistory.SendBlocksExactly | xinu-x86/system/ptsend.c:29-35 | a sender blocks exactly where the messages in the port and those of senders on their way fill its capacity |
| PortHistory.RecvBlocksExactly | xinu-x86/system/ptrecv.c:28-34 | a receiver blocks exactly where receivers on their way take all messages in the port |
| PortHistory.CapacityIs | xinu-x86/system/ptcreate.c:33-41 | over every interleaving the capacity is the count asked for when the port was created, cut to 16 bits by every reset since |
| PortHistory.CreateAnswers | xinu-x86/system/ptcreate.c:19-45 | a port is created in the first free place going round from the last, with room for just the messages asked for; nothing else changes; it fails exactly for a negative count or a full table |
| PortHistory.DeletedIsNext | xinu-x86/system/ptdelete.c:23-24 | the port deleted last is the first to be created again |
| KernelPorts.OtherCall | xinu-x86/system/ptcreate.c:33-41 | a call of the kernel that names no semaphore of a port leaves all semaphores of ports as the ports take them to be |
| KernelPorts.RunsReleased | xinu-x86/system/ptsend.c:29-35 | a process that runs in the middle of a call on a port has been released from its semaphore, for the kernel runs nobody that waits |
| KernelPorts.StepFollows | xinu-x86/system/ptrecv.c:28-45 | with the semaphores of ports in the kernel, where waits, signals, resets, deletions and creations are calls of the kernel and decide who blocks and who fails, each step does to the ports what the step of the ports alone does |
| KernelPorts.JointRunIsPortRun | xinu-x86/system/ptclear.c:21-49 | in every run of kernel and ports together, what the ports go through is a run of the ports alone, so that all that holds of those runs holds there, and the kernel keeps its invariant |
| KernelPorts.WholeSystemFindsNodes | xinu-x86/system/ptsend.c:36-38 | as long as the capacities together are no more than the nodes, no such run panics or finds a queue empty |
| KernelPorts.CallersInKernel | xinu-x86/system/wait.c:29-35 | in every such state a caller that has not been released waits in the kernel on the semaphore of its port |
| PortTables.LinkLastChains | xinu-x86/system/ptsend.c:40-55 | moving the first free node behind the tail of one port keeps all lists of nodes linked |
| PortTables.LinkFirstChains | xinu-x86/system/ptrecv.c:39-44 | moving the head of one port before the free nodes keeps all lists linked |
| PortTables.SpliceChains | xinu-x86/system/ptclear.c:34-38 | putting the whole list of a port before the free nodes keeps all lists linked |
| PortTables.PortTable.constructor | xinu-x86/system/ptinit.c:22-44 | all nodes are linked as free and all ports are free |
| PortTables.PortTable.AddMessage | xinu-x86/system/ptsend.c:36-55 | a sender past its semaphore panics exactly without a free node; otherwise the links and the entry are those of the port with one message more, which `PortHistory.SendHistory` shows to be the one sent |
| PortTables.PortTable.TakeMessage | xinu-x86/system/ptrecv.c:35-44 | a receiver past its semaphore gets the first message, and its node is linked in as the first free one |
| PortTables.PortTable.Recall | xinu-x86/system/ptsend.c:29-35 | a caller that runs again sees whether the port is allocated under the sequence number that it noted |
| PortTables.PortTable.Dispose | xinu-x86/system/ptclear.c:24-32 | exactly the messages of the port are handed over for disposal, in order |
| PortTables.PortTable.Clear | xinu-x86/system/ptclear.c:21-41 | the port enters limbo under a new sequence number, and its nodes are put before the free ones |
| PortTables.PortTable.ClearEnd | xinu-x86/system/ptdelete.c:23-24 | it takes its new state, and after a deletion is the first to be tried for a new port |
| PortTables.PortTable.FindFree | xinu-x86/system/ptcreate.c:24-33 | the first free port from where the last search ended, going round once |
| PortSystems.PortSystem.constructor | xinu-x86/system/ptinit.c:22-44 | kernel and ports as the null process sets them up: all nodes and ports free, no semaphore in use |
| PortSystems.PortSystem.PtSend | xinu-x86/system/ptsend.c:20-58 | the call on the linked nodes and table entries, with the wait and the signal made on the kernel's tables, does to both just what the joint step does: who blocks, who fails, who panics, and what is linked where |
| PortSystems.PortSystem.PtRecv | xinu-x86/system/ptrecv.c:19-47 | so for a receive |
| PortSystems.PortSystem.PtResume | xinu-x86/system/ptsend.c:30-58 | so for a blocked caller that runs again, which checks state and sequence number before it touches the port |
| PortSystems.PortSystem.PtClear | xinu-x86/system/ptclear.c:21-46 | so for clearing, up to where the kernel has released the senders; exactly the messages of the port are disposed of, in order |
| PortSystems.PortSystem.PtClearReceivers | xinu-x86/system/ptclear.c:43-46 | so for releasing the receivers |
| PortSystems.PortSystem.PtClearEnd | xinu-x86/system/ptclear.c:48-49 | so for the end of it |
| PortSystems.PortSystem.PtCreate | xinu-x86/system/ptcreate.c:19-45 | so for creating a port with two semaphores of the kernel, as far as they can be created; it is made even if they cannot |
| HeapSpec.Round | xinu-x86/include/memory.h:9-10 | the least multiple of 8 that holds the request, or 0 where 32-bit arithmetic wraps |
| HeapSpec.Unique | xinu-x86/system/freemem.c:53-67 | two sorted, fully coalesced free lists with the same free addresses are the same list |
| HeapLaws.GetMemTakes | xinu-x86/system/getmem.c:17-49 | fails exactly when no run of free bytes is long enough; otherwise exactly the block handed out stops being free |
| HeapLaws.GetStkTakes | xinu-x86/system/getstk.c:17-51 | the same for a block handed out by its highest word |
| HeapLaws.LowestAndHighest | xinu-x86/system/getstk.c:30-37 | heap requests get the lowest run of free bytes that would do, stack requests the highest |
| HeapLaws.WrappedRequest | xinu-x86/system/getmem.c:22-33 | a request within 8 bytes of 2^32 wraps to nothing and returns, for memory and for stacks, a block that stays free |
| HeapLaws.ServedUnlessWrapped | xinu-x86/system/getstk.c:23-51 | what an allocation returns is memory of the size asked for that is free no longer, if and only if the request is at most 2^32 - 8 |
| HeapLaws.FreeMemGives | xinu-x86/system/freemem.c:18-69 | release works if and only if the block is not empty, starts in the heap and no byte of it is free; then exactly its bytes become free and the list is again coalesced |
| HeapLaws.FreeMemUndoesGetMem | xinu-x86/system/freemem.c:53-67 | releasing what was allocated leads back to the identical list |
| HeapLaws.FreeStkUndoesGetStk | xinu-x86/include/memory.h:12-19 | so does the macro for stacks |
| HeapRuns.FreeAllGives | xinu-x86/system/freemem.c:41-47 | releasing any blocks one after the other succeeds if and only if none is released twice, none overlap and none were free |
| HeapRuns.AnyOrder | xinu-x86/system/freemem.c:53-67 | the order in which blocks are released affects neither success nor the final list |
| HeapRuns.TakenBytes | xinu-x86/system/getmem.c:30-40 | an allocation lowers the free bytes by the rounded request |
| HeapRuns.GivenBytes | xinu-x86/system/freemem.c:49-67 | a release raises them by it |
| HeapRuns.ReleaseSound | xinu-x86/system/freemem.c:41-69 | whatever is live can be released, as heap memory or as a stack, and releasing it works |
| HeapRuns.StepSound | xinu-x86/system/getmem.c:22-47 | each step keeps every address that was free at the start either free or in exactly one live allocation |
| HeapRuns.RunSound | xinu-x86/system/freemem.c:25-67 | so does every run; and when all is released the list is the one at the start |
| HeapMemory.FreeMemory.GetMem | xinu-x86/system/getmem.c:17-49 | the links and lengths in memory after an allocation are those of the specified list, and the head's length changes as the free bytes do modulo 2^32 |
| HeapMemory.FreeMemory.GetStk | xinu-x86/system/getstk.c:17-51 | the same for stacks |
| HeapMemory.FreeMemory.FreeMem | xinu-x86/system/freemem.c:18-69 | the same for release |
| HeapMemory.FreeMemory.FreeStk | xinu-x86/include/memory.h:12-19 | the same for the macro that releases stacks |
| HeapMemory.RelinkedLinks | xinu-x86/system/freemem.c:53-67 | putting at most one node in the place of adjacent ones keeps the list linked with the right lengths |
| PriorityInheritance.LockTable.SwapPriority | xinu-x86/system/lab3functions.c:18-51 | on a waits-for graph without cycles the recursion ends; the lock comes to record the larger of its priority and that of the process, holders run no lower than their lock records, nobody is lowered, own priorities are remembered through every path, edges in order stay so, and no process and no lock is raised higher than it must be |
| PriorityInheritance.BoundedIffRanked | xinu-x86/system/lab3functions.c:34-48 | the part of the waits-for graph that can be reached has a rank, as the recursion is demanded to have, if and only if the paths there that it follows are of bounded length |
| PriorityInheritance.InheritedThroughout | xinu-x86/system/lab3functions.c:34-48 | if only edges out of the blocking process were out of order, none is after the call |
| PriorityInheritance.SettledThroughout | xinu-x86/system/lab3functions.c:27-48 | if every waiting process but the one that blocks had no higher priority than its lock records and every holder no lower, that holds of all afterwards |
| PriorityInheritance.LeastInherited | xinu-x86/system/lab3functions.c:27-48 | then the priorities of processes and locks that come out are the least that satisfy this |
| PriorityInheritance.LockTable.Raise | xinu-x86/system/lab3functions.c:36-44 | a holder of lower priority is raised and its own priority remembered, once |
| PriorityInheritance.LockTable.constructor | xinu-x86/system/linit.c:9-20 | every lock starts with an empty queue of its own in the table of queues |
| PriorityInheritance.LockTable.WaitLock | xinu-x86/system/lab3functions.c:119-127 | a process that blocks on a lock is marked as waiting, the lock records its priority if that is higher, which is handed on all along the graph, and it joins the lock's queue and no other and has its wait return OK; if all was settled but for it, all is settled afterwards |
| LockQueues.LockQueueTable.InsertLockQ | xinu-x86/system/lab3functions.c:2-17 | the process is linked in before the first waiter that has a lower key or wants to write; all other queues of the table are as before |
| LockQueues.EnterKeepsOrder | xinu-x86/system/lab3functions.c:6-8 | a new waiter stands behind the leading readers of its key or higher and before the rest; readers before the first writer stay in descending order of their keys |
| Qsort.BandRight | xinu-x86/lib/qsort.c:74-79 | the three-way exchange that moves the band right keeps the three parts |
| Qsort.BandLeft | xinu-x86/lib/qsort.c:104-105 | so does the one that moves it left |
| Qsort.Across | xinu-x86/lib/qsort.c:89-101 | elements of different parts are in order with each other |
| QsortBytes.ExchangeBytes | xinu-x86/lib/qsort.c:109-124 | byte by byte, two blocks change places and no other byte changes |
| QsortBytes.ExchangeBytes3 | xinu-x86/lib/qsort.c:126-144 | byte by byte, the third block goes to the first place, the second to the third, the first to the second |
| QsortBytes.SwappedElements | xinu-x86/lib/qsort.c:109-124 | on elements of any positive size that is the exchange of two elements that the sort is proved with |
| QsortBytes.RotatedElements | xinu-x86/lib/qsort.c:126-144 | likewise for three |
| QsortBytes.Middle | xinu-x86/lib/qsort.c:44-45 | the byte offset the code computes is that of the middle element |
| QsortBytes.LookLeft | xinu-x86/lib/qsort.c:50-62 | an element below the pivot stays, one like it joins the band from the left, one above it is left for the other side |
| QsortBytes.LookRight | xinu-x86/lib/qsort.c:64-87 | likewise from the right, by growing the band, moving it right, crossing over, or leaving the element |
| QsortBytes.Partition | xinu-x86/lib/qsort.c:44-106 | through every path of the loop elements before i are below the pivot, those of the band are like it, those behind j above it; at the end these three parts are all there is |
| QsortBytes.Qs1 | xinu-x86/lib/qsort.c:29-107 | on the bytes of elements of any positive size, the range is sorted, a permutation of what it was, no element outside it changes, and 2^depth of the recursion is at most one more than the number of elements |
| QsortBytes.ContentsAt | xinu-x86/lib/qsort.c:22-27 | the e-th element of the array is the bytes from e times the size on |
| QsortBytes.Sort | xinu-x86/lib/qsort.c:22-27 | the bytes, taken as elements of the given size, become a sorted permutation of what they were, for every comparison that orders elements of that size |
| Crc32.TermsArePoly | xinu-x86/compile/uboot-tool/crc32.c:56-63 | the listed powers make up the generator polynomial 0xEDB88320 |
| Crc32.MakeTable | xinu-x86/compile/uboot-tool/crc32.c:60-71 | the table holds for each byte what eight shifts make of it |
| Crc32.ShiftsLinear | xinu-x86/compile/uboot-tool/crc32.c:67-69 | shifting the register is linear for exclusive or |
| Crc32.TableStep | xinu-x86/compile/uboot-tool/crc32.c:149-149 | one look-up in the table is eight shifts of the register with the byte added |
| Crc32.Compute | xinu-x86/compile/uboot-tool/crc32.c:155-177 | eight bytes at a time and then one at a time, the result is the check as defined bit by bit, complemented before and after, for every message and start value |
| Crc32.CrcConcat | xinu-x86/compile/uboot-tool/crc32.c:164-176 | the check of a message in two parts goes on from that of the first |
| Crc32.BitwiseLinear | xinu-x86/compile/uboot-tool/crc32.c:67-70 | how two start values make checks differ does not depend on the message, only on its length |
| Crc32.CheckOfChecked | xinu-x86/compile/uboot-tool/crc32.c:155-177 | a message with its own check behind it, lowest byte first, has the check 0x2144DF1C, whatever the message and the start value |
| Crc32.KnownChecks | xinu-x86/compile/uboot-tool/crc32.c:164-176 | the checks of one zero byte and of the digits from 1 to 9 are the known ones |

## Left out

Local file system:

- LocalFileSystem.LocalFs.Open: takes one handle for a file as given, because the code's own test for a file that is open compares with a name that is always empty, its copy being made without moving the target (xinu-x86/device/lfs/lfsopen.c:161), and so finds none but the empty one; parsing of the mode string is a parameter, and the directory is in memory.
- LfsFormat.Create: demands that at least one data sector is left, because otherwise the code's count of them wraps around.
- LfsRuns.WriteThenReopen: demands that names in the directory differ, as they do when `lfsopen` made them, because a name is looked up from the front.
- Disk and buffers are fields that hold sequences of typed sectors; their bytes are modelled for index blocks only (`LfsPacking`). Disk errors and the mutexes of files and directory are not modelled.
- A panic ends the run: what it leaves is not described.
- The remote disk and remote file drivers.

Processes, semaphores and scheduler:

- KernelTables.KernelState.Take: stands for the second half of both kinds of receive; `receive` does not look at the message flag again, and need not (`KernelStates.RunsWithMessage`), unless its caller had put rescheduling off and so goes on while blocked.
- QueueTables.QueueTable.NewQueue: demands room in the table, because the code's own test for that lets two entries too many pass (xinu-x86/system/newqueue.c:15).
- `create` is an abstract step that makes a suspended process of a given positive priority: stacks, names and context switches are not modelled. `kill` and `chprio` are not: the one mixes device and memory calls, the other changes a priority without moving its process in the ready list.
- KernelCalls.DoInv: is about calls that signal no semaphore past 2^31 - 1, for exactly those break the invariant (`KernelCalls.KeepsUnlessOverflow`).
- Interrupt masks: each call is one step up to where the processor changes hands. What a process has to do behind that in its call is a step of its own for receivers (`Take`) and callers of ports, and for a clock interrupt the countdown, which is charged when the process gets the processor back.

Ports:

- KernelPorts.JointRunIsPortRun: is about programs that do not use the semaphores of ports but through ports, and that do not call a port while rescheduling is put off.
- Sequence numbers do not wrap. Disposing of a message is handing it over; `ptcount` is not modelled.

Heap:

- HeapMemory.FreeMemory.FreeMem: demands of a block in the heap that it is 8-aligned and ends below 2^32, because the code would write its node through a misaligned or wrapped address.
- HeapRuns.RunSound: is about requests of at most 2^32 - 8 bytes; `HeapLaws.ServedUnlessWrapped` says that larger ones are not served, so that what follows them is not memory management.
- The division of memory into segments at start-up; the model starts from any list that lies in the heap, and the constructor from one block.

Locks, sorting, CRC:

- PriorityInheritance.LockTable.SwapPriority: demands a rank on what can be reached in the waits-for graph; where there is none paths have no bound (`PriorityInheritance.BoundedIffRanked`), and the code recurses without end.
- PriorityInheritance.LockTable.WaitLock: ends where the process gives up the processor. Releasing and deleting locks, resetting priorities and waking the waiters of a lock are not modelled: a woken waiter is recorded as a holder only when it runs.
- QsortBytes.Sort: is for elements of at least one byte, and a comparison that orders all of that size.
- Crc32.MakeTable: is the table the code can compute; the ready-made literal table is not part of the model, nor is the variant without complement. Registers have 32 bits.

Not modelled at all: terminals, Ethernet and the network protocols, SD cards, PCI, interrupt vectors, the shell, formatted
input and output, and the configuration program.
