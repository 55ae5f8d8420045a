# Verification of the Robu microkernel

A model of the hard parts of the Robu microkernel and its servers in Dafny 4.11, with proofs.
`dafny verify dfyconfig.toml` checks the whole project.

What is modelled, and the main result about it:

- **Metadata journal** (`Disk`, `JournalLayout`, `JournalProtocol`, `JournalCrash`, `JournalRecovery`,
  `JournalRuns`, `JournalIntegrity`, `Journal`, `JournalSessions`). The ext2 server's journal on a device
  with a write cache that may keep any subset of unflushed writes across a power cut, and that may fail
  at any operation. A transaction is atomic and durable over any chain of crashes and interrupted
  replays, and every run keeps a ledger of the acknowledged transactions; `JournalSessions` ties the
  procedures themselves to it, and `JournalIntegrity` says what a replay can write at all. A power cut
  in the middle of a commit is a failed operation (the write not reached, or the flush that persisted
  nothing) followed by recovery.
- **Scheduler, IPC and time** (`IntrusiveList`, `Threads`, `Scheduling`, `Periods`, `Timekeeping`,
  `Messages`, `Wakeups`, `Kernel`). The thread table with its intrusive ready queues, inbox and send
  queues, as every kernel entry of every CPU changes it under the kernel lock. One invariant holds at
  each release of the lock; `Threads.LinkedOnce` says what it means. Messages reach who they are for,
  threads of one priority take turns, and nobody who was woken outranks the thread that runs. After each
  tick of the first CPU nothing is overdue, also when periods wrap 64 bits; `Periods` says exactly when
  the catch-up loop ends and where.
- **Directory tree** (`Tree`, `Directories`). Requests of the ext2 server keep a tree rooted at the root
  inode, with link counts and directory counts right exactly while 16 bits hold them.
- **Allocation and block maps** (`Bitmaps`, `Allocator`, `BlockMap`). Bitmaps agree with every count; the
  direct, indirect and double indirect pointers of an inode are a list of blocks.
- **Directory blocks** (`DirectoryBlocks`, `DirectoryNames`). Blocks of bytes tiled by records are a map
  from names to inodes.
- **Extended attributes** (`Attributes`), **FAT times** (`FatTime`), **boot information** (`BootInfo`).
  Round trips between a reader and a writer on bytes, words and dates.
- **Page tables and user memory** (`PageTables`, `UserMemory`). Four levels of tables act like a map from
  pages to frames; page-wise copies equal byte-wise ones; moving pages is all or nothing, but for the
  protection of pages put back.
- **Exec requests** (`ExecRequests`), **shared memory** (`SharedMemory`), **pipes and sockets** (`Rings`,
  `Pipes`, `Sockets`), **kernel heap** (`KernelHeap`). Tables of slots with generations: what every
  reachable state keeps, and when an old identifier can be taken for a new one. `Bytes` and `Common` hold
  byte access, integer widths and slot identifiers.

Where the source updates fields in place the model is a class whose methods do so, each proved against
a function of the old state or on the fields themselves; the lemmas beside it are about those functions.
The runs of each table come with a trace of its states, in which every step does what it is for. Integer
widths are written out where they matter: sums modulo 2^16, 2^32 or 2^64 appear as such, and each
property that a wrap can break is stated with the exact condition under which it holds.

## Model

| member | source | states |
|---|---|---|
| `Disk.CrashKeepsAnySubset` | src/servers/fs/ext2/journal.c:288-322 | A power cut of a device with a write cache leaves exactly the images in which some subset of the cached writes reached the platter |
| `Disk.FailureAddsNoImage` | src/servers/fs/ext2/journal.c:288-322 | An operation that fails leaves a disk that can crash only into images possible with or without that operation |
| `JournalLayout.SlotsDistinct` | src/servers/fs/ext2/journal.c:64-72 | Different journal slots are different device sectors, whatever blocks the journal file has |
| `JournalLayout.SlotIsStorage` | src/servers/fs/ext2/journal.c:54-72 | Every journal slot maps to a sector on the device that the storage test recognises as the journal's own |
| `JournalLayout.HeaderRoundTrip` | src/servers/fs/ext2/journal.c:90-114 | A header written for any state, count and sequence number is accepted by the check of replay and reads back as written |
| `JournalLayout.DescriptorRoundTrip` | src/servers/fs/ext2/journal.c:127-146 | For any record table, the descriptor of each record reads back its sector and the checksum of its payload |
| `JournalLayout.OneByteShows` | src/servers/fs/ext2/journal.c:36-43 | A single wrong byte, anywhere in any data, always changes the checksum |
| `JournalProtocol.SettledIffEveryCrashInert` | src/servers/fs/ext2/journal.c:173-229 | The state between transactions is characterised: it is settled if and only if every power cut leaves an image whose replay changes no home sector |
| `JournalProtocol.PreparedHolds` | src/servers/fs/ext2/journal.c:127-171 | After the first flush the journal area holds the whole transaction, whatever it held before |
| `JournalCrash.InstallOverMixture` | src/servers/fs/ext2/journal.c:307-313 | Writing the records home completes the transaction from any mixture of old and new home sectors |
| `JournalCrash.InstallCrash` | src/servers/fs/ext2/journal.c:307-317 | A power cut at any operation of the install phase leaves the transaction decided |
| `JournalCrash.CommitCrash` | src/servers/fs/ext2/journal.c:288-322 | For every transaction and every operation of a commit at which power is cut: the image is recoverable, has no trace of the transaction before the COMMITTED header is issued, and has it decided once that header is flushed |
| `JournalCrash.CommitDone` | src/servers/fs/ext2/journal.c:288-322 | A commit that is not interrupted installs all records, clears the header and leaves the disk settled again |
| `JournalRecovery.ReplayOfCommitted` | src/servers/fs/ext2/journal.c:173-229 | A journal that holds a committed transaction is replayed in full, record by record |
| `JournalRecovery.ReplayOfPrepared` | src/servers/fs/ext2/journal.c:173-229 | A journal that holds only a prepared transaction is cleared and nothing is written home |
| `JournalRecovery.ReplayOfUncommitted` | src/servers/fs/ext2/journal.c:173-229 | Whatever an uncommitted journal holds, replay writes no home sector, whether it refuses or not |
| `JournalRecovery.ReplayCrash` | src/servers/fs/ext2/journal.c:173-229 | A replay cut short at any operation leaves the image recoverable, a decided transaction decided and an absent one absent |
| `JournalRecovery.ReplayDone` | src/servers/fs/ext2/journal.c:173-229 | A replay that succeeds leaves a clear journal and all of the transaction or none of it, as was decided |
| `JournalRecovery.AtomicAndDurable` | src/servers/fs/ext2/journal.c:173-322 | Crash atomicity: after a commit cut anywhere and any number of replays cut anywhere, the next replay that succeeds leaves exactly the old contents or exactly the new; the old if the cut came before the COMMITTED header, the new if after its flush |
| `JournalRuns.FailedPrepareSettled` | src/servers/fs/ext2/journal.c:288-322 | A device error before the first flush succeeds leaves the disk settled, so that the abort is sound |
| `JournalRuns.FailedCommitRecoverable` | src/servers/fs/ext2/journal.c:288-322 | A device error at any operation of a commit leaves every crash image recoverable |
| `JournalRuns.EventAgrees` | src/servers/fs/ext2/journal.c:173-322 | One event (commit, failed commit, power cut with recovery, power cut with a replay that fails) can be followed by one step of a ledger of acknowledged transactions |
| `JournalRuns.RunsKeepTheLedger` | src/servers/fs/ext2/journal.c:173-322 | Over every run of commits, device errors, power cuts and replays cut short, failed or refused there is a run of the ledger that the disk agrees with: acknowledged transactions stay, aborted ones leave no trace, and only one whose commit failed late may turn out either way, once |
| `JournalRuns.InOrderNeverRefused` | src/servers/fs/ext2/journal.c:173-322 | When writes persist in order, replay accepts the journal at every crash point of every run of transactions |
| `JournalRuns.InOrderReplayNeverRefused` | src/servers/fs/ext2/journal.c:173-229 | The same for every crash point of the replay itself, which leaves a clean journal when it ends |
| `Journal.ComputeChecksum` | src/servers/fs/ext2/journal.c:36-43 | The checksum loop computes 32-bit FNV-1a |
| `Journal.IsStorage` | src/servers/fs/ext2/journal.c:54-62 | The search loop finds a sector if and only if its block belongs to the journal file |
| `Journal.BuildDescriptors` | src/servers/fs/ext2/journal.c:127-146 | The loop that fills the descriptor table produces the table whose entries read back as the records |
| `Journal.CheckHeader` | src/servers/fs/ext2/journal.c:108-114 | The header test accepts exactly the sectors with the magic, the version, the checksum over the sector with its checksum field zero, a known state and at most as many records as the table has |
| `Journal.Journal.Begin` | src/servers/fs/ext2/journal.c:265-275 | Begins only when the journal is ready, idle and not faulted; the view of metadata is then that of the disk |
| `Journal.Journal.Abort` | src/servers/fs/ext2/journal.c:277-286 | Ends the transaction with the superblock as it was at begin, the records dropped and the disk untouched |
| `Journal.Journal.MetadataRead` | src/servers/fs/ext2/journal.c:332-351 | A read returns the sectors of the view: the disk overlaid with the records of the open transaction; it fails if and only if the device reports an error |
| `Journal.Journal.MetadataWriteSector` | src/servers/fs/ext2/journal.c:353-381 | A write of one sector updates the view at that sector alone and adds it to the sectors of the table; it is refused exactly for journal sectors and when the table is full of other sectors |
| `Journal.Journal.MetadataWrite` | src/servers/fs/ext2/journal.c:353-381 | Outside a transaction the device is written; inside one the disk is untouched and the view changes by the sectors written before the first refusal |
| `Journal.Journal.Prepare` | src/servers/fs/ext2/journal.c:127-171 | Drives the device through the first phase in the order of the protocol, stopping at an error |
| `Journal.Journal.Decide` | src/servers/fs/ext2/journal.c:302-306 | Writes and flushes the COMMITTED header, stopping at an error |
| `Journal.Journal.Install` | src/servers/fs/ext2/journal.c:307-317 | Writes every record home, flushes and clears the header, stopping at an error |
| `Journal.Journal.Commit` | src/servers/fs/ext2/journal.c:288-322 | A commit that succeeds leaves at home exactly the view of the transaction; an error aborts it up to the first flush and faults the journal after it; it fails if and only if the device reports an error |
| `Journal.Journal.ReplayJournal` | src/servers/fs/ext2/journal.c:173-229 | Without a device error, an image that holds a prepared transaction ends with a clear header, every other sector as it was and success; one that holds a committed transaction ends with each record at its home sector, every other home sector as it was, a clear header and success. With errors, replay stopped at an operation of the protocol. However it ends, only what the checksums vouch for was written home |
| `Journal.PreparedIsCleared` | src/servers/fs/ext2/journal.c:205-207 | Replay of an image with a prepared transaction, without device errors, clears the header and changes nothing else |
| `Journal.CommittedIsInstalled` | src/servers/fs/ext2/journal.c:208-229 | Replay of an image with a committed transaction, without device errors, puts every record home, leaves all other home sectors and clears the header |
| `JournalIntegrity.ReplayedAllowed` | src/servers/fs/ext2/journal.c:173-229 | Whatever the device holds, and however replay ends, a sector outside the journal keeps its contents or gets the payload of a record under a committed header, with header, descriptors and payload each matching its checksum; so does every image a power cut then leaves |
| `JournalIntegrity.WrongByteIsRefused` | src/servers/fs/ext2/journal.c:208-229 | With one wrong byte in the payload of a record of a committed transaction, replay reports an error and installs no record from that one on |
| `Journal.Journal.ReplayRecords` | src/servers/fs/ext2/journal.c:196-229 | The record loop writes the longest prefix of records that pass their checks, and refuses at the first that does not |
| `Journal.CommitInstallsView` | src/servers/fs/ext2/journal.c:288-322 | Running all operations of a commit makes the contents at home the view of its record table |
| `JournalRuns.ReplayedStaysRecoverable` | src/servers/fs/ext2/journal.c:173-229 | However the replay procedure ends, a power cut after it leaves a recoverable image |
| `JournalRuns.RefusedAgrees` | src/servers/fs/ext2/journal.c:173-229 | A replay that reports an error, after any of its operations, takes no acknowledged transaction back and decides none |
| `JournalSessions.RecordsMeanWrites` | src/servers/fs/ext2/journal.c:353-381 | The record table of a transaction stands for its writes, on the image of the ledger as on the disk |
| `JournalSessions.CommitEvent` | src/servers/fs/ext2/journal.c:288-322 | Whatever a commit returns, what it did to the device is an event of the ledger runs, faulted exactly when the error came after the first flush |
| `JournalSessions.WriteAll` | src/servers/fs/ext2/journal.c:353-381 | The writes of a transaction are all taken if and only if none goes to a journal sector and the different sectors fit the table |
| `JournalSessions.Update` | src/servers/fs/ext2/journal.c:265-381 | A transaction from begin to commit: acknowledged, the ledger has exactly its writes more; otherwise the ledger is as before, with at most those writes in doubt; without a device error it is acknowledged if and only if the journal was not faulted, no write goes to a journal sector and the sectors fit the table |
| `JournalSessions.Start` | src/servers/fs/ext2/journal.c:231-262 | Without a device error a start succeeds if and only if the image is one that replay accepts, and it does on every image whose journal is clear or holds a whole transaction |
| `JournalSessions.Restart` | src/servers/fs/ext2/journal.c:231-262 | After a power cut, a start that succeeds leaves the ledger with all of the transaction in doubt or none of it; one that fails leaves the ledger as it was; without a device error and with a sound image it succeeds |
| `JournalSessions.Session` | src/servers/fs/ext2/journal.c:173-381 | Every sequence of transactions and power cuts, with device errors anywhere, is a run of the server and of the ledger that agree |
| `Threads.LinkedOnce` | src/core/sched.c:44-151 | What the kernel invariant means: every ready thread is in exactly one place, the queue of its priority or the inbox; every blocked sender is in exactly the send queue of its live partner with its message intact; no list has a thread twice; the priority bits tell which queues have members; a thread runs on at most one CPU |
| `Threads.CoreWake` | src/core/sched.c:90-125 | Waking a thread that is linked nowhere keeps the invariant |
| `Threads.CoreSwitch` | src/core/sched.c:142-151 | A CPU that takes up a free thread keeps the invariant |
| `Threads.CorePost` | src/core/ipc.c:165-173 | Queueing a sender keeps the invariant |
| `Threads.CoreTake` | src/core/ipc.c:175-193 | Taking a sender off its queue keeps the invariant for all but that sender |
| `Threads.DetachStart` | src/core/sched.c:173-184 | A thread that dies leaves its senders detached and everything else in order |
| `Threads.CoreReap` | src/core/sched.c:572-574 | Freeing the slot of a zombie keeps the invariant |
| `Scheduling.HighestRuns` | src/core/sched.c:256-283 | After a reschedule no ready thread has a higher priority than the one that runs |
| `Scheduling.TakesTurns` | src/core/sched.c:256-283 | Threads of one priority take turns: the one that waits longest runs, nobody overtakes those that waited before, and the thread that ran goes behind all of them |
| `Scheduling.CorePicked` | src/core/sched.c:74-88 | The thread popped is ready, and running it keeps the invariant |
| `Scheduling.AllReady` | src/core/sched.c:127-136 | With the inbox drained the ready queues hold exactly the ready threads |
| `Scheduling.SwitchTimely` | src/core/sched.c:256-283 | A context switch keeps the next deadline a bound on every sleeper and timer |
| `Kernel.Kernel.constructor` | src/core/sched.c:409-415 | The empty thread table satisfies the invariant |
| `Kernel.Kernel.RqPush` | src/core/sched.c:44-57 | A thread not queued yet goes to the end of the queue of its priority; one that is queued changes nothing |
| `Kernel.Kernel.RqUnlinkHead` | src/core/sched.c:59-72 | The head of a queue is unlinked and the rest keeps its order |
| `Kernel.Kernel.RqPopHighest` | src/core/sched.c:74-88 | Returns the first ready thread of the highest priority that has one and drops the stale entries in front of it |
| `Kernel.Kernel.Wake` | src/core/sched.c:90-125 | A blocked thread becomes ready at the front of the inbox; one that is dead, running or queued is left alone; this CPU is asked to reschedule if and only if the thread is woken and has a higher priority than what it runs, 0 when it idles |
| `Wakeups.NeedWoken` | src/core/sched.c:107-109 | Over any number of threads woken, a CPU is asked to reschedule exactly when one of them outranks what it runs: one more thread keeps that |
| `Wakeups.NeedJoined` | src/core/sched.c:107-109 | The same over two steps of a kernel entry, one after the other |
| `Kernel.Kernel.DrainInbox` | src/core/sched.c:127-136 | Every woken thread joins the end of the queue of its priority, in inbox order, unless it stopped being ready |
| `Kernel.Kernel.Schedule` | src/core/sched.c:256-283 | The CPU runs the first of the highest-priority threads that line up; threads of one priority take turns; a used-up time slice is renewed for the one that runs |
| `Kernel.Kernel.Block` | src/core/sched.c:152-154 | The running thread takes up the state it blocks in |
| `Kernel.Kernel.ReadyNow` | src/core/sched.c:138-140 | The running thread goes to the end of its ready queue |
| `Kernel.Kernel.DirectSwitch` | src/core/sched.c:142-151 | The CPU goes on with a blocked thread without touching the queues |
| `Kernel.Kernel.Resume` | src/core/sched.c:294-317 | A CPU that was asked to reschedule, or whose thread stopped, picks the highest-priority ready thread, in turn, and sets its timer for it; otherwise nothing changes |
| `Kernel.Kernel.Create` | src/core/sched.c:419-437 | A new thread takes the first dead slot, every field of it cleared or as asked for, and is the last of its ready queue |
| `Kernel.Kernel.Terminate` | src/core/sched.c:173-228 | The running thread ends: its queued senders and the threads that receive from it are woken with an error, its children are orphaned, nothing else changes |
| `Kernel.Kernel.Exit` | src/core/spawn.c:11-29 | A parent that waits for this child is ready, with the child and its status in its registers, and the child is gone; for another live parent the thread stays a zombie; senders, receivers and children are seen to as by Terminate, and the CPU reschedules |
| `Messages.ExitedBequeaths` | src/core/spawn.c:11-29 | What an exit makes of the thread table gives the status to exactly the parent that waits for it |
| `Kernel.Kernel.Reap` | src/core/sched.c:572-574 | The slot of a zombie becomes free and nothing else changes |
| `Kernel.Kernel.BlockOther` | src/core/sched.c:152-154 | Blocking outside of IPC changes the state of the running thread alone |
| `Kernel.Kernel.Yield` | src/core/sched.c:238-240 | Asks for a reschedule and changes nothing else |
| `Messages.FirstIs` | src/core/ipc.c:175-193 | The first sender that a filter admits is the one every earlier sender of which is not admitted |
| `Messages.ReceivedTook` | src/core/ipc.c:202-226 | A receive puts the words of the first admitted sender into the registers of the receiver, tells it from whom, changes no other registers but the result of the sender, and takes just that sender off the queue; with none it takes what is on offer or waits |
| `Messages.SentDirectReaches` | src/core/ipc.c:1182-1219 | A send to a thread that waits for it leaves the words of the sender in its registers; who runs after it follows from the receive asked for and the priorities |
| `Messages.CalledTo` | src/core/ipc.c:1168-1269 | The same for the whole call: a receive, a send to nobody, to a waiting thread, to one that is not waiting, and the answer to a fault |
| `Kernel.Kernel.SendqAppend` | src/core/ipc.c:165-173 | A sender joins the end of the queue of its receiver |
| `Kernel.Kernel.SendqUnlink` | src/core/ipc.c:175-193 | One sender is unlinked and the order of the others stays |
| `Kernel.Kernel.SendqTake` | src/core/ipc.c:175-193 | Takes the earliest sender that the filter admits, or none when none is admitted |
| `Kernel.Kernel.CompleteParked` | src/core/ipc.c:202-226 | The receiver has the words that the sender posted, its number and no error; no other registers change but the result of the sender, which goes on to its own receive or is woken; the CPU is asked to reschedule exactly if it was woken and outranks the receiver |
| `Kernel.Kernel.Receive` | src/core/ipc.c:1230-1269 | The receiver gets the words that the earliest admitted sender posted, with its number and no error; with no such sender it takes what is on offer, reports that it would block, or blocks; no other registers change but the result of the sender |
| `Kernel.Kernel.SendDirect` | src/core/ipc.c:1182-1219 | The waiting receiver has the words of the sender, its number and no error in its registers; the sender then receives, hands over its CPU and time slice or goes on, by the priorities |
| `Kernel.Kernel.PostMessage` | src/core/ipc.c:1220-1229 | The words of a sender whose partner does not wait are kept in its buffer, it is the last of the send queue, and it blocks |
| `Kernel.Kernel.Ipc` | src/core/ipc.c:1168-1269 | The whole send-and-receive call: who gets which words, with errors, page-fault resolution, direct delivery, queueing and the receive that follows; the time slice goes along with the CPU, and the CPU is asked to reschedule exactly for a woken thread that outranks it |
| `Kernel.Kernel.Sleep` | src/core/sched.c:244-255 | The thread sleeps until the 64-bit sum of now and the ticks, and the next deadline is no later; no ticks is a yield |
| `Kernel.Kernel.NotifDeliver` | src/core/captable.c:66-79 | Bits are added to a notification; a waiter gets the whole word and is woken, and the word is cleared; the CPU is asked to reschedule exactly if the waiter outranks what it runs |
| `Kernel.Kernel.NotifSignal` | src/core/captable.c:213-220 | Without a waiter the word has the old bits and the new; a waiter has them in its first register, the others unchanged, and is ready, and the word is zero; no other notification and no other registers change |
| `Kernel.Kernel.NotifWait` | src/core/captable.c:221-234 | Pending bits are in the first register of the thread, the others unchanged, and the word is zero; without any the thread is recorded as the waiter and blocks |
| `Kernel.Kernel.TimerArm` | src/core/captable.c:248-270 | The timer is armed at least one tick ahead, and the next deadline is no later |
| `Kernel.Kernel.TimerDisarm` | src/core/captable.c:271-278 | Only that timer is switched off |
| `Kernel.Kernel.WakeSleepers` | src/core/sched.c:340-352 | Exactly the sleepers that are due are woken, and the CPU is asked to reschedule exactly if one of them outranks what it runs |
| `Kernel.Kernel.RescanTimers` | src/core/captable.c:279-302 | Every due timer signals its notification once, so that its bits are pending or in the registers of the waiter, and is switched off or set to the deadline its loop lands on, for all timers whose loop ends; the CPU is asked to reschedule exactly for a woken thread that outranks it |
| `Periods.LeastAfterIs` | src/core/captable.c:279-302 | The next deadline of a periodic timer is in step with its period and no deadline in step lies between it and now |
| `Periods.LeastAfterClosed` | src/core/captable.c:288-293 | The next deadline in step is the deadline plus one period more than lie between it and now |
| `Periods.LandsInStep` | src/core/captable.c:288-293 | Where the wrapped additions first pass now is the next deadline in step if and only if that fits 64 bits |
| `Periods.EndsExactly` | src/core/captable.c:288-293 | The loop ends if and only if some number of wrapped additions passes now, which the largest residue in step with the lowest bit of the period tells beforehand |
| `Periods.LongestPeriod` | src/core/captable.c:248-302 | With period 2^64-1, due at tick 11, the additions count down and land on tick 2^64-1, while the deadline in step is 2^64+10 |
| `Periods.GoesRound` | src/core/captable.c:288-293 | With period 2^63 a timer due in the first half of all ticks never passes a tick of the second half that is late enough: the loop does not end |
| `Periods.CatchUp` | src/core/captable.c:279-302 | Whenever it ends, the wrapped catch-up loop lands past now within 64 bits; on the next deadline in step if and only if deadline plus the periods missed fits 64 bits |
| `Timekeeping.RescannedInStep` | src/core/captable.c:279-302 | A periodic timer that went off has a deadline after now; it is the next one in step if and only if that fits 64 bits |
| `Timekeeping.LongestTimer` | src/core/captable.c:248-302 | An armed timer with period 2^64-1 due at tick 11 is next due at tick 2^64-1, out of step |
| `Timekeeping.RescanEndsExactly` | src/core/captable.c:279-302 | A rescan ends unless some periodic timer that is due gets a deadline after now by no number of wrapped additions |
| `Timekeeping.SignalsKept` | src/core/captable.c:279-302 | The bits of every due timer are in the word that all due timers of its notification make up |
| `Messages.TimerBitsKept` | src/core/captable.c:279-302 | After a rescan the bits of every timer that was due are pending in its notification, or in the first register of the thread that waited for it |
| `Timekeeping.HangsExactly` | src/core/sched.c:329-361 | A tick gets to the rescan and does not end if and only if the next deadline is reached and the catch-up loop of a due timer never passes now |
| `Timekeeping.TimelyAhead` | src/core/sched.c:329-362 | While now is short of the next deadline nothing is overdue |
| `Kernel.Kernel.Tick` | src/core/sched.c:329-361 | After the tick of the first CPU no sleeper and no armed timer is overdue, exactly the due ones were seen to, and no bits of a due timer are lost, whenever the catch-up loops end; other CPUs change neither the clock nor a state; the time slice shrinks by the ticks passed, a reschedule is asked for exactly when it is used up or a woken thread outranks what runs, and the timer is set again |
| `Kernel.Kernel.Arm` | src/core/sched.c:366-391 | The timer of a CPU goes off within bounds, no later than the slice of its thread ends and, on the first CPU, no later than the next deadline, and no sooner than one of these asks for |
| `Kernel.Kernel.Step` | src/core/sched.c:294-317 | One stay of a CPU in the kernel keeps the invariant: the entry does what it is for, then the CPU reschedules if it is to; no thread that was woken outranks the one the CPU then runs, and the CPU is not idle if that thread has a priority above 0; the stay hangs if and only if it is a tick of the first CPU that reaches the rescan with a due timer whose catch-up loop never passes now |
| `Kernel.Kernel.IdleStaysIdle` | src/core/sched.c:107-109 | On an idle CPU a thread of priority 0 that is woken becomes ready and the CPU stays idle, since an idle CPU counts as running a thread of priority 0 |
| `Wakeups.RanksAfter` | src/core/sched.c:294-317 | A CPU that gives way as asked runs a thread that no woken thread outranks |
| `Kernel.Kernel.Run` | src/core/sched.c:44-392 | Every run of kernel entries, on any CPUs and in any order: each entry does what it is for and leaves as it should, and the invariant holds at each release of the kernel lock, up to an entry that hangs in that way, if there is one |
| `Tree.ReachesRoot` | src/servers/fs/ext2/vfs.c:852-868 | In a sound tree the chain of parent entries of every directory reaches the root |
| `Tree.UpIsAbove` | src/servers/fs/ext2/vfs.c:852-868 | Whoever a chain of parent entries reaches is above |
| `Tree.AboveIsUp` | src/servers/fs/ext2/vfs.c:852-868 | Whoever is above is reached by a chain of parent entries |
| `Tree.AddDirOk` | src/servers/fs/ext2/vfs.c:690-758 | A new directory under a new name keeps the tree |
| `Tree.DropDirOk` | src/servers/fs/ext2/vfs.c:816-850 | Removing an empty directory keeps the tree, and its name was in the directory its parent entry names |
| `Tree.MoveDirOk` | src/servers/fs/ext2/vfs.c:971-1140 | Moving a directory to a place that is not below it keeps the tree |
| `Tree.OnlyName` | src/servers/fs/ext2/vfs.c:816-850 | A directory has exactly one name, in the directory of its parent entry |
| `Directories.IsAncestor` | src/servers/fs/ext2/vfs.c:852-868 | The walk up ends and answers exactly whether some chain of parent entries leads from the one to the other |
| `Directories.DepthBound` | src/servers/fs/ext2/vfs.c:852-868 | No directory lies deeper than there are inodes, so that the bound on the walk is never what ends it |
| `Directories.DetachExisting` | src/servers/fs/ext2/vfs.c:816-850 | An existing name is taken away with its links and counts; it fails exactly when a count has nothing left to take |
| `Directories.UnlinkedOk` | src/servers/fs/ext2/vfs.c:870-914 | Dropping a name of a file keeps the tree and the counts |
| `Directories.RemovedCounts` | src/servers/fs/ext2/vfs.c:816-850 | With right counts, removing an empty directory never fails and leaves right counts |
| `Directories.MadeCounts` | src/servers/fs/ext2/vfs.c:690-758 | After making a directory the counts are right if and only if the link count of the parent was not at 65535 |
| `Directories.GroupBound` | src/servers/fs/ext2/vfs.c:291-303 | A group has at most as many directories as inodes, so that its count of directories never reaches 16 bits |
| `Directories.LimitIsReached` | src/servers/fs/ext2/vfs.c:275-289 | There is a sound file system with right counts and 65535 links at the root, and the next directory made there leaves a wrong count |
| `Directories.MovedCounts` | src/servers/fs/ext2/vfs.c:971-1140 | A move keeps the counts right |
| `Directories.MoveStops` | src/servers/fs/ext2/vfs.c:971-1140 | With right counts, a move stops on the counts if and only if a directory goes to another parent whose link count, with what was in the way cleared, is full |
| `Directories.BelowLimit` | src/servers/fs/ext2/vfs.c:690-758 | On a file system of fewer than 65533 inodes no directory has a full link count |
| `Directories.Server.Mkdir` | src/servers/fs/ext2/vfs.c:690-758 | Making a directory adds just its name, its parent entry, two links, one link of the parent and one in its group; it fails exactly when the name is there, or no inode or block, and then changes nothing |
| `Directories.Server.Rmdir` | src/servers/fs/ext2/vfs.c:916-969 | Removes just the name, the parent entry and the links of an empty directory, a link of its parent and one in its group, and keeps the counts; each error has its exact cause and changes nothing |
| `Directories.Server.Unlink` | src/servers/fs/ext2/vfs.c:870-914 | Removes just that name of a file and one of its links, and frees the inode exactly without links and handles; each error has its exact cause and changes nothing |
| `Directories.Server.Rename` | src/servers/fs/ext2/vfs.c:971-1140 | With two different inodes the names are the old ones without the old name and with the new name for the same inode, for files and directories alike; the parent entry of a directory is the new parent and every other surviving one is unchanged; every link and group count follows; with right counts it succeeds if and only if the names are valid and stand for one inode, or the move is allowed, there is a block and the new parent has no full link count; an error changes nothing |
| `Directories.RenamedFields` | src/servers/fs/ext2/vfs.c:1107-1140 | Clearing the way and moving the name comes to exactly that change of names, parent entries and counts |
| `Directories.Server.Close` | src/servers/fs/ext2/vfs.c:247-273 | The last close frees exactly an inode outside the tree that has no links; nothing else changes |
| `Directories.Server.Serve` | src/servers/fs/ext2/vfs.c:690-1140 | Any one request does what it is for and keeps a tree; with right counts before, they are right after if and only if it was not a mkdir in a directory with 65535 links |
| `Directories.Server.Run` | src/servers/fs/ext2/vfs.c:690-1140 | Every sequence of requests, each doing what it is for, keeps a tree, and right counts unless some mkdir in it met a parent with 65535 links |
| `Bitmaps.MaskBits` | src/servers/fs/ext2/disk.c:120-202 | Setting or clearing a bit of a byte by its mask changes that bit alone, and clearing undoes setting |
| `Bitmaps.ClearNone` | src/servers/fs/ext2/disk.c:120-169 | The count of clear bits is zero if and only if every bit is set |
| `Allocator.TakenOk` | src/servers/fs/ext2/disk.c:120-169 | Taking a free item keeps every count equal to the clear bits |
| `Allocator.ReturnedOk` | src/servers/fs/ext2/disk.c:171-202 | Giving an item back keeps the counts right if and only if it was taken |
| `Allocator.ReturnUndoesTake` | src/servers/fs/ext2/disk.c:120-202 | Taking an item and giving it back restores bitmap and counts to the bit |
| `Allocator.Allocator.FindClear` | src/servers/fs/ext2/disk.c:120-169 | Finds the first clear bit of a group from a bit on, or shows that every bit from there on is set |
| `Allocator.Allocator.TryGroup` | src/servers/fs/ext2/disk.c:120-169 | Takes a free item of the cursor's group from the cursor on: its bit is set, no other bit changes, and the two counts are one less; or shows that a group searched from its start has none |
| `Allocator.Allocator.Alloc` | src/servers/fs/ext2/disk.c:120-169 | Takes one free item: its bit is set, no other changes, and the two counts are one less; despite the cursor it fails only when no group has one |
| `Allocator.Allocator.FreeBlock` | src/servers/fs/ext2/disk.c:171-202 | The bit of the block is clear, no other changes, and the two counts are one more; the bitmap is not looked at, and the counts stay right exactly when the block was in use |
| `Allocator.Allocator.FreeInode` | src/servers/fs/ext2/disk.c:249-282 | Gives an inode back if and only if it is in range and in use: its bit is clear, no other changes, the counts are one more and stay right |
| `BlockMap.WalkInode` | src/servers/fs/ext2/disk.c:284-342 | The walk collects the first blocks of the file in order, as many as are asked for or there are, and stays inside its buffer of 4096 entries if and only if those are at most 4096 |
| `BlockMap.HeldDirect` | src/servers/fs/ext2/disk.c:344-348 | A block put at a place of the direct pointers is at that place of the list, behind the others or instead of one, all others staying in place |
| `BlockMap.HeldIndirect` | src/servers/fs/ext2/disk.c:349-372 | The same through the indirect block |
| `BlockMap.HeldRow` | src/servers/fs/ext2/disk.c:374-423 | The same through the double indirect block |
| `BlockMap.NewIndirect` | src/servers/fs/ext2/disk.c:353-365 | An empty indirect block changes no block of the file |
| `BlockMap.NewDouble` | src/servers/fs/ext2/disk.c:382-394 | An empty double indirect block changes no block of the file |
| `BlockMap.NewRow` | src/servers/fs/ext2/disk.c:400-416 | An empty table behind the double indirect block changes no block of the file |
| `BlockMap.RowOf` | src/servers/fs/ext2/disk.c:374-379 | Quotient and remainder of the place lead to the table entry of that block, and the map is full exactly when the quotient is out of range |
| `BlockMap.File.AppendBlock` | src/servers/fs/ext2/disk.c:344-423 | Writing a block at the place counted, up to the end of the file, makes its list the old one with the new block there; it fails exactly when the map is full or an indirect block cannot be had, and then the list is unchanged; no indirect block of another file changes |
| `BlockMap.File.Grow` | src/servers/fs/ext2/vfs.c:349-373 | A write takes one block more exactly while the file has fewer than 4096 and the allocator has what it needs, so that no file the server grew overruns a buffer |
| `BlockMap.EveryListIsHeld` | src/servers/fs/ext2/disk.c:284-342 | Every list of blocks that three levels have room for is held by some inode, with no indirect block too many |
| `BlockMap.OtherFilesKept` | src/servers/fs/ext2/disk.c:344-423 | Another file, with indirect blocks of its own, keeps its blocks |
| `BlockMap.SectorsExact` | src/servers/fs/ext2/disk.c:425-443 | The sector count is exact: one block's worth for each data block, each indirect block and the attribute block |
| `BlockMap.FreeInodeBlocks` | src/servers/fs/ext2/disk.c:445-480 | Frees exactly the blocks counted from the size and every indirect block of the file; it overruns its buffer if and only if more than 4096 blocks are counted and there; every block of the file is freed if and only if the size reaches into the last data block, its rounding does not wrap 32 bits, and the file has at most 4096 blocks |
| `BlockMap.NeedCovers` | src/servers/fs/ext2/disk.c:445-447 | The block count from the size covers n blocks if and only if the size reaches into the last of them and rounding up does not wrap 32 bits |
| `BlockMap.FreedBlocks` | src/servers/fs/ext2/disk.c:445-480 | When the first k blocks are counted, a data block is freed if and only if it is one of them |
| `BlockMap.LongFileOverruns` | src/servers/fs/ext2/disk.c:445-452 | A file of 4097 blocks of 1024 bytes with its right size is covered, and its walk overruns the buffer |
| `BlockMap.BlockIsNotFreed` | src/servers/fs/ext2/disk.c:445-452 | A file of one block whose size is 0, as a power cut between appending it and storing the size leaves it, or 2^32-1, which wraps: its block is not freed |
| `BlockMap.ReopenedAppend` | src/servers/fs/ext2/vfs.c:149-158 | A file that is opened counts its blocks from its size, and the next block appended takes the place of one it has if and only if the size does not cover them |
| `BlockMap.OwnedOnce` | src/servers/fs/ext2/disk.c:445-480 | No block of a file is freed twice |
| `DirectoryBlocks.Matches` | src/servers/fs/ext2/path.c:32-40 | A record matches a name if and only if it is in use and its name bytes are that name |
| `DirectoryBlocks.Around` | src/servers/fs/ext2/path.c:219-354 | Bytes changed within a stretch of records change the bindings of that stretch alone |
| `DirectoryBlocks.SplitView` | src/servers/fs/ext2/path.c:249-259 | A record cut down to its name and a new one in the rest tile its space and hold the old binding and the new |
| `DirectoryBlocks.Merged` | src/servers/fs/ext2/path.c:336-340 | A record that takes over the one behind it tiles both and holds its own binding |
| `DirectoryBlocks.ScanStep` | src/servers/fs/ext2/path.c:25-52 | The first record that matches is the first binding of the name |
| `DirectoryBlocks.PutBinding` | src/servers/fs/ext2/path.c:253-267 | Filling in a record stores exactly the binding and touches no byte outside it |
| `DirectoryBlocks.InsertInBlock` | src/servers/fs/ext2/path.c:239-271 | Puts the binding into the first record with room, as one binding more; it fails exactly when no record of the block has room |
| `DirectoryBlocks.RemoveFromBlock` | src/servers/fs/ext2/path.c:321-351 | Removes exactly the first binding of the name, by merging its record or marking it unused, and the records still tile the block |
| `DirectoryBlocks.FindInBlock` | src/servers/fs/ext2/path.c:24-53 | Finds the first binding of a name if and only if there is one |
| `DirectoryNames.PutReads` | src/servers/fs/ext2/path.c:219-301 | Wherever it is put, a binding of a new name adds just that name to the table |
| `DirectoryNames.CutReads` | src/servers/fs/ext2/path.c:303-354 | Dropping a binding removes just its name from the table |
| `DirectoryNames.FreshBlock` | src/servers/fs/ext2/path.c:280-290 | A new block has one record that takes all of it and holds the binding |
| `DirectoryNames.Directory.FindInDir` | src/servers/fs/ext2/path.c:6-55 | Looking a name up returns what the name table has for it |
| `DirectoryNames.Directory.InsertDirent` | src/servers/fs/ext2/path.c:219-301 | A new name is added to the table and no other changes; a block is added exactly when no record has room, and it fails exactly when that is not possible |
| `DirectoryNames.Directory.RemoveDirent` | src/servers/fs/ext2/path.c:303-354 | The name is gone from the table, all others stay, and its inode is returned |
| `DirectoryNames.Directory.IsEmpty` | src/servers/fs/ext2/path.c:356-391 | A directory is empty if and only if its names are among "." and ".." |
| `DirectoryBlocks.RenumberInBlock` | src/servers/fs/ext2/path.c:416-431 | Rewriting the inode of the first record with a name changes just that binding of the block |
| `DirectoryNames.RenumberReads` | src/servers/fs/ext2/path.c:399-434 | Renumbering a binding changes what its name stands for and no other name |
| `DirectoryNames.Directory.SetParent` | src/servers/fs/ext2/path.c:399-434 | Makes ".." stand for the new parent with every other name as before; it fails exactly when there is no ".." |
| `Attributes.ValuesApart` | src/servers/fs/ext2/xattr.c:167-184 | In any layout that is accepted, values overlap neither each other, nor the table, nor its terminator |
| `Attributes.ReadEntries` | src/servers/fs/ext2/xattr.c:95-152 | The read loop returns the entries of a block, or the error its format calls for |
| `Attributes.EncodedReads` | src/servers/fs/ext2/xattr.c:95-209 | A block that holds entries is read back as exactly those entries, in order |
| `Attributes.PutKeeps` | src/servers/fs/ext2/xattr.c:193-207 | Writing an entry leaves the earlier ones as they were stored |
| `Attributes.BuildBlock` | src/servers/fs/ext2/xattr.c:154-209 | Building succeeds if and only if the entries are acceptable and fit, and the block then reads back as the same entries |
| `FatTime.YearRoundTrip` | src/servers/fs/fat16/disk.c:200-205 | The year computed from a day of an era is the year of that day, for all 400 years and leap days |
| `FatTime.CivilRoundTrip` | src/servers/fs/fat16/disk.c:191-211 | From a date to days and back is the same date, for valid dates of 32-bit years, if and only if the year, counted from March, is at least 399 above the least one, or one of two years below by luck |
| `FatTime.DaysRoundTrip` | src/servers/fs/fat16/disk.c:191-211 | From days to a date and back is the same count if and only if the year, counted from March, leaves that room in 32 bits, or is one year above by luck; the date is valid when its year fits |
| `FatTime.CountThenDate` | src/servers/fs/fat16/disk.c:191-211 | In unbounded arithmetic the count of every valid date gives that date back |
| `FatTime.DateThenCount` | src/servers/fs/fat16/disk.c:191-211 | In unbounded arithmetic the date of every count is valid and gives that count back |
| `FatTime.CivilCut` | src/servers/fs/fat16/disk.c:200-211 | The computed date is the true one with its year cut to 32 bits, and the true one if and only if the year fits |
| `FatTime.CountFits` | src/servers/fs/fat16/disk.c:191-198 | The computed count is the true one if and only if the year, counted from March, is at least 399 above the least 32-bit value |
| `FatTime.WrappedCount` | src/servers/fs/fat16/disk.c:191-198 | Below that the computed count is that of the year 2^32 later, but for two years one day short of it |
| `FatTime.LowDateIsLost` | src/servers/fs/fat16/disk.c:191-211 | The first of March of the least 32-bit year comes back as the day before |
| `FatTime.CountsDays` | src/servers/fs/fat16/disk.c:191-198 | The count is that of the Gregorian calendar: the first of January 1970 is 0 and the next date has the next count |
| `FatTime.YearFrom` | src/servers/fs/fat16/disk.c:200-211 | The true year of a count is at least y from the first day of y on, and only then |
| `FatTime.StoredTimeReadsBack` | src/servers/fs/fat16/disk.c:213-248 | A time that is stored reads back rounded down to an even second and clamped to 1980 to 2107 if and only if its year cut to 32 bits lies on the same side of those years as the true one, or the clamped date happens to be the one stored |
| `FatTime.FittingTimesAreKept` | src/servers/fs/fat16/disk.c:213-248 | The year of a time fits 32 bits if and only if the time lies between two given bounds, and every such time reads back as it should |
| `FatTime.FarTimeIsLost` | src/servers/fs/fat16/disk.c:213-248 | The time 135536077753372800, in the year 4294969296, is stored as a date of the year 2000 and not as the last of 2107 |
| `ExecRequests.NobodyStranded` | src/core/execreq.c:28-145 | Two waiting threads have different slots, and nobody waits once the server is gone |
| `ExecRequests.CompletedSound` | src/core/execreq.c:164-247 | A reply, of any slot and generation, keeps the invariant that a waiting thread has a live slot that names it and that it names |
| `ExecRequests.CompletedTells` | src/core/execreq.c:170-247 | A reply to a waiting requester tells it exactly what happened: a child number if and only if the threads grew by that child, a replaced image only of an exec with no thread added, not found if and only if the server reported an error or the image was not copied, no memory otherwise; no other thread and no other slot changes |
| `ExecRequests.StaleMatches` | src/core/execreq.c:164-168 | An old reply matches a slot exactly when the slot was freed a multiple of 65536 times since |
| `ExecRequests.ReplyReachesItsRequest` | src/core/execreq.c:164-247 | Short of a wrap of the generation, a reply changes nothing once its slot was freed, and wakes no thread but the one that made that request and still waits for it |
| `ExecRequests.OldReplyAfterWrap` | src/core/execreq.c:37-40 | After exactly 65536 frees an old reply is taken for the new request |
| `ExecRequests.DroppedSound` | src/core/execreq.c:249-255 | Freeing the requests of a thread that no longer waits keeps the invariant |
| `ExecRequests.FailedSound` | src/core/execreq.c:257-269 | Failing all requests frees every slot and leaves no thread waiting |
| `ExecRequests.FailedAt` | src/core/execreq.c:257-269 | Each thread that waits on a slot below k is told that its program was not found, each such slot in use is free with the next generation, and nothing else changes |
| `ExecRequests.Requests.AllocSlot` | src/core/execreq.c:28-35 | The first free slot, or none |
| `ExecRequests.Requests.SubmitRequest` | src/core/execreq.c:60-107 | A request takes the first free slot, queued or delivered, with its requester and kind; a thread that asks then waits on it; it fails exactly when the server is gone or no slot is free, and nothing else changes |
| `ExecRequests.Requests.PollReady` | src/core/execreq.c:109-115 | Tells a finished polled request from one under way and from one that is not there |
| `ExecRequests.Requests.FinishPollSpawn` | src/core/execreq.c:117-125 | Takes the child of a finished polled request and frees its slot, for the next generation; otherwise nothing changes |
| `ExecRequests.Requests.TryDeliverQueued` | src/core/execreq.c:127-145 | Delivers the first queued request with its current generation |
| `ExecRequests.Requests.CompleteRequest` | src/core/execreq.c:164-247 | A reply that matches no delivered request changes nothing. A waiting requester learns a child number if and only if the threads grew by exactly that child, that its image was replaced only if it asked for no child and no thread was added, not found if and only if the status is an error or the image was not copied, and no memory otherwise; a polled request keeps the child; no other thread and no other slot changes |
| `ExecRequests.Requests.CancelRequester` | src/core/execreq.c:249-255 | Frees exactly the slots in use that name the thread, for their next generation; threads stay |
| `ExecRequests.Requests.FailAll` | src/core/execreq.c:257-269 | Frees every slot and tells exactly the threads that wait that their program was not found |
| `ExecRequests.Requests.TerminateThread` | src/core/sched.c:173-218 | A thread that ends is named by no slot; when it was the server every thread that waits is told that its program was not found; no other thread and no other slot changes |
| `ExecRequests.Requests.Run` | src/core/execreq.c:60-269 | Every run of requests, deliveries, replies, signals, thread starts and ends: each does what it is for, the invariant is kept, and no slot goes back to an earlier request |
| `Common.IdRoundTrip` | src/core/shm.c:39-47 | An identifier decodes to the slot and generation it was made of |
| `Common.SameGeneration` | src/core/shm.c:39-58 | Two counts of frees give the same generation if and only if they differ by a multiple of 65536 |
| `SharedMemory.PagesCover` | src/core/shm.c:92-95 | The pages of a segment cover its size if and only if rounding up does not wrap 64 bits, and are none if it does |
| `SharedMemory.FreedCounted` | src/core/shm.c:59-69 | Freeing a segment nothing is attached to gives its frames back once and keeps every count and every attachment |
| `SharedMemory.CreatedSound` | src/core/shm.c:122-137 | A new segment of fresh frames that cover its size keeps the invariant |
| `SharedMemory.AttachedSound` | src/core/shm.c:176-186 | An attachment behind all others of its address space keeps counts and disjointness |
| `SharedMemory.DetachedSound` | src/core/shm.c:188-210 | A detachment keeps the counts, and frees the segment exactly when it was removed and this was the last |
| `SharedMemory.RemovedSound` | src/core/shm.c:226-232 | Removal frees the segment at once or leaves it to the last detachment |
| `SharedMemory.Shm.FindSegment` | src/core/shm.c:48-58 | Finds the segment an identifier decodes to, if it is live |
| `SharedMemory.Shm.GetSegment` | src/core/shm.c:71-138 | Finds the live segment of a key, or makes one of fresh frames that cover the size if and only if the size is right and rounds up without a wrap, a slot is free, and the heap and the frame allocator have the memory; an error changes nothing |
| `SharedMemory.Shm.AttachSegment` | src/core/shm.c:140-186 | Attaches all of the segment at the end of what the address space has attached, one attachment more and nothing else changed; it fails exactly without a segment, a free entry or a mapping, and then changes nothing |
| `SharedMemory.Shm.DetachSegment` | src/core/shm.c:188-210 | Ends one attachment of that address, if there is one: a removed segment whose last it was is free and its frames are given back, another one counts one attachment less |
| `SharedMemory.Shm.RemoveSegment` | src/core/shm.c:226-232 | Removes the segment an identifier decodes to, if there is one: at once, frames given back, when nothing is attached, else it is marked |
| `SharedMemory.Shm.DetachAll` | src/core/shm.c:255-271 | Ends exactly the attachments of one address space; a segment changes only in how often it is attached, unless it was removed and its slot is free |
| `SharedMemory.Shm.Run` | src/core/shm.c:71-271 | Over every run, in which each event does what it is for: the attach count of each segment is the number of live attachments that decode to it, each live attachment has a live segment and all of its frames, the frames of each live segment cover its size, attachments of one space lie apart, and the frames out are exactly those of live segments, each in one place |
| `Rings.PushedContents` | src/core/pipe.c:95-99 | A byte put behind the last one extends the contents by that byte |
| `Rings.PulledContents` | src/core/pipe.c:58-66 | Moving the head on takes exactly the first bytes off the contents |
| `Rings.Fill` | src/core/pipe.c:91-99 | The write loop appends its bytes in order, also across the end of the ring |
| `Rings.Drain` | src/core/socket.c:237-242 | The read loop takes the first bytes off in order |
| `Pipes.Pipes.CreatePipe` | src/core/pipe.c:24-38 | Makes an empty pipe of the first free one, both ends held by the creator |
| `Pipes.Pipes.ReadPipe` | src/core/pipe.c:39-69 | Reads the next bytes in order; of a live pipe, nothing is found if and only if no writer is left and every byte written was read |
| `Pipes.Pipes.WritePipe` | src/core/pipe.c:70-102 | Appends as many bytes as fit, at most 32; it fails exactly for a dead handle or without readers |
| `Pipes.Pipes.ClosePipe` | src/core/pipe.c:103-123 | One end is let go of, and a pipe nobody holds gets a new generation |
| `Pipes.Pipes.AddPipeHolder` | src/core/pipe.c:124-141 | One more thread holds an end, and nothing else changes |
| `Pipes.Pipes.InheritFork` | src/core/pipe.c:142-154 | A child holds exactly what its parent holds, in addition |
| `Pipes.Pipes.InvalidateDeath` | src/core/pipe.c:155-167 | A thread that ends holds no end any more |
| `Pipes.Pipes.Run` | src/core/pipe.c:24-167 | In every run each event does what it is for, and for every pipe bytes read and bytes held are the bytes written since it was created, in order |
| `Sockets.PeersAreMutual` | src/core/socket.c:176-223 | For each connected socket: the recorded peer records it in turn if and only if that slot was not closed since; the peer is taken to be there if and only if its slot is in use and was closed a multiple of 65536 times since |
| `Sockets.RecentPeer` | src/core/socket.c:176-223 | A peer whose slot was closed fewer than 65536 times since, and is taken to be there, records this socket in turn and takes it to be there |
| `Sockets.AcceptedSound` | src/core/socket.c:208-222 | Connecting a waiting client to a new socket keeps what is recorded of every connection, and the end-of-stream marks true |
| `Sockets.ClosedSound` | src/core/socket.c:272-284 | Closing any socket keeps what is recorded of every connection |
| `Sockets.ClosedHonest` | src/core/socket.c:272-284 | Closing a socket misleads at most the one stranger whose slot came round to the generation of its peer and whose own peer is there; every other end-of-stream mark stands for a closed peer, and all do if and only if there is no such stranger or it was misled before |
| `Sockets.StrayAfterWrap` | src/core/socket.c:272-284 | A peer slot closed exactly 65536 times since, and connected again, is taken for the peer and told that its own peer closed, which is not true |
| `Sockets.WornOutStrays` | src/core/socket.c:272-284 | Such a table, written out with its rings: sound and with true marks, until the close |
| `Sockets.Sockets.CreateSocket` | src/core/socket.c:71-95 | Takes the first free slot and starts it afresh; the identifier names it |
| `Sockets.Sockets.BindSocket` | src/core/socket.c:97-119 | Binds an unbound socket of the caller to the first 31 bytes of a path that no socket has, and fails exactly otherwise |
| `Sockets.Sockets.ListenSocket` | src/core/socket.c:121-133 | An unbound socket of the caller with a path listens |
| `Sockets.Sockets.ConnectSocket` | src/core/socket.c:135-174 | Joins the backlog of the first listener on the path, behind all that wait there, and changes nothing else; no room, no listener and a wrong state are each reported exactly |
| `Sockets.Sockets.AcceptSocket` | src/core/socket.c:176-223 | The first client of the backlog that still tries and a new socket of the caller are each other's peer; the entries up to it are gone; it reports that it would block exactly when none tries; nothing else changes |
| `Sockets.Sockets.ReadSocket` | src/core/socket.c:225-245 | Reads the next bytes in order; the end of the stream is reported only once all bytes are read and the peer is marked closed, which it is unless a stranger told this very socket |
| `Sockets.Sockets.WriteSocket` | src/core/socket.c:247-270 | Appends as many bytes as fit to the ring of the recorded peer; it fails exactly when that is gone |
| `Sockets.Sockets.CloseSocket` | src/core/socket.c:272-284 | Closes a socket of the caller and tells just the recorded peer; a stranger that this misleads is noted, and the closed slot is clear of such a note |
| `Sockets.Sockets.Cleanup` | src/core/socket.c:286-299 | A thread that ends leaves no socket, and no other socket changes but for being told that its peer closed |
| `Sockets.Sockets.Run` | src/core/socket.c:71-299 | In every run each event does what it is for, bytes read and bytes held are the bytes sent, in order, what is recorded of every connection stays true, and so does the end-of-stream mark of every socket that no stranger told |
| `PageTables.PutEntry` | arch/x86_64/src/vm_arch.c:208-222 | Writing the entry of a page changes the entry of no other page, in any address space |
| `PageTables.HangEntry` | arch/x86_64/src/vm_arch.c:185-192 | A new empty table changes no entry of any page |
| `PageTables.PermitsLast` | arch/x86_64/src/vm_arch.c:185-222 | The processor permits an access to a page if and only if the last-level entry of the page allows it: no table entry restricts one |
| `PageTables.Mmu.GetNextLevel` | arch/x86_64/src/vm_arch.c:185-192 | Follows an entry or hangs a new empty table on it, with every other walk as before |
| `PageTables.Mmu.MapPage` | arch/x86_64/src/vm_arch.c:208-222 | The page is mapped to the frame, the processor permits exactly the accesses asked for, and every other page, in every address space, has the entry it had |
| `PageTables.Mmu.WalkToTable` | arch/x86_64/src/vm_arch.c:248-260 | Finds the last-level table of a page if and only if there is one |
| `PageTables.Mmu.UnmapPage` | arch/x86_64/src/vm_arch.c:261-274 | The page is not mapped and permits no access any more, what it was mapped to is returned, and no other entry changes |
| `PageTables.Mmu.Translate` | arch/x86_64/src/vm_arch.c:275-286 | Returns the frame a page is mapped to, 0 for none |
| `PageTables.Mmu.CreateAddressSpace` | arch/x86_64/src/vm_arch.c:34-60 | A new address space has an empty entry for every page and changes no other |
| `PageTables.Mmu.Run` | arch/x86_64/src/vm_arch.c:185-286 | Every sequence of maps and unmaps acts on translations as on a plain map from pages to frames |
| `UserMemory.XferPages` | src/core/vm.c:78-101 | Moves all pages or none: it succeeds exactly when every page was mapped, and then each frame has arrived; otherwise every translation is as before, each page in front of the first gap has its old frame with the protection asked for, and all other entries but that of the gap are as before |
| `UserMemory.FailedMoveRestores` | src/core/vm.c:78-101 | After a failed move all entries are as before if and only if every page in front of the first gap had the protection asked for and the gap had no entry |
| `UserMemory.ReadOnlyPageBecomesWritable` | src/core/vm.c:78-101 | A failed move of two pages, the first read-only and the second not mapped, leaves the first one writable |
| `UserMemory.CopyFromUser` | src/core/vm.c:133-155 | Copying page by page reads the same bytes as byte by byte, and succeeds exactly when every byte is mapped and the sum does not wrap |
| `UserMemory.CopyToUser` | src/core/vm.c:156-178 | Copying page by page writes the same bytes as byte by byte, up to the first page that is not mapped |
| `BootInfo.Appended` | bootloader/mbi_tags.c:29-90 | A tag written behind the others leaves those as they were |
| `BootInfo.AppendCmdline` | bootloader/mbi_tags.c:33-46 | The block has one tag more, the command line |
| `BootInfo.AppendModule` | bootloader/mbi_tags.c:48-64 | The block has one tag more, the module |
| `BootInfo.AppendMmap` | bootloader/mbi_tags.c:66-90 | The block has one tag more, with the regions of the BIOS map |
| `BootInfo.AppendOther` | bootloader/mbi_tags.c:92-138 | The block has one tag more, of another type |
| `BootInfo.Finalize` | bootloader/mbi_tags.c:140-148 | The finished block holds exactly the tags appended, behind a total size and a zero word |
| `BootInfo.ReadCmdline` | arch/x86_64/src/pvh_mem.c:125-137 | Reads the text of the first command line tag |
| `BootInfo.ModuleCount` | arch/x86_64/src/pvh_mem.c:207-225 | Counts exactly the module tags |
| `BootInfo.ModuleRange` | arch/x86_64/src/pvh_mem.c:227-251 | Returns the range of the i-th module, if there is one |
| `BootInfo.ModuleByName` | arch/x86_64/src/pvh_mem.c:183-205 | Returns the range of the first module with the name, if there is one |
| `BootInfo.LargestRegion` | arch/x86_64/src/pvh_mem.c:323-347 | Returns the first of the largest usable regions of a map, if any is usable |
| `BootInfo.DetectMemory` | arch/x86_64/src/pvh_mem.c:307-351 | Returns that of the first memory map with usable memory |
| `BootInfo.Build` | bootloader/mbi_tags.c:29-148 | Every list of tags that fits, of any kinds and in any order, is in the finished block, and the total size is that of the tags |
| `BootInfo.Handover` | bootloader/mbi_tags.c:29-148 | Whatever list of tags the loader appends, the kernel reads back its command line, its module count, each module by number and by name, and its memory |
| `KernelHeap.NeedSuffices` | src/core/kheap.c:33-33 | The size taken suffices if and only if rounding up does not wrap 64 bits, and is nothing or one node if it does |
| `KernelHeap.NoOverlap` | src/core/kheap.c:21-86 | Any two blocks, handed out or free, have no byte in common and lie in the heap |
| `KernelHeap.SplitSound` | src/core/kheap.c:38-45 | Cutting a free block keeps the tiling and the free list |
| `KernelHeap.TakeSound` | src/core/kheap.c:46-49 | Taking a whole free block keeps the tiling and the free list |
| `KernelHeap.ReturnSound` | src/core/kheap.c:74-86 | Giving a block back keeps the tiling and the free list |
| `KernelHeap.Allocator.constructor` | src/core/kheap.c:21-27 | The heap starts as one free block |
| `KernelHeap.Allocator.Kmalloc` | src/core/kheap.c:29-60 | Hands out the first free block that is large enough, whose rest stays free when it is large; no other block is handed out and none handed out before changes; it fails exactly when none is large enough. The heap stays sound if and only if it is not the case that the size wraps to nothing and the first free block is large; then no tiling fits it |
| `KernelHeap.Allocator.Kfree` | src/core/kheap.c:74-86 | The block is first in the free list again; pointers outside the heap change nothing |
| `KernelHeap.Allocator.Run` | src/core/kheap.c:29-86 | In every run each request does what it is for, the blocks tile the heap exactly, and the blocks handed out are those at the start and those given out and not given back, up to a request whose size wraps to nothing on a large block, if there is one |

## Left out

- Kernel.Kernel.Tick: speaks of ticks whose catch-up loops end; of one that does not there is no state after it, and Kernel.Kernel.Step says exactly which those are.
- Kernel.Kernel.Wake: which other CPU is sent an interrupt is not stated; it changes no thread state and no flag of this CPU.
- Kernel.Kernel.Resume: the loop that delivers signals is not modelled, as for Run.
- Kernel.Kernel.Ipc: the results of mapping, transferring and sharing pages are parameters, and so is what a receive finds on offer besides messages (a queued fault, an exec request).
- Kernel.Kernel.Run: runs without signals and without destroying another thread, which wake or end a thread that may still be linked.
- Kernel.Kernel.Terminate: clearing of the notification waiter does nothing for a running thread and is not modelled; address spaces, pipes, sockets and capabilities of the thread are not part of the kernel state here.
- JournalRuns.RunsKeepTheLedger: file data written straight to the device, past the journal, is not an event; the ledger is of metadata.
- JournalSessions.Update: the writes of a transaction lie on the volume, as those of the server do; replay refuses a record beyond it.
- Directories.Server.Mkdir: inode and block allocation are parameters; path resolution, the reserved journal name and device errors are not modelled.
- Directories.Server.Run: a group has at most 32768 inodes, as a bitmap block of 4096 bytes holds.
- Directories.Server.Rename: as for Mkdir; the tree is on inodes and names, and DirectoryNames is the counterpart on bytes; closing a handle of a directory that is in the tree is not modelled.
- BlockMap.File.AppendBlock: device errors are not modelled, and the allocator is a pair of parameters; tables are arrays of block numbers, not bytes.
- BlockMap.FreeInodeBlocks: each single free is taken to succeed, and what an overrun of the buffer leaves is not modelled.
- BlockMap.WalkInode: as for FreeInodeBlocks; device errors are not modelled.
- Allocator.Allocator.FreeBlock: block numbers behind the last group, which the source does not check, are excluded: it would read a group descriptor that is not there. Group and bit are given with the block; that they are quotient and remainder is GroupBit.
- DirectoryNames.Directory.InsertDirent: the name is absent, as callers check first; blocks whose records do not tile them are not modelled, nor directories of more than 4096 blocks, whose walk BlockMap.WalkInode shows to overrun; the block map of the directory itself is not part of it.
- Attributes.BuildBlock: at most eight entries, as callers see to; sharing of an attribute block between inodes is not modelled.
- FatTime.StoredTimeReadsBack: signed overflow is taken to wrap; the date and time words are sums of fields that do not overlap.
- ExecRequests.Requests.CompleteRequest: copying the image in and loading it are an outcome that comes with the reply.
- SharedMemory.Shm.AttachSegment: addresses are unbounded, and mapping the pages is a parameter.
- SharedMemory.Shm.GetSegment: permission bits, times and process identifiers are not modelled.
- Pipes.Pipes.CreatePipe: a handle is a pair of index and generation, and masks of threads are sets.
- Sockets.Sockets.AcceptSocket: the backlog is a queue of at most seven entries, not a ring of eight.
- PageTables.Mmu.MapPage: frames for tables do not run out; an entry is a record, so that its bit positions are not modelled, and large pages, shared kernel regions and the TLB are not either.
- PageTables.Mmu.Translate: frame 0 counts as not mapped, as in the source.
- UserMemory.XferPages: frames for tables do not run out, as for MapPage.
- UserMemory.CopyToUser: user memory and page tables are apart: no frame that is mapped for a user holds a table.
- PageTables.Mmu.CreateAddressSpace: the shared kernel entries of a new root are not modelled.
- BootInfo.AppendOther: the fields of the frame buffer and ACPI tags are bytes.
- BootInfo.ReadCmdline: blocks that were not built by the append functions are not modelled, and neither is the PVH start information used without a block.
- BootInfo.DetectMemory: the PVH memory map and the fixed fallback range are not modelled.
- KernelHeap.Allocator.Kmalloc: what memory holds behind the size words is not modelled.
- KernelHeap.Allocator.Kfree: a pointer into the heap is one that was handed out, as callers see to.
- Locks, interrupts, FPU state, tracing and statistics: kernel entries are taken one at a time, as the kernel lock makes them.
- Drivers, the console, the ELF loader, the shell, the other file servers and the ACPI interpreter: not modelled.
