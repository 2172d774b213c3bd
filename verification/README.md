# Verified models of the wait-free snapshot and of the lock manager

The repository holds two concurrent protocols, and this project proves what they are for.

**The wait-free atomic snapshot (project2).** Each of n threads owns a register and a pool of n + 1
snapshot versions. A scan returns the contents of all registers at one instant, either from two equal
collects or by borrowing the snapshot that a writer seen to change twice has published. An update runs a
scan of its own, publishes it, and writes its register. Versions are reclaimed with a reference count
that is split between a control block (outer count and current index in one word) and the version (inner
count).

**The two-phase-locking lock manager (project3).** A record's locks form a linked list with head and tail.
Removal is logical (`OBSOLETE`); the head moves over removed locks, and a thread reuses its locks once the
head has passed them. A deadlock search runs before a request waits. Transactions update two records from
the value of a third, undo by difference when they are deadlock victims or take a commit id past the last
order, and log the values they leave. `IsCorrect` replays the logs in commit order; that replay is the
specification of serializability that is proved here for every run. On the objects, a transaction is proved to take
effect as a whole or not at all, whatever the other threads do between its steps and while it waits.

The repository has AcquireLock and ReleaseLock twice, once under a global mutex and once without. The system
of transactions is proved on the first. Of the second it is proved, for every interleaving of single shared
accesses, that insertion and recycling keep the list in order, that locks granted at once or by a signal
exclude each other, that a waiting lock is never left with nothing ahead of it and nobody to wake it, and exactly
when one is left waiting behind compatible locks. With several records, no cycle of waiting threads is missed.

## How it is modelled

* `PackedWords` has the two packed 64-bit words with their masks and wrap-around, and says up to which
  counts they are the unpacked pairs that the rest uses.
* `SnapshotModel` is the snapshot as a state machine: one step per register read, `fetch_add`, exchange,
  slot write, flag write or register write. `Exec(n, sched)` runs any schedule of n threads, so a lemma about
  every `sched` is a statement about every interleaving. `hist` records the register vector after every
  write; no step reads it. `SnapshotInvariant`, `SnapshotHistory`, `SnapshotPools` and `SnapshotSafety` hold the
  invariant and its preservation, `SnapshotTheorems` what follows for runs. `SnapshotSchedule` says what is in the
  registers, and so in every vector returned, by the calls in the schedule alone.
* `SnapshotCode` is the program text of scan, update, exchange, acquire, release and reset: loops over
  local variables, with arbitrary events of the other threads before every shared access. Each access
  advances the machine by one step, so the loops are shown to walk through the machine's program counters.
* `LockTable` is one critical section of the global mutex on values: queueing, outcome, wake-up, head
  movement. `WaitGraph` and `LockTableProofs` keep its invariant. `Requests` says who is granted, who waits and who
  is refused, by the locks in use and the waits before the request.
* `LockManager` and `TrxManager` are the same operations in the source's own form, on lock objects linked by
  `next`, with the loops of AcquireLock, IsDeadlock2, ReleaseLock, Abort and Commit. `LockManager.Shows(s)` says
  that the heap represents the table `s`; every method is proved to do to the table what `LockTable` says, and
  what it does to the lock, the transaction and the records is stated on the objects as well. `AllOrNothing` executes
  any list of finds and updates on these objects, with a script of events of other threads in between.
* `Transactions` is the system of threads running `RepeatTrx2`: one step per critical section, record access,
  difference write, commit id and log line. `SystemInvariant`, `SystemFrame` and `SystemSafety` hold its invariant,
  `Replay` is `IsCorrect`, `SystemTheorems` says what follows for every schedule, `SystemRequests` which request is
  granted, waits or ends in a rollback, `SystemStarts` that the records are those asked for, and `SystemCompletion`
  that every run can be completed.
* `LockFreeList` is AcquireLock and ReleaseLock without the global mutex, one step per shared access: the resets
  of a recycled lock, the tail exchange, linking, the hand-over of ids, the collecting walk, the check of what
  it collected, the wait, head movement, and signals. `LockFreeInvariant`, `LockFreeFrame`, `LockFreeQuiet`,
  `LockFreeWrites` and `LockFreeSafety` hold the list's invariant, `LockFreeGrants` that of grants and signals,
  `LockFreeWakeups` and `LockFreeAttended` those of waiting, `LockFreeProgress` the bound on the walk.
  `LockFreeModes` ties a lock's mode to the request it was taken for, `LockFreeTheorems` says what follows for runs,
  and `LockFreeStranded` which locks are left waiting.
* `LockFreeRecords` puts several such lists together: a thread is in one call at a time, and becomes a victim if and
  only if the search, here in one piece, finds it in a cycle of waits. What happens on each record is a run of
  `LockFreeList`. `LockFreeLeftBehind` is a run of that system.

A step that would fail an assert of the source or follow a null pointer ends in `AssertFailed`; that state
is proved unreachable in all three machines.

## Assumptions

* Memory is sequentially consistent, and the 8-byte register is read and written in one step, as the comment
  at project2/include/AtomicRegister.hpp:35-37 says.
* At most n threads take part in the snapshot, and each index has one owner. A version is acquired fewer than
  2^31 times and a register written fewer than 2^32 times; `CountExtracted` and `WritesCounted` show that these
  bounds are exact. Inner counts stay within an int.
* A condition-variable wait returns only after a notification, because the code does not test again. Notification
  and signal flag are one step, as both happen under the waiting transaction's mutex.
* Record values are mathematical integers. A lock list hands out fewer than 2^64 - 1 ids.
* Which recyclable lock a thread takes is left to the scheduler in `Transactions` and `LockFreeList`; the first
  one of the vector, as in the source, is among the choices. `LockManager.FindRecyclable` is the loop itself.

## Where comments and code differ

* project3/include/Lock.hpp:14-22 asks for three recycling conditions. AcquireLock under the global mutex tests
  only the state and the head flag (project3/src/Acquire.cpp:291); there are no ids in that version, and the two
  conditions suffice (`LocksInOrder`).
* project3/src/Acquire.cpp:192-194 warns that the collected vector may hold locks behind the new one. By place in
  the queue it does not: it is exactly the run of places before the new lock (`CollectionComplete`); what can
  happen is that such a lock has meanwhile been reused, which its id then shows (`ReusedShowsLarger`).
* project3/src/Release.cpp:42-45 returns when the head is in use, because nothing can be granted behind it. Under the
  global mutex that is so (`ReleaseBehindHead`). Without it, other requests may have seen the exclusive lock of a
  deadlock victim and wait for it; when the victim gives it up behind a head in use, they are not woken. A thread
  becoming a victim leaves another one without anybody to wake it if and only if the victim's lock is exclusive,
  the head is in use and another lock, the other thread waits with a shared lock for which that lock was the only
  obstacle left, and no wake-up is on its way there (`VictimExact`). A lock is left waiting in that way if and
  only if such a victim has stranded it and the head has been in use ever since (`LeftBehindExactly`); that ends
  when the head is released. `SharedLeftBehind` is a run with a real deadlock on two records: thread 0 has read
  record 0 and waits to write record 1, which thread 1 has read; thread 1 asks to write record 0, and before its
  search has found the cycle, thread 2 asks to read record 0. Thread 1 rolls back, and thread 2 goes on waiting
  although only the shared lock of thread 0 is ahead of it.

## Model

| member | source | states |
|---|---|---|
| PackedWords.AtomicRegister.Write | project2/include/AtomicRegister.hpp:80-89 | A write makes the word strictly larger, counts one write, and leaves the value readable, for every signed 32-bit value; it is refused exactly when the stamp is used up |
| PackedWords.WriteAdvances | project2/include/AtomicRegister.hpp:80-89 | The assert on the stamp fails exactly at the last stamp; otherwise the word grows and read returns what was written |
| PackedWords.EncodeOrder | project2/include/AtomicRegister.hpp:68-71 | Comparing words compares write count and value at once, and words are ordered by write count |
| PackedWords.WriteRefines | project2/include/AtomicRegister.hpp:80-89 | The packed write is the unpacked one as long as the count fits its half, and an overflow otherwise |
| PackedWords.WritesCounted | project2/include/AtomicRegister.hpp:80-93 | A register survives a sequence of writes if and only if it is shorter than 2^32 |
| PackedWords.EqualWordsNoWrite | project2/include/AtomicRegister.hpp:68-89 | Two reads of one register see equal words if and only if no write lies between them |
| PackedWords.AddRefsKeepsIndex | project2/src/WaitfreeAtomicSnapshot.cpp:180-203 | k increments of the outer count leave the index alone and add k modulo 2^32 |
| PackedWords.CountExtracted | project2/src/WaitfreeAtomicSnapshot.cpp:180-188 | The count taken out at an exchange is right, and passes the assert, if and only if it is below 2^31 |
| PackedWords.MasksAreHalves | project2/src/WaitfreeAtomicSnapshot.cpp:35-41 | On machine words the two masks split off the halves, and or-ing halves adds them |
| SnapshotTheorems.ScanLinearizable | project2/src/WaitfreeAtomicSnapshot.cpp:233-286 | In every interleaving a scan's vector is the contents of all registers at one instant between call and return; what the contents are by then says `Registers` |
| SnapshotSchedule.Registers | project2/include/AtomicRegister.hpp:80-93 | After every schedule a register is zero and unwritten before its owner's first completed update, and afterwards has the number of its completed updates and the value that the last of them was called with |
| SnapshotSchedule.ScanInstant | project2/src/WaitfreeAtomicSnapshot.cpp:233-286 | Whatever a scan returns has, in each component, the number and the last value of the updates that were completed by one event between the scan's call and its return |
| SnapshotTheorems.ScansComparable | project2/src/WaitfreeAtomicSnapshot.cpp:233-304 | Any two snapshots are ordered component by component |
| SnapshotTheorems.ScansRespectRealTime | project2/src/WaitfreeAtomicSnapshot.cpp:233-304 | A scan that starts after another returned is no older than it |
| SnapshotTheorems.ScanSeesCompletedUpdates | project2/src/WaitfreeAtomicSnapshot.cpp:233-304 | A scan sees every write that landed before its call and none after its return |
| SnapshotTheorems.OperationEffect | project2/src/WaitfreeAtomicSnapshot.cpp:289-304 | Whatever others do, an update writes its value once, at its end, after its embedded scan returned; a scan writes nothing |
| SnapshotHistory.CleanCollect | project2/src/WaitfreeAtomicSnapshot.cpp:248-278 | Two equal collects are the registers at the instant between them |
| SnapshotHistory.BorrowedVersion | project2/src/WaitfreeAtomicSnapshot.cpp:262-271 | The version found after a writer's second change was collected after the borrower's own call |
| SnapshotTheorems.ReadersAccounted | project2/src/WaitfreeAtomicSnapshot.cpp:46-65 | Readers of a version are outer minus inner count while it is reachable or awaits its reset, and minus the inner count once retired; a flagged version has none |
| SnapshotTheorems.HeldVersionStable | project2/src/WaitfreeAtomicSnapshot.cpp:144-203 | A version is not overwritten between a reader's acquire and release, whoever takes the next step |
| SnapshotTheorems.FlagRaisedOnce | project2/src/WaitfreeAtomicSnapshot.cpp:46-65 | Whoever is about to raise a recycle flag is alone in doing so, the flag is down, and the version is neither current nor read |
| SnapshotTheorems.CurrentVersion | project2/src/WaitfreeAtomicSnapshot.cpp:178-192 | The current version exists and is not flagged; only the very first install meets old_index equal to i |
| SnapshotPools.FreeSlot | project2/src/WaitfreeAtomicSnapshot.cpp:157-163 | Before an exchange one of the n + 1 slots is free: one is current, and each other thread can pin at most one |
| SnapshotPools.NoReaders | project2/include/WaitfreeAtomicSnapshot.hpp:50-53 | A slot that is free has no reader or pending flag writer |
| SnapshotPools.ReleaseSlots | project2/src/WaitfreeAtomicSnapshot.cpp:46-54 | Releasing keeps the reader accounting of every slot |
| SnapshotPools.SwapSlots | project2/src/WaitfreeAtomicSnapshot.cpp:178-192 | Exchanging the control block keeps the reader accounting of every slot |
| SnapshotTheorems.NoAssertFails | project2/src/WaitfreeAtomicSnapshot.cpp:157-203 | The slot search always succeeds and no null version is followed, in every run |
| SnapshotTheorems.PassBound | project2/src/WaitfreeAtomicSnapshot.cpp:244-285 | A scan makes at most n passes, and at most n - 1 unclean ones |
| SnapshotTheorems.WaitFree | project2/src/WaitfreeAtomicSnapshot.cpp:233-304 | Every own step of an operation uses up work, and no step of another thread adds any |
| SnapshotTheorems.OperationEnds | project2/src/WaitfreeAtomicSnapshot.cpp:233-304 | An operation ends within n * n + 4 * n + 14 own steps, whatever the other threads do |
| SnapshotSafety.RunInv | project2/src/WaitfreeAtomicSnapshot.cpp:144-304 | The history and pool invariant holds after every schedule |
| SnapshotCode.WaitfreeAtomicSnapshot.constructor | project2/src/WaitfreeAtomicSnapshot.cpp:206-218 | Every register starts unwritten, with value zero |
| SnapshotCode.WaitfreeAtomicSnapshot.Scan | project2/src/WaitfreeAtomicSnapshot.cpp:233-286 | The loops of scan return the number and the last value of the updates completed by one instant of the call, for every register, under arbitrary interference, and terminate |
| SnapshotCode.WaitfreeAtomicSnapshot.OnePass | project2/src/WaitfreeAtomicSnapshot.cpp:248-274 | One pass ends with the second snapshot and the change counts, or early with a snapshot borrowed at a second change |
| SnapshotCode.WaitfreeAtomicSnapshot.Borrow | project2/src/WaitfreeAtomicSnapshot.cpp:264-270 | acquire, copy and release hand over a vector that was current during the call |
| SnapshotCode.WaitfreeAtomicSnapshot.ReleaseSnapshot | project2/src/WaitfreeAtomicSnapshot.cpp:46-54 | At the state that its fetch_add meets, one is added to the inner count; the flag is raised, with all readers gone, exactly if that makes zero |
| SnapshotCode.WaitfreeAtomicSnapshot.FindFree | project2/src/WaitfreeAtomicSnapshot.cpp:157-163 | The search loop stops at a free slot that is not current and that no thread reads; the assert after it holds |
| SnapshotCode.WaitfreeAtomicSnapshot.SwapAndReset | project2/src/WaitfreeAtomicSnapshot.cpp:178-192 | The new vector becomes current; the count that the exchange returned is subtracted from the version that it replaced, whose flag is raised exactly if that makes zero |
| SnapshotCode.WaitfreeAtomicSnapshot.Update | project2/src/WaitfreeAtomicSnapshot.cpp:289-304 | update ends with its own register one write further and holding the value, and what it has published is what the updates completed by one instant of the call have left in the registers |
| LockTableProofs.AcquireInv | project3/src/Acquire.cpp:259-415 | Queueing with its outcome keeps the table invariant: path, grants and absence of wait cycles |
| LockTableProofs.AcquireAcyclic | project3/src/Acquire.cpp:364-398 | The deadlock check is what keeps the wait relation free of cycles |
| LockTableProofs.ResumeInv | project3/src/Acquire.cpp:402-414 | Going on after a signal keeps the table invariant |
| LockTableProofs.ReleaseInv | project3/src/Release.cpp:125-225 | Logical removal, head movement and wake-up keep the table invariant, for a deadlock victim's lock too: afterwards granted and grantable locks are the same |
| LockTableProofs.WokenExact | project3/src/Release.cpp:185-225 | The locks that a release signals are exactly the grantable ones of the new queue |
| LockTableProofs.ReleaseBehindHead | project3/src/Release.cpp:150-155 | A release behind a head in use unblocks nobody, so the early return loses no wake-up |
| LockTableProofs.Exclusion | project3/src/Acquire.cpp:364-408 | Two holders of one record are both shared |
| LockTableProofs.NoOvertaking | project3/src/Acquire.cpp:364-408 | A granted lock is compatible with every lock in use ahead of it |
| WaitGraph.NeverStuck | project3/src/Acquire.cpp:339-412 | Behind every blocked transaction there is one that holds a lock in use and can move |
| LockManager.LockManager.IsDeadlock2 | project3/src/Deadlock.cpp:173-268 | The search returns true if and only if the requester reaches itself through the wait relation; it terminates and never walks off a list |
| LockManager.LockManager.Examine | project3/src/Deadlock.cpp:214-258 | The walk from the head reaches the conflict lock and finds either a lock of the requester or all the blockers |
| WaitGraph.PassLock | project3/src/Deadlock.cpp:255-262 | Examining one transaction keeps the search invariant |
| WaitGraph.SearchEnds | project3/src/Deadlock.cpp:201-267 | With an empty worklist no walk leads back to the requester |
| LockManager.LockManager.FindRecyclable | project3/src/Acquire.cpp:285-297 | Finds a recyclable lock of the vector if and only if there is one |
| LockManager.LockManager.TakeLock | project3/src/Acquire.cpp:285-322 | A recycled lock, off every path, if there is one, and otherwise a new one that is remembered; fully reset either way |
| LockManager.LockManager.AppendTo | project3/src/Acquire.cpp:329-336 | The list from head to tail grows by the new lock |
| LockManager.LockManager.LocksAhead | project3/src/Acquire.cpp:349-360 | The walk collects exactly the locks ahead of the new one |
| LockManager.LockManager.Conflicting | project3/src/Acquire.cpp:367-383 | The backward scan finds an incompatible lock in use if and only if there is one |
| LockManager.LockManager.AcquireLock | project3/src/Acquire.cpp:259-415 | A lock with the record, thread and mode asked for ends last in the list. It is active exactly if no lock in use on the record is incompatible with the request; otherwise it is obsolete and given up exactly if the owner of a lock in use there is the requester or waits for it, directly or not, and else waits as the transaction's conflict lock. The heap ends as the table operation says |
| Requests.AcquireDecides | project3/src/Acquire.cpp:367-408 | The same of the table, by the locks in use and the waits before the request, for every mode; nothing but the new lock, its queue and the requester's conflict lock changes |
| LockManager.AppendedStates | project3/src/Acquire.cpp:327-398 | Inserting first and deciding afterwards is the one table operation that `AcquireDecides` describes |
| LockManager.LockManager.AfterWait | project3/src/Acquire.cpp:400-414 | After the wait the conflict lock of before is active and the transaction has none |
| LockManager.LockManager.ReleaseLock | project3/src/Release.cpp:125-225 | The lock is obsolete, and the heap ends as the table's release says: how far the head moves, who is signalled |
| LockManager.LockManager.MoveHead | project3/src/Release.cpp:160-178 | The head stops at the first lock in use, or at the last lock; exactly the locks passed are flagged |
| LockManager.LockManager.WakeUp | project3/src/Release.cpp:185-225 | Signals the new head and, if shared, the shared locks up to the next exclusive one |
| LockManager.ReleaseIs | project3/src/Release.cpp:143-225 | Removal, movement and wake-up together are the table's release |
| LockManager.LockManager.ShowsOne | project3/include/LockManager.hpp:27-48 | A heap represents one table only |
| LockManager.LockManager.constructor | project3/src/LockManager.cpp:11-25 | Records 1 to n with empty lists and value 100 |
| LockManager.LockManager.ChangeRecord | project3/src/LockManager.cpp:36-41 | Adds to the record of an exclusive lock in use and changes nothing else |
| TrxManager.TrxManager.Find | project3/src/TrxManager.cpp:195-205 | Success exactly if the lock, requested as shared, ends active, and then the record's value is returned; blocked exactly if it waits as the conflict lock; to be aborted exactly if it is obsolete and there is no conflict lock. No incompatible lock in use decides success, a cycle decides the abort |
| TrxManager.TrxManager.AfterFind | project3/src/TrxManager.cpp:195-205 | A Find that had to wait goes on with its conflict lock, now active, and the value that the record has then |
| TrxManager.TrxManager.Update | project3/src/TrxManager.cpp:211-223 | The same three answers for an exclusive lock; on success the record changes by diff and the lock notes diff, otherwise neither does |
| TrxManager.TrxManager.AfterUpdate | project3/src/TrxManager.cpp:211-223 | After the wait the record of the conflict lock, and no other, changes by diff, and the lock notes it |
| TrxManager.TrxManager.UndoAll | project3/src/TrxManager.cpp:240-248 | Every record loses exactly what the transaction's locks in use had added, and all its locks end released |
| TrxManager.TrxManager.RollBack | project3/src/TrxManager.cpp:244-245 | An exclusive lock in use takes the difference it has noted from its record; any other lock takes nothing |
| TrxManager.TrxManager.Abort | project3/src/TrxManager.cpp:228-249 | Abort takes back what the transaction had added to each record |
| TrxManager.TrxManager.Commit | project3/src/TrxManager.cpp:255-333 | The next id; past the last order everything is undone and -1 returned, otherwise the log has the record of each lock, in the order of acquisition, with its value, and no value changes |
| AllOrNothing.Execute | project3/src/TrxManager.cpp:191-333 | Any finds and updates, each granted at once or after a wait, among any events of other threads: once aborted, or refused at Commit, every record has its value of before Begin plus the changes that the others have made, so a record that no other thread has changed is as it was; once committed, its own updates are added; either way all its locks are released |
| AllOrNothing.UpdateThenAbort | project3/src/TrxManager.cpp:211-249 | An Update that need not wait, granted or refused, followed by Abort leaves every record as it was |
| AllOrNothing.AddedIsTotal | project3/src/TrxManager.cpp:240-248 | What a rollback takes back from a record is the sum of the transaction's completed updates of it |
| TrxManager.ReleaseFirst | project3/src/TrxManager.cpp:240-248 | Releasing some locks of a transaction leaves the later ones releasable and unchanged |
| TrxManager.TrailEnds | project3/src/TrxManager.cpp:240-248 | The loop's tables are the successive releases, and there is only one such sequence |
| SystemTheorems.LinesReplay | project3/src/main.cpp:324-338 | Every logged line has the values of the serial replay in commit order, right after its own transaction, which has left Ri, added Ri + 1 to Rj and taken Ri from Rk |
| SystemTheorems.RunIsCorrect | project3/src/main.cpp:269-341 | On every completed run there are as many lines as the last order says, none if it is negative, and the replay agrees with all of them |
| SystemTheorems.CheckCompletedRun | project3/src/main.cpp:96-96 | The check on a completed run: its assert on the number of lines fails exactly for a negative last order, and otherwise it returns true |
| SystemTheorems.ValuesConserved | project3/src/TrxManager.cpp:211-249 | A record is 100 changed by the accepted transactions, plus the updates that are neither committed nor undone |
| SystemTheorems.UndoExact | project3/src/TrxManager.cpp:281-294 | After a rollback the records are as if the transaction had never started |
| SystemTheorems.ReadsCommitted | project3/src/TrxManager.cpp:195-205 | Find reads the value that the committed transactions give; nobody reads what is undone later |
| SystemTheorems.AcceptedUpToLast | project3/src/TrxManager.cpp:276-294 | Exactly the ids up to the last order are accepted |
| SystemTheorems.LocksInOrder | project3/src/Acquire.cpp:285-344 | In every run: paths without repetition hold every lock in use, recyclable locks lie off them, grants are exact, no wait cycle |
| SystemRequests.RequestDecided | project3/src/Acquire.cpp:339-408 | In every run a request, for a new or recycled lock, goes on to its access exactly if nobody uses the record or only first accesses meet; it ends in a rollback exactly if somebody is in its way and a user of the record waits for the requester, directly or not; otherwise it blocks |
| SystemRequests.ReadersShare | project3/src/Acquire.cpp:367-383 | A first access to a record that only first accesses use is granted at once |
| SystemStarts.WorksAsStarted | project3/src/main.cpp:196-238 | A transaction works on the records that its thread's last start named |
| SystemStarts.LinesAsStarted | project3/src/TrxManager.cpp:298-328 | Every log line names the three records, in their roles, of a transaction that its thread was asked to execute |
| SystemTheorems.SystemNeverStuck | project3/src/Acquire.cpp:339-412 | In every run, while some transaction is blocked another one can step |
| SystemCompletion.ComeToRest | project3/src/main.cpp:207-252 | From every reachable state, if nobody begins anything new, all transactions in progress come to their end |
| SystemCompletion.RunAlone | project3/src/main.cpp:207-252 | A transaction that runs by itself meets no obstacle and takes the next commit id; past the last order its thread ends |
| SystemCompletion.CanComplete | project3/src/main.cpp:196-252 | Every reachable state has a continuation in which all threads end, if and only if there are three records and a thread |
| SystemTheorems.NoAssertFails | project3/src/LockManager.cpp:28-41 | The asserts of AcquireLock, ReleaseLock, GetRecord and ChangeRecord never fail |
| SystemTheorems.NoLeakedLocks | project3/src/TrxManager.cpp:240-307 | A lock in use belongs to a transaction in progress that lists it |
| SystemSafety.CommitPoint | project3/src/TrxManager.cpp:276-307 | At the commit id the transaction's values become those of the replay, although its locks are released later |
| SystemSafety.RunInv | project3/src/main.cpp:185-256 | The system invariant holds after every schedule of RepeatTrx2 |
| Replay.SortCorrect | project3/src/main.cpp:316-318 | Sorting by commit id orders the lines and keeps each as often as it was there |
| Replay.ReadLogs | project3/src/main.cpp:290-311 | The lines of all files, file after file |
| Replay.Compare | project3/src/main.cpp:321-340 | The loop accepts if and only if every line agrees with the replay up to it |
| Replay.IsCorrect | project3/src/main.cpp:269-341 | With the right number of lines the result is true if and only if the sorted lines agree with the replay |
| LockFreeTheorems.CollectionComplete | project3/src/Acquire.cpp:142-230 | From the end of the walk to the end of the check, the vector is the run of queue places from the walk's start to just before the new lock, and holds every live lock ahead |
| LockFreeTheorems.IdTestExact | project3/src/Acquire.cpp:152-171 | The target shows a larger id if and only if its id has been reset or it has a later place, and then the head has passed the walk's start; otherwise it is the next place |
| LockFreeTheorems.ReusedShowsLarger | project3/src/Acquire.cpp:45-131 | A lock the walker may have seen and that was reset or moved to a later place shows an id above the walker's; from the head on nothing has moved |
| LockFreeTheorems.RestartMeansProgress | project3/src/Acquire.cpp:152-188 | A walk starts over only after the head has moved past its start |
| LockFreeProgress.WaitFree | project3/src/Acquire.cpp:142-230 | Every own step of the walk and the check uses up work, and no event of another thread adds any |
| LockFreeProgress.WalkEnds | project3/src/Acquire.cpp:142-230 | Walk and check towards place p end within p * p + 8 * p + 2 own steps, in every schedule |
| LockFreeTheorems.PathFromHead | project3/src/Acquire.cpp:95-131 | From the head to the tail every place holds the current use of its lock and points to the next one once that is linked; every live lock, linked or not, has its place there |
| LockFreeTheorems.RecyclableOffPath | project3/include/Lock.hpp:8-26 | A lock that may be recycled lies before the head's place and on no later one |
| LockFreeTheorems.IdsFollowExchanges | project3/src/Acquire.cpp:95-125 | Two locks that show ids show different ones, ordered like their tail exchanges |
| LockFreeTheorems.NoAssertFails | project3/src/Acquire.cpp:142-188 | Walk and restarts meet no null head; also id_pass_flag is down when it is set (line 119), a release meets no null head and its loop ends at the head (Release.cpp, lines 39 and 70), and no null pointer is followed |
| LockFreeTheorems.NoOvertaking | project3/src/Acquire.cpp:196-253 | A lock that AcquireLock has returned is compatible with every live lock ahead of it, until it is released: if there is one, both were asked for as shared, by the requests in the schedule that took them |
| LockFreeTheorems.Exclusion | project3/src/Acquire.cpp:196-253 | Two locks of a record that are held at the same time, granted at once or after a signal, are both shared, and were both asked for as shared by the threads that hold them |
| LockFreeModes.GrantedAsAsked | project3/src/Acquire.cpp:28-88 | A lock that AcquireLock has returned, new or recycled, was last taken by a request of its holder, and has the mode of that request |
| LockFreeModes.ModeAsked | project3/src/Acquire.cpp:28-88 | Every lock past its resets belongs to the thread of the last request that took it, and has that request's mode |
| LockFreeModes.GrantedChange | project3/src/Acquire.cpp:196-253 | A thread's granted locks grow by what AcquireLock returns to it and shrink by what it begins to release, and change in no other way |
| LockFreeTheorems.SignalsTrue | project3/src/Release.cpp:73-119 | A signal flag on a lock in use means that nothing live ahead stands in its way |
| LockFreeTheorems.NoLostWakeup | project3/src/Release.cpp:28-119 | A waiting lock has been signalled, or a live lock is ahead of it, or a release that has yet to look at the head is under way or due |
| LockFreeTheorems.FirstGoesOn | project3/src/Acquire.cpp:233-253 | With no release under way or due, the first live lock of a record does not wait |
| LockFreeStranded.VictimExact | project3/src/Release.cpp:42-45 | A victim takes from a waiting lock the prospect of being woken if and only if it strands it: the victim's lock is exclusive, was the last obstacle of a shared lock, the head is in use and another lock, and no wake-up is coming |
| LockFreeStranded.DoExact | project3/src/Release.cpp:28-119 | No other event of any thread takes that prospect away |
| LockFreeStranded.NotAttendedLasts | project3/src/Release.cpp:42-119 | A stranded lock stays so exactly as long as the head is in use and its thread waits |
| LockFreeStranded.LeftBehindExactly | project3/src/Release.cpp:42-119 | In every run, with no release under way or due, a lock waits unsignalled behind compatible locks only if and only if a victim has stranded it and the head has been in use ever since |
| LockFreeStranded.NobodyLeftBehind | project3/src/Release.cpp:42-119 | A lock that no victim has stranded is never left waiting behind compatible locks with nobody to wake it |
| LockFreeStranded.OnlySharedLeftBehind | project3/src/Release.cpp:42-119 | A lock that waits behind compatible locks only is shared, and some live lock is ahead of it |
| LockFreeStranded.VictimLeavesBehind | project3/src/Release.cpp:28-45 | From every reachable state without a release under way or due, the rollback of a stranding victim's lock leaves the stranded lock waiting |
| LockFreeLeftBehind.SharedLeftBehind | project3/src/Release.cpp:42-45 | A run on two records, with a real deadlock and its victim, after which a shared lock waits although only a shared lock is ahead and nobody is about to signal it |
| LockFreeRecords.EachRecord | project3/src/Acquire.cpp:24-254 | With several records, what happens on each is a run of that record by itself, so the theorems about one list hold of every list |
| LockFreeRecords.OneCall | project3/src/Acquire.cpp:137-139 | A thread in a call on one record is in none on another: its conflict lock is null when it is set |
| LockFreeRecords.NoCycleWaits | project3/src/Deadlock.cpp:12-27 | Whatever the interleaving and the records, threads never wait for each other in a cycle all of whose searches have ended |
| LockFreeTheorems.EntriesCleared | project3/src/Acquire.cpp:196-216 | Every collected lock that the check has gone over is obsolete, reused, or compatible |
| LockFreeTheorems.StateThenId | project3/src/Acquire.cpp:200-215 | An entry read as not obsolete that later shows an id not above the checker's was a live lock ahead at the first read |
| LockFreeSafety.RunInv | project3/src/Acquire.cpp:24-254 | The list invariant holds after every schedule of acquisitions and releases |
| LockFreeGrants.RunSound | project3/src/Release.cpp:28-119 | The invariant of checks, signals and grants holds after every schedule |

## Left out

- project1 and project4: other exercises of the repository; the patch file of project4 is a diff of a database whose code is not shown.
- The lock-free IsDeadlock step by step: its outcome is the scheduler's choice in `LockFreeList`, and one exact step in `LockFreeRecords`. The loops are proved for IsDeadlock2, under the global mutex; without it the locks examined change during the search.
- The lock-free versions have no record values: serializability is proved on the global-mutex versions only.
- ACTIVE and WAIT are one state in `LockFreeList`: they differ in whether a notification is sent along with the signal flag.
- AllOrNothing.Execute: events of other threads come between the transaction's calls and while it waits, but not between the releases of one Abort or Commit, nor between AcquireLock and the access that follows it. Those interleavings are the subject of `Transactions`, on values (`UndoExact`).
- GetTrxNode, RegisterTid and their tables: a fixed map from thread to node.
- Threads, random choice of records, timing, console output, log files and their parsing: the scheduler's actions and a sequence of log lines.
- Weak memory, spurious wake-ups, yielding, real mutexes and condition variables: atomic steps under the assumptions above.
- Deallocation, copy and move constructors, cache-line alignment and the recycling statistics: nothing proved here depends on them.
- Storing a vector into a version slot is one step, and so is copying the second snapshot into the first: nobody else reads the slot or the local vector meanwhile (`NoReaders`).
