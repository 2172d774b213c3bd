/** Find, Update, Abort and Commit on the lock manager's objects.

    The methods describe what one thread does; where AcquireLock has to wait, Find and Update end with
    the outcome Waiting, and AfterFind and AfterUpdate go on from the wake-up.  Every interleaving of
    threads is the subject of module Transactions. */
module TrxManager {
  import opened LockTable
  import opened LockTableProofs
  import opened Requests
  import L = LockManager

  // ---------------------------------------------------------------- releasing a list of locks

  ghost predicate AllListed<X>(s: Table<X>)
  {
    forall r | r in s.queue :: Listed(s.locks, s.queue[r])
  }

  /** Everything but the flags that a head movement sets. */
  predicate SameUse(a: LockInfo, b: LockInfo)
  {
    a == b.(headPass := a.headPass, signal := a.signal)
  }

  lemma {:induction false} ReleaseKeeps<X>(s: Table<X>, l: X)
    requires AllListed(s) && MayRelease(s, l)
    ensures var s1 := Release(s, l);
      && AllListed(s1) && s1.locks.Keys == s.locks.Keys && s1.queue.Keys == s.queue.Keys
      && (forall x | x in s.locks && x != l :: SameUse(s1.locks[x], s.locks[x]))
      && (forall r | r in s.queue && s.queue[r] != [] :: s1.queue[r] != [])
  {
    var n, w := ReleaseIsMoved(s, l);
  }

  /** The table after the first k locks of d have been released. */
  ghost function Released<X>(s: Table<X>, d: seq<X>, k: nat): (s1: Table<X>)
    requires k <= |d|
  {
    if k == 0 then s
    else
      var s0 := Released(s, d, k - 1);
      if MayRelease(s0, d[k - 1]) && AllListed(s0) then Release(s0, d[k - 1]) else s0
  }

  /** Locks that may be released one after the other. */
  ghost predicate Releasable<X>(s: Table<X>, d: seq<X>)
  {
    AllListed(s) && Distinct(d) && forall k | 0 <= k < |d| :: MayRelease(s, d[k])
  }

  /** Releasing lock i leaves the later ones as they are. */
  lemma {:induction false} ReleaseOne<X>(s: Table<X>, d: seq<X>, i: nat, s0: Table<X>)
    requires Releasable(s, d) && i < |d| && AllListed(s0) && s0.locks.Keys == s.locks.Keys && MayRelease(s0, d[i])
    requires forall k | i <= k < |d| :: MayRelease(s0, d[k]) && SameUse(s0.locks[d[k]], s.locks[d[k]])
    ensures var s1 := Release(s0, d[i]);
      && AllListed(s1) && s1.locks.Keys == s.locks.Keys
      && forall k | i < k < |d| :: MayRelease(s1, d[k]) && SameUse(s1.locks[d[k]], s.locks[d[k]])
  {
    ReleaseKeeps(s0, d[i]);
  }

  /** Releasing the first i locks leaves the later ones as they are. */
  lemma {:induction false} ReleaseFirst<X>(s: Table<X>, d: seq<X>, i: nat)
    requires Releasable(s, d) && i <= |d|
    ensures var s1 := Released(s, d, i);
      && AllListed(s1) && s1.locks.Keys == s.locks.Keys
      && forall k | i <= k < |d| :: MayRelease(s1, d[k]) && SameUse(s1.locks[d[k]], s.locks[d[k]])
    ensures i < |d| ==> Released(s, d, i + 1) == Release(Released(s, d, i), d[i])
  {
    hide Release, AllListed;
    if i > 0 {
      ReleaseFirst(s, d, i - 1);
      ReleaseOne(s, d, i - 1, Released(s, d, i - 1));
    }
  }

  // ---------------------------------------------------------------- undoing

  /** What the rollback of a lock takes from record r. */
  function Share(i: LockInfo, r: int): (d: int)
  {
    if i.mode == EXCLUSIVE && i.state != OBSOLETE && i.record == r then i.diff else 0
  }

  /** What the first k locks of d have added to record r. */
  ghost function Added<X>(s: Table<X>, d: seq<X>, k: nat, r: int): (sum: int)
    requires k <= |d| && forall j | 0 <= j < |d| :: d[j] in s.locks
  {
    if k == 0 then 0 else Added(s, d, k - 1, r) + Share(s.locks[d[k - 1]], r)
  }

  /** The k-th release on the way through a list. */
  ghost predicate StepAt<X>(d: seq<X>, tables: seq<Table<X>>, k: nat)
    requires |tables| == |d| + 1 && k < |d|
  {
    AllListed(tables[k]) && MayRelease(tables[k], d[k]) && tables[k + 1] == Release(tables[k], d[k])
  }

  /** The k-th lock is still used as it was at the start. */
  ghost predicate UseAt<X>(s: Table<X>, d: seq<X>, tables: seq<Table<X>>, k: nat)
    requires |tables| == |d| + 1 && k < |d| && d[k] in s.locks
  {
    d[k] in tables[k].locks && SameUse(tables[k].locks[d[k]], s.locks[d[k]])
  }

  /** The tables on the way from s through the releases of d. */
  ghost predicate Trail<X>(s: Table<X>, d: seq<X>, tables: seq<Table<X>>)
  {
    && |tables| == |d| + 1 && tables[0] == s && (forall j | 0 <= j < |d| :: d[j] in s.locks)
    && (forall k {:trigger StepAt(d, tables, k)} | 0 <= k < |d| :: StepAt(d, tables, k))
    && (forall k {:trigger UseAt(s, d, tables, k)} | 0 <= k < |d| :: UseAt(s, d, tables, k))
  }

  lemma {:induction false} MakeTrail<X>(s: Table<X>, d: seq<X>) returns (tables: seq<Table<X>>)
    requires Releasable(s, d)
    ensures |tables| == |d| + 1 && tables[0] == s && Trail(s, d, tables)
  {
    tables := seq(|d| + 1, k requires 0 <= k <= |d| => Released(s, d, k));
    forall k | 0 <= k < |d| ensures StepAt(d, tables, k) && UseAt(s, d, tables, k) {
      ReleaseFirst(s, d, k);
    }
  }

  /** There is only one way through the releases: a trail ends in the table after all of them. */
  lemma {:induction false} TrailEnds<X>(s: Table<X>, d: seq<X>, tables: seq<Table<X>>, k: nat)
    requires Releasable(s, d) && Trail(s, d, tables) && k <= |d|
    ensures tables[k] == Released(s, d, k)
  {
    if k > 0 {
      TrailEnds(s, d, tables, k - 1);
      assert StepAt(d, tables, k - 1);
    }
  }

  /** The locks released are obsolete. */
  lemma {:induction false} TrailObsolete<X>(s: Table<X>, d: seq<X>, tables: seq<Table<X>>, k: nat)
    requires Trail(s, d, tables) && k <= |d|
    ensures tables[k].locks.Keys == s.locks.Keys
    ensures forall j | 0 <= j < k :: tables[k].locks[d[j]].state == OBSOLETE
  {
    if k > 0 {
      TrailObsolete(s, d, tables, k - 1);
      assert StepAt(d, tables, k - 1);
      ReleaseKeeps(tables[k - 1], d[k - 1]);
    }
  }

  datatype Response = Success | MustAbort | Blocked

  function ResponseTo(outcome: Outcome): (response: Response)
  {
    match outcome
    case Granted => Success
    case Waiting => Blocked
    case Deadlocked => MustAbort
  }

  /** A granted lock is active, with the mode asked for, on the record asked for. */
  lemma {:induction false} AcquiredLock<X>(s: Table<X>, t: nat, r: int, mode: Mode, l: X)
    requires MayAcquire(s, t, r, l) && Listed(s.locks, s.queue[r]) && AcquireOutcome(s, t, r, mode, l).Granted?
    ensures var s1 := Acquire(s, t, r, mode, l);
      l in s1.locks && s1.locks[l].state == ACTIVE && s1.locks[l].mode == mode && s1.locks[l].record == r
  {
  }

  datatype CommitLog = CommitLog(id: int, records: seq<int>, values: seq<int>)

  /** The table after an Update: the acquisition and, if it was granted, the note in the lock. */
  ghost function Updated<X>(s: Table<X>, t: nat, r: int, diff: int, l: X): (s1: Table<X>)
    requires r in s.queue && Listed(s.locks, s.queue[r])
  {
    var s1 := Acquire(s, t, r, EXCLUSIVE, l);
    if AcquireOutcome(s, t, r, EXCLUSIVE, l).Granted? && l in s1.locks then SetDiff(s1, l, diff) else s1
  }

  ghost predicate AllInUse<X>(s: Table<X>, d: seq<X>)
  {
    forall k | 0 <= k < |d| :: d[k] in s.locks && s.locks[d[k]].state != OBSOLETE
  }

  /** The log names the records of the first n locks of d, and their values. */
  ghost predicate IsLog(log: CommitLog, id: int, d: seq<L.Lock>, n: nat, values: map<int, int>)
    requires n <= |d|
  {
    && log.id == id && |log.records| == |log.values| == n
    && forall k | 0 <= k < n ::
          log.records[k] == d[k].record && d[k].record in values && log.values[k] == values[d[k].record]
  }

  function Extend(log: CommitLog, record: int, value: int): (log1: CommitLog)
  {
    CommitLog(log.id, log.records + [record], log.values + [value])
  }

  lemma {:induction false} LogStep(log: CommitLog, d: seq<L.Lock>, n: nat, values: map<int, int>, value: int)
    requires n < |d| && IsLog(log, log.id, d, n, values) && d[n].record in values && value == values[d[n].record]
    ensures IsLog(Extend(log, d[n].record, value), log.id, d, n + 1, values)
  {
  }

  class TrxManager {
    const manager: L.LockManager
    var globalExecutionCount: nat
    const lastGlobalExecutionOrder: int

    constructor (manager: L.LockManager, last: int)
      ensures this.manager == manager && lastGlobalExecutionOrder == last && globalExecutionCount == 0
    {
      this.manager := manager;
      globalExecutionCount := 0;
      lastGlobalExecutionOrder := last;
    }

    lemma {:induction false} AllReleased(s: Table<L.Lock>, d: seq<L.Lock>, tables: seq<Table<L.Lock>>)
      requires Trail(s, d, tables) && manager.Shows(tables[|d|])
      ensures forall k | 0 <= k < |d| :: d[k].state == OBSOLETE
    {
      TrailObsolete(s, d, tables, |d|);
    }

    /** The begin of a transaction: no conflict lock, and no locks. */
    method Begin(ghost s: Table<L.Lock>, trx: L.TrxNode)
      requires manager.Shows(s) && trx.thread in manager.trxs && manager.trxs[trx.thread] == trx
      modifies trx`deque, trx`conflict
      ensures trx.deque == [] && trx.conflict == null && manager.Shows(NoConflict(s, trx.thread))
    {
      hide L.LockManager.Shows;
      manager.ClearConflict(s, trx);
      trx.deque := [];
    }

    lemma {:induction false} ShareShown(s: Table<L.Lock>, lock: L.Lock)
      requires manager.Shows(s) && lock in manager.locks
      ensures lock in s.locks && lock.record == s.locks[lock].record
      ensures Share(s.locks[lock], lock.record) ==
                if lock.mode == EXCLUSIVE && lock.state != OBSOLETE then lock.diff else 0
    {
      assert s.locks[lock] == lock.Info();
    }

    /** The rollback of one lock. */
    method RollBack(ghost s: Table<L.Lock>, lock: L.Lock)
      requires manager.Shows(s) && lock in manager.locks && lock.record in manager.table
      modifies manager.NodeOf(lock.record)`value
      ensures manager.Shows(s)
      ensures manager.table[lock.record].value == old(manager.table[lock.record].value)
              - if lock.mode == EXCLUSIVE && lock.state != OBSOLETE then lock.diff else 0
    {
      if lock.mode == EXCLUSIVE && lock.state != OBSOLETE {
        var _ := manager.ChangeRecord(s, lock, -lock.diff);
      }
    }

    /** The i-th release of a transaction. */
    method ReleaseNext(ghost s: Table<L.Lock>, ghost d: seq<L.Lock>, ghost tables: seq<Table<L.Lock>>, ghost i: nat,
        lock: L.Lock)
      requires Trail(s, d, tables) && i < |d| && lock == d[i] && manager.Shows(tables[i])
      modifies manager.locks`state, manager.locks`headPass, manager.locks`signal
      modifies manager.table.Values`head, manager.table.Values`path
      ensures manager.Shows(tables[i + 1])
    {
      assert StepAt(d, tables, i);
      manager.ReleaseLock(tables[i], lock);
    }

    /** The i-th lock of a transaction that is undone. */
    method UndoNext(ghost s: Table<L.Lock>, ghost d: seq<L.Lock>, ghost tables: seq<Table<L.Lock>>, ghost i: nat,
        lock: L.Lock)
      requires Trail(s, d, tables) && i < |d| && lock == d[i] && manager.Shows(tables[i])
      modifies manager.locks`state, manager.locks`headPass, manager.locks`signal
      modifies manager.table.Values`head, manager.table.Values`path, manager.table.Values`value
      ensures manager.Shows(tables[i + 1])
      ensures forall r | r in manager.table ::
              manager.table[r].value == old(manager.table[r].value) + Added(s, d, i, r) - Added(s, d, i + 1, r)
    {
      hide L.LockManager.Shows;
      assert UseAt(s, d, tables, i) && StepAt(d, tables, i);
      manager.ReleaseReady(tables[i], lock);
      ShareShown(tables[i], lock);
      RollBack(tables[i], lock);
      ReleaseNext(s, d, tables, i, lock);
    }

    /** Undo all modifications and release all locks, in the order of acquisition. */
    method UndoAll(ghost s: Table<L.Lock>, trx: L.TrxNode) returns (ghost tables: seq<Table<L.Lock>>)
      requires manager.Shows(s) && Releasable(s, trx.deque)
      modifies manager.locks`state, manager.locks`headPass, manager.locks`signal
      modifies manager.table.Values`head, manager.table.Values`path, manager.table.Values`value
      ensures forall k | 0 <= k < |trx.deque| :: trx.deque[k].state == OBSOLETE
      ensures Trail(s, trx.deque, tables) && manager.Shows(tables[|trx.deque|])
      ensures forall r | r in manager.table ::
        manager.table[r].value == old(manager.table[r].value) - Added(s, trx.deque, |trx.deque|, r)
    {
      hide L.LockManager.Shows, Releasable, Trail, Share;
      ghost var d := trx.deque;
      tables := MakeTrail(s, d);
      for i := 0 to |trx.deque|
        invariant trx.deque == d && manager.Shows(tables[i])
        invariant forall r | r in manager.table ::
                  manager.table[r].value == old(manager.table[r].value) - Added(s, d, i, r)
      {
        UndoNext(s, d, tables, i, trx.deque[i]);
      }
      AllReleased(s, d, tables);
    }

    /** Abort, after Find or Update has reported MustAbort. */
    method Abort(ghost s: Table<L.Lock>, trx: L.TrxNode) returns (ghost tables: seq<Table<L.Lock>>)
      requires manager.Shows(s) && Releasable(s, trx.deque)
      modifies manager.locks`state, manager.locks`headPass, manager.locks`signal
      modifies manager.table.Values`head, manager.table.Values`path, manager.table.Values`value
      ensures forall k | 0 <= k < |trx.deque| :: trx.deque[k].state == OBSOLETE
      ensures Trail(s, trx.deque, tables) && manager.Shows(tables[|trx.deque|])
      ensures forall r | r in manager.table ::
        manager.table[r].value == old(manager.table[r].value) - Added(s, trx.deque, |trx.deque|, r)
    {
      tables := UndoAll(s, trx);
    }

    /** The values of all records. */
    ghost predicate Holds(values: map<int, int>)
      reads manager, manager.table.Values`value
    {
      values.Keys == manager.table.Keys && forall r | r in manager.table :: manager.table[r].value == values[r]
    }

    /** The value of the record of a lock in use. */
    method ReadHeld(ghost s: Table<L.Lock>, lock: L.Lock) returns (value: int)
      requires manager.Shows(s) && lock in s.locks && s.locks[lock].state != OBSOLETE
      ensures lock.record in manager.table && value == manager.table[lock.record].value
    {
      value := manager.GetRecord(lock);
    }

    /** The i-th lock of a committing transaction: its record's value is noted before it is released. */
    method LogNext(ghost s: Table<L.Lock>, ghost d: seq<L.Lock>, ghost tables: seq<Table<L.Lock>>, ghost i: nat,
                   ghost values: map<int, int>, lock: L.Lock, log: CommitLog) returns (longer: CommitLog)
      requires Trail(s, d, tables) && i < |d| && lock == d[i] && manager.Shows(tables[i])
               && s.locks[lock].state != OBSOLETE
      requires Holds(values) && IsLog(log, log.id, d, i, values)
      modifies manager.locks`state, manager.locks`headPass, manager.locks`signal
      modifies manager.table.Values`head, manager.table.Values`path
      ensures manager.Shows(tables[i + 1]) && Holds(values) && IsLog(longer, log.id, d, i + 1, values)
    {
      hide L.LockManager.Shows;
      assert UseAt(s, d, tables, i);
      var value := ReadHeld(tables[i], lock);
      longer := Extend(log, lock.record, value);
      LogStep(log, d, i, values, value);
      ReleaseNext(s, d, tables, i, lock);
    }

    /** The locks' records, and their values, in the order of acquisition. */
    method LogAll(ghost s: Table<L.Lock>, ghost values: map<int, int>, id: int, trx: L.TrxNode)
      returns (log: CommitLog, ghost tables: seq<Table<L.Lock>>)
      requires manager.Shows(s) && Releasable(s, trx.deque) && AllInUse(s, trx.deque) && Holds(values)
      modifies manager.locks`state, manager.locks`headPass, manager.locks`signal
      modifies manager.table.Values`head, manager.table.Values`path
      ensures forall k | 0 <= k < |trx.deque| :: trx.deque[k].state == OBSOLETE
      ensures Trail(s, trx.deque, tables) && manager.Shows(tables[|trx.deque|]) && Holds(values)
      ensures IsLog(log, id, trx.deque, |trx.deque|, values)
    {
      hide L.LockManager.Shows, Releasable, Trail;
      ghost var d := trx.deque;
      tables := MakeTrail(s, d);
      log := CommitLog(id, [], []);
      for i := 0 to |trx.deque|
        invariant trx.deque == d && manager.Shows(tables[i]) && Holds(values) && IsLog(log, id, d, i, values)
      {
        log := LogNext(s, d, tables, i, values, trx.deque[i], log);
      }
      AllReleased(s, d, tables);
    }

    /** What Commit does once it has its id. */
    method Finish(ghost s: Table<L.Lock>, ghost values: map<int, int>, id: int, trx: L.TrxNode)
      returns (log: CommitLog, ghost tables: seq<Table<L.Lock>>)
      requires manager.Shows(s) && Releasable(s, trx.deque) && AllInUse(s, trx.deque) && Holds(values)
      modifies manager.locks`state, manager.locks`headPass, manager.locks`signal
      modifies manager.table.Values`head, manager.table.Values`path, manager.table.Values`value
      ensures forall k | 0 <= k < |trx.deque| :: trx.deque[k].state == OBSOLETE
      ensures Trail(s, trx.deque, tables) && manager.Shows(tables[|trx.deque|])
      ensures id > lastGlobalExecutionOrder ==> forall r | r in manager.table ::
        r in values && manager.table[r].value == values[r] - Added(s, trx.deque, |trx.deque|, r)
      ensures id <= lastGlobalExecutionOrder ==> Holds(values) && IsLog(log, id, trx.deque, |trx.deque|, values)
    {
      if id > lastGlobalExecutionOrder {
        log := CommitLog(-1, [], []);
        tables := UndoAll(s, trx);
      } else {
        log, tables := LogAll(s, values, id, trx);
      }
    }

    /** Commit: takes the next id; past the last order the transaction is undone and -1 returned. */
    method Commit(ghost s: Table<L.Lock>, ghost values: map<int, int>, trx: L.TrxNode)
      returns (id: int, log: CommitLog, ghost tables: seq<Table<L.Lock>>)
      requires manager.Shows(s) && Releasable(s, trx.deque) && AllInUse(s, trx.deque) && Holds(values)
      modifies `globalExecutionCount, manager.locks`state, manager.locks`headPass, manager.locks`signal
      modifies manager.table.Values`head, manager.table.Values`path, manager.table.Values`value
      ensures globalExecutionCount == old(globalExecutionCount) + 1
      ensures id == if globalExecutionCount > lastGlobalExecutionOrder then -1 else globalExecutionCount
      ensures forall k | 0 <= k < |trx.deque| :: trx.deque[k].state == OBSOLETE
      ensures Trail(s, trx.deque, tables) && manager.Shows(tables[|trx.deque|])
      ensures id == -1 ==> forall r | r in manager.table ::
        r in values && manager.table[r].value == values[r] - Added(s, trx.deque, |trx.deque|, r)
      ensures id != -1 ==> Holds(values) && IsLog(log, id, trx.deque, |trx.deque|, values)
      ensures id != -1 ==> log.id == id && |log.records| == |log.values| == |trx.deque|
      ensures id != -1 ==> forall k | 0 <= k < |trx.deque| ::
        var r := trx.deque[k].record;
        log.records[k] == r && r in manager.table && log.values[k] == manager.table[r].value
    {
      hide L.LockManager.Shows, Releasable, Trail, AllInUse, Added;
      globalExecutionCount := globalExecutionCount + 1;
      id := globalExecutionCount;
      log, tables := Finish(s, values, id, trx);
      if id > lastGlobalExecutionOrder { id := -1; }
    }

    /** The rest of a Find: the value, if the lock was granted at once. */
    method ReadGranted(ghost s: Table<L.Lock>, r: int, ghost t: nat, lock: L.Lock, response: Response)
        returns (value: int)
      requires MayAcquire(s, t, r, lock) && Listed(s.locks, s.queue[r])
      requires response == ResponseTo(AcquireOutcome(s, t, r, SHARED, lock))
      requires manager.Shows(Acquire(s, t, r, SHARED, lock)) && r in manager.table
      ensures response == Success ==> value == manager.table[r].value
      ensures manager.Shows(Acquire(s, t, r, SHARED, lock))
    {
      value := 0;
      if response == Success {
        AcquiredLock(s, t, r, SHARED, lock);
        value := manager.GetRecord(lock);
      }
    }

    /** Find: a shared lock, then the record's value. */
    method Find(ghost s: Table<L.Lock>, r: int, trx: L.TrxNode) returns (response: Response, value: int, lock: L.Lock)
      requires manager.Shows(s) && Structure(s) && r in manager.table
      requires trx.thread in manager.trxs && manager.trxs[trx.thread] == trx && trx.conflict == null
      modifies manager`saved, manager`locks, manager.locks, manager.NodeOf(r)`head, manager.NodeOf(r)`tail,
               manager.NodeOf(r)`path
      modifies trx`deque, trx`conflict
      ensures lock.record == r && lock.thread == trx.thread && lock.mode == SHARED && lock.diff == 0
      ensures manager.locks == old(manager.locks) + {lock} && fresh({lock} - old(manager.locks))
      ensures response == Success <==> lock.state == ACTIVE && trx.conflict == null
      ensures response == Blocked <==> lock.state == WAIT && trx.conflict == lock
      ensures response == MustAbort <==> lock.state == OBSOLETE && trx.conflict == null
      ensures response == Success <==> !Obstructed(s, r, SHARED)
      ensures response == MustAbort <==> Obstructed(s, r, SHARED) && ClosesCycle(s, trx.thread, r)
      ensures response == Success ==> value == manager.table[r].value == old(manager.table[r].value)
      ensures trx.deque == old(trx.deque) + [lock] && MayAcquire(s, trx.thread, r, lock) && Listed(s.locks, s.queue[r])
      ensures manager.Shows(Acquire(s, trx.thread, r, SHARED, lock))
      ensures response == ResponseTo(AcquireOutcome(s, trx.thread, r, SHARED, lock))
    {
      hide L.LockManager.Shows, Acquire, AcquireOutcome, MayAcquire, Structure, Obstructed, ClosesCycle;
      var outcome;
      outcome, lock := manager.AcquireLock(s, SHARED, r, trx);
      response := ResponseTo(outcome);
      value := ReadGranted(s, r, trx.thread, lock, response);
    }

    /** The end of a Find that had to wait, once its transaction has been signalled: the value read then. */
    method AfterFind(ghost s: Table<L.Lock>, trx: L.TrxNode) returns (value: int, lock: L.Lock)
      requires manager.Shows(s) && trx.thread in manager.trxs && manager.trxs[trx.thread] == trx
      requires MayResume(s, trx.thread) && s.locks[s.conflict[trx.thread]].mode == SHARED
      modifies manager.locks`state, trx`conflict
      ensures lock == s.conflict[trx.thread] == old(trx.conflict) && lock.record in manager.table
      ensures lock.state == ACTIVE && trx.conflict == null
      ensures manager.Shows(Resume(s, trx.thread))
      ensures value == manager.table[lock.record].value == old(manager.table[lock.record].value)
    {
      hide L.LockManager.Shows;
      manager.SignalledShown(s, trx);
      lock := manager.AfterWait(s, trx);
      value := ReadHeld(Resume(s, trx.thread), lock);
    }

    /** The rest of an update once its lock is held: the record, then the lock's own note of the change. */
    method Apply(ghost s: Table<L.Lock>, r: int, diff: int, lock: L.Lock) returns (value: int)
      requires manager.Shows(s) && r in manager.table && lock in s.locks
      requires s.locks[lock].state == ACTIVE && s.locks[lock].mode == EXCLUSIVE && s.locks[lock].record == r
      modifies manager.NodeOf(r)`value, lock`diff
      ensures manager.Shows(SetDiff(s, lock, diff))
      ensures value == manager.table[r].value == old(manager.table[r].value) + diff && lock.diff == diff
    {
      value := manager.ChangeRecord(s, lock, diff);
      manager.SetLockDiff(s, lock, diff);
    }

    /** The rest of an update: the change, if its lock was granted at once. */
    method ApplyGranted(ghost s: Table<L.Lock>, r: int, diff: int, ghost t: nat, lock: L.Lock, response: Response)
        returns (value: int)
      requires MayAcquire(s, t, r, lock) && Listed(s.locks, s.queue[r])
      requires response == ResponseTo(AcquireOutcome(s, t, r, EXCLUSIVE, lock))
      requires manager.Shows(Acquire(s, t, r, EXCLUSIVE, lock)) && r in manager.table
      modifies manager.NodeOf(r)`value, lock`diff
      ensures manager.Shows(Updated(s, t, r, diff, lock))
      ensures response == Success ==>
        value == manager.table[r].value == old(manager.table[r].value) + diff && lock.diff == diff
      ensures response != Success ==>
        manager.table[r].value == old(manager.table[r].value) && lock.diff == old(lock.diff)
    {
      value := 0;
      if response == Success {
        AcquiredLock(s, t, r, EXCLUSIVE, lock);
        value := Apply(Acquire(s, t, r, EXCLUSIVE, lock), r, diff, lock);
      }
    }

    /** Update: an exclusive lock, then the change of the record. */
    method Update(ghost s: Table<L.Lock>, r: int, diff: int, trx: L.TrxNode)
        returns (response: Response, value: int, lock: L.Lock)
      requires manager.Shows(s) && Structure(s) && r in manager.table
      requires trx.thread in manager.trxs && manager.trxs[trx.thread] == trx && trx.conflict == null
      modifies manager`saved, manager`locks, manager.locks, manager.NodeOf(r)`head, manager.NodeOf(r)`tail,
               manager.NodeOf(r)`path
      modifies manager.NodeOf(r)`value, trx`deque, trx`conflict
      ensures lock.record == r && lock.thread == trx.thread && lock.mode == EXCLUSIVE
      ensures manager.locks == old(manager.locks) + {lock} && fresh({lock} - old(manager.locks))
      ensures response == Success <==> lock.state == ACTIVE && trx.conflict == null
      ensures response == Blocked <==> lock.state == WAIT && trx.conflict == lock
      ensures response == MustAbort <==> lock.state == OBSOLETE && trx.conflict == null
      ensures response == Success <==> !Obstructed(s, r, EXCLUSIVE)
      ensures response == MustAbort <==> Obstructed(s, r, EXCLUSIVE) && ClosesCycle(s, trx.thread, r)
      ensures response == Success ==>
        value == manager.table[r].value == old(manager.table[r].value) + diff && lock.diff == diff
      ensures response != Success ==> manager.table[r].value == old(manager.table[r].value) && lock.diff == 0
      ensures trx.deque == old(trx.deque) + [lock] && MayAcquire(s, trx.thread, r, lock) && Listed(s.locks, s.queue[r])
      ensures response == ResponseTo(AcquireOutcome(s, trx.thread, r, EXCLUSIVE, lock))
      ensures manager.Shows(Updated(s, trx.thread, r, diff, lock))
    {
      hide L.LockManager.Shows, Acquire, AcquireOutcome, MayAcquire, Structure, Obstructed, ClosesCycle, Updated;
      var outcome;
      outcome, lock := manager.AcquireLock(s, EXCLUSIVE, r, trx);
      response := ResponseTo(outcome);
      value := ApplyGranted(s, r, diff, trx.thread, lock, response);
    }

    /** The end of an Update that had to wait, once its transaction has been signalled. */
    method AfterUpdate(ghost s: Table<L.Lock>, diff: int, trx: L.TrxNode) returns (value: int, lock: L.Lock)
      requires manager.Shows(s) && trx.thread in manager.trxs && manager.trxs[trx.thread] == trx
      requires MayResume(s, trx.thread) && s.locks[s.conflict[trx.thread]].mode == EXCLUSIVE
      modifies manager.locks`state, manager.locks`diff, trx`conflict, manager.table.Values`value
      ensures lock == s.conflict[trx.thread] == old(trx.conflict) && lock.record in manager.table
      ensures lock.state == ACTIVE && trx.conflict == null && lock.diff == diff
      ensures manager.Shows(SetDiff(Resume(s, trx.thread), lock, diff))
      ensures forall r | r in manager.table ::
              manager.table[r].value == old(manager.table[r].value) + if r == lock.record then diff else 0
      ensures value == manager.table[lock.record].value
    {
      hide L.LockManager.Shows;
      manager.NodesApart(s);
      manager.SignalledShown(s, trx);
      lock := manager.AfterWait(s, trx);
      value := Apply(Resume(s, trx.thread), lock.record, diff, lock);
    }
  }
}
