/** The transaction system under the global mutex: threads that run RepeatTrx2 over a shared lock table.

    One step is one critical section of the lock table, one access to a record, one write of a lock's
    difference, the fetch_add on the commit counter, or one line appended to a thread's log. */
module Transactions {
  import opened LockTable

  /** The three different records of one transaction: Rj grows by Ri + 1 and Rk shrinks by Ri. */
  datatype Tx = Tx(i: int, j: int, k: int)

  function Rec(tx: Tx, m: nat): (r: int) { if m == 0 then tx.i else if m == 1 then tx.j else tx.k }

  function ModeOf(m: nat): (mode: Mode) { if m == 0 then SHARED else EXCLUSIVE }

  /** The difference that access m applies, from the value read at access 0. */
  function Amount(m: nat, read: int): (d: int) { if m == 0 then 0 else if m == 1 then read + 1 else -read }

  datatype PC =
    | Idle
    | Lock(m: nat)          // about to call AcquireLock for access m
    | Blocked(m: nat)       // waiting for lock m
    | Access(m: nat)        // holds lock m, about to read or change the record
    | Note(m: nat)          // changed the record, about to write the difference into the lock
    | Commit                // about to take a commit id
    | Undo(a: nat)          // rolling back, at position a of the lock deque
    | FreeUndone(a: nat)    // about to release the lock at position a
    | Log(a: nat)           // committing, about to read the value for the log
    | FreeLogged(a: nat)    // about to release the lock at position a
    | Publish               // about to append the log line
    | Done
    | AssertFailed

  /** `final` marks a rollback that follows a commit id past the last order. */
  datatype Trx = Trx(
    pc: PC, tx: Tx, deque: seq<nat>, read: int, final: bool,
    commitId: int, records: seq<int>, values: seq<int>)

  datatype LogLine = LogLine(id: int, i: int, j: int, k: int, vi: int, vj: int, vk: int)

  /** `history` lists the accepted transactions in commit order; no step reads it. */
  datatype System = System(
    table: Table<nat>, value: map<int, int>, count: nat, last: int,
    trx: seq<Trx>, logs: seq<seq<LogLine>>, history: seq<Tx>)

  /** The scheduler's choices: a new transaction, or a step with the lock object to use if it acquires. */
  datatype Action = Start(tx: Tx) | Step(l: nat)

  /** Records are numbered from 1. */
  function ForRecords<V>(n: nat, v: V): (m: map<int, V>)
    ensures (forall r: int :: r in m <==> 1 <= r <= n) && (forall r | r in m :: m[r] == v)
  {
    if n == 0 then map[] else ForRecords(n - 1, v)[n := v]
  }

  ghost function Init(records: nat, threads: nat, last: int): (s: System)
  {
    System(
      Table(map[], ForRecords(records, []), map[]),
      ForRecords(records, 100),
      0, last,
      seq(threads, _ => Trx(Idle, Tx(0, 0, 0), [], 0, false, 0, [], [])),
      seq(threads, _ => []), [])
  }

  predicate ValidTx(s: System, tx: Tx)
  {
    tx.i in s.value && tx.j in s.value && tx.k in s.value && tx.i != tx.j && tx.i != tx.k && tx.j != tx.k
  }

  function Put(s: System, t: nat, x: Trx): (s1: System)
    requires t < |s.trx|
  {
    s.(trx := s.trx[t := x])
  }

  /** An assert of the source failed, or a pointer was null. */
  function Fail(s: System, t: nat): (s1: System)
    requires t < |s.trx|
  {
    Put(s, t, s.trx[t].(pc := AssertFailed))
  }

  function Begin(s: System, t: nat, tx: Tx): (s1: System)
    requires t < |s.trx|
  {
    Put(s, t, s.trx[t].(pc := Lock(0), tx := tx, deque := [], final := false))
      .(table := NoConflict(s.table, t))
  }

  ghost function StepLock(s: System, t: nat, m: nat, l: nat): (s1: System)
    requires t < |s.trx|
  {
    var x := s.trx[t];
    var r := Rec(x.tx, m);
    if l in s.table.locks && !Recyclable(s.table, t, r, l) then s
    else if !MayAcquire(s.table, t, r, l) || !Listed(s.table.locks, s.table.queue[r]) then Fail(s, t)
    else
      var pc :=
        match AcquireOutcome(s.table, t, r, ModeOf(m), l)
        case Granted => Access(m)
        case Waiting => Blocked(m)
        case Deadlocked => Undo(0);
      Put(s, t, x.(pc := pc, deque := x.deque + [l])).(table := Acquire(s.table, t, r, ModeOf(m), l))
  }

  function StepBlocked(s: System, t: nat, m: nat): (s1: System)
    requires t < |s.trx|
  {
    if MayResume(s.table, t) then
      Put(s, t, s.trx[t].(pc := Access(m))).(table := Resume(s.table, t))
    else s
  }

  /** The preconditions that GetRecord and ChangeRecord assert of the a-th lock. */
  predicate Readable(s: System, t: nat, a: nat)
    requires t < |s.trx|
  {
    var d := s.trx[t].deque;
    a < |d| && d[a] in s.table.locks && s.table.locks[d[a]].state != OBSOLETE && s.table.locks[d[a]].record in s.value
  }

  predicate Changeable(s: System, t: nat, a: nat)
    requires t < |s.trx|
  {
    Readable(s, t, a) && s.table.locks[s.trx[t].deque[a]].mode == EXCLUSIVE
  }

  function StepAccess(s: System, t: nat, m: nat): (s1: System)
    requires t < |s.trx|
  {
    var x := s.trx[t];
    if !(if m == 0 then Readable(s, t, m) else Changeable(s, t, m)) then Fail(s, t)
    else
      var r := s.table.locks[x.deque[m]].record;
      if m == 0 then Put(s, t, x.(pc := Lock(1), read := s.value[r]))
      else Put(s, t, x.(pc := Note(m))).(value := s.value[r := s.value[r] + Amount(m, x.read)])
  }

  function StepNote(s: System, t: nat, m: nat): (s1: System)
    requires t < |s.trx|
  {
    var x := s.trx[t];
    if m >= |x.deque| || x.deque[m] !in s.table.locks then Fail(s, t)
    else
      Put(s, t, x.(pc := if m == 1 then Lock(2) else Commit))
        .(table := SetDiff(s.table, x.deque[m], Amount(m, x.read)))
  }

  function StepCommit(s: System, t: nat): (s1: System)
    requires t < |s.trx|
  {
    var x := s.trx[t];
    var id := s.count + 1;
    if id > s.last then Put(s, t, x.(pc := Undo(0), final := true)).(count := id)
    else Put(s, t, x.(pc := Log(0), commitId := id, records := [], values := [])).(count := id,
        history := s.history + [x.tx])
  }

  function StepUndo(s: System, t: nat, a: nat): (s1: System)
    requires t < |s.trx|
  {
    var x := s.trx[t];
    if a >= |x.deque| then Put(s, t, x.(pc := if x.final then Done else Idle))
    else if x.deque[a] !in s.table.locks then Fail(s, t)
    else
      var i := s.table.locks[x.deque[a]];
      if i.mode == EXCLUSIVE && i.state != OBSOLETE then
        if i.record !in s.value then Fail(s, t)
        else Put(s, t, x.(pc := FreeUndone(a))).(value := s.value[i.record := s.value[i.record] - i.diff])
      else Put(s, t, x.(pc := FreeUndone(a)))
  }

  ghost function StepFree(s: System, t: nat, a: nat, next: PC): (s1: System)
    requires t < |s.trx|
  {
    var x := s.trx[t];
    if a >= |x.deque| || x.deque[a] !in s.table.locks then Fail(s, t)
    else
      var r := s.table.locks[x.deque[a]].record;
      if r !in s.table.queue || s.table.queue[r] == [] || !Listed(s.table.locks, s.table.queue[r]) then Fail(s, t)
      else Put(s, t, x.(pc := next)).(table := Release(s.table, x.deque[a]))
  }

  function StepLog(s: System, t: nat, a: nat): (s1: System)
    requires t < |s.trx|
  {
    var x := s.trx[t];
    if a >= |x.deque| then Put(s, t, x.(pc := Publish))
    else if !Readable(s, t, a) then Fail(s, t)
    else
      var r := s.table.locks[x.deque[a]].record;
      Put(s, t, x.(pc := FreeLogged(a), records := x.records + [r], values := x.values + [s.value[r]]))
  }

  function StepPublish(s: System, t: nat): (s1: System)
    requires t < |s.trx| == |s.logs|
  {
    var x := s.trx[t];
    if |x.records| != 3 || |x.values| != 3 then Fail(s, t)
    else
      var line := LogLine(x.commitId, x.records[0], x.records[1], x.records[2], x.values[0], x.values[1], x.values[2]);
      Put(s, t, x.(pc := Idle)).(logs := s.logs[t := s.logs[t] + [line]])
  }

  ghost function StepOf(s: System, t: nat, l: nat): (s1: System)
    requires t < |s.trx| == |s.logs|
  {
    match s.trx[t].pc
    case Lock(m) => StepLock(s, t, m, l)
    case Blocked(m) => StepBlocked(s, t, m)
    case Access(m) => StepAccess(s, t, m)
    case Note(m) => StepNote(s, t, m)
    case Commit => StepCommit(s, t)
    case Undo(a) => StepUndo(s, t, a)
    case FreeUndone(a) => StepFree(s, t, a, Undo(a + 1))
    case Log(a) => StepLog(s, t, a)
    case FreeLogged(a) => StepFree(s, t, a, Log(a + 1))
    case Publish => StepPublish(s, t)
    case _ => s
  }

  /** One scheduled event; an event that is not possible leaves the system alone. */
  ghost function Do(s: System, t: nat, a: Action): (s1: System)
    requires |s.trx| == |s.logs|
    ensures |s1.trx| == |s1.logs| == |s.trx|
  {
    if t >= |s.trx| then s
    else
      match a
      case Start(tx) => if s.trx[t].pc.Idle? && ValidTx(s, tx) then Begin(s, t, tx) else s
      case Step(l) => StepOf(s, t, l)
  }

  /** The system after a whole schedule. */
  ghost function Exec(records: nat, threads: nat, last: int, sched: seq<(nat, Action)>): (s: System)
    ensures |s.trx| == |s.logs| == threads
  {
    if sched == [] then Init(records, threads, last)
    else
      var s := Exec(records, threads, last, sched[..|sched| - 1]);
      var (t, a) := sched[|sched| - 1];
      Do(s, t, a)
  }
}
