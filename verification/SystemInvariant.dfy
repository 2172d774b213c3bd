/** The invariant of the transaction system. */
module SystemInvariant {
  import opened LockTable
  import opened Transactions

  // ---------------------------------------------------------------- replaying a history

  /** The value of record r after the first assignment of tx has been replayed on top of h. */
  function AfterFirst(h: seq<Tx>, tx: Tx, r: int): (v: int)
    decreases |h|, 1
  {
    if r == tx.j then At(h, tx.j) + (At(h, tx.i) + 1) else At(h, r)
  }

  /** The value of record r after the transactions of h, one at a time, from the all-100 table. */
  function At(h: seq<Tx>, r: int): (v: int)
    decreases |h|, 0
  {
    if h == [] then 100
    else
      var tx := h[|h| - 1];
      var p := h[..|h| - 1];
      if r == tx.k then AfterFirst(p, tx, tx.k) - AfterFirst(p, tx, tx.i) else AfterFirst(p, tx, r)
  }

  // ---------------------------------------------------------------- what a transaction holds

  /** Position m of the deque is t's lock for access m. */
  predicate Own(s: System, t: nat, m: nat)
    requires t < |s.trx|
  {
    var x := s.trx[t];
    && m < |x.deque| && x.deque[m] in s.table.locks
    && var i := s.table.locks[x.deque[m]];
       i.thread == t && i.record == Rec(x.tx, m) && i.mode == ModeOf(m)
  }

  predicate Holds(s: System, t: nat, m: nat)
    requires t < |s.trx|
  {
    Own(s, t, m) && s.table.locks[s.trx[t].deque[m]].state == ACTIVE
  }

  /** ... and the lock knows the difference that was applied under it. */
  predicate Noted(s: System, t: nat, m: nat)
    requires t < |s.trx|
  {
    Holds(s, t, m) && s.table.locks[s.trx[t].deque[m]].diff == Amount(m, s.trx[t].read)
  }

  /** The first m accesses are complete, and the record read is still as it was read. */
  ghost predicate Complete(s: System, t: nat, m: nat)
    requires t < |s.trx|
  {
    var x := s.trx[t];
    && m <= 3 && (forall y | 0 <= y < m :: Noted(s, t, y))
    && (m > 0 ==> x.tx.i in s.value && s.value[x.tx.i] == x.read)
  }

  /** The number of locks in the deque that were granted: a rollback that follows a deadlock has its
      victim last. */
  function Good(x: Trx): (k: int)
  {
    if x.final then |x.deque| else |x.deque| - 1
  }

  ghost predicate Rollback(s: System, t: nat, a: nat)
    requires t < |s.trx|
  {
    var x := s.trx[t];
    && a <= |x.deque| <= 3 && (x.final ==> |x.deque| == 3) && Good(x) >= 0
    && (forall y | a <= y < Good(x) :: Noted(s, t, y))
    && (!x.final && a < |x.deque| ==>
          Own(s, t, |x.deque| - 1) && s.table.locks[x.deque[|x.deque| - 1]].state == OBSOLETE)
  }

  /** A committed transaction that still holds its locks from position a on: those records have the
      values of the serial replay, and so have the values it has logged. */
  ghost predicate Logging(s: System, t: nat, a: nat, logged: nat)
    requires t < |s.trx|
  {
    var x := s.trx[t];
    && |x.deque| == 3 && 1 <= x.commitId <= |s.history| && s.history[x.commitId - 1] == x.tx
    && logged <= 3 && |x.records| == logged && |x.values| == logged
    && (forall y | a <= y < 3 ::
          Holds(s, t, y) && Rec(x.tx, y) in s.value
          && s.value[Rec(x.tx, y)] == At(s.history[..x.commitId], Rec(x.tx, y)))
    && (forall y | 0 <= y < logged ::
          x.records[y] == Rec(x.tx, y) && x.values[y] == At(s.history[..x.commitId], Rec(x.tx, y)))
  }

  ghost predicate TrxOK(s: System, t: nat)
    requires t < |s.trx|
  {
    var x := s.trx[t];
    && (x.pc.Blocked? <==> t in s.table.conflict)
    && (x.pc.Idle? || x.pc.Done? || ValidTx(s, x.tx))
    && (x.pc.Lock? || x.pc.Blocked? || x.pc.Access? || x.pc.Note? || x.pc.Commit? ==> !x.final)
    && match x.pc
       case Idle => true
       case Done => s.count > s.last
       case Lock(m) => m <= 2 && |x.deque| == m && Complete(s, t, m)
       case Blocked(m) => m <= 2 && |x.deque| == m + 1 && Complete(s, t, m) && Own(s, t, m)
           && s.table.conflict[t] == x.deque[m]
                          && s.table.locks[x.deque[m]].state == WAIT && s.table.locks[x.deque[m]].diff == 0
       case Access(m) => m <= 2 && |x.deque| == m + 1 && Complete(s, t, m) && Holds(s, t, m)
           && s.table.locks[x.deque[m]].diff == 0
       case Note(m) => 1 <= m <= 2 && |x.deque| == m + 1 && Complete(s, t, m) && Holds(s, t, m)
       case Commit => |x.deque| == 3 && Complete(s, t, 3)
       case Undo(a) => Rollback(s, t, a) && (x.final ==> s.count > s.last)
       case FreeUndone(a) => a < |x.deque| && Rollback(s, t, a) && (x.final ==> s.count > s.last)
       case Log(a) => a <= 3 && Logging(s, t, a, a)
       case FreeLogged(a) => a < 3 && Logging(s, t, a, a + 1)
       case Publish => Logging(s, t, 3, 3)
       case AssertFailed => false
  }

  /** The position from which t's locks are not yet released. */
  function From(x: Trx): (a: nat)
  {
    match x.pc
    case Undo(a) => a
    case FreeUndone(a) => a
    case Log(a) => a
    case FreeLogged(a) => a
    case Publish => |x.deque|
    case Idle => |x.deque|
    case Done => |x.deque|
    case _ => 0
  }

  /** A lock in use belongs to a transaction that will release it. */
  ghost predicate OwnedOK(s: System, l: nat)
    requires l in s.table.locks
  {
    var i := s.table.locks[l];
    i.state != OBSOLETE ==>
      i.thread < |s.trx| && exists y ::
          From(s.trx[i.thread]) <= y < |s.trx[i.thread].deque| && s.trx[i.thread].deque[y] == l
  }

  // ---------------------------------------------------------------- conservation of values

  /** Access m of the transaction is applied, and neither undone nor committed. */
  predicate Applied(x: Trx, m: nat)
  {
    match x.pc
    case Lock(n) => m < n
    case Blocked(n) => m < n
    case Access(n) => m < n
    case Note(n) => m <= n
    case Commit => m < 3
    case Undo(a) => a <= m < Good(x)
    case FreeUndone(a) => a < m < Good(x)
    case _ => false
  }

  /** What the transaction in flight has added to record r. */
  function Pending(x: Trx, r: int): (d: int)
  {
    (if Applied(x, 1) && x.tx.j == r then Amount(1, x.read) else 0)
    + (if Applied(x, 2) && x.tx.k == r then Amount(2, x.read) else 0)
  }

  function SumPending(xs: seq<Trx>, r: int): (d: int)
  {
    if xs == [] then 0 else Pending(xs[0], r) + SumPending(xs[1..], r)
  }

  /** A record is its committed value plus the differences in flight. */
  ghost predicate ValueOK(s: System, r: int)
    requires r in s.value
  {
    s.value[r] == At(s.history, r) + SumPending(s.trx, r)
  }

  // ---------------------------------------------------------------- commit ids

  predicate Committing(x: Trx) { x.pc.Log? || x.pc.FreeLogged? || x.pc.Publish? }

  function NumCommitting(xs: seq<Trx>): (k: nat)
  {
    if xs == [] then 0 else (if Committing(xs[0]) then 1 else 0) + NumCommitting(xs[1..])
  }

  function NumLines(logs: seq<seq<LogLine>>): (k: nat)
  {
    if logs == [] then 0 else |logs[0]| + NumLines(logs[1..])
  }

  /** A published line is what the serial replay of its prefix of the history gives. */
  ghost predicate LineOK(h: seq<Tx>, e: LogLine)
  {
    && 1 <= e.id <= |h| && h[e.id - 1] == Tx(e.i, e.j, e.k)
    && e.vi == At(h[..e.id], e.i) && e.vj == At(h[..e.id], e.j) && e.vk == At(h[..e.id], e.k)
  }

  predicate IsLine(logs: seq<seq<LogLine>>, t: nat, y: nat)
  {
    t < |logs| && y < |logs[t]|
  }

  ghost predicate IdsOK(s: System)
    requires |s.trx| == |s.logs|
  {
    && (forall t, u | 0 <= t < u < |s.trx| && Committing(s.trx[t]) && Committing(s.trx[u]) ::
          s.trx[t].commitId != s.trx[u].commitId)
    && (forall t: nat, u: nat, y: nat | t < |s.trx| && Committing(s.trx[t]) && IsLine(s.logs, u, y) ::
          s.logs[u][y].id != s.trx[t].commitId)
    && (forall t: nat, y: nat, u: nat, z: nat | IsLine(s.logs, t, y) && IsLine(s.logs, u, z) && (t, y) != (u, z) ::
          s.logs[t][y].id != s.logs[u][z].id)
    && NumCommitting(s.trx) + NumLines(s.logs) == |s.history|
    && |s.history| == (if s.count <= s.last then s.count else if s.last < 0 then 0 else s.last)
  }

  ghost predicate LinesOK(s: System)
  {
    forall t: nat, y: nat | IsLine(s.logs, t, y) :: LineOK(s.history, s.logs[t][y])
  }

  ghost predicate SysInv(s: System)
  {
    && |s.trx| == |s.logs| && s.value.Keys == s.table.queue.Keys && TableInv(s.table)
    && (forall t | 0 <= t < |s.trx| :: TrxOK(s, t))
    && (forall l | l in s.table.locks :: OwnedOK(s, l))
    && (forall r | r in s.value :: ValueOK(s, r))
    && (forall x | x in s.history :: ValidTx(s, x))
    && LinesOK(s) && IdsOK(s)
  }
}
