/** Which request of which transaction is granted, waits, or ends in a rollback, in every run. */
module SystemRequests {
  import opened LockTable
  import opened Requests
  import opened SystemInvariant
  import opened SystemSafety
  import opened Transactions

  /** Access y of u's transaction is on record r, and its lock is in use. */
  ghost predicate UsesRecord(s: System, u: nat, y: nat, r: int)
  {
    && u < |s.trx| && y < |s.trx[u].deque| && s.trx[u].deque[y] in s.table.locks && Rec(s.trx[u].tx, y) == r
    && var i := s.table.locks[s.trx[u].deque[y]];
       i.state != OBSOLETE && i.thread == u && i.record == r
  }

  /** The locks that a transaction has not yet released are those of its accesses. */
  lemma {:induction false} NotYetReleased(s: System, u: nat, y: nat)
    requires u < |s.trx| && TrxOK(s, u) && From(s.trx[u]) <= y < |s.trx[u].deque|
    ensures Own(s, u, y) && y <= 2 && ValidTx(s, s.trx[u].tx)
  {
    var x := s.trx[u];
    match x.pc {
      case Undo(_) => assert y < Good(x) ==> Noted(s, u, y);
      case FreeUndone(_) => assert y < Good(x) ==> Noted(s, u, y);
      case Log(_) => assert Holds(s, u, y);
      case FreeLogged(_) => assert Holds(s, u, y);
      case Commit => assert Noted(s, u, y);
      case Lock(m) => assert Noted(s, u, y);
      case Blocked(m) => assert y < m ==> Noted(s, u, y);
      case Access(m) => assert y < m ==> Noted(s, u, y);
      case Note(m) => assert y < m ==> Noted(s, u, y);
      case _ =>
    }
  }

  /** A lock in use is known to its transaction, with the record and the mode of the access. */
  lemma {:induction false} UserOf(s: System, l: nat) returns (u: nat, y: nat)
    requires SysInv(s) && l in s.table.locks && s.table.locks[l].state != OBSOLETE
    ensures u == s.table.locks[l].thread && UsesRecord(s, u, y, s.table.locks[l].record)
    ensures s.trx[u].deque[y] == l && y <= 2 && s.table.locks[l].mode == ModeOf(y) && ValidTx(s, s.trx[u].tx)
  {
    assert OwnedOK(s, l);
    u := s.table.locks[l].thread;
    y :| From(s.trx[u]) <= y < |s.trx[u].deque| && s.trx[u].deque[y] == l;
    NotYetReleased(s, u, y);
  }

  /** The mode of a lock in use follows from the access. */
  lemma {:induction false} ModeOfUse(s: System, u: nat, y: nat, r: int)
    requires SysInv(s) && UsesRecord(s, u, y, r)
    ensures s.table.locks[s.trx[u].deque[y]].mode == ModeOf(y)
    ensures r in s.table.queue && s.trx[u].deque[y] in s.table.queue[r]
  {
    var v, z := UserOf(s, s.trx[u].deque[y]);
    assert LockOK(s.table, s.trx[u].deque[y]);
  }

  /** A record's locks in use are those of the accesses that use it. */
  lemma {:induction false} ObstructedBy(s: System, r: int, m: nat)
    requires SysInv(s)
    ensures Obstructed(s.table, r, ModeOf(m)) <==>
      exists u: nat, y: nat :: UsesRecord(s, u, y, r) && (m > 0 || y > 0)
  {
    if Obstructed(s.table, r, ModeOf(m)) {
      var k :| 0 <= k < |s.table.queue[r]| && s.table.queue[r][k] in s.table.locks
               && s.table.locks[s.table.queue[r][k]].state != OBSOLETE
               && (ModeOf(m) == EXCLUSIVE || s.table.locks[s.table.queue[r][k]].mode == EXCLUSIVE);
      assert PathOK(s.table, r);
      var u, y := UserOf(s, s.table.queue[r][k]);
    }
    if u: nat, y: nat :| UsesRecord(s, u, y, r) && (m > 0 || y > 0) {
      ModeOfUse(s, u, y, r);
      var k :| 0 <= k < |s.table.queue[r]| && s.table.queue[r][k] == s.trx[u].deque[y];
    }
  }

  /** A transaction about to ask for a record does not use it. */
  lemma {:induction false} NotItsOwn(s: System, t: nat, m: nat, y: nat)
    requires SysInv(s) && t < |s.trx| && s.trx[t].pc == Lock(m)
    ensures !UsesRecord(s, t, y, Rec(s.trx[t].tx, m))
  {
    assert TrxOK(s, t);
  }

  lemma {:induction false} ClosedBy(s: System, t: nat, m: nat)
    requires SysInv(s) && t < |s.trx| && s.trx[t].pc == Lock(m)
    ensures var r := Rec(s.trx[t].tx, m);
      ClosesCycle(s.table, t, r) <==> exists u: nat, y: nat :: UsesRecord(s, u, y, r) && Reaches(s.table, u, t)
  {
    var r := Rec(s.trx[t].tx, m);
    if ClosesCycle(s.table, t, r) {
      var k :| 0 <= k < |s.table.queue[r]| && s.table.queue[r][k] in s.table.locks
               && s.table.locks[s.table.queue[r][k]].state != OBSOLETE
               && (s.table.locks[s.table.queue[r][k]].thread == t
                   || Reaches(s.table, s.table.locks[s.table.queue[r][k]].thread, t));
      assert PathOK(s.table, r);
      var u, y := UserOf(s, s.table.queue[r][k]);
      NotItsOwn(s, t, m, y);
    }
    if u: nat, y: nat :| UsesRecord(s, u, y, r) && Reaches(s.table, u, t) {
      ModeOfUse(s, u, y, r);
      var k :| 0 <= k < |s.table.queue[r]| && s.table.queue[r][k] == s.trx[u].deque[y];
    }
  }

  /** A transaction asks for its next record, with a new lock or one of its own to reuse.  First accesses get in
      each other's way never, all others always: it goes on to the access if nobody stands in its way, is
      rolled back if somebody who uses the record waits for it, directly or not, and waits otherwise. */
  lemma {:induction false} RequestDecided(records: nat, threads: nat, last: int, sched: seq<(nat, Action)>, t: nat,
      m: nat, l: nat)
    requires t < threads && Exec(records, threads, last, sched).trx[t].pc == Lock(m)
    requires var s := Exec(records, threads, last, sched);
      l in s.table.locks ==> Recyclable(s.table, t, Rec(s.trx[t].tx, m), l)
    ensures var s := Exec(records, threads, last, sched);
      var s1 := Exec(records, threads, last, sched + [(t, Step(l))]);
      var r := Rec(s.trx[t].tx, m);
      var inTheWay := exists u: nat, y: nat :: UsesRecord(s, u, y, r) && (m > 0 || y > 0);
      var waitsForIt := exists u: nat, y: nat :: UsesRecord(s, u, y, r) && Reaches(s.table, u, t);
      && (s1.trx[t].pc == Access(m) <==> !inTheWay)
      && (s1.trx[t].pc == Undo(0) <==> inTheWay && waitsForIt)
      && (s1.trx[t].pc == Blocked(m) <==> inTheWay && !waitsForIt)
      && s1.trx[t].deque == s.trx[t].deque + [l] && l in s1.table.locks
      && s1.table.locks[l].record == r && s1.table.locks[l].thread == t
      && (s1.table.locks[l].mode == EXCLUSIVE <==> m > 0) && s1.value == s.value
  {
    RunInv(records, threads, last, sched);
    var s := Exec(records, threads, last, sched);
    assert (sched + [(t, Step(l))])[..|sched|] == sched;
    LockFacts(s, t, m, l);
    var r := Rec(s.trx[t].tx, m);
    ObstructedBy(s, r, m);
    ClosedBy(s, t, m);
    AcquireDecides(s.table, t, r, ModeOf(m), l);
  }

  /** Readers do not wait for each other: a first access to a record that only first accesses use is granted. */
  lemma {:induction false} ReadersShare(records: nat, threads: nat, last: int, sched: seq<(nat, Action)>, t: nat,
      l: nat)
    requires t < threads && Exec(records, threads, last, sched).trx[t].pc == Lock(0)
    requires var s := Exec(records, threads, last, sched);
      && (l in s.table.locks ==> Recyclable(s.table, t, s.trx[t].tx.i, l))
      && forall u: nat, y: nat | UsesRecord(s, u, y, s.trx[t].tx.i) :: y == 0
    ensures Exec(records, threads, last, sched + [(t, Step(l))]).trx[t].pc == Access(0)
  {
    RequestDecided(records, threads, last, sched, t, 0, l);
  }
}
