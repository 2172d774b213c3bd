/** What every run of the transaction system guarantees: any number of records and threads, any last
    order, any schedule. */
module SystemTheorems {
  import opened LockTable
  import opened WaitGraph
  import opened Transactions
  import opened SystemInvariant
  import opened SystemFrame
  import opened SystemSafety
  import opened Replay

  // ---------------------------------------------------------------- serializability

  /** Commit order is a serialization order: every published line carries the values that the serial
      replay of the accepted transactions, in commit order, gives right after its own.  The replay starts from
      100 everywhere, and its own transaction has read one record, left it alone, and changed the other two. */
  lemma {:induction false} LinesReplay(records: nat, threads: nat, last: int, sched: seq<(nat, Action)>, t: nat, y: nat)
    requires IsLine(Exec(records, threads, last, sched).logs, t, y)
    ensures var s := Exec(records, threads, last, sched);
            var e := s.logs[t][y];
      && 1 <= e.id <= |s.history| && s.history[e.id - 1] == Tx(e.i, e.j, e.k)
      && e.vi == At(s.history[..e.id], e.i) && e.vj == At(s.history[..e.id], e.j) && e.vk == At(s.history[..e.id], e.k)
      && var h := s.history[..e.id - 1];
         e.vi == At(h, e.i) && e.vj == At(h, e.j) + At(h, e.i) + 1 && e.vk == At(h, e.k) - At(h, e.i)
         && (e.id == 1 ==> e.vi == 100 && e.vj == 201 && e.vk == 0)
  {
    RunInv(records, threads, last, sched);
    var s := Exec(records, threads, last, sched);
    var e := s.logs[t][y];
    assert LineOK(s.history, e) && ValidTx(s, s.history[e.id - 1]);
    assert s.history[..e.id][..e.id - 1] == s.history[..e.id - 1];
  }

  lemma {:induction false} AtLeastIndex(s: seq<LogLine>, x: nat)
    requires Ordered(s) && DistinctIds(s) && x < |s| && forall e | e in s :: 1 <= e.id <= |s|
    ensures s[x].id >= x + 1
  {
    assert s[x] in s;
    if x > 0 {
      AtLeastIndex(s, x - 1);
      assert s[x - 1].id <= s[x].id && s[x - 1].id != s[x].id;
    }
  }

  lemma {:induction false} AtMostIndex(s: seq<LogLine>, x: nat)
    requires Ordered(s) && DistinctIds(s) && x < |s| && forall e | e in s :: 1 <= e.id <= |s|
    ensures s[x].id <= x + 1
    decreases |s| - x
  {
    assert s[x] in s;
    if x < |s| - 1 {
      AtMostIndex(s, x + 1);
      assert s[x].id <= s[x + 1].id && s[x].id != s[x + 1].id;
    }
  }

  /** Distinct ids in the range 1..n, in order, are exactly 1..n. */
  lemma {:induction false} DenseIds(s: seq<LogLine>, x: nat)
    requires Ordered(s) && DistinctIds(s) && x < |s| && forall e | e in s :: 1 <= e.id <= |s|
    ensures s[x].id == x + 1
  {
    AtLeastIndex(s, x);
    AtMostIndex(s, x);
  }

  lemma {:induction false} LinesAppend(files: seq<seq<LogLine>>, f: seq<LogLine>)
    ensures NumLines(files + [f]) == NumLines(files) + |f|
  {
    if files != [] {
      LinesAppend(files[1..], f);
      assert (files + [f])[1..] == files[1..] + [f];
    } else {
      assert (files + [f])[1..] == [];
    }
  }

  lemma {:induction false} FlatLength(files: seq<seq<LogLine>>)
    ensures |Flat(files)| == NumLines(files)
  {
    if files != [] {
      var last := |files| - 1;
      FlatLength(files[..last]);
      LinesAppend(files[..last], files[last]);
      assert files[..last] + [files[last]] == files;
    }
  }

  /** Lines that differ pairwise in their ids across all files differ after concatenation. */
  lemma {:induction false} FlatDistinct(files: seq<seq<LogLine>>)
    requires forall t: nat, y: nat, u: nat, z: nat | IsLine(files, t, y) && IsLine(files, u, z) && (t, y) != (u, z) ::
             files[t][y].id != files[u][z].id
    ensures DistinctIds(Flat(files))
  {
    if files != [] {
      var last: nat := |files| - 1;
      var front := files[..last];
      forall t: nat, y: nat, u: nat, z: nat | IsLine(front, t, y) && IsLine(front, u, z) && (t, y) != (u, z)
        ensures front[t][y].id != front[u][z].id
      {
        assert IsLine(files, t, y) && IsLine(files, u, z);
      }
      FlatDistinct(front);
      var f := Flat(files);
      forall a, b | 0 <= a < b < |f| ensures f[a].id != f[b].id {
        if b >= |Flat(front)| {
          var z: nat := b - |Flat(front)|;
          assert IsLine(files, last, z);
          if a < |Flat(front)| {
            FlatMember(front, f[a]);
            var t :| 0 <= t < |front| && f[a] in front[t];
            var y :| 0 <= y < |front[t]| && front[t][y] == f[a];
            assert IsLine(files, t, y);
          } else {
            assert IsLine(files, last, a - |Flat(front)|);
          }
        }
      }
    }
  }

  lemma {:induction false} PublishedLines(s: System)
    requires SysInv(s)
    ensures forall e | e in Flat(s.logs) :: LineOK(s.history, e)
  {
    forall e | e in Flat(s.logs) ensures LineOK(s.history, e) {
      FlatMember(s.logs, e);
      var t :| 0 <= t < |s.logs| && e in s.logs[t];
      var y :| 0 <= y < |s.logs[t]| && s.logs[t][y] == e;
      assert IsLine(s.logs, t, y);
    }
  }

  ghost predicate AllDone(s: System)
  {
    |s.trx| > 0 && forall t | 0 <= t < |s.trx| :: s.trx[t].pc.Done?
  }

  lemma {:induction false} AllPublished(s: System)
    requires SysInv(s) && AllDone(s)
    ensures |Flat(s.logs)| == |s.history| == (if s.last < 0 then 0 else s.last) && DistinctIds(Flat(s.logs))
  {
    assert TrxOK(s, 0);
    NoneCommitting(s.trx);
    FlatLength(s.logs);
    FlatDistinct(s.logs);
  }

  /** A dense sorted log of correct lines is the history, line by line. */
  lemma {:induction false} SortedLog(f: seq<LogLine>, h: seq<Tx>)
    requires |f| == |h| && DistinctIds(f) && forall e | e in f :: LineOK(h, e)
    ensures var r := SortById(f);
            |r| == |h| && Txs(r) == h
            && forall x | 0 <= x < |h| :: r[x].id == x + 1 && LineOK(h, r[x])
  {
    var r := SortById(f);
    SortCorrect(f);
    forall x | 0 <= x < |r| ensures r[x].id == x + 1 && LineOK(h, r[x]) && Txs(r)[x] == h[x] {
      assert r[x] in r;
      DenseIds(r, x);
    }
  }

  /** Records and the last order never change. */
  lemma {:induction false} RunRecords(records: nat, threads: nat, last: int, sched: seq<(nat, Action)>)
    ensures var s := Exec(records, threads, last, sched);
            s.last == last
            && forall r :: r in s.value <==> 1 <= r <= records
  {
    if sched != [] {
      RunRecords(records, threads, last, sched[..|sched| - 1]);
    }
  }

  /** Every record named in a log line exists. */
  lemma {:induction false} LinesInTable(s: System, records: nat)
    requires SysInv(s) && forall r :: r in s.value <==> 1 <= r <= records
    ensures forall e | e in Flat(s.logs) :: InTable(e, records)
  {
    PublishedLines(s);
    forall e | e in Flat(s.logs) ensures InTable(e, records) {
      assert LineOK(s.history, e);
      assert s.history[e.id - 1] in s.history;
    }
  }

  lemma {:induction false} LinesAgree(s: System)
    requires SysInv(s) && AllDone(s)
    ensures Consistent(SortById(Flat(s.logs)))
  {
    PublishedLines(s);
    AllPublished(s);
    SortedLog(Flat(s.logs), s.history);
    var r := SortById(Flat(s.logs));
    forall x | 0 <= x < |r| ensures Agrees(r, x) { assert LineOK(s.history, r[x]); }
  }

  /** On every completed run there are as many log lines as the last order says, none if it is negative, and
      the replay agrees with every logged value. */
  lemma {:induction false} RunIsCorrect(records: nat, threads: nat, last: int, sched: seq<(nat, Action)>)
    requires AllDone(Exec(records, threads, last, sched))
    ensures var files := Exec(records, threads, last, sched).logs;
      && (forall e | e in Flat(files) :: InTable(e, records))
      && |Flat(files)| == (if last < 0 then 0 else last) && Consistent(SortById(Flat(files)))
  {
    RunInv(records, threads, last, sched);
    RunRecords(records, threads, last, sched);
    hide Exec, SysInv, AllDone;
    var s := Exec(records, threads, last, sched);
    LinesInTable(s, records);
    AllPublished(s);
    LinesAgree(s);
  }

  /** The program checks itself: a run to the end, then the check.  Its assert on the number of lines fails on
      a negative last order and on no other. */
  method CheckCompletedRun(records: nat, threads: nat, last: int, ghost sched: seq<(nat, Action)>,
      files: seq<seq<LogLine>>)
    returns (sized: bool, ok: bool)
    requires AllDone(Exec(records, threads, last, sched))
             && files == Exec(records, threads, last, sched).logs
    ensures (sized <==> last >= 0) && (sized ==> ok)
  {
    RunIsCorrect(records, threads, last, sched);
    sized, ok := IsCorrect(records, files, last);
  }

  // ---------------------------------------------------------------- values

  /** Value conservation: a record is 100 plus the accepted transactions, replayed in commit order,
      plus the differences of updates that are neither committed nor undone. */
  lemma {:induction false} ValuesConserved(records: nat, threads: nat, last: int, sched: seq<(nat, Action)>, r: int)
    requires 1 <= r <= records
    ensures var s := Exec(records, threads, last, sched);
      r in s.value && s.value[r] == At(s.history, r) + SumPending(s.trx, r)
  {
    RunInv(records, threads, last, sched);
    RunRecords(records, threads, last, sched);
    assert ValueOK(Exec(records, threads, last, sched), r);
  }

  /** Exact undo: once a rollback has passed its last lock, the transaction has left no trace in any
      record; the values are those of a system where it never started. */
  lemma {:induction false} UndoExact(records: nat, threads: nat, last: int, sched: seq<(nat, Action)>, t: nat, r: int)
    requires t < threads && 1 <= r <= records
    requires var x := Exec(records, threads, last, sched).trx[t]; x.pc == Undo(|x.deque|) || x.pc.Idle? || x.pc.Done?
    ensures var s := Exec(records, threads, last, sched);
      r in s.value && s.value[r] == At(s.history, r) + SumPending(s.trx[t := Init(records, threads, last).trx[t]], r)
  {
    ValuesConserved(records, threads, last, sched, r);
    var s := Exec(records, threads, last, sched);
    SumPut(s.trx, t, Init(records, threads, last).trx[t], r);
  }

  /** No transaction ever reads a value that is later undone: what Find reads is committed. */
  lemma {:induction false} ReadsCommitted(records: nat, threads: nat, last: int, sched: seq<(nat, Action)>, t: nat,
      l: nat)
    requires t < threads && Exec(records, threads, last, sched).trx[t].pc == Access(0)
    ensures var s := Exec(records, threads, last, sched); var s1 := Do(s, t, Step(l));
      s1.trx[t].pc == Lock(1) && s1.trx[t].read == At(s.history, s.trx[t].tx.i)
  {
    RunInv(records, threads, last, sched);
    var s := Exec(records, threads, last, sched);
    assert TrxOK(s, t);
    var r := s.trx[t].tx.i;
    assert Holds(s, t, 0) && ValueOK(s, r);
    NothingElsePending(s, t, 0);
    SumOnly(s.trx, t, r);
  }

  // ---------------------------------------------------------------- locks

  /** The lock-table invariant in every run: the path from head to tail is free of repetition and
      holds every lock in use, recyclable locks lie off it, locks are granted exactly when nothing
      ahead of them stands in the way, and the wait relation has no cycle. */
  lemma {:induction false} LocksInOrder(records: nat, threads: nat, last: int, sched: seq<(nat, Action)>)
    ensures var s := Exec(records, threads, last, sched).table;
      && (forall r | r in s.queue :: PathOK(s, r) && GrantOK(s, r))
      && (forall l | l in s.locks ::
            s.locks[l].record in s.queue && (s.locks[l].headPass <==> l !in s.queue[s.locks[l].record]))
      && (forall l | l in s.locks && s.locks[l].state != OBSOLETE :: !s.locks[l].headPass)
      && Acyclic(s)
  {
    RunInv(records, threads, last, sched);
    var s := Exec(records, threads, last, sched).table;
    forall r | r in s.queue ensures PathOK(s, r) && GrantOK(s, r) {
    }
    forall l | l in s.locks ensures LockOK(s, l) {
    }
  }

  /** A transaction that has a step to take and is not waiting for a signal. */
  predicate CanStep(s: System, t: nat)
  {
    t < |s.trx| && !s.trx[t].pc.Idle? && !s.trx[t].pc.Done? && !s.trx[t].pc.AssertFailed?
    && (s.trx[t].pc.Blocked? ==> MayResume(s.table, t))
  }

  /** The system is never stuck: behind every blocked transaction there is one in the middle of its
      work that can take a step. */
  lemma {:induction false} SystemNeverStuck(records: nat, threads: nat, last: int, sched: seq<(nat, Action)>, t: nat)
      returns (b: nat)
    requires t < threads && Exec(records, threads, last, sched).trx[t].pc.Blocked?
    ensures CanStep(Exec(records, threads, last, sched), b)
  {
    RunInv(records, threads, last, sched);
    var s := Exec(records, threads, last, sched);
    assert TrxOK(s, t);
    if MayResume(s.table, t) {
      b := t;
    } else {
      var x: nat;
      b, x := NeverStuck(s.table, t);
      assert OwnedOK(s, x);
      assert TrxOK(s, b);
    }
  }

  /** The asserts of AcquireLock, ReleaseLock, GetRecord and ChangeRecord never fail. */
  lemma {:induction false} NoAssertFails(records: nat, threads: nat, last: int, sched: seq<(nat, Action)>, t: nat)
    requires t < threads
    ensures !Exec(records, threads, last, sched).trx[t].pc.AssertFailed?
  {
    RunInv(records, threads, last, sched);
    assert TrxOK(Exec(records, threads, last, sched), t);
  }

  /** A thread that has ended, or is between transactions, holds no lock. */
  lemma {:induction false} NoLeakedLocks(records: nat, threads: nat, last: int, sched: seq<(nat, Action)>, l: nat)
    requires l in Exec(records, threads, last, sched).table.locks
    ensures var s := Exec(records, threads, last, sched); var i := s.table.locks[l];
      i.state != OBSOLETE ==>
        i.thread < threads && !s.trx[i.thread].pc.Idle? && !s.trx[i.thread].pc.Done? && l in s.trx[i.thread].deque
  {
    RunInv(records, threads, last, sched);
    assert OwnedOK(Exec(records, threads, last, sched), l);
  }

  /** Commit ids: the accepted transactions are the first ones to take an id, up to the last order. */
  lemma {:induction false} AcceptedUpToLast(records: nat, threads: nat, last: int, sched: seq<(nat, Action)>)
    ensures var s := Exec(records, threads, last, sched);
      |s.history| == (if s.count <= last then s.count else if last < 0 then 0 else last)
  {
    RunInv(records, threads, last, sched);
    RunRecords(records, threads, last, sched);
  }
}
