/** Every step of every transaction keeps the system invariant. */
module SystemSafety {
  import opened LockTable
  import opened LockTableProofs
  import opened Transactions
  import opened SystemInvariant
  import opened SystemFrame

  // ---------------------------------------------------------------- lock-table steps

  /** Every lock except l keeps everything but its flags. */
  ghost predicate OnlyLock(a: Table<nat>, b: Table<nat>, l: nat)
  {
    && (forall x | x in a.locks && x != l :: x in b.locks && SameLock(a.locks[x], b.locks[x]))
    && (forall x | x in b.locks && x != l :: x in a.locks)
  }

  lemma {:induction false} AcquireOnly(s: Table<nat>, t: nat, r: int, mode: Mode, l: nat)
    requires MayAcquire(s, t, r, l) && Listed(s.locks, s.queue[r])
    ensures var s1 := Acquire(s, t, r, mode, l); OnlyLock(s, s1, l) && TableFrame(s, s1, t)
    ensures var s1 := Acquire(s, t, r, mode, l);
            l in s1.locks && s1.locks[l].thread == t && s1.locks[l].record == r
            && s1.locks[l].mode == mode && s1.locks[l].diff == 0
    ensures var s1 := Acquire(s, t, r, mode, l);
      match AcquireOutcome(s, t, r, mode, l)
      case Granted => s1.locks[l].state == ACTIVE && t !in s1.conflict
      case Waiting => s1.locks[l].state == WAIT && t in s1.conflict && s1.conflict[t] == l
      case Deadlocked => s1.locks[l].state == OBSOLETE && t !in s1.conflict
  {
  }

  lemma {:induction false} ResumeOnly(s: Table<nat>, t: nat)
    requires MayResume(s, t) && ConflictOK(s, t)
    ensures var s1 := Resume(s, t);
            var l := s.conflict[t];
      && OnlyLock(s, s1, l) && TableFrame(s, s1, t) && t !in s1.conflict
      && l in s1.locks && s1.locks[l] == s.locks[l].(state := ACTIVE)
  {
  }

  lemma {:induction false} SetDiffOnly(s: Table<nat>, t: nat, l: nat, d: int)
    requires l in s.locks && s.locks[l].thread == t
    ensures OnlyLock(s, SetDiff(s, l, d), l) && TableFrame(s, SetDiff(s, l, d), t)
  {
  }

  lemma {:induction false} ReleaseOnly(s: Table<nat>, t: nat, l: nat)
    requires MayRelease(s, l) && s.locks[l].thread == t && Listed(s.locks, s.queue[s.locks[l].record])
    ensures var s1 := Release(s, l);
      && OnlyLock(s, s1, l) && TableFrame(s, s1, t) && s1.conflict == s.conflict
      && l in s1.locks && s1.locks[l].state == OBSOLETE && s1.locks[l].thread == t
  {
    var n, w := ReleaseIsMoved(s, l);
  }

  /** t's other locks stay held across a step on lock l. */
  lemma {:induction false} KeepHolding(s: System, s1: System, t: nat, l: nat)
    requires t < |s.trx| == |s1.trx| && OnlyLock(s.table, s1.table, l)
    requires s1.trx[t].tx == s.trx[t].tx && s1.trx[t].read == s.trx[t].read && s.trx[t].deque <= s1.trx[t].deque
    ensures forall y: nat | Own(s, t, y) && s.trx[t].deque[y] != l ::
            Own(s1, t, y) && SameLock(s.table.locks[s.trx[t].deque[y]], s1.table.locks[s.trx[t].deque[y]])
    ensures forall y: nat | Holds(s, t, y) && s.trx[t].deque[y] != l :: Holds(s1, t, y)
    ensures forall y: nat | Noted(s, t, y) && s.trx[t].deque[y] != l :: Noted(s1, t, y)
  {
    forall y: nat | Own(s, t, y) && s.trx[t].deque[y] != l
      ensures Own(s1, t, y) && SameLock(s.table.locks[s.trx[t].deque[y]], s1.table.locks[s.trx[t].deque[y]])
    {
      assert s1.trx[t].deque[y] == s.trx[t].deque[y];
    }
  }

  /** A transaction's locks are different objects. */
  lemma {:induction false} DifferentLocks(s: System, t: nat, y: nat, m: nat)
    requires t < |s.trx| && Own(s, t, y) && Own(s, t, m) && y != m && y < 3 && m < 3 && ValidTx(s, s.trx[t].tx)
    ensures s.trx[t].deque[y] != s.trx[t].deque[m]
  {
  }

  /** t's locks in use stay in its deque across a step on lock l. */
  lemma {:induction false} KeepOwned(s: System, s1: System, t: nat, l: nat)
    requires t < |s.trx| == |s1.trx| && OnlyLock(s.table, s1.table, l) && forall z | z in s.table.locks :: OwnedOK(s, z)
    requires l in s1.table.locks && s1.table.locks[l].thread == t ==> OwnedOK(s1, l)
    requires s.trx[t].deque <= s1.trx[t].deque
    requires
      || From(s1.trx[t]) <= From(s.trx[t])
      || (From(s1.trx[t]) == From(s.trx[t]) + 1 && From(s.trx[t]) < |s.trx[t].deque|
            && s.trx[t].deque[From(s.trx[t])] == l)
    ensures forall z | z in s1.table.locks && s1.table.locks[z].thread == t :: OwnedOK(s1, z)
  {
    forall z | z in s1.table.locks && s1.table.locks[z].thread == t ensures OwnedOK(s1, z) {
      if z != l && s1.table.locks[z].state != OBSOLETE {
        assert OwnedOK(s, z) && SameLock(s.table.locks[z], s1.table.locks[z]);
        var y :| From(s.trx[t]) <= y < |s.trx[t].deque| && s.trx[t].deque[y] == z;
        assert s1.trx[t].deque[y] == z;
      }
    }
  }

  /** A growing transaction's step on its own lock l. */
  lemma {:induction false} GrowStep(s: System, s1: System, t: nat, l: nat)
    requires SysInv(s) && t < |s.trx| == |s1.trx| && s1 == s.(table := s1.table, trx := s.trx[t := s1.trx[t]])
    requires OnlyLock(s.table, s1.table, l) && TableFrame(s.table, s1.table, t) && TableInv(s1.table) && TrxOK(s1, t)
    requires From(s.trx[t]) == 0 && From(s1.trx[t]) == 0 && s.trx[t].deque <= s1.trx[t].deque
    requires l in s1.table.locks ==>
               s1.table.locks[l].thread == t && exists y :: 0 <= y < |s1.trx[t].deque| && s1.trx[t].deque[y] == l
    requires !Committing(s.trx[t]) && !Committing(s1.trx[t])
    requires forall r :: Pending(s1.trx[t], r) == Pending(s.trx[t], r)
    ensures SysInv(s1)
  {
    KeepOwned(s, s1, t, l);
    SameValueFrame(s, s1, t);
    QuietStep(s, s1, t);
  }

  lemma {:induction false} BeginInv(s: System, t: nat, tx: Tx)
    requires SysInv(s) && t < |s.trx| && s.trx[t].pc.Idle? && ValidTx(s, tx)
    ensures SysInv(Begin(s, t, tx))
  {
    var s1 := Begin(s, t, tx);
    assert TrxOK(s, t);
    assert s1.table == s.table;
    forall l | l in s1.table.locks && s1.table.locks[l].thread == t ensures OwnedOK(s1, l) {
      assert OwnedOK(s, l);
    }
    QuietStep(s, s1, t);
  }

  lemma {:induction false} LockFacts(s: System, t: nat, m: nat, l: nat)
    requires SysInv(s) && t < |s.trx| && s.trx[t].pc == Lock(m)
    requires l !in s.table.locks || Recyclable(s.table, t, Rec(s.trx[t].tx, m), l)
    ensures MayAcquire(s.table, t, Rec(s.trx[t].tx, m), l) && Listed(s.table.locks, s.table.queue[Rec(s.trx[t].tx, m)])
    ensures m <= 2 && |s.trx[t].deque| == m && Complete(s, t, m) && !s.trx[t].final && ValidTx(s, s.trx[t].tx)
  {
    assert TrxOK(s, t);
    assert PathOK(s.table, Rec(s.trx[t].tx, m));
  }

  lemma {:induction false} LockLocal(s: System, t: nat, m: nat, l: nat)
    requires TableInv(s.table) && t < |s.trx| && s.trx[t].pc == Lock(m)
    requires MayAcquire(s.table, t, Rec(s.trx[t].tx, m), l) && Listed(s.table.locks, s.table.queue[Rec(s.trx[t].tx, m)])
    requires m <= 2 && |s.trx[t].deque| == m && Complete(s, t, m) && !s.trx[t].final && ValidTx(s, s.trx[t].tx)
    ensures TrxOK(StepLock(s, t, m, l), t)
    ensures forall r :: Pending(StepLock(s, t, m, l).trx[t], r) == Pending(s.trx[t], r)
  {
    var s1 := StepLock(s, t, m, l);
    var x := s.trx[t];
    var r := Rec(x.tx, m);
    AcquireOnly(s.table, t, r, ModeOf(m), l);
    KeepHolding(s, s1, t, l);
    forall y | 0 <= y < m ensures Noted(s1, t, y) {
      assert Noted(s, t, y);
    }
    assert s1.trx[t].deque[m] == l;
  }

  /** What StepLock does to the system, when the lock object is usable. */
  lemma {:induction false} LockEffect(s: System, t: nat, m: nat, l: nat)
    requires t < |s.trx| && MayAcquire(s.table, t, Rec(s.trx[t].tx, m), l)
             && Listed(s.table.locks, s.table.queue[Rec(s.trx[t].tx, m)])
    ensures var s1 := StepLock(s, t, m, l);
            var x, x1 := s.trx[t], s1.trx[t];
      && s1 == s.(table := Acquire(s.table, t, Rec(x.tx, m), ModeOf(m), l), trx := s.trx[t := x1])
      && x1.deque == x.deque + [l] && From(x1) == 0 && !Committing(x1)
  {
  }

  lemma {:induction false} LockInv(s: System, t: nat, m: nat, l: nat)
    requires SysInv(s) && t < |s.trx| && s.trx[t].pc == Lock(m)
    ensures SysInv(StepLock(s, t, m, l))
  {
    var r := Rec(s.trx[t].tx, m);
    if l !in s.table.locks || Recyclable(s.table, t, r, l) {
      LockFacts(s, t, m, l);
      LockEffect(s, t, m, l);
      LockLocal(s, t, m, l);
      AcquireOnly(s.table, t, r, ModeOf(m), l);
      AcquireInv(s.table, t, r, ModeOf(m), l);
      assert (s.trx[t].deque + [l])[m] == l;
      GrowStep(s, StepLock(s, t, m, l), t, l);
    }
  }

  lemma {:induction false} BlockedLocal(s: System, t: nat, m: nat)
    requires t < |s.trx| && s.trx[t].pc == Blocked(m) && TrxOK(s, t) && MayResume(s.table, t) && ConflictOK(s.table, t)
    ensures TrxOK(StepBlocked(s, t, m), t)
    ensures forall r :: Pending(StepBlocked(s, t, m).trx[t], r) == Pending(s.trx[t], r)
  {
    var s1 := StepBlocked(s, t, m);
    var l := s.trx[t].deque[m];
    ResumeOnly(s.table, t);
    KeepHolding(s, s1, t, l);
    forall y | 0 <= y < m ensures Noted(s1, t, y) {
      assert Noted(s, t, y);
    }
  }

  lemma {:induction false} BlockedEffect(s: System, t: nat, m: nat)
    requires t < |s.trx| && MayResume(s.table, t)
    ensures var s1 := StepBlocked(s, t, m);
            var x, x1 := s.trx[t], s1.trx[t];
      && s1 == s.(table := Resume(s.table, t), trx := s.trx[t := x1])
      && x1.deque == x.deque && From(x1) == 0 && !Committing(x1)
  {
  }

  lemma {:induction false} BlockedInv(s: System, t: nat, m: nat)
    requires SysInv(s) && t < |s.trx| && s.trx[t].pc == Blocked(m)
    ensures SysInv(StepBlocked(s, t, m))
  {
    if MayResume(s.table, t) {
      assert TrxOK(s, t) && ConflictOK(s.table, t);
      ResumeOnly(s.table, t);
      ResumeInv(s.table, t);
      BlockedLocal(s, t, m);
      BlockedEffect(s, t, m);
      GrowStep(s, StepBlocked(s, t, m), t, s.trx[t].deque[m]);
    }
  }

  lemma {:induction false} ReadInv(s: System, t: nat)
    requires SysInv(s) && t < |s.trx| && s.trx[t].pc == Access(0)
    ensures SysInv(StepAccess(s, t, 0))
  {
    var s1 := StepAccess(s, t, 0);
    assert TrxOK(s, t);
    assert Noted(s1, t, 0);
    forall z | z in s1.table.locks && s1.table.locks[z].thread == t ensures OwnedOK(s1, z) {
      assert OwnedOK(s, z);
    }
    QuietStep(s, s1, t);
  }

  /** A change under an exclusive lock disturbs no other holder. */
  lemma {:induction false} ChangeFrame(s: System, s1: System, t: nat, m: nat)
    requires SysInv(s) && t < |s.trx| && 1 <= m <= 2 && Holds(s, t, m) && Rec(s.trx[t].tx, m) in s.value
    requires s1.table == s.table && s1.history == s.history && s1.logs == s.logs && s1.count == s.count
             && s1.last == s.last
    requires |s1.trx| == |s.trx| && s1.trx == s.trx[t := s1.trx[t]] && s1.value.Keys == s.value.Keys
    requires s1.value == s.value[Rec(s.trx[t].tx, m) := s1.value[Rec(s.trx[t].tx, m)]]
    ensures Frame(s, s1, t)
  {
    var r := Rec(s.trx[t].tx, m);
    forall u, y | 0 <= u < |s.trx| && u != t && 0 <= y < 3 && Holds(s, u, y) && Rec(s.trx[u].tx, y) in s.value
      ensures s1.value[Rec(s.trx[u].tx, y)] == s.value[Rec(s.trx[u].tx, y)]
    {
      if Rec(s.trx[u].tx, y) == r { HoldersShare(s, t, m, u, y); }
    }
  }

  /** A change of one record moves its value and what is in flight on it by the same amount. */
  lemma {:induction false} ChangeValues(s: System, s1: System, t: nat, m: nat, d: int)
    requires SysInv(s) && t < |s.trx| && m <= 2 && Rec(s.trx[t].tx, m) in s.value
    requires s1.history == s.history && |s1.trx| == |s.trx| && s1.trx == s.trx[t := s1.trx[t]]
    requires s1.value == s.value[Rec(s.trx[t].tx, m) := s.value[Rec(s.trx[t].tx, m)] + d]
    requires forall r :: Pending(s1.trx[t], r) == Pending(s.trx[t], r) + (if r == Rec(s.trx[t].tx, m) then d else 0)
    ensures forall r | r in s1.value :: ValueOK(s1, r)
  {
    forall r | r in s1.value ensures ValueOK(s1, r) {
      assert ValueOK(s, r);
      SumPut(s.trx, t, s1.trx[t], r);
    }
  }

  lemma {:induction false} ChangeStep(s: System, s1: System, t: nat, m: nat, d: int)
    requires SysInv(s) && t < |s.trx| && m <= 2 && Rec(s.trx[t].tx, m) in s.value && Frame(s, s1, t) && TrxOK(s1, t)
    requires s1 == s.(value := s1.value, trx := s.trx[t := s1.trx[t]])
    requires s1.value == s.value[Rec(s.trx[t].tx, m) := s.value[Rec(s.trx[t].tx, m)] + d]
    requires forall r :: Pending(s1.trx[t], r) == Pending(s.trx[t], r) + (if r == Rec(s.trx[t].tx, m) then d else 0)
    requires From(s1.trx[t]) == From(s.trx[t]) && s1.trx[t].deque == s.trx[t].deque && !Committing(s.trx[t])
             && !Committing(s1.trx[t])
    ensures SysInv(s1)
  {
    ChangeValues(s, s1, t, m, d);
    SameIds(s, s1, t);
    forall z | z in s1.table.locks && s1.table.locks[z].thread == t ensures OwnedOK(s1, z) {
      assert OwnedOK(s, z);
    }
    Assemble(s, s1, t);
  }

  lemma {:induction false} ChangeLocal(s: System, t: nat, m: nat)
    requires t < |s.trx| && s.trx[t].pc == Access(m) && m > 0 && TrxOK(s, t)
    ensures Holds(s, t, m) && Rec(s.trx[t].tx, m) in s.value && m <= 2
    ensures var s1 := StepAccess(s, t, m);
      && TrxOK(s1, t)
      && s1.value == s.value[Rec(s.trx[t].tx, m) := s.value[Rec(s.trx[t].tx, m)] + Amount(m, s.trx[t].read)]
      && forall r :: Pending(s1.trx[t], r) ==
            Pending(s.trx[t], r) + (if r == Rec(s.trx[t].tx, m) then Amount(m, s.trx[t].read) else 0)
  {
    var s1 := StepAccess(s, t, m);
    forall y | 0 <= y < m ensures Noted(s1, t, y) {
      assert Noted(s, t, y);
    }
  }

  lemma {:induction false} ChangeInv(s: System, t: nat, m: nat)
    requires SysInv(s) && t < |s.trx| && s.trx[t].pc == Access(m) && m > 0
    ensures SysInv(StepAccess(s, t, m))
  {
    var s1 := StepAccess(s, t, m);
    ChangeLocal(s, t, m);
    ChangeFrame(s, s1, t, m);
    ChangeStep(s, s1, t, m, Amount(m, s.trx[t].read));
  }

  lemma {:induction false} NoteLocal(s: System, t: nat, m: nat)
    requires t < |s.trx| && s.trx[t].pc == Note(m) && TrxOK(s, t)
    ensures TrxOK(StepNote(s, t, m), t)
    ensures forall r :: Pending(StepNote(s, t, m).trx[t], r) == Pending(s.trx[t], r)
  {
    var s1 := StepNote(s, t, m);
    var l := s.trx[t].deque[m];
    SetDiffOnly(s.table, t, l, Amount(m, s.trx[t].read));
    KeepHolding(s, s1, t, l);
    forall y | 0 <= y < m ensures Noted(s1, t, y) {
      assert Noted(s, t, y);
      DifferentLocks(s, t, y, m);
    }
    assert Noted(s1, t, m);
  }

  lemma {:induction false} NoteInv(s: System, t: nat, m: nat)
    requires SysInv(s) && t < |s.trx| && s.trx[t].pc == Note(m)
    ensures SysInv(StepNote(s, t, m))
  {
    var s1 := StepNote(s, t, m);
    assert TrxOK(s, t);
    var l := s.trx[t].deque[m];
    SetDiffOnly(s.table, t, l, Amount(m, s.trx[t].read));
    SetDiffInv(s.table, l, Amount(m, s.trx[t].read));
    NoteLocal(s, t, m);
    GrowStep(s, s1, t, l);
  }

  // ---------------------------------------------------------------- committing

  lemma {:induction false} Replayed(h: seq<Tx>, tx: Tx, r: int)
    requires tx.i != tx.j && tx.i != tx.k && tx.j != tx.k
    ensures At(h + [tx], r) ==
      if r == tx.j then At(h, r) + (At(h, tx.i) + 1) else if r == tx.k then At(h, r) - At(h, tx.i) else At(h, r)
  {
    assert (h + [tx])[..|h|] == h;
  }

  /** Strict two-phase locking at the commit point: under t's locks nothing else is in flight, so the
      record that t read has its committed value, and the others differ from it by what t added. */
  lemma {:induction false} CommitPoint(s: System, t: nat)
    requires SysInv(s) && t < |s.trx| && s.trx[t].pc == Commit
    ensures var x := s.trx[t];
      && ValidTx(s, x.tx) && s.value[x.tx.i] == At(s.history, x.tx.i) == x.read
      && s.value[x.tx.j] == At(s.history, x.tx.j) + (x.read + 1)
      && s.value[x.tx.k] == At(s.history, x.tx.k) - x.read
  {
    var x := s.trx[t];
    assert TrxOK(s, t);
    forall m: nat | m < 3 ensures s.value[Rec(x.tx, m)] == At(s.history, Rec(x.tx, m)) + Pending(x, Rec(x.tx, m)) {
      var r := Rec(x.tx, m);
      assert Noted(s, t, m) && ValueOK(s, r);
      NothingElsePending(s, t, m);
      SumOnly(s.trx, t, r);
    }
    assert s.value[Rec(x.tx, 0)] == At(s.history, Rec(x.tx, 0)) + Pending(x, Rec(x.tx, 0));
    assert s.value[Rec(x.tx, 1)] == At(s.history, Rec(x.tx, 1)) + Pending(x, Rec(x.tx, 1));
    assert s.value[Rec(x.tx, 2)] == At(s.history, Rec(x.tx, 2)) + Pending(x, Rec(x.tx, 2));
  }

  lemma {:induction false} CommitValues(s: System, t: nat)
    requires SysInv(s) && t < |s.trx| && s.trx[t].pc == Commit && s.count + 1 <= s.last
    ensures var s1 := StepCommit(s, t); forall r | r in s1.value :: ValueOK(s1, r)
  {
    var s1 := StepCommit(s, t);
    var x := s.trx[t];
    CommitPoint(s, t);
    forall r | r in s1.value ensures ValueOK(s1, r) {
      assert ValueOK(s, r);
      SumPut(s.trx, t, s1.trx[t], r);
      Replayed(s.history, x.tx, r);
    }
  }

  lemma {:induction false} CommitLocal(s: System, t: nat)
    requires SysInv(s) && t < |s.trx| && s.trx[t].pc == Commit && s.count + 1 <= s.last
    ensures TrxOK(StepCommit(s, t), t)
  {
    var s1 := StepCommit(s, t);
    var x := s.trx[t];
    assert TrxOK(s, t);
    CommitPoint(s, t);
    assert s1.history[..s.count + 1] == s1.history;
    forall y | 0 <= y < 3 ensures Holds(s1, t, y) && s1.value[Rec(x.tx, y)] == At(s1.history, Rec(x.tx, y)) {
      assert Noted(s, t, y);
      Replayed(s.history, x.tx, Rec(x.tx, y));
    }
  }

  lemma {:induction false} CommitIds(s: System, t: nat)
    requires SysInv(s) && t < |s.trx| && s.trx[t].pc == Commit && s.count + 1 <= s.last
    ensures IdsOK(StepCommit(s, t)) && LinesOK(StepCommit(s, t))
  {
    var s1 := StepCommit(s, t);
    CommittingPut(s.trx, t, s1.trx[t]);
    forall u | 0 <= u < |s.trx| && u != t && Committing(s.trx[u]) ensures s.trx[u].commitId <= |s.history| {
      assert TrxOK(s, u);
    }
    forall u: nat, y: nat | IsLine(s1.logs, u, y) ensures LineOK(s1.history, s1.logs[u][y]) {
      var e := s.logs[u][y];
      assert LineOK(s.history, e);
      assert s1.history[..e.id] == s.history[..e.id];
    }
  }

  /** The commit point. */
  lemma {:induction false} CommitInv(s: System, t: nat)
    requires SysInv(s) && t < |s.trx| && s.trx[t].pc == Commit && s.count + 1 <= s.last
    ensures SysInv(StepCommit(s, t))
  {
    var s1 := StepCommit(s, t);
    CommitValues(s, t);
    CommitLocal(s, t);
    CommitIds(s, t);
    SameValueFrame(s, s1, t);
    CommitPoint(s, t);
    forall z | z in s1.table.locks && s1.table.locks[z].thread == t ensures OwnedOK(s1, z) {
      assert OwnedOK(s, z);
    }
    Assemble(s, s1, t);
  }

  /** A commit id past the last order starts a rollback. */
  lemma {:induction false} RejectInv(s: System, t: nat)
    requires SysInv(s) && t < |s.trx| && s.trx[t].pc == Commit && s.count + 1 > s.last
    ensures SysInv(StepCommit(s, t))
  {
    var s1 := StepCommit(s, t);
    assert TrxOK(s, t);
    forall y | 0 <= y < 3 ensures Noted(s1, t, y) {
      assert Noted(s, t, y);
    }
    SameValueFrame(s, s1, t);
    CommittingPut(s.trx, t, s1.trx[t]);
    forall r | r in s1.value ensures ValueOK(s1, r) {
      assert ValueOK(s, r);
      SumPut(s.trx, t, s1.trx[t], r);
    }
    forall z | z in s1.table.locks && s1.table.locks[z].thread == t ensures OwnedOK(s1, z) {
      assert OwnedOK(s, z);
    }
    Assemble(s, s1, t);
  }

  // ---------------------------------------------------------------- rolling back

  /** The lock at position a of a rollback: granted, or the victim. */
  lemma {:induction false} RollbackLock(s: System, t: nat, a: nat)
    requires t < |s.trx| && Rollback(s, t, a) && a < |s.trx[t].deque|
    ensures Own(s, t, a)
    ensures if a < Good(s.trx[t]) then Noted(s, t, a) else s.table.locks[s.trx[t].deque[a]].state == OBSOLETE
  {
    if a < Good(s.trx[t]) { assert Noted(s, t, a); }
  }

  lemma {:induction false} UndoLocal(s: System, t: nat, a: nat)
    requires t < |s.trx| && s.trx[t].pc == Undo(a) && TrxOK(s, t) && a < |s.trx[t].deque| && a <= 2
    ensures var s1 := StepUndo(s, t, a);
            var x := s.trx[t]; var d := if a < Good(x) then Amount(a, x.read) else 0;
      && TrxOK(s1, t) && Rec(x.tx, a) in s.value && s1.value == s.value[Rec(x.tx, a) := s.value[Rec(x.tx, a)] - d]
      && (d != 0 ==> a >= 1 && Holds(s, t, a))
      && forall r :: Pending(s1.trx[t], r) == Pending(x, r) - (if r == Rec(x.tx, a) then d else 0)
    ensures var s1 := StepUndo(s, t, a);
      s1 == s.(value := s1.value, trx := s.trx[t := s.trx[t].(pc := FreeUndone(a))])
  {
    RollbackLock(s, t, a);
    var s1 := StepUndo(s, t, a);
    var x := s.trx[t];
    forall y | a <= y < Good(x) ensures Noted(s1, t, y) {
      assert Noted(s, t, y);
    }
  }

  lemma {:induction false} ZeroChange(s: System, s1: System, t: nat, m: nat)
    requires t < |s.trx| == |s1.trx| == |s.logs| == |s1.logs| && s1.table == s.table && s1.trx == s.trx[t := s1.trx[t]]
    requires Rec(s.trx[t].tx, m) in s.value && s1.value == s.value[Rec(s.trx[t].tx, m) := s.value[Rec(s.trx[t].tx, m)]]
    requires s1.last == s.last && s1.count == s.count && s.history == s1.history
    ensures Frame(s, s1, t)
  {
    assert s1.value == s.value;
  }

  /** Undoing one difference. */
  lemma {:induction false} UndoChange(s: System, t: nat, a: nat)
    requires t < |s.trx| == |s.logs| && SysInv(s) && TrxOK(s, t)
    requires s.trx[t].pc == Undo(a) && a < |s.trx[t].deque| && a <= 2
    ensures SysInv(StepUndo(s, t, a))
  {
    hide SysInv;
    UndoLocal(s, t, a);
    hide StepUndo, TrxOK, Pending, Rec;
    var s1, x := StepUndo(s, t, a), s.trx[t];
    var d := if a < Good(x) then Amount(a, x.read) else 0;
    if d != 0 { ChangeFrame(s, s1, t, a); } else { ZeroChange(s, s1, t, a); }
    ChangeStep(s, s1, t, a, -d);
  }

  lemma {:induction false} UndoInv(s: System, t: nat, a: nat)
    requires SysInv(s) && t < |s.trx| && s.trx[t].pc == Undo(a) && a < |s.trx[t].deque|
    ensures SysInv(StepUndo(s, t, a))
  {
    assert TrxOK(s, t);
    UndoChange(s, t, a);
  }

  lemma {:induction false} UndoEndInv(s: System, t: nat, a: nat)
    requires SysInv(s) && t < |s.trx| && s.trx[t].pc == Undo(a) && a >= |s.trx[t].deque|
    ensures SysInv(StepUndo(s, t, a))
  {
    var s1 := StepUndo(s, t, a);
    assert TrxOK(s, t);
    SameValueFrame(s, s1, t);
    forall z | z in s1.table.locks && s1.table.locks[z].thread == t ensures OwnedOK(s1, z) {
      assert OwnedOK(s, z);
    }
    QuietStep(s, s1, t);
  }

  // ---------------------------------------------------------------- releasing

  lemma {:induction false} FreeEffect(s: System, t: nat, a: nat, next: PC)
    requires t < |s.trx| && Own(s, t, a) && MayRelease(s.table, s.trx[t].deque[a])
    requires Listed(s.table.locks, s.table.queue[Rec(s.trx[t].tx, a)])
    ensures StepFree(s, t, a, next)
            == s.(table := Release(s.table, s.trx[t].deque[a]), trx := s.trx[t := s.trx[t].(pc := next)])
  {
  }

  /** A step that makes the lock l at position a obsolete and moves on to position a + 1. */
  lemma {:induction false} ShrinkStep(s: System, s1: System, t: nat, a: nat, l: nat)
    requires SysInv(s) && t < |s.trx| == |s1.trx| && s1 == s.(table := s1.table, trx := s.trx[t := s1.trx[t]])
    requires OnlyLock(s.table, s1.table, l) && TableFrame(s.table, s1.table, t) && TableInv(s1.table) && TrxOK(s1, t)
    requires a < |s.trx[t].deque| && s.trx[t].deque[a] == l && s1.trx[t].deque == s.trx[t].deque
    requires From(s.trx[t]) == a && From(s1.trx[t]) == a + 1
    requires l in s1.table.locks && s1.table.locks[l].state == OBSOLETE
    requires (Committing(s.trx[t]) <==> Committing(s1.trx[t])) && s1.trx[t].commitId == s.trx[t].commitId
    requires forall r :: Pending(s1.trx[t], r) == Pending(s.trx[t], r)
    ensures SysInv(s1)
  {
    KeepOwned(s, s1, t, l);
    SameValueFrame(s, s1, t);
    QuietStep(s, s1, t);
  }

  /** A release of the lock at position a, on the way to position a + 1. */
  lemma {:induction false} FreeInv(s: System, t: nat, a: nat, next: PC)
    requires SysInv(s) && t < |s.trx| && Own(s, t, a) && MayRelease(s.table, s.trx[t].deque[a])
    requires Listed(s.table.locks, s.table.queue[Rec(s.trx[t].tx, a)])
    requires From(s.trx[t]) == a && From(s.trx[t].(pc := next)) == a + 1
    requires Committing(s.trx[t]) <==> Committing(s.trx[t].(pc := next))
    requires forall r :: Pending(s.trx[t].(pc := next), r) == Pending(s.trx[t], r)
    requires TrxOK(StepFree(s, t, a, next), t)
    ensures SysInv(StepFree(s, t, a, next))
  {
    var l := s.trx[t].deque[a];
    FreeEffect(s, t, a, next);
    ReleaseOnly(s.table, t, l);
    ReleaseInv(s.table, l);
    ShrinkStep(s, StepFree(s, t, a, next), t, a, l);
  }

  /** After a release of position a the later locks of t are as before. */
  lemma {:induction false} FreeKeeps(s: System, t: nat, a: nat, next: PC)
    requires t < |s.trx| && Own(s, t, a) && MayRelease(s.table, s.trx[t].deque[a]) && a < 3 && ValidTx(s, s.trx[t].tx)
    requires Listed(s.table.locks, s.table.queue[Rec(s.trx[t].tx, a)])
    ensures var s1 := StepFree(s, t, a, next);
      && s1 == s.(table := s1.table, trx := s.trx[t := s.trx[t].(pc := next)]) && s1.table.conflict == s.table.conflict
      && (forall y: nat | y < 3 && y != a && Own(s, t, y) ::
            Own(s1, t, y) && SameLock(s.table.locks[s.trx[t].deque[y]], s1.table.locks[s.trx[t].deque[y]]))
      && (forall y: nat | y < 3 && y != a && Holds(s, t, y) :: Holds(s1, t, y))
      && (forall y: nat | y < 3 && y != a && Noted(s, t, y) :: Noted(s1, t, y))
  {
    var s1 := StepFree(s, t, a, next);
    FreeEffect(s, t, a, next);
    ReleaseOnly(s.table, t, s.trx[t].deque[a]);
    KeepHolding(s, s1, t, s.trx[t].deque[a]);
    forall y: nat | y < 3 && y != a && Own(s, t, y) ensures s.trx[t].deque[y] != s.trx[t].deque[a] {
      DifferentLocks(s, t, y, a);
    }
  }

  lemma {:induction false} FreeUndoneLocal(s: System, t: nat, a: nat)
    requires t < |s.trx| && s.trx[t].pc == FreeUndone(a) && TrxOK(s, t)
    requires Own(s, t, a) && MayRelease(s.table, s.trx[t].deque[a])
             && Listed(s.table.locks, s.table.queue[Rec(s.trx[t].tx, a)])
    ensures TrxOK(StepFree(s, t, a, Undo(a + 1)), t)
    ensures forall r :: Pending(s.trx[t].(pc := Undo(a + 1)), r) == Pending(s.trx[t], r)
  {
    FreeKeeps(s, t, a, Undo(a + 1));
    var s1 := StepFree(s, t, a, Undo(a + 1));
    forall y | a + 1 <= y < Good(s.trx[t]) ensures Noted(s1, t, y) {
      assert Noted(s, t, y);
    }
  }

  lemma {:induction false} FreeUndoneInv(s: System, t: nat, a: nat)
    requires SysInv(s) && t < |s.trx| && s.trx[t].pc == FreeUndone(a)
    ensures SysInv(StepFree(s, t, a, Undo(a + 1)))
  {
    assert TrxOK(s, t);
    RollbackLock(s, t, a);
    var l := s.trx[t].deque[a];
    assert LockOK(s.table, l) && PathOK(s.table, s.table.locks[l].record);
    FreeUndoneLocal(s, t, a);
    FreeInv(s, t, a, Undo(a + 1));
  }

  lemma {:induction false} FreeLoggedLocal(s: System, t: nat, a: nat)
    requires t < |s.trx| && s.trx[t].pc == FreeLogged(a) && TrxOK(s, t)
    requires Own(s, t, a) && MayRelease(s.table, s.trx[t].deque[a])
             && Listed(s.table.locks, s.table.queue[Rec(s.trx[t].tx, a)])
    ensures TrxOK(StepFree(s, t, a, Log(a + 1)), t)
  {
    FreeKeeps(s, t, a, Log(a + 1));
    var s1 := StepFree(s, t, a, Log(a + 1));
    forall y | a + 1 <= y < 3 ensures Holds(s1, t, y) {
      assert Holds(s, t, y);
    }
  }

  lemma {:induction false} FreeLoggedInv(s: System, t: nat, a: nat)
    requires SysInv(s) && t < |s.trx| && s.trx[t].pc == FreeLogged(a)
    ensures SysInv(StepFree(s, t, a, Log(a + 1)))
  {
    assert TrxOK(s, t);
    assert Holds(s, t, a);
    var l := s.trx[t].deque[a];
    assert LockOK(s.table, l) && PathOK(s.table, s.table.locks[l].record);
    FreeLoggedLocal(s, t, a);
    FreeInv(s, t, a, Log(a + 1));
  }

  // ---------------------------------------------------------------- logging

  lemma {:induction false} LogLocal(s: System, t: nat, a: nat)
    requires t < |s.trx| && s.trx[t].pc == Log(a) && TrxOK(s, t)
    ensures TrxOK(StepLog(s, t, a), t)
    ensures var s1 := StepLog(s, t, a); s1 == s.(trx := s.trx[t := s1.trx[t]])
    ensures var x, x1 := s.trx[t], StepLog(s, t, a).trx[t];
            Committing(x1) && x1.commitId == x.commitId
            && From(x1) == From(x) && x1.deque == x.deque
  {
    var s1 := StepLog(s, t, a);
    if a < 3 {
      assert Holds(s, t, a);
      forall y | a <= y < 3 ensures Holds(s1, t, y) {
        assert Holds(s, t, y);
      }
    }
  }

  lemma {:induction false} LogInv(s: System, t: nat, a: nat)
    requires SysInv(s) && t < |s.trx| && s.trx[t].pc == Log(a)
    ensures SysInv(StepLog(s, t, a))
  {
    var s1 := StepLog(s, t, a);
    assert TrxOK(s, t);
    LogLocal(s, t, a);
    SameValueFrame(s, s1, t);
    forall z | z in s1.table.locks && s1.table.locks[z].thread == t ensures OwnedOK(s1, z) {
      assert OwnedOK(s, z);
    }
    QuietStep(s, s1, t);
  }

  lemma {:induction false} PublishIds(s: System, t: nat)
    requires SysInv(s) && t < |s.trx| && s.trx[t].pc == Publish
    ensures IdsOK(StepPublish(s, t)) && LinesOK(StepPublish(s, t))
  {
    var s1 := StepPublish(s, t);
    var x := s.trx[t];
    assert TrxOK(s, t);
    CommittingPut(s.trx, t, s1.trx[t]);
    LinesPut(s.logs, t, s1.logs[t]);
    var line := s1.logs[t][|s.logs[t]|];
    assert LineOK(s.history, line) && line.id == x.commitId;
    forall u: nat, y: nat | IsLine(s1.logs, u, y)
      ensures LineOK(s1.history, s1.logs[u][y])
      ensures if IsLine(s.logs, u, y) then s1.logs[u][y] == s.logs[u][y]
              else u == t && y == |s.logs[t]| && s1.logs[u][y] == line
    {
    }
  }

  lemma {:induction false} PublishInv(s: System, t: nat)
    requires SysInv(s) && t < |s.trx| && s.trx[t].pc == Publish
    ensures SysInv(StepPublish(s, t))
  {
    var s1 := StepPublish(s, t);
    assert TrxOK(s, t);
    PublishIds(s, t);
    SameValueFrame(s, s1, t);
    forall r | r in s1.value ensures ValueOK(s1, r) {
      assert ValueOK(s, r);
      SumPut(s.trx, t, s1.trx[t], r);
    }
    forall z | z in s1.table.locks && s1.table.locks[z].thread == t ensures OwnedOK(s1, z) {
      assert OwnedOK(s, z);
    }
    Assemble(s, s1, t);
  }

  // ---------------------------------------------------------------- all steps

  lemma {:induction false} WhichStep(s: System, t: nat, l: nat)
    requires t < |s.trx| == |s.logs|
    ensures var pc, s1 := s.trx[t].pc, StepOf(s, t, l);
      && (pc.Lock? ==> s1 == StepLock(s, t, pc.m, l))
      && (pc.Blocked? ==> s1 == StepBlocked(s, t, pc.m))
      && (pc.Access? ==> s1 == StepAccess(s, t, pc.m))
      && (pc.Note? ==> s1 == StepNote(s, t, pc.m))
      && (pc.Commit? ==> s1 == StepCommit(s, t))
      && (pc.Undo? ==> s1 == StepUndo(s, t, pc.a))
      && (pc.FreeUndone? ==> s1 == StepFree(s, t, pc.a, Undo(pc.a + 1)))
      && (pc.Log? ==> s1 == StepLog(s, t, pc.a))
      && (pc.FreeLogged? ==> s1 == StepFree(s, t, pc.a, Log(pc.a + 1)))
      && (pc.Publish? ==> s1 == StepPublish(s, t))
  {
  }

  lemma {:induction false} GrowingInv(s: System, t: nat, l: nat)
    requires t < |s.trx| == |s.logs| && SysInv(s)
             && (s.trx[t].pc.Lock? || s.trx[t].pc.Blocked? || s.trx[t].pc.Access? || s.trx[t].pc.Note?)
    ensures SysInv(StepOf(s, t, l))
  {
    hide SysInv;
    WhichStep(s, t, l);
    hide StepOf;
    match s.trx[t].pc
    case Lock(m) => LockInv(s, t, m, l);
    case Blocked(m) => BlockedInv(s, t, m);
    case Access(m) => if m == 0 { ReadInv(s, t); } else { ChangeInv(s, t, m); }
    case Note(m) => NoteInv(s, t, m);
  }

  lemma {:induction false} RollbackInv(s: System, t: nat, l: nat)
    requires t < |s.trx| == |s.logs| && SysInv(s) && (s.trx[t].pc.Undo? || s.trx[t].pc.FreeUndone?)
    ensures SysInv(StepOf(s, t, l))
  {
    hide SysInv;
    WhichStep(s, t, l);
    hide StepOf;
    match s.trx[t].pc
    case Undo(a) => if a < |s.trx[t].deque| { UndoInv(s, t, a); } else { UndoEndInv(s, t, a); }
    case FreeUndone(a) => FreeUndoneInv(s, t, a);
  }

  lemma {:induction false} CommittingInv(s: System, t: nat, l: nat)
    requires t < |s.trx| == |s.logs| && SysInv(s) && (s.trx[t].pc.Commit? || Committing(s.trx[t]))
    ensures SysInv(StepOf(s, t, l))
  {
    hide SysInv;
    WhichStep(s, t, l);
    hide StepOf;
    match s.trx[t].pc
    case Commit => if s.count + 1 <= s.last { CommitInv(s, t); } else { RejectInv(s, t); }
    case Log(a) => LogInv(s, t, a);
    case FreeLogged(a) => FreeLoggedInv(s, t, a);
    case Publish => PublishInv(s, t);
  }

  lemma {:induction false} StepInv(s: System, t: nat, l: nat)
    requires SysInv(s) && t < |s.trx|
    ensures SysInv(StepOf(s, t, l))
  {
    var pc := s.trx[t].pc;
    if pc.Lock? || pc.Blocked? || pc.Access? || pc.Note? {
      GrowingInv(s, t, l);
    } else if pc.Undo? || pc.FreeUndone? {
      RollbackInv(s, t, l);
    } else if pc.Commit? || Committing(s.trx[t]) {
      CommittingInv(s, t, l);
    }
  }

  lemma {:induction false} FirstEdge(s: Table<nat>, a: nat, b: nat)
    ensures Reaches(s, a, b) ==> exists c :: WaitsFor(s, a, c)
  {
    if p :| |p| >= 2 && p[0] == a && p[|p| - 1] == b && IsWalk(s, p) {
      assert WaitsFor(s, p[0], p[1]);
    }
  }

  lemma {:induction false} NoneCommitting(xs: seq<Trx>)
    requires forall t | 0 <= t < |xs| :: !Committing(xs[t])
    ensures NumCommitting(xs) == 0
  {
    if xs != [] { NoneCommitting(xs[1..]); }
  }

  lemma {:induction false} NoLines(logs: seq<seq<LogLine>>)
    requires forall t | 0 <= t < |logs| :: logs[t] == []
    ensures NumLines(logs) == 0
  {
    if logs != [] { NoLines(logs[1..]); }
  }

  lemma {:induction false} InitInv(records: nat, threads: nat, last: int)
    ensures SysInv(Init(records, threads, last))
  {
    var s := Init(records, threads, last);
    forall r | r in s.value ensures ValueOK(s, r) {
      SumNone(s.trx, r);
    }
    NoneCommitting(s.trx);
    NoLines(s.logs);
    forall a ensures !Reaches(s.table, a, a) {
      FirstEdge(s.table, a, a);
    }
  }

  /** The invariant in every run: any records, any threads, any last order, any schedule. */
  lemma {:induction false} RunInv(records: nat, threads: nat, last: int, sched: seq<(nat, Action)>)
    ensures SysInv(Exec(records, threads, last, sched))
  {
    if sched == [] {
      InitInv(records, threads, last);
    } else {
      var before := sched[..|sched| - 1];
      var (t, a) := sched[|sched| - 1];
      var s := Exec(records, threads, last, before);
      RunInv(records, threads, last, before);
      if t < |s.trx| {
        match a
        case Start(tx) => if s.trx[t].pc.Idle? && ValidTx(s, tx) { BeginInv(s, t, tx); }
        case Step(l) => StepInv(s, t, l);
      }
    }
  }
}
