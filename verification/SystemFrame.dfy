/** What a step of one transaction leaves alone, and the sums over all transactions. */
module SystemFrame {
  import opened LockTable
  import opened LockTableProofs
  import opened Transactions
  import opened SystemInvariant

  // ---------------------------------------------------------------- sums

  lemma {:induction false} SumPut(xs: seq<Trx>, t: nat, x: Trx, r: int)
    requires t < |xs|
    ensures SumPending(xs[t := x], r) == SumPending(xs, r) - Pending(xs[t], r) + Pending(x, r)
  {
    if t == 0 {
      assert xs[t := x][1..] == xs[1..];
    } else {
      SumPut(xs[1..], t - 1, x, r);
      assert xs[t := x][1..] == xs[1..][t - 1 := x];
    }
  }

  lemma {:induction false} SumNone(xs: seq<Trx>, r: int)
    requires forall u | 0 <= u < |xs| :: Pending(xs[u], r) == 0
    ensures SumPending(xs, r) == 0
  {
    if xs != [] { SumNone(xs[1..], r); }
  }

  lemma {:induction false} SumOnly(xs: seq<Trx>, t: nat, r: int)
    requires t < |xs| && forall u | 0 <= u < |xs| && u != t :: Pending(xs[u], r) == 0
    ensures SumPending(xs, r) == Pending(xs[t], r)
  {
    if t == 0 { SumNone(xs[1..], r); } else { SumOnly(xs[1..], t - 1, r); }
  }

  lemma {:induction false} CommittingPut(xs: seq<Trx>, t: nat, x: Trx)
    requires t < |xs|
    ensures NumCommitting(xs[t := x]) ==
      NumCommitting(xs) - (if Committing(xs[t]) then 1 else 0) + (if Committing(x) then 1 else 0)
  {
    if t == 0 {
      assert xs[t := x][1..] == xs[1..];
    } else {
      CommittingPut(xs[1..], t - 1, x);
      assert xs[t := x][1..] == xs[1..][t - 1 := x];
    }
  }

  lemma {:induction false} LinesPut(logs: seq<seq<LogLine>>, t: nat, f: seq<LogLine>)
    requires t < |logs|
    ensures NumLines(logs[t := f]) == NumLines(logs) - |logs[t]| + |f|
  {
    if t == 0 {
      assert logs[t := f][1..] == logs[1..];
    } else {
      LinesPut(logs[1..], t - 1, f);
      assert logs[t := f][1..] == logs[1..][t - 1 := f];
    }
  }

  // ---------------------------------------------------------------- strict two-phase locking

  /** What a transaction has in flight on a record, it has under an exclusive lock. */
  lemma {:induction false} PendingHeld(s: System, t: nat, r: int) returns (m: nat)
    requires t < |s.trx| && TrxOK(s, t) && Pending(s.trx[t], r) != 0
    ensures 1 <= m <= 2 && Holds(s, t, m) && Rec(s.trx[t].tx, m) == r
  {
    var x := s.trx[t];
    m := if Applied(x, 1) && x.tx.j == r then 1 else 2;
    if x.pc.Note? { assert m < x.pc.m ==> Noted(s, t, m); } else { assert Noted(s, t, m); }
  }

  /** Two transactions hold locks on one record only if both are shared. */
  lemma {:induction false} HoldersShare(s: System, t: nat, m: nat, u: nat, y: nat)
    requires TableInv(s.table) && t < |s.trx| && u < |s.trx| && t != u && Holds(s, t, m) && Holds(s, u, y)
    requires Rec(s.trx[t].tx, m) == Rec(s.trx[u].tx, y)
    ensures m == 0 && y == 0
  {
    Exclusion(s.table, s.trx[t].deque[m], s.trx[u].deque[y]);
  }

  /** Under t's lock no other transaction has anything in flight. */
  lemma {:induction false} NothingElsePending(s: System, t: nat, m: nat)
    requires TableInv(s.table) && t < |s.trx| && Holds(s, t, m) && forall u | 0 <= u < |s.trx| :: TrxOK(s, u)
    ensures forall u | 0 <= u < |s.trx| && u != t :: Pending(s.trx[u], Rec(s.trx[t].tx, m)) == 0
  {
    var r := Rec(s.trx[t].tx, m);
    forall u | 0 <= u < |s.trx| && u != t ensures Pending(s.trx[u], r) == 0 {
      if Pending(s.trx[u], r) != 0 {
        var y := PendingHeld(s, u, r);
        HoldersShare(s, t, m, u, y);
      }
    }
  }

  // ---------------------------------------------------------------- frames

  predicate SameLock(a: LockInfo, b: LockInfo)
  {
    a.record == b.record && a.thread == b.thread && a.mode == b.mode && a.state == b.state && a.diff == b.diff
  }

  /** The lock objects and conflict locks of the other transactions keep everything but the flags that
      a release sets. */
  ghost predicate TableFrame(a: Table<nat>, b: Table<nat>, t: nat)
  {
    && b.queue.Keys == a.queue.Keys
    && (forall l | l in a.locks && a.locks[l].thread != t :: l in b.locks && SameLock(a.locks[l], b.locks[l]))
    && (forall l | l in b.locks && b.locks[l].thread != t :: l in a.locks && a.locks[l].thread != t)
    && (forall u | u != t ::
          (u in a.conflict <==> u in b.conflict) && (u in a.conflict ==> a.conflict[u] == b.conflict[u]))
  }

  /** A step of t that changes no value under somebody else's lock. */
  ghost predicate Frame(s: System, s1: System, t: nat)
  {
    && t < |s.trx| == |s1.trx| == |s.logs| == |s1.logs|
    && (forall u | 0 <= u < |s.trx| && u != t :: s1.trx[u] == s.trx[u])
    && TableFrame(s.table, s1.table, t)
    && s1.value.Keys == s.value.Keys && s1.last == s.last && s1.count >= s.count && s.history <= s1.history
    && (forall u, y | 0 <= u < |s.trx| && u != t && 0 <= y < 3 && Holds(s, u, y) && Rec(s.trx[u].tx, y) in s.value ::
          s1.value[Rec(s.trx[u].tx, y)] == s.value[Rec(s.trx[u].tx, y)])
  }

  lemma {:induction false} OtherHolds(s: System, s1: System, t: nat, u: nat)
    requires Frame(s, s1, t) && u < |s.trx| && u != t
    ensures forall y: nat | Own(s, u, y) ::
            Own(s1, u, y) && SameLock(s.table.locks[s.trx[u].deque[y]], s1.table.locks[s.trx[u].deque[y]])
    ensures forall y: nat | Holds(s, u, y) :: Holds(s1, u, y)
    ensures forall y: nat | Noted(s, u, y) :: Noted(s1, u, y)
  {
    assert s1.trx[u] == s.trx[u];
    forall y: nat | Own(s, u, y)
      ensures Own(s1, u, y) && SameLock(s.table.locks[s.trx[u].deque[y]], s1.table.locks[s.trx[u].deque[y]])
    {
    }
  }

  lemma {:induction false} OtherLogging(s: System, s1: System, t: nat, u: nat, a: nat, logged: nat)
    requires Frame(s, s1, t) && u < |s.trx| && u != t && Logging(s, u, a, logged)
    ensures Logging(s1, u, a, logged)
  {
    OtherHolds(s, s1, t, u);
    var x := s.trx[u];
    assert s1.trx[u] == x;
    assert s1.history[..x.commitId] == s.history[..x.commitId];
  }

  lemma {:induction false} OtherTrx(s: System, s1: System, t: nat, u: nat)
    requires Frame(s, s1, t) && u < |s.trx| && u != t && TrxOK(s, u)
    ensures TrxOK(s1, u)
  {
    OtherHolds(s, s1, t, u);
    var x := s.trx[u];
    assert s1.trx[u] == x;
    match x.pc
    case Log(a) => OtherLogging(s, s1, t, u, a, a);
    case FreeLogged(a) => OtherLogging(s, s1, t, u, a, a + 1);
    case Publish => OtherLogging(s, s1, t, u, 3, 3);
    case Lock(m) => if m > 0 { assert Noted(s, u, 0); }
    case Blocked(m) => if m > 0 { assert Noted(s, u, 0); }
    case Access(m) => if m > 0 { assert Noted(s, u, 0); }
    case Note(m) => assert Noted(s, u, 0);
    case Commit => assert Noted(s, u, 0);
    case _ =>
  }

  lemma {:induction false} OtherOwned(s: System, s1: System, t: nat, l: nat)
    requires Frame(s, s1, t) && l in s1.table.locks && s1.table.locks[l].thread != t
    requires l in s.table.locks ==> OwnedOK(s, l)
    ensures OwnedOK(s1, l)
  {
    var i := s1.table.locks[l];
    assert SameLock(s.table.locks[l], i);
    if i.state != OBSOLETE {
      var y :| From(s.trx[i.thread]) <= y < |s.trx[i.thread].deque| && s.trx[i.thread].deque[y] == l;
      assert s1.trx[i.thread].deque[y] == l;
    }
  }

  // ---------------------------------------------------------------- putting a step together

  /** Steps that neither commit nor publish. */
  ghost predicate SameLogs(s: System, s1: System, t: nat)
  {
    && s1.history == s.history && s1.logs == s.logs && s1.count == s.count
    && t < |s.trx| == |s1.trx|
    && (Committing(s1.trx[t]) <==> Committing(s.trx[t]))
          && (Committing(s.trx[t]) ==> s1.trx[t].commitId == s.trx[t].commitId)
  }

  lemma {:induction false} SameIds(s: System, s1: System, t: nat)
    requires SysInv(s) && Frame(s, s1, t) && SameLogs(s, s1, t) && s1.trx == s.trx[t := s1.trx[t]]
    ensures IdsOK(s1) && LinesOK(s1)
  {
    CommittingPut(s.trx, t, s1.trx[t]);
  }

  lemma {:induction false} Assemble(s: System, s1: System, t: nat)
    requires SysInv(s) && Frame(s, s1, t) && TableInv(s1.table) && TrxOK(s1, t)
    requires forall l | l in s1.table.locks && s1.table.locks[l].thread == t :: OwnedOK(s1, l)
    requires forall r | r in s1.value :: ValueOK(s1, r)
    requires forall x | x in s1.history :: ValidTx(s1, x)
    requires IdsOK(s1) && LinesOK(s1)
    ensures SysInv(s1)
  {
    forall u | 0 <= u < |s1.trx| ensures TrxOK(s1, u) {
      if u != t { OtherTrx(s, s1, t, u); }
    }
    forall l | l in s1.table.locks ensures OwnedOK(s1, l) {
      if s1.table.locks[l].thread != t { OtherOwned(s, s1, t, l); }
    }
  }

  /** A step that changes neither a value nor what t has in flight. */
  lemma {:induction false} QuietStep(s: System, s1: System, t: nat)
    requires SysInv(s) && Frame(s, s1, t) && TableInv(s1.table) && TrxOK(s1, t)
    requires SameLogs(s, s1, t) && s1.trx == s.trx[t := s1.trx[t]] && s1.value == s.value
    requires forall r :: Pending(s1.trx[t], r) == Pending(s.trx[t], r)
    requires forall l | l in s1.table.locks && s1.table.locks[l].thread == t :: OwnedOK(s1, l)
    ensures SysInv(s1)
  {
    SameIds(s, s1, t);
    forall r | r in s1.value ensures ValueOK(s1, r) {
      assert ValueOK(s, r);
      SumPut(s.trx, t, s1.trx[t], r);
    }
    Assemble(s, s1, t);
  }

  lemma {:induction false} SameValueFrame(s: System, s1: System, t: nat)
    requires t < |s.trx| == |s1.trx| == |s.logs| == |s1.logs| && s1.value == s.value && TableFrame(s.table, s1.table, t)
    requires s1.trx == s.trx[t := s1.trx[t]] && s1.last == s.last && s1.count >= s.count && s.history <= s1.history
    ensures Frame(s, s1, t)
  {
  }
}
