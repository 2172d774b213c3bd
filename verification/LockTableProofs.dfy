/** Every critical section keeps the lock-table invariant. */
module LockTableProofs {
  import opened LockTable
  import opened WaitGraph

  // ---------------------------------------------------------------- acquire

  lemma {:induction false} AppendStructure<L>(s: Table<L>, t: nat, r: int, mode: Mode, l: L, state: Status)
    requires Structure(s) && MayAcquire(s, t, r, l)
    ensures var s1 := Appended(s, t, r, mode, l, state);
      Structure(if state == WAIT then s1 else NoConflict(s1, t))
  {
    var s0 := Appended(s, t, r, mode, l, state);
    var s1 := if state == WAIT then s0 else NoConflict(s0, t);
    assert PathOK(s, r);
    assert l !in s.queue[r] by {
      if l in s.locks { assert LockOK(s, l); }
    }
    forall x | x in s1.queue ensures PathOK(s1, x) {
      assert PathOK(s, x);
      assert l !in s.queue[x] by {
        if l in s.locks { assert LockOK(s, l); }
      }
    }
    forall x | x in s1.locks ensures LockOK(s1, x) {
      if x == l {
        assert s1.queue[r][|s.queue[r]|] == l;
      } else {
        assert LockOK(s, x);
        if s.locks[x].record == r { assert x in s1.queue[r] <==> x in s.queue[r]; }
        if s.locks[x].state == WAIT { assert ConflictOK(s, s.locks[x].thread); }
      }
    }
    forall u | u in s1.conflict ensures ConflictOK(s1, u) {
      if u != t { assert ConflictOK(s, u); }
    }
  }

  lemma {:induction false} AcquireStructure<L>(s: Table<L>, t: nat, r: int, mode: Mode, l: L)
    requires Structure(s) && MayAcquire(s, t, r, l)
    ensures Listed(s.locks, s.queue[r]) && Structure(Acquire(s, t, r, mode, l))
  {
    assert PathOK(s, r);
    AppendStructure(s, t, r, mode, l, ACTIVE);
    AppendStructure(s, t, r, mode, l, WAIT);
    AppendStructure(s, t, r, mode, l, OBSOLETE);
  }

  lemma {:induction false} AppendGrant<L>(s: Table<L>, s1: Table<L>, l: L, x: int)
    requires x in s.queue && Listed(s.locks, s.queue[x]) && GrantOK(s, x) && l !in s.queue[x]
    requires forall y | y in s.locks && y != l :: y in s1.locks && s1.locks[y] == s.locks[y]
    requires x in s1.queue && l in s1.locks && (s1.queue[x] == s.queue[x] || s1.queue[x] == s.queue[x] + [l])
    requires s1.queue[x] == s.queue[x] + [l] && s1.locks[l].state != OBSOLETE ==>
               (Grant(s1.locks[l]) <==> Clear(s.locks, s.queue[x], s1.locks[l]))
    ensures Listed(s1.locks, s1.queue[x]) && GrantOK(s1, x)
  {
    var q, q1 := s.queue[x], s1.queue[x];
    forall k | 0 <= k < |q1| && s1.locks[q1[k]].state != OBSOLETE
      ensures Grant(s1.locks[q1[k]]) <==> Clear(s1.locks, q1[..k], s1.locks[q1[k]])
    {
      assert q1[..k] == q[..k];
      assert forall j | 0 <= j < k :: s1.locks[q[j]] == s.locks[q[j]];
      if k == |q| { assert q[..k] == q; }
    }
  }

  /** Adding a lock at the tail leaves the grants of the others alone. */
  lemma {:induction false} AcquireGrants<L>(s: Table<L>, t: nat, r: int, mode: Mode, l: L)
    requires TableInv(s) && MayAcquire(s, t, r, l)
    ensures Listed(s.locks, s.queue[r])
    ensures var s1 := Acquire(s, t, r, mode, l);
            forall x | x in s1.queue :: Listed(s1.locks, s1.queue[x]) && GrantOK(s1, x)
  {
    assert PathOK(s, r);
    var s1 := Acquire(s, t, r, mode, l);
    assert Clear(s.locks, s.queue[r], s1.locks[l])
        <==> Clear(s.locks, s.queue[r], LockInfo(r, t, mode, ACTIVE, false, false, 0));
    forall x | x in s1.queue ensures Listed(s1.locks, s1.queue[x]) && GrantOK(s1, x) {
      assert PathOK(s, x) && GrantOK(s, x);
      assert l !in s.queue[x] by {
        if l in s.locks { assert LockOK(s, l); }
      }
      AppendGrant(s, s1, l, x);
    }
  }

  /** An existing edge does not depend on the new lock. */
  lemma {:induction false} OldEdge<L>(s: Table<L>, t: nat, r: int, mode: Mode, l: L, state: Status, a: nat, b: nat)
    requires Structure(s) && MayAcquire(s, t, r, l) && a != t && WaitsFor(Appended(s, t, r, mode, l, state), a, b)
    ensures WaitsFor(s, a, b)
  {
    var s1 := Appended(s, t, r, mode, l, state);
    var x := s.conflict[a];
    assert ConflictOK(s, a) && LockOK(s, x);
    if l in s.locks { assert LockOK(s, l); }
    var i := s.locks[x].record;
    assert PathOK(s, i);
    var j, k :| 0 <= j < k < |s1.queue[i]| && s1.queue[i][k] == x && Held(s1, s1.queue[i][j], b);
    assert k < |s.queue[i]|;
    assert s.queue[i][k] == x && Held(s, s.queue[i][j], b);
  }

  lemma {:induction false} NoConflictEdges<L>(s: Table<L>, t: nat, r: int, mode: Mode, l: L, state: Status)
    requires TableInv(s) && MayAcquire(s, t, r, l)
    ensures Acyclic(NoConflict(Appended(s, t, r, mode, l, state), t))
  {
    var s1 := NoConflict(Appended(s, t, r, mode, l, state), t);
    forall a, b | WaitsFor(s1, a, b) ensures WaitsFor(s, a, b) {
      assert a != t;
      var i := s1.locks[s1.conflict[a]].record;
      var s0 := Appended(s, t, r, mode, l, state);
      var j, k :| 0 <= j < k < |s1.queue[i]| && s1.queue[i][k] == s1.conflict[a] && Held(s1, s1.queue[i][j], b);
      assert Held(s0, s0.queue[i][j], b);
      OldEdge(s, t, r, mode, l, state, a, b);
    }
    FewerEdges(s, s1);
  }

  /** The deadlock check is what keeps the wait relation acyclic. */
  lemma {:induction false} AcquireAcyclic<L>(s: Table<L>, t: nat, r: int, mode: Mode, l: L)
    requires TableInv(s) && MayAcquire(s, t, r, l)
    ensures Listed(s.locks, s.queue[r]) && Acyclic(Acquire(s, t, r, mode, l))
  {
    assert PathOK(s, r);
    var s1 := Acquire(s, t, r, mode, l);
    match AcquireOutcome(s, t, r, mode, l)
    case Waiting =>
      forall a, b | a != t && WaitsFor(s1, a, b) ensures WaitsFor(s, a, b) {
        OldEdge(s, t, r, mode, l, WAIT, a, b);
      }
      NewEdgesFrom(s, s1, t);
    case Granted => NoConflictEdges(s, t, r, mode, l, ACTIVE);
    case Deadlocked => NoConflictEdges(s, t, r, mode, l, OBSOLETE);
  }

  lemma {:induction false} AcquireInv<L>(s: Table<L>, t: nat, r: int, mode: Mode, l: L)
    requires TableInv(s) && MayAcquire(s, t, r, l)
    ensures Listed(s.locks, s.queue[r]) && TableInv(Acquire(s, t, r, mode, l))
  {
    AcquireStructure(s, t, r, mode, l);
    AcquireGrants(s, t, r, mode, l);
    AcquireAcyclic(s, t, r, mode, l);
  }

  // ---------------------------------------------------------------- resume

  lemma {:induction false} ResumeGrant<L>(s: Table<L>, t: nat, r: int)
    requires Structure(s) && MayResume(s, t) && r in s.queue && PathOK(s, r) && GrantOK(s, r)
    ensures GrantOK(Resume(s, t), r)
  {
    var s1 := Resume(s, t);
    var q := s.queue[r];
    assert ConflictOK(s, t);
    forall k | 0 <= k < |q| && s1.locks[q[k]].state != OBSOLETE
      ensures Grant(s1.locks[q[k]]) <==> Clear(s1.locks, q[..k], s1.locks[q[k]])
    {
      assert Clear(s1.locks, q[..k], s1.locks[q[k]]) <==> Clear(s.locks, q[..k], s.locks[q[k]]) by {
        assert forall j | 0 <= j < k ::
            Blocks(s1.locks[q[j]], s1.locks[q[k]]) <==> Blocks(s.locks[q[j]], s.locks[q[k]]);
        assert forall j | 0 <= j < k :: q[..k][j] == q[j];
      }
    }
  }

  lemma {:induction false} ResumeInv<L>(s: Table<L>, t: nat)
    requires TableInv(s) && MayResume(s, t)
    ensures TableInv(Resume(s, t))
  {
    var s1 := Resume(s, t);
    var l := s.conflict[t];
    assert ConflictOK(s, t) && LockOK(s, l);
    forall r | r in s1.queue ensures PathOK(s1, r) && GrantOK(s1, r) {
      assert PathOK(s, r) && GrantOK(s, r);
      ResumeGrant(s, t, r);
    }
    forall x | x in s1.locks ensures LockOK(s1, x) {
      assert LockOK(s, x);
    }
    forall u | u in s1.conflict ensures ConflictOK(s1, u) {
      assert ConflictOK(s, u);
    }
    forall a, b | WaitsFor(s1, a, b) ensures WaitsFor(s, a, b) {
      var i := s1.locks[s1.conflict[a]].record;
      var j, k :| 0 <= j < k < |s1.queue[i]| && s1.queue[i][k] == s1.conflict[a] && Held(s1, s1.queue[i][j], b);
      assert Held(s, s.queue[i][j], b);
    }
    FewerEdges(s, s1);
  }

  // ---------------------------------------------------------------- release

  lemma {:induction false} SharedRunWithin<L>(locks: map<L, LockInfo>, q: seq<L>)
    requires Listed(locks, q)
    ensures forall x | x in SharedRun(locks, q) :: x in q
  {
    if q != [] { SharedRunWithin(locks, q[1..]); }
  }

  lemma {:induction false} SharedRunExact<L>(locks: map<L, LockInfo>, q: seq<L>, k: nat)
    requires Listed(locks, q) && Distinct(q) && k < |q|
    ensures q[k] in SharedRun(locks, q) <==>
      locks[q[k]].state != OBSOLETE
          && forall j | 0 <= j <= k && locks[q[j]].state != OBSOLETE :: locks[q[j]].mode == SHARED
  {
    SharedRunWithin(locks, q[1..]);
    if k > 0 {
      SharedRunExact(locks, q[1..], k - 1);
      assert q[k] == q[1..][k - 1];
      assert forall j | 0 < j <= k :: q[j] == q[1..][j - 1];
    }
  }

  /** The locks that a release wakes are exactly the grantable ones of the new queue. */
  lemma {:induction false} WokenExact<L>(locks: map<L, LockInfo>, q: seq<L>, k: nat)
    requires Listed(locks, q) && Distinct(q) && k < |q| && locks[q[0]].state != OBSOLETE
    ensures q[k] in Woken(locks, q) <==> locks[q[k]].state != OBSOLETE && Clear(locks, q[..k], locks[q[k]])
  {
    SharedRunWithin(locks, q[1..]);
    if k > 0 {
      SharedRunExact(locks, q[1..], k - 1);
      assert forall j | 0 < j <= k :: q[j] == q[1..][j - 1];
      assert forall j | 0 <= j < k :: q[..k][j] == q[j];
      assert q[..k][0] == q[0];
    }
  }

  /** A lock that may be released: in use and not waiting, or a deadlock victim that is obsolete already. */
  ghost predicate MayRelease<L>(s: Table<L>, l: L)
  {
    l in s.locks && s.locks[l].state != WAIT && s.locks[l].record in s.queue && s.queue[s.locks[l].record] != []
  }

  ghost predicate ReleaseParts<L>(s: Table<L>, l: L, n: nat, w: set<L>)
  {
    && MayRelease(s, l) && Listed(s.locks, s.queue[s.locks[l].record])
    && var r := s.locks[l].record;
       var q := s.queue[r];
       && n < |q| && (forall k | 0 <= k < n :: q[k] == l || s.locks[q[k]].state == OBSOLETE)
  }

  /** Both results of a release are a head movement over obsolete locks with some locks signalled. */
  function Moved<L(==)>(s: Table<L>, l: L, n: nat, w: set<L>): (s1: Table<L>)
    requires l in s.locks && s.locks[l].record in s.queue && n <= |s.queue[s.locks[l].record]|
  {
    Advance(MarkObsolete(s, l), s.locks[l].record, n, w)
  }

  lemma {:induction false} ReleaseIsMoved<L>(s: Table<L>, l: L) returns (n: nat, w: set<L>)
    requires MayRelease(s, l) && Listed(s.locks, s.queue[s.locks[l].record])
    ensures ReleaseParts(s, l, n, w) && Release(s, l) == Moved(s, l, n, w)
    ensures
      var r := s.locks[l].record; var q := s.queue[r]; var locks := MarkObsolete(s, l).locks;
      || (n == 0 && w == {} && locks[q[0]].state != OBSOLETE)
      || (n == |q| - 1 && w == {} && locks[q[n]].state == OBSOLETE)
      || (locks[q[n]].state != OBSOLETE && w == Woken(locks, q[n..]))
  {
    var s1 := MarkObsolete(s, l);
    var r := s.locks[l].record;
    var q := s.queue[r];
    n := Leading(s1.locks, q);
    if n == 0 {
      w := {};
      assert q[0..] == q && s.queue[r := q] == s.queue;
      assert Moved(s, l, 0, {}) == s1;
    } else if n == |q| {
      n := |q| - 1;
      w := {};
    } else {
      w := Woken(s1.locks, q[n..]);
    }
  }

  lemma {:induction false} MovedStructure<L>(s: Table<L>, l: L, n: nat, w: set<L>)
    requires Structure(s) && ReleaseParts(s, l, n, w)
    ensures Structure(Moved(s, l, n, w))
  {
    var s1 := Moved(s, l, n, w);
    var r := s.locks[l].record;
    var q := s.queue[r];
    assert PathOK(s, r);
    forall x | x in s1.queue ensures PathOK(s1, x) {
      assert PathOK(s, x);
      if x == r { assert forall k | 0 <= k < |q| - n :: q[n..][k] == q[n + k]; }
    }
    forall x | x in s1.locks ensures LockOK(s1, x) {
      assert LockOK(s, x);
      if s.locks[x].record == r {
        assert q == q[..n] + q[n..];
      }
    }
    forall t | t in s1.conflict ensures ConflictOK(s1, t) {
      assert ConflictOK(s, t);
    }
  }

  lemma {:induction false} MovedAcyclic<L>(s: Table<L>, l: L, n: nat, w: set<L>)
    requires Structure(s) && Acyclic(s) && ReleaseParts(s, l, n, w)
    ensures Acyclic(Moved(s, l, n, w))
  {
    var s1 := Moved(s, l, n, w);
    var r := s.locks[l].record;
    forall a, b | WaitsFor(s1, a, b) ensures WaitsFor(s, a, b) {
      var i := s1.locks[s1.conflict[a]].record;
      var j, k :| 0 <= j < k < |s1.queue[i]| && s1.queue[i][k] == s1.conflict[a] && Held(s1, s1.queue[i][j], b);
      assert Held(s, s1.queue[i][j], b);
      if i == r {
        assert s.queue[i][n + k] == s.conflict[a] && Held(s, s.queue[i][n + j], b);
      }
    }
    FewerEdges(s, s1);
  }

  lemma {:induction false} WokenWithin<L>(locks: map<L, LockInfo>, q: seq<L>)
    requires q != [] && Listed(locks, q)
    ensures forall x | x in Woken(locks, q) :: x in q
  {
    SharedRunWithin(locks, q[1..]);
  }

  /** While the head is in use, a release behind it unblocks nobody: a granted lock behind a head in
      use is shared, like the head, and what a shared lock blocks the head blocks as well. */
  lemma {:induction false} ReleaseBehindHead<L>(s: Table<L>, l: L, k: nat)
    requires MayRelease(s, l) && var r := s.locks[l].record; PathOK(s, r) && GrantOK(s, r) && k < |s.queue[r]|
    requires var q := s.queue[s.locks[l].record];
             q[0] != l && s.locks[q[0]].state != OBSOLETE && q[k] != l
             && s.locks[q[k]].state != OBSOLETE
    ensures var q := s.queue[s.locks[l].record]; var locks := MarkObsolete(s, l).locks;
      Clear(locks, q[..k], s.locks[q[k]]) <==> Clear(s.locks, q[..k], s.locks[q[k]])
  {
    var q := s.queue[s.locks[l].record];
    var locks := MarkObsolete(s, l).locks;
    var x := s.locks[q[k]];
    forall j | 0 <= j < k && Blocks(s.locks[q[j]], x) ensures !Clear(locks, q[..k], x) {
      if q[j] == l {
        assert Clear(s.locks, q[..j], s.locks[l]);
        assert q[..j][0] == q[0];
        assert Blocks(locks[q[..k][0]], x);
      } else {
        assert Blocks(locks[q[..k][j]], x);
      }
    }
    assert forall j | 0 <= j < k :: q[..k][j] == q[j];
  }

  /** Dropping obsolete locks from the front changes nothing for those behind. */
  lemma {:induction false} DropObsolete<L>(locks: map<L, LockInfo>, q: seq<L>, n: nat, k: nat, y: LockInfo)
    requires Listed(locks, q) && n + k <= |q| && forall j | 0 <= j < n :: locks[q[j]].state == OBSOLETE
    ensures Clear(locks, q[n..][..k], y) <==> Clear(locks, q[..n + k], y)
  {
    assert forall j | 0 <= j < k :: q[n..][..k][j] == q[..n + k][n + j];
    assert forall j | 0 <= j < n + k :: q[..n + k][j] == q[j];
    if Clear(locks, q[n..][..k], y) {
      var front := q[..n + k];
      forall j | 0 <= j < |front| ensures !Blocks(locks[front[j]], y) {
        if j >= n { assert front[j] == q[n..][..k][j - n]; }
      }
    }
  }

  /** Release only ever removes obstacles. */
  lemma {:induction false} MarkMonotone<L>(s: Table<L>, l: L, q: seq<L>, y: LockInfo)
    requires l in s.locks && Listed(s.locks, q) && Clear(s.locks, q, y)
    ensures Clear(MarkObsolete(s, l).locks, q, y)
  {
  }

  /** Behind a head that has moved, what was granted or is signalled is what may be granted. */
  lemma {:induction false} WokenGrant<L>(s: Table<L>, l: L, n: nat, w: set<L>, k: nat)
    requires MayRelease(s, l) && var r := s.locks[l].record; PathOK(s, r) && GrantOK(s, r)
    requires var q := s.queue[s.locks[l].record];
      && n + k < |q| && Listed(MarkObsolete(s, l).locks, q[n..]) && Distinct(q[n..])
      && w == Woken(MarkObsolete(s, l).locks, q[n..]) && q[n + k] != l && s.locks[q[n + k]].state != OBSOLETE
      && MarkObsolete(s, l).locks[q[n]].state != OBSOLETE
      && forall j | 0 <= j < n :: MarkObsolete(s, l).locks[q[j]].state == OBSOLETE
    ensures var q, locks := s.queue[s.locks[l].record], MarkObsolete(s, l).locks;
      var y := s.locks[q[n + k]];
      Grant(y) || q[n + k] in w <==> Clear(locks, q[n..][..k], y)
  {
    var q, locks := s.queue[s.locks[l].record], MarkObsolete(s, l).locks;
    var y := s.locks[q[n + k]];
    WokenExact(locks, q[n..], k);
    DropObsolete(locks, q, n, k, y);
    if Grant(y) { MarkMonotone(s, l, q[..n + k], y); }
  }

  /** The grants on the released record. */
  lemma {:induction false} ReleaseGrantHere<L>(s: Table<L>, l: L, k: nat)
    requires MayRelease(s, l) && var r := s.locks[l].record; PathOK(s, r) && GrantOK(s, r)
    requires var s1 := Release(s, l); var r := s.locks[l].record;
      r in s1.queue && k < |s1.queue[r]| && Listed(s1.locks, s1.queue[r]) && s1.locks[s1.queue[r][k]].state != OBSOLETE
    ensures var s1 := Release(s, l); var q1 := s1.queue[s.locks[l].record];
      Grant(s1.locks[q1[k]]) <==> Clear(s1.locks, q1[..k], s1.locks[q1[k]])
  {
    var s1, r := Release(s, l), s.locks[l].record;
    var q, q1, locks := s.queue[r], s1.queue[r], MarkObsolete(s, l).locks;
    var n, w := ReleaseIsMoved(s, l);
    var x := q1[k];
    assert q1 == q[n..] && x == q[n + k] && x != l;
    assert Clear(s1.locks, q1[..k], s1.locks[x]) <==> Clear(locks, q[n..][..k], s.locks[x]);
    if n == 0 && w == {} {
      ReleaseBehindHead(s, l, k);
    } else {
      hide Release, PathOK, GrantOK;
      WokenGrant(s, l, n, w, k);
    }
  }

  lemma {:induction false} ReleaseGrantElsewhere<L>(s: Table<L>, l: L, x: int)
    requires Structure(s) && MayRelease(s, l) && x in s.queue && x != s.locks[l].record && PathOK(s, x) && GrantOK(s, x)
    requires Listed(s.locks, s.queue[s.locks[l].record])
    ensures var s1 := Release(s, l); x in s1.queue && Listed(s1.locks, s1.queue[x]) && GrantOK(s1, x)
  {
    var s1 := Release(s, l);
    var r := s.locks[l].record;
    var n, w := ReleaseIsMoved(s, l);
    var q := s.queue[x];
    assert PathOK(s, r);
    if w != {} { WokenWithin(MarkObsolete(s, l).locks, s.queue[r][n..]); }
    assert forall k | 0 <= k < |q| :: s1.locks[q[k]] == s.locks[q[k]] by {
      forall k | 0 <= k < |q| ensures q[k] !in w && q[k] !in s.queue[r] {
        assert s.locks[q[k]].record == x;
      }
    }
    forall k | 0 <= k < |q| && s1.locks[q[k]].state != OBSOLETE
      ensures Grant(s1.locks[q[k]]) <==> Clear(s1.locks, q[..k], s1.locks[q[k]])
    {
      assert forall j | 0 <= j < k :: q[..k][j] == q[j];
    }
  }

  lemma {:induction false} ReleaseInv<L>(s: Table<L>, l: L)
    requires TableInv(s) && MayRelease(s, l)
    ensures Listed(s.locks, s.queue[s.locks[l].record]) && TableInv(Release(s, l))
  {
    var r := s.locks[l].record;
    assert PathOK(s, r) && GrantOK(s, r);
    var n, w := ReleaseIsMoved(s, l);
    MovedStructure(s, l, n, w);
    MovedAcyclic(s, l, n, w);
    var s1 := Release(s, l);
    forall x | x in s1.queue ensures PathOK(s1, x) && GrantOK(s1, x) {
      assert PathOK(s, x) && GrantOK(s, x) && PathOK(s1, x);
      if x == r {
        forall k | 0 <= k < |s1.queue[r]| && s1.locks[s1.queue[r][k]].state != OBSOLETE
          ensures Grant(s1.locks[s1.queue[r][k]]) <==> Clear(s1.locks, s1.queue[r][..k], s1.locks[s1.queue[r][k]])
        {
          ReleaseGrantHere(s, l, k);
        }
      } else {
        ReleaseGrantElsewhere(s, l, x);
      }
    }
  }

  // ---------------------------------------------------------------- writing the difference

  lemma {:induction false} SetDiffInv<L>(s: Table<L>, l: L, d: int)
    requires TableInv(s) && l in s.locks
    ensures TableInv(SetDiff(s, l, d))
  {
    var s1 := SetDiff(s, l, d);
    forall r | r in s1.queue ensures PathOK(s1, r) && GrantOK(s1, r) {
      assert PathOK(s, r) && GrantOK(s, r);
      var q := s.queue[r];
      forall k | 0 <= k < |q| && s1.locks[q[k]].state != OBSOLETE
        ensures Grant(s1.locks[q[k]]) <==> Clear(s1.locks, q[..k], s1.locks[q[k]])
      {
        assert forall j | 0 <= j < k :: q[..k][j] == q[j];
        assert Clear(s1.locks, q[..k], s1.locks[q[k]]) <==> Clear(s.locks, q[..k], s.locks[q[k]]);
      }
    }
    forall x | x in s1.locks ensures LockOK(s1, x) { assert LockOK(s, x); }
    forall t | t in s1.conflict ensures ConflictOK(s1, t) { assert ConflictOK(s, t); }
    forall a, b | WaitsFor(s1, a, b) ensures WaitsFor(s, a, b) {
      var i := s1.locks[s1.conflict[a]].record;
      var j, k :| 0 <= j < k < |s1.queue[i]| && s1.queue[i][k] == s1.conflict[a] && Held(s1, s1.queue[i][j], b);
      assert Held(s, s.queue[i][j], b);
    }
    FewerEdges(s, s1);
  }

  // ---------------------------------------------------------------- what the invariant gives

  /** An exclusive lock that holds, or has been told that it holds, is alone on its record. */
  lemma {:induction false} Exclusion<L>(s: Table<L>, x: L, y: L)
    requires TableInv(s) && x in s.locks && y in s.locks && x != y && s.locks[x].record == s.locks[y].record
    requires s.locks[x].state != OBSOLETE && s.locks[y].state != OBSOLETE && Grant(s.locks[x]) && Grant(s.locks[y])
    ensures Compatible(s.locks[x], s.locks[y])
  {
    var r := s.locks[x].record;
    assert LockOK(s, x) && LockOK(s, y) && PathOK(s, r) && GrantOK(s, r);
    var q := s.queue[r];
    var i :| 0 <= i < |q| && q[i] == x;
    var j :| 0 <= j < |q| && q[j] == y;
    if i < j { assert q[..j][i] == x; } else { assert q[..i][j] == y; }
  }

  /** An earlier blocked request is never overtaken by an incompatible one. */
  lemma {:induction false} NoOvertaking<L>(s: Table<L>, r: int, j: nat, k: nat)
    requires TableInv(s) && r in s.queue && j < k < |s.queue[r]|
    requires Listed(s.locks, s.queue[r]) && s.locks[s.queue[r][j]].state != OBSOLETE
             && s.locks[s.queue[r][k]].state != OBSOLETE
    requires Grant(s.locks[s.queue[r][k]])
    ensures Compatible(s.locks[s.queue[r][j]], s.locks[s.queue[r][k]])
  {
    assert PathOK(s, r) && GrantOK(s, r);
    assert s.queue[r][..k][j] == s.queue[r][j];
  }
}
