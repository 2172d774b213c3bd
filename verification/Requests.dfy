/** Who gets a lock, who waits and who is refused, said of the table before the request. */
module Requests {
  import opened LockTable
  import opened LockTableProofs
  import opened WaitGraph

  // ---------------------------------------------------------------- what decides

  /** Some lock in use on record r is incompatible with the mode asked for. */
  ghost predicate Obstructed<L>(s: Table<L>, r: int, mode: Mode)
  {
    r in s.queue && exists k ::
      && 0 <= k < |s.queue[r]| && s.queue[r][k] in s.locks
      && var i := s.locks[s.queue[r][k]];
         i.state != OBSOLETE && (mode == EXCLUSIVE || i.mode == EXCLUSIVE)
  }

  /** Some lock in use on record r is t's own, or its owner waits for t, directly or not. */
  ghost predicate ClosesCycle<L>(s: Table<L>, t: nat, r: int)
  {
    r in s.queue && exists k ::
      && 0 <= k < |s.queue[r]| && s.queue[r][k] in s.locks
      && var i := s.locks[s.queue[r][k]];
         i.state != OBSOLETE && (i.thread == t || Reaches(s, i.thread, t))
  }

  // ---------------------------------------------------------------- the wait relation with the request in it

  /** Edges between others are there after the request, too. */
  lemma {:induction false} KeepsEdge<L>(s: Table<L>, t: nat, r: int, mode: Mode, l: L, a: nat, b: nat)
    requires Structure(s) && MayAcquire(s, t, r, l) && WaitsFor(s, a, b)
    ensures a != t && WaitsFor(Appended(s, t, r, mode, l, WAIT), a, b)
  {
    var w := Appended(s, t, r, mode, l, WAIT);
    var x := s.conflict[a];
    assert ConflictOK(s, a) && LockOK(s, x);
    if l in s.locks { assert LockOK(s, l); }
    var i := s.locks[x].record;
    assert PathOK(s, i);
    var j, k :| 0 <= j < k < |s.queue[i]| && s.queue[i][k] == x && Held(s, s.queue[i][j], b);
    assert w.queue[i][k] == x && w.queue[i][j] == s.queue[i][j];
    assert Held(w, w.queue[i][j], b);
  }

  /** The requester waits for the owners of the locks in use on the record. */
  lemma {:induction false} OwnEdge<L>(s: Table<L>, t: nat, r: int, mode: Mode, l: L, b: nat)
    requires Structure(s) && MayAcquire(s, t, r, l)
    ensures var w := Appended(s, t, r, mode, l, WAIT);
            WaitsFor(w, t, b) <==> exists k :: 0 <= k < |s.queue[r]| && Held(s, s.queue[r][k], b)
  {
    var w, q := Appended(s, t, r, mode, l, WAIT), s.queue[r];
    AppendStructure(s, t, r, mode, l, WAIT);
    EdgesAhead(w, t, r, |q|, b);
    assert PathOK(s, r);
    if l in s.locks { assert LockOK(s, l); }
    assert forall k | 0 <= k < |q| :: w.queue[r][k] == q[k] && (Held(w, q[k], b) <==> Held(s, q[k], b));
  }

  /** A walk that does not pass t before its end. */
  lemma {:induction false} OldWalk<L>(s: Table<L>, t: nat, r: int, mode: Mode, l: L, p: seq<nat>)
    requires Structure(s) && MayAcquire(s, t, r, l)
    requires |p| >= 2 && IsWalk(Appended(s, t, r, mode, l, WAIT), p) && forall i | 0 <= i < |p| - 1 :: p[i] != t
    ensures Reaches(s, p[0], p[|p| - 1])
  {
    forall i | 0 <= i < |p| - 1 ensures WaitsFor(s, p[i], p[i + 1]) {
      OldEdge(s, t, r, mode, l, WAIT, p[i], p[i + 1]);
    }
    assert IsWalk(s, p);
  }

  lemma {:induction false} FirstReturn(p: seq<nat>, t: nat, from: nat) returns (i: nat)
    requires from < |p| && p[|p| - 1] == t
    ensures from <= i < |p| && p[i] == t && forall m | from <= m < i :: p[m] != t
    decreases |p| - from
  {
    if p[from] == t { i := from; } else { i := FirstReturn(p, t, from + 1); }
  }

  /** From its second node on, a walk from t back to t shows that t would close a cycle. */
  lemma {:induction false} CycleCloses<L>(s: Table<L>, t: nat, r: int, mode: Mode, l: L)
    requires Structure(s) && MayAcquire(s, t, r, l) && Reaches(Appended(s, t, r, mode, l, WAIT), t, t)
    ensures ClosesCycle(s, t, r)
  {
    var w := Appended(s, t, r, mode, l, WAIT);
    var p :| |p| >= 2 && p[0] == t && p[|p| - 1] == t && IsWalk(w, p);
    assert WaitsFor(w, p[0], p[0 + 1]);
    OwnEdge(s, t, r, mode, l, p[1]);
    var k :| 0 <= k < |s.queue[r]| && Held(s, s.queue[r][k], p[1]);
    if p[1] != t {
      var i := FirstReturn(p, t, 1);
      var c := p[1..i + 1];
      assert IsWalk(w, c) by {
        forall m | 0 <= m < |c| - 1 ensures WaitsFor(w, c[m], c[m + 1]) { assert WaitsFor(w, p[m + 1], p[m + 1 + 1]); }
      }
      OldWalk(s, t, r, mode, l, c);
    }
  }

  lemma {:induction false} ClosingCycles<L>(s: Table<L>, t: nat, r: int, mode: Mode, l: L)
    requires Structure(s) && MayAcquire(s, t, r, l) && ClosesCycle(s, t, r)
    ensures Reaches(Appended(s, t, r, mode, l, WAIT), t, t)
  {
    var w, q := Appended(s, t, r, mode, l, WAIT), s.queue[r];
    var k :| && 0 <= k < |q| && q[k] in s.locks && s.locks[q[k]].state != OBSOLETE
             && (s.locks[q[k]].thread == t || Reaches(s, s.locks[q[k]].thread, t));
    var b := s.locks[q[k]].thread;
    assert Held(s, q[k], b);
    OwnEdge(s, t, r, mode, l, b);
    if b == t {
      OneEdge(w, t, t);
    } else {
      var p :| |p| >= 2 && p[0] == b && p[|p| - 1] == t && IsWalk(s, p);
      var c := [t] + p;
      assert IsWalk(w, c) by {
        forall m | 0 <= m < |c| - 1 ensures WaitsFor(w, c[m], c[m + 1]) {
          if m > 0 {
            assert WaitsFor(s, p[m - 1], p[m - 1 + 1]);
            KeepsEdge(s, t, r, mode, l, p[m - 1], p[m]);
          }
        }
      }
      assert c[0] == t && c[|c| - 1] == t;
    }
  }

  // ---------------------------------------------------------------- the decision

  /** A request is granted if no lock in use stands in its way, refused if it would close a cycle, and has to
      wait otherwise; and this is all that it changes. */
  lemma {:induction false} AcquireDecides<L>(s: Table<L>, t: nat, r: int, mode: Mode, l: L)
    requires Structure(s) && MayAcquire(s, t, r, l)
    ensures Listed(s.locks, s.queue[r])
    ensures var s1 := Acquire(s, t, r, mode, l);
      && l in s1.locks && s1.locks == s.locks[l := s1.locks[l]] && s1.queue == s.queue[r := s.queue[r] + [l]]
      && var i := s1.locks[l];
         && i.record == r && i.thread == t && i.mode == mode && i.diff == 0 && !i.headPass && !i.signal
         && (i.state == ACTIVE <==> !Obstructed(s, r, mode))
         && (i.state == OBSOLETE <==> Obstructed(s, r, mode) && ClosesCycle(s, t, r))
         && (i.state == WAIT <==> Obstructed(s, r, mode) && !ClosesCycle(s, t, r))
         && s1.conflict == if i.state == WAIT then s.conflict[t := l] else s.conflict
    ensures var i := Acquire(s, t, r, mode, l).locks[l];
      match AcquireOutcome(s, t, r, mode, l)
      case Granted => i.state == ACTIVE
      case Waiting => i.state == WAIT
      case Deadlocked => i.state == OBSOLETE
  {
    var q := s.queue[r];
    assert PathOK(s, r);
    if ClosesCycle(s, t, r) { ClosingCycles(s, t, r, mode, l); }
    if Reaches(Appended(s, t, r, mode, l, WAIT), t, t) { CycleCloses(s, t, r, mode, l); }
    var y := LockInfo(r, t, mode, ACTIVE, false, false, 0);
    if !Clear(s.locks, q, y) {
      var k :| 0 <= k < |q| && Blocks(s.locks[q[k]], y);
      assert q[k] in s.locks;
    }
    if Obstructed(s, r, mode) {
      var k :| 0 <= k < |q| && q[k] in s.locks && s.locks[q[k]].state != OBSOLETE
               && (mode == EXCLUSIVE || s.locks[q[k]].mode == EXCLUSIVE);
      assert Blocks(s.locks[q[k]], y);
    }
    assert s.conflict - {t} == s.conflict;
    assert s.conflict[t := l] - {t} == s.conflict;
  }
}
