/** Walks along the wait relation: rotation of cycles, and the chain from a blocked transaction to one
    that can move. */
module WaitGraph {
  import opened LockTable

  lemma {:induction false} WalkKept<L>(s: Table<L>, s1: Table<L>, a: nat)
    requires forall a, b | WaitsFor(s1, a, b) :: WaitsFor(s, a, b)
    ensures Reaches(s1, a, a) ==> Reaches(s, a, a)
  {
    if p :| |p| >= 2 && p[0] == a && p[|p| - 1] == a && IsWalk(s1, p) {
      assert IsWalk(s, p);
    }
  }

  lemma {:induction false} FewerEdges<L>(s: Table<L>, s1: Table<L>)
    requires Acyclic(s) && forall a, b | WaitsFor(s1, a, b) :: WaitsFor(s, a, b)
    ensures Acyclic(s1)
  {
    forall a ensures !Reaches(s1, a, a) {
      WalkKept(s, s1, a);
    }
  }

  /** A cycle through t can be walked from t. */
  lemma {:induction false} Rotate<L>(s: Table<L>, p: seq<nat>, i: nat)
    requires |p| >= 2 && p[0] == p[|p| - 1] && IsWalk(s, p) && i < |p| - 1
    ensures Reaches(s, p[i], p[i])
  {
    var c := p[i..] + p[1..i + 1];
    forall m | 0 <= m < |c| - 1 ensures WaitsFor(s, c[m], c[m + 1]) {
      if m < |p| - i - 1 {
        assert c[m] == p[i + m] && c[m + 1] == p[i + m + 1];
        assert WaitsFor(s, p[i + m], p[i + m + 1]);
      } else {
        var x := m - (|p| - i) + 1;
        assert c[m] == p[x] && c[m + 1] == p[x + 1];
        assert WaitsFor(s, p[x], p[x + 1]);
      }
    }
    assert c[0] == p[i] && c[|c| - 1] == p[i];
  }

  lemma {:induction false} CycleAtOrOld<L>(s: Table<L>, s1: Table<L>, t: nat, a: nat)
    requires forall a, b | a != t && WaitsFor(s1, a, b) :: WaitsFor(s, a, b)
    ensures Reaches(s1, a, a) ==> Reaches(s1, t, t) || Reaches(s, a, a)
  {
    if p :| |p| >= 2 && p[0] == a && p[|p| - 1] == a && IsWalk(s1, p) {
      if i :| 0 <= i < |p| - 1 && p[i] == t {
        Rotate(s1, p, i);
      } else {
        assert IsWalk(s, p);
      }
    }
  }

  /** When all new edges start at t, the graph stays acyclic unless t now reaches itself. */
  lemma {:induction false} NewEdgesFrom<L>(s: Table<L>, s1: Table<L>, t: nat)
    requires Acyclic(s) && !Reaches(s1, t, t)
    requires forall a, b | a != t && WaitsFor(s1, a, b) :: WaitsFor(s, a, b)
    ensures Acyclic(s1)
  {
    forall a ensures !Reaches(s1, a, a) {
      CycleAtOrOld(s, s1, t, a);
    }
  }

  /** A transaction that can take a step without waiting for anyone: it is not blocked, or it has
      been signalled. */
  ghost predicate CanMove<L>(s: Table<L>, t: nat)
  {
    t !in s.conflict || MayResume(s, t)
  }

  /** A blocked transaction waits for one whose lock is ahead of its own. */
  lemma {:induction false} BlockedWaits<L>(s: Table<L>, a: nat) returns (b: nat, x: L)
    requires TableInv(s) && a in s.conflict && !MayResume(s, a)
    ensures WaitsFor(s, a, b) && Held(s, x, b)
  {
    var l := s.conflict[a];
    assert ConflictOK(s, a) && LockOK(s, l);
    var r := s.locks[l].record;
    var q := s.queue[r];
    assert PathOK(s, r) && GrantOK(s, r);
    var k :| 0 <= k < |q| && q[k] == l;
    var j :| 0 <= j < k && Blocks(s.locks[q[j]], s.locks[l]);
    x := q[j];
    b := s.locks[x].thread;
    assert Held(s, q[j], b);
  }

  /** A walk that comes back to one of its transactions has walked a cycle. */
  lemma {:induction false} WalkClosed<L>(s: Table<L>, p: seq<nat>, i: nat)
    requires IsWalk(s, p) && i < |p| - 1 && p[i] == p[|p| - 1]
    ensures Reaches(s, p[i], p[i])
  {
    var c := p[i..];
    assert IsWalk(s, c) by {
      forall m | 0 <= m < |c| - 1 ensures WaitsFor(s, c[m], c[m + 1]) {
        assert WaitsFor(s, p[i + m], p[i + m + 1]);
      }
    }
    assert c[0] == p[i] && c[|c| - 1] == p[i];
  }

  /** Follow the wait relation from the end of a walk that starts at a. */
  lemma {:induction false} Follow<L>(s: Table<L>, p: seq<nat>, seen: set<nat>) returns (b: nat, x: L)
    requires TableInv(s) && p != [] && IsWalk(s, p) && p[|p| - 1] in s.conflict && !MayResume(s, p[|p| - 1])
    requires seen == (set t | t in p) && forall t | t in p :: t in s.conflict
    ensures Held(s, x, b) && CanMove(s, b)
    decreases s.conflict.Keys - seen
  {
    var a := p[|p| - 1];
    b, x := BlockedWaits(s, a);
    var p1 := p + [b];
    assert IsWalk(s, p1) by {
      forall i | 0 <= i < |p1| - 1 ensures WaitsFor(s, p1[i], p1[i + 1]) {
        if i < |p| - 1 { assert WaitsFor(s, p[i], p[i + 1]); }
      }
    }
    if b in p {
      var i :| 0 <= i < |p| && p[i] == b;
      WalkClosed(s, p1, i);
    } else if b in s.conflict && !MayResume(s, b) {
      b, x := Follow(s, p1, seen + {b});
    }
  }

  /** The system is never stuck: behind every blocked transaction there is one that holds a lock in
      use and can move. */
  lemma {:induction false} NeverStuck<L>(s: Table<L>, a: nat) returns (b: nat, x: L)
    requires TableInv(s) && a in s.conflict && !MayResume(s, a)
    ensures Held(s, x, b) && CanMove(s, b)
  {
    b, x := Follow(s, [a], {a});
  }

  // ---------------------------------------------------------------- searching the wait relation

  lemma {:induction false} OneEdge<L>(s: Table<L>, a: nat, b: nat)
    requires WaitsFor(s, a, b)
    ensures Reaches(s, a, b)
  {
    var p := [a, b];
    assert p[0] == a && p[|p| - 1] == b && IsWalk(s, p);
  }

  lemma {:induction false} AddEdge<L>(s: Table<L>, a: nat, b: nat, c: nat)
    requires Reaches(s, a, b) && WaitsFor(s, b, c)
    ensures Reaches(s, a, c)
  {
    var p :| |p| >= 2 && p[0] == a && p[|p| - 1] == b && IsWalk(s, p);
    var q := p + [c];
    assert IsWalk(s, q) by {
      forall i | 0 <= i < |q| - 1 ensures WaitsFor(s, q[i], q[i + 1]) {
        if i < |p| - 1 { assert WaitsFor(s, p[i], p[i + 1]); }
      }
    }
    assert q[0] == a && q[|q| - 1] == c;
  }

  /** A lock in use of b is among the locks to be examined. */
  ghost predicate Queued<L>(s: Table<L>, b: nat, work: seq<L>)
  {
    exists x :: x in work && Held(s, x, b)
  }

  /** Every successor of u is passed, or queued for examination. */
  ghost predicate Covered<L>(s: Table<L>, u: nat, pass: set<nat>, work: seq<L>)
  {
    forall b | WaitsFor(s, u, b) :: b in pass || Queued(s, b, work)
  }

  /** The invariant of the search from `me`: what is queued is reachable, and what is passed neither
      leads back to `me` nor to anything that is not passed or queued. */
  ghost predicate Searching<L>(s: Table<L>, me: nat, pass: set<nat>, work: seq<L>)
  {
    && (forall x | x in work :: x in s.locks && (s.locks[x].state != OBSOLETE ==> Reaches(s, me, s.locks[x].thread)))
    && Covered(s, me, pass, work)
    && forall u | u in pass :: !WaitsFor(s, u, me) && Covered(s, u, pass, work)
  }

  /** The locks ahead of u's conflict lock, none of which is a lock in use of `me`. */
  ghost predicate Ahead<L>(s: Table<L>, me: nat, u: nat, ahead: seq<L>)
  {
    && !WaitsFor(s, u, me)
    && (forall x | x in ahead :: x in s.locks && (s.locks[x].state != OBSOLETE ==> WaitsFor(s, u, s.locks[x].thread)))
    && (forall b | WaitsFor(s, u, b) :: Queued(s, b, ahead))
  }

  /** Dropping a lock that is obsolete or of a passed transaction. */
  lemma {:induction false} SkipLock<L>(s: Table<L>, me: nat, pass: set<nat>, work: seq<L>)
    requires Searching(s, me, pass, work) && work != []
    requires s.locks[work[0]].thread in pass || s.locks[work[0]].state == OBSOLETE
    ensures Searching(s, me, pass, work[1..])
  {
    forall u, b | Covered(s, u, pass, work) && WaitsFor(s, u, b) && b !in pass ensures Queued(s, b, work[1..]) {
      var x :| x in work && Held(s, x, b);
      assert x in work[1..];
    }
  }

  /** Examining the transaction of the first lock: its predecessors in the queues are added. */
  lemma {:induction false} PassLock<L>(s: Table<L>, me: nat, pass: set<nat>, work: seq<L>, ahead: seq<L>)
    requires Searching(s, me, pass, work) && work != [] && s.locks[work[0]].state != OBSOLETE
    requires Ahead(s, me, s.locks[work[0]].thread, ahead)
    ensures Searching(s, me, pass + {s.locks[work[0]].thread}, work[1..] + ahead)
  {
    var u := s.locks[work[0]].thread;
    var next := work[1..] + ahead;
    forall x | x in next ensures x in s.locks && (s.locks[x].state != OBSOLETE ==> Reaches(s, me, s.locks[x].thread)) {
      if x in ahead && s.locks[x].state != OBSOLETE { AddEdge(s, me, u, s.locks[x].thread); }
    }
    forall v | v == me || v in pass + {u} ensures Covered(s, v, pass + {u}, next) {
      forall b | WaitsFor(s, v, b) && b !in pass + {u} ensures Queued(s, b, next) {
        if v == u {
          var x :| x in ahead && Held(s, x, b);
          assert x in next;
        } else {
          var x :| x in work && Held(s, x, b);
          assert x in work[1..];
          assert x in next;
        }
      }
    }
  }

  lemma {:induction false} StaysInside<L>(s: Table<L>, me: nat, pass: set<nat>, p: seq<nat>, i: nat)
    requires Searching(s, me, pass, []) && i + 1 < |p| && p[0] == me && IsWalk(s, p)
    ensures (i == 0 || p[i] in pass) && p[i + 1] in pass
  {
    if i > 0 { StaysInside(s, me, pass, p, i - 1); }
    assert WaitsFor(s, p[i], p[i + 1]);
  }

  /** With nothing left to examine, no walk from `me` comes back. */
  lemma {:induction false} SearchEnds<L>(s: Table<L>, me: nat, pass: set<nat>)
    requires Searching(s, me, pass, [])
    ensures !Reaches(s, me, me)
  {
    forall p | |p| >= 2 && p[0] == me && IsWalk(s, p) ensures p[|p| - 1] != me {
      StaysInside(s, me, pass, p, |p| - 2);
      assert WaitsFor(s, p[|p| - 2], p[|p| - 2 + 1]);
    }
  }

  // ---------------------------------------------------------------- what the search reads

  /** The conflict lock of a waiting transaction lies on its record's path. */
  lemma {:induction false} ConflictOnPath<L>(s: Table<L>, t: nat) returns (r: int, c: nat)
    requires Structure(s) && t in s.conflict
    ensures s.conflict[t] in s.locks && r == s.locks[s.conflict[t]].record && r in s.queue
    ensures c < |s.queue[r]| && s.queue[r][c] == s.conflict[t] && Listed(s.locks, s.queue[r]) && Distinct(s.queue[r])
  {
    var l := s.conflict[t];
    assert ConflictOK(s, t) && LockOK(s, l);
    r := s.locks[l].record;
    c :| 0 <= c < |s.queue[r]| && s.queue[r][c] == l;
    assert PathOK(s, r);
  }

  /** What t waits for is held ahead of its conflict lock, which is at position c. */
  lemma {:induction false} EdgesAhead<L>(s: Table<L>, t: nat, r: int, c: nat, b: nat)
    requires Structure(s) && t in s.conflict && r in s.queue && c < |s.queue[r]| && s.queue[r][c] == s.conflict[t]
    ensures WaitsFor(s, t, b) <==> exists j :: 0 <= j < c && Held(s, s.queue[r][j], b)
  {
    var q := s.queue[r];
    assert PathOK(s, r) && s.locks[q[c]].record == r;
    if j :| 0 <= j < c && Held(s, q[j], b) {
      assert s.queue[r][c] == s.conflict[t] && Held(s, s.queue[r][j], b);
    }
    if WaitsFor(s, t, b) {
      var j, k :| 0 <= j < k < |s.queue[r]| && s.queue[r][k] == s.conflict[t] && Held(s, s.queue[r][j], b);
      assert k == c;
    }
  }

  /** `waiting` is what the transaction `me` has queued behind: the locks ahead of its conflict lock. */
  ghost predicate QueuedBehind<L>(s: Table<L>, me: nat, waiting: seq<L>)
  {
    && me in s.conflict && s.conflict[me] in s.locks
    && var r := s.locks[s.conflict[me]].record;
       r in s.queue && |waiting| < |s.queue[r]| && s.queue[r][|waiting|] == s.conflict[me]
           && waiting == s.queue[r][..|waiting|]
  }

  /** The search starts from the locks in use among those. */
  lemma {:induction false} SeedsStart<L>(s: Table<L>, me: nat, waiting: seq<L>, work: seq<L>)
    requires Structure(s) && QueuedBehind(s, me, waiting) && Listed(s.locks, waiting)
    requires forall x | x in work :: x in waiting && s.locks[x].state != OBSOLETE
    requires forall j | 0 <= j < |waiting| && s.locks[waiting[j]].state != OBSOLETE :: waiting[j] in work
    ensures Searching(s, me, {}, work)
  {
    var r, c := s.locks[s.conflict[me]].record, |waiting|;
    var q := s.queue[r];
    assert forall j | 0 <= j < c :: waiting[j] == q[j];
    forall b | WaitsFor(s, me, b) ensures Queued(s, b, work) {
      EdgesAhead(s, me, r, c, b);
      var j :| 0 <= j < c && Held(s, q[j], b);
      assert waiting[j] in work && Held(s, waiting[j], b);
    }
    forall x | x in work ensures x in s.locks && Reaches(s, me, s.locks[x].thread) {
      EdgesAhead(s, me, r, c, s.locks[x].thread);
      var j :| 0 <= j < c && waiting[j] == x;
      assert Held(s, q[j], s.locks[x].thread);
      OneEdge(s, me, s.locks[x].thread);
    }
  }

  /** When the walk from the head has reached u's conflict lock, what it collected is what u waits for. */
  lemma {:induction false} AheadOfConflict<L>(s: Table<L>, me: nat, u: nat, r: int, c: nat, k: nat)
    requires Structure(s) && u in s.conflict && r in s.queue && k <= c < |s.queue[r]| && Listed(s.locks, s.queue[r])
    requires s.queue[r][c] == s.conflict[u] == s.queue[r][k]
    requires forall j | 0 <= j < k :: s.locks[s.queue[r][j]].state == OBSOLETE || s.locks[s.queue[r][j]].thread != me
    ensures Ahead(s, me, u, s.queue[r][..k])
  {
    var q := s.queue[r];
    assert PathOK(s, r);
    assert k == c;
    EdgesAhead(s, u, r, c, me);
    forall x | x in q[..c] ensures x in s.locks
        && (s.locks[x].state != OBSOLETE ==> WaitsFor(s, u, s.locks[x].thread)) {
      var j :| 0 <= j < c && q[..c][j] == x;
      EdgesAhead(s, u, r, c, s.locks[x].thread);
      if s.locks[x].state != OBSOLETE { assert Held(s, q[j], s.locks[x].thread); }
    }
    forall b | WaitsFor(s, u, b) ensures Queued(s, b, q[..c]) {
      EdgesAhead(s, u, r, c, b);
      var j :| 0 <= j < c && Held(s, q[j], b);
      assert q[..c][j] == q[j];
    }
  }
}
