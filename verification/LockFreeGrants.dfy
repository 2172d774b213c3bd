/** Two locks of a record that AcquireLock has returned, at once or after a signal, are compatible. */
module LockFreeGrants {
  import opened LockFreeFrame
  import opened LockFreeInvariant
  import opened LockFreeList
  import opened LockFreeQuiet
  import opened LockFreeSafety
  import opened LockFreeWrites

  // ---------------------------------------------------------------- the invariant

  /** The current use of l has been exchanged into the tail and is not over. */
  predicate Live(s: State, l: nat)
    requires l < |s.cells|
  {
    Stage(s, l) >= 6 && !s.cells[l].obsolete
  }

  /** l and m do not exclude each other. */
  predicate BothShared(s: State, l: nat, m: nat)
    requires l < |s.cells| && m < |s.cells|
  {
    !s.cells[l].exclusive && !s.cells[m].exclusive
  }

  /** No live lock ahead of l stands in its way. */
  predicate Free(s: State, l: nat)
    requires l < |s.cells| == |s.pos|
  {
    forall m {:trigger Live(s, m)} | 0 <= m < |s.cells| && Live(s, m) && s.pos[m] < s.pos[l] :: BothShared(s, l, m)
  }

  /** The collected lock m does not stand in the way of l, whose place is p. */
  predicate Cleared(s: State, l: nat, m: nat, p: int)
    requires l < |s.cells| == |s.pos| && m < |s.cells|
  {
    Lost(s, m, p) || s.cells[m].obsolete || BothShared(s, l, m)
  }

  /** All live locks before place p are shared. */
  predicate SharedBefore(s: State, p: int)
    requires |s.cells| == |s.pos|
  {
    forall m {:trigger Live(s, m)} | 0 <= m < |s.cells| && Live(s, m) && s.pos[m] < p :: !s.cells[m].exclusive
  }

  predicate BehindHead(pc: PC)
  {
    pc.WakeNext? || pc.WakeTest? || pc.WakeCheck? || pc.WakeSet?
  }

  predicate GrantedOK(s: State, t: nat)
    requires t < |s.threads| && |s.cells| == |s.pos|
  {
    forall l {:trigger Free(s, l)} | l in s.threads[t].granted :: l < |s.cells| && Live(s, l) && Free(s, l)
  }

  predicate ScanOK(s: State, t: nat)
    requires t < |s.threads| && |s.cells| == |s.pos|
  {
    var x := s.threads[t];
    InScan(x.pc) ==>
      x.lock < |s.cells|
      && forall i {:trigger x.vec[i]} | x.todo <= i < |x.vec| ::
           x.vec[i] < |s.cells| && Cleared(s, x.lock, x.vec[i], s.pos[x.lock])
  }

  predicate WakeOK(s: State, t: nat)
    requires t < |s.threads| && |s.cells| == |s.pos|
  {
    var x := s.threads[t];
    BehindHead(x.pc) ==>
      && IsCell(s, x.target) && SharedBefore(s, s.pos[x.target])
      && (x.pc.WakeNext? ==> s.cells[x.target].obsolete || !s.cells[x.target].exclusive)
      && (x.pc.WakeSet? ==> !s.cells[x.target].exclusive)
  }

  predicate FreshOK(s: State, t: nat)
    requires t < |s.threads|
  {
    var x := s.threads[t];
    x.pc == Reset(6) || x.pc.Exchange? ==> x.lock < |s.cells| && !s.cells[x.lock].signal
  }

  predicate GrantOK(s: State, t: nat)
    requires t < |s.threads| && |s.cells| == |s.pos|
  {
    GrantedOK(s, t) && ScanOK(s, t) && WakeOK(s, t) && FreshOK(s, t)
  }

  /** A lock that has been signalled may be granted. */
  predicate SignalOK(s: State, l: nat)
    requires l < |s.cells| == |s.pos|
  {
    s.cells[l].signal && Stage(s, l) >= 6 ==> Free(s, l)
  }

  predicate Sound(s: State)
  {
    && Inv(s)
    && (forall t {:trigger GrantOK(s, t)} | 0 <= t < |s.threads| :: GrantOK(s, t))
    && (forall l {:trigger SignalOK(s, l)} | 0 <= l < |s.cells| :: SignalOK(s, l))
  }

  // ---------------------------------------------------------------- what a step cannot do

  /** No lock comes to life ahead of a place that is taken. */
  lemma {:induction false} LiveBack(s: State, s1: State, m: nat)
    requires Sized(s) && Sized(s1) && Grows(s, s1) && CellsOK(s) && m < |s1.cells|
    requires Live(s1, m) && s1.pos[m] < |s.order|
    ensures m < |s.cells| && Live(s, m) && s1.pos[m] == s.pos[m] && s1.cells[m].exclusive == s.cells[m].exclusive
  {
    if m < |s.cells| { assert CellGrows(s, s1, m) && CellOK(s, m); }
  }

  lemma {:induction false} SharedStays(s: State, s1: State, p: int)
    requires Sized(s) && Sized(s1) && Grows(s, s1) && CellsOK(s) && p <= |s.order| && SharedBefore(s, p)
    ensures SharedBefore(s1, p)
  {
    forall m | 0 <= m < |s1.cells| && Live(s1, m) && s1.pos[m] < p ensures !s1.cells[m].exclusive {
      LiveBack(s, s1, m);
    }
  }

  lemma {:induction false} FreeStays(s: State, s1: State, l: nat)
    requires Sized(s) && Sized(s1) && Grows(s, s1) && CellsOK(s) && l < |s.cells| && Stage(s, l) >= 6 && Free(s, l)
    ensures Free(s1, l)
  {
    assert CellOK(s, l) && CellGrows(s, s1, l);
    forall m | 0 <= m < |s1.cells| && Live(s1, m) && s1.pos[m] < s1.pos[l] ensures BothShared(s1, l, m) {
      LiveBack(s, s1, m);
    }
  }

  lemma {:induction false} ClearedStays(s: State, s1: State, l: nat, m: nat, p: int)
    requires Sized(s) && Sized(s1) && Grows(s, s1) && l < |s.cells| && m < |s.cells| && 0 <= p < |s.order|
    requires Stage(s, l) >= 6 && Cleared(s, l, m, p)
    ensures Cleared(s1, l, m, p)
  {
    assert CellGrows(s, s1, l) && CellGrows(s, s1, m);
  }

  /** A lock that its thread has been granted is past its insertion. */
  lemma {:induction false} GrantedStage(s: State, t: nat, l: nat)
    requires Sized(s) && t < |s.threads| && OwnOK(s, t) && l in s.threads[t].granted
    ensures l < |s.cells| && Stage(s, l) == 10 && s.cells[l].owner == t
  {
    assert l in s.threads[t].held;
  }

  /** Locks granted before the step, unless released by it. */
  lemma {:induction false} GrantedStays(s: State, s1: State, t: nat, u: nat)
    requires Inv(s) && Sized(s1) && Respects(s, s1, t) && u < |s.threads| && GrantedOK(s, u)
    requires s1.threads[u].granted <= s.threads[u].granted
    ensures GrantedOK(s1, u)
  {
    assert ThreadOK(s, u);
    forall l | l in s1.threads[u].granted ensures l < |s1.cells| && Live(s1, l) && Free(s1, l) {
      GrantedStage(s, u, l);
      assert CellGrows(s, s1, l);
      FreeStays(s, s1, l);
    }
  }

  lemma {:induction false} OtherScan(s: State, s1: State, u: nat)
    requires Inv(s) && Sized(s1) && Grows(s, s1) && u < |s.threads| == |s1.threads|
    requires s1.threads[u] == s.threads[u] && ScanOK(s, u)
    ensures ScanOK(s1, u)
  {
    var x := s.threads[u];
    if InScan(x.pc) {
      Walker(s, u);
      assert CellGrows(s, s1, x.lock);
      var p := s.pos[x.lock];
      forall i | x.todo <= i < |x.vec|
        ensures x.vec[i] < |s1.cells| && Cleared(s1, x.lock, x.vec[i], s1.pos[x.lock])
      {
        ClearedStays(s, s1, x.lock, x.vec[i], p);
      }
    }
  }

  lemma {:induction false} OtherWake(s: State, s1: State, u: nat)
    requires Inv(s) && Sized(s1) && Grows(s, s1) && u < |s.threads| == |s1.threads|
    requires s1.threads[u] == s.threads[u] && WakeOK(s, u)
    ensures WakeOK(s1, u)
  {
    var x := s.threads[u];
    if BehindHead(x.pc) {
      assert ThreadOK(s, u);
      var p := s.pos[x.target];
      PathPlace(s, p);
      assert CellGrows(s, s1, x.target);
      SharedStays(s, s1, p);
    }
  }

  /** What another thread knows about grants is not disturbed. */
  lemma {:induction false} OtherGrant(s: State, s1: State, t: nat, u: nat)
    requires Inv(s) && Sized(s1) && Respects(s, s1, t) && u < |s.threads| && u != t && GrantOK(s, u)
    ensures GrantOK(s1, u)
  {
    assert s1.threads[u] == s.threads[u] && ThreadOK(s, u);
    GrantedStays(s, s1, t, u);
    OtherScan(s, s1, u);
    OtherWake(s, s1, u);
    if s.threads[u].pc == Reset(6) || s.threads[u].pc.Exchange? {
      assert CellGrows(s, s1, s.threads[u].lock);
    }
  }

  /** A lock that shows a signal flag after a step showed it before, or is signalled by the step. */
  lemma {:induction false} SignalKept(s: State, s1: State, t: nat, l: nat)
    requires Sound(s) && Inv(s1) && Respects(s, s1, t) && l < |s1.cells|
    requires s.threads[t].pc.WakeHead? || s.threads[t].pc.WakeSet? ==>
               IsCell(s, s.threads[t].target) && Free(s, s.threads[t].target)
    requires s1.order == s.order || s1.order == s.order + [s.threads[t].lock]
    ensures SignalOK(s1, l)
  {
    if l < |s.cells| && s1.cells[l].signal && Stage(s1, l) >= 6 {
      assert CellGrows(s, s1, l) && CellOK(s1, l) && SignalOK(s, l) && GrantOK(s, t);
      FreeStays(s, s1, l);
    }
  }

  /** What remains to be shown of a step: its own thread, and that it signals only free locks. */
  lemma {:induction false} GrantKept(s: State, s1: State, t: nat)
    requires Sound(s) && Inv(s1) && Respects(s, s1, t) && GrantOK(s1, t)
    requires s.threads[t].pc.WakeHead? || s.threads[t].pc.WakeSet? ==>
               IsCell(s, s.threads[t].target) && Free(s, s.threads[t].target)
    requires s1.order == s.order || s1.order == s.order + [s.threads[t].lock]
    ensures Sound(s1)
  {
    forall u | 0 <= u < |s1.threads| ensures GrantOK(s1, u) {
      assert GrantOK(s, u);
      if u != t { OtherGrant(s, s1, t, u); }
    }
    forall l | 0 <= l < |s1.cells| ensures SignalOK(s1, l) { SignalKept(s, s1, t, l); }
  }

  // ---------------------------------------------------------------- the step's own thread

  /** Program counters of which nothing has to be known. */
  predicate Plain(pc: PC)
  {
    !(pc == Reset(6) || pc.Exchange? || InScan(pc) || BehindHead(pc))
  }

  /** A step to such a program counter that grants nothing and signals nothing. */
  lemma {:induction false} PlainGrant(s: State, s1: State, t: nat)
    requires Sound(s) && Inv(s1) && Respects(s, s1, t) && Plain(s1.threads[t].pc)
    requires s1.threads[t].granted <= s.threads[t].granted
    requires !s.threads[t].pc.WakeHead? && !s.threads[t].pc.WakeSet?
    requires s1.order == s.order || s1.order == s.order + [s.threads[t].lock]
    ensures Sound(s1)
  {
    assert GrantOK(s, t);
    GrantedStays(s, s1, t, t);
    GrantKept(s, s1, t);
  }

  lemma {:induction false} ResetGrant(s: State, t: nat, k: nat)
    requires Sound(s) && t < |s.threads| && s.threads[t].pc == Reset(k)
    ensures Sound(StepReset(s, t, k))
  {
    var s1 := StepReset(s, t, k);
    ResetInv(s, t, k);
    assert GrantOK(s, t) && ThreadOK(s, t);
    GrantedStays(s, s1, t, t);
    GrantKept(s, s1, t);
  }

  lemma {:induction false} NewGrant(s: State, t: nat, exclusive: bool)
    requires Sound(s) && t < |s.threads| && s.threads[t].pc.Idle?
    ensures Sound(Begin(s, t, |s.cells|, exclusive))
  {
    var s1 := Begin(s, t, |s.cells|, exclusive);
    NewInv(s, t, exclusive);
    assert GrantOK(s, t);
    GrantedStays(s, s1, t, t);
    GrantKept(s, s1, t);
  }

  // ---------------------------------------------------------------- the check

  /** The check begins with everything still to do. */
  lemma {:induction false} TargetGrant(s: State, t: nat, x: Thread)
    requires Sound(s) && t < |s.threads| && Inv(Put(s, t, AtTarget(x))) && Respects(s, Put(s, t, AtTarget(x)), t)
    requires x.granted == s.threads[t].granted && !s.threads[t].pc.WakeHead? && !s.threads[t].pc.WakeSet?
    ensures Sound(Put(s, t, AtTarget(x)))
  {
    var s1 := Put(s, t, AtTarget(x));
    assert GrantOK(s, t) && ThreadOK(s1, t);
    GrantedStays(s, s1, t, t);
    GrantKept(s, s1, t);
  }

  /** An entry of the vector that does not stand in the way: obsolete, reused, or compatible. */
  lemma {:induction false} Entry(s: State, t: nat)
    requires Inv(s) && t < |s.threads| && InScan(s.threads[t].pc) && s.threads[t].todo > 0
    ensures var x := s.threads[t];
      && x.todo <= |x.vec| && x.lock < |s.cells|
      && var m := x.vec[x.todo - 1];
         && m < |s.cells| && (x.pc.ScanState? || x.target == m)
         && (s.cells[m].obsolete || s.cells[m].id > s.cells[x.lock].id || BothShared(s, x.lock, m) ==>
               Cleared(s, x.lock, m, s.pos[x.lock]))
  {
    ScanCells(s, t);
    Walker(s, t);
    var x := s.threads[t];
    LostShows(s, x.vec[x.todo - 1], s.pos[x.lock]);
  }

  /** A step of the check: one entry more is cleared, or none. */
  lemma {:induction false} ScanGrant(s: State, t: nat, y: Thread)
    requires Sound(s) && t < |s.threads| && InScan(s.threads[t].pc) && s.threads[t].todo > 0
    requires Inv(Put(s, t, y)) && Respects(s, Put(s, t, y), t)
    requires var x := s.threads[t];
      && y == x.(pc := y.pc, target := y.target, todo := y.todo)
      && (y.todo == x.todo
          || (y.todo == x.todo - 1 && x.todo <= |x.vec| && x.lock < |s.cells| && x.vec[x.todo - 1] < |s.cells|
              && Cleared(s, x.lock, x.vec[x.todo - 1], s.pos[x.lock])))
      && (InScan(y.pc) || y.pc.Blocked?)
    ensures Sound(Put(s, t, y))
  {
    var s1, x := Put(s, t, y), s.threads[t];
    assert GrantOK(s, t);
    Walker(s, t);
    GrantedStays(s, s1, t, t);
    forall i | y.todo <= i < |y.vec| ensures y.vec[i] < |s1.cells| && Cleared(s1, y.lock, y.vec[i], s1.pos[y.lock]) {
      assert Cleared(s, x.lock, x.vec[i], s.pos[x.lock]);
      ClearedStays(s, s1, x.lock, x.vec[i], s.pos[x.lock]);
    }
    GrantKept(s, s1, t);
  }

  /** A lock that ends the check without having met an obstacle: nothing live ahead of it stands in its
      way, because the vector has every live lock ahead. */
  lemma {:induction false} CheckedFree(s: State, t: nat)
    requires Sound(s) && t < |s.threads| && s.threads[t].pc.ScanState? && s.threads[t].todo == 0
    ensures s.threads[t].lock < |s.cells| && Free(s, s.threads[t].lock)
  {
    var x := s.threads[t];
    Walker(s, t);
    assert ThreadOK(s, t) && GrantOK(s, t);
    var p := s.pos[x.lock];
    forall m | 0 <= m < |s.cells| && Live(s, m) && s.pos[m] < p ensures BothShared(s, x.lock, m) {
      assert CellOK(s, m);
      assert x.vec[s.pos[m] - x.start] == m;
    }
  }

  /** A lock that is free may be granted. */
  lemma {:induction false} GrantGrant(s: State, t: nat)
    requires Sound(s) && t < |s.threads| && (s.threads[t].pc.ScanState? || s.threads[t].pc.Waiting?)
    requires s.threads[t].lock < |s.cells| && Free(s, s.threads[t].lock)
    ensures Sound(Grant(s, t))
  {
    var s1, x := Grant(s, t), s.threads[t];
    GrantInv(s, t);
    Walker(s, t);
    assert ThreadOK(s, t) && GrantOK(s, t) && CellOK(s, x.lock) && CellGrows(s, s1, x.lock);
    forall l | l in s1.threads[t].granted ensures l < |s1.cells| && Live(s1, l) && Free(s1, l) {
      if l == x.lock {
        FreeStays(s, s1, l);
      } else {
        GrantedStage(s, t, l);
        assert CellGrows(s, s1, l);
        FreeStays(s, s1, l);
      }
    }
    GrantKept(s, s1, t);
  }

  // ---------------------------------------------------------------- signals

  /** A live lock is at the head or behind it. */
  lemma {:induction false} LivePlace(s: State, m: nat)
    requires Inv(s) && m < |s.cells| && Live(s, m)
    ensures s.headPos <= s.pos[m] < |s.order| && s.order[s.pos[m]] == m
  {
    assert CellOK(s, m);
  }

  /** Nothing live is ahead of the head. */
  lemma {:induction false} HeadFree(s: State, t: nat)
    requires Inv(s) && t < |s.threads| && (s.threads[t].pc.WakeHead? || s.threads[t].pc.WakeMode?)
    ensures IsCell(s, s.threads[t].target) && Free(s, s.threads[t].target)
            && SharedBefore(s, s.pos[s.threads[t].target])
  {
    assert ThreadOK(s, t);
    PathPlace(s, s.headPos);
    forall m | 0 <= m < |s.cells| && Live(s, m) ensures s.headPos <= s.pos[m] { LivePlace(s, m); }
  }

  /** The lock a release is about to signal is free. */
  lemma {:induction false} SignalFree(s: State, t: nat)
    requires Sound(s) && t < |s.threads| && (s.threads[t].pc.WakeHead? || s.threads[t].pc.WakeSet?)
    ensures IsCell(s, s.threads[t].target) && Free(s, s.threads[t].target)
  {
    if s.threads[t].pc.WakeHead? { HeadFree(s, t); } else { assert GrantOK(s, t); }
  }

  /** A step of a release, once its wake-up is known to stay sound. */
  lemma {:induction false} MoveGrant(s: State, s1: State, t: nat)
    requires Sound(s) && Inv(s1) && Respects(s, s1, t) && s1.order == s.order
    requires s1.threads[t].granted == s.threads[t].granted
    requires WakeOK(s1, t) && StageOf(s1.threads[t].pc) == 10
    ensures Sound(s1)
  {
    if s.threads[t].pc.WakeHead? || s.threads[t].pc.WakeSet? { SignalFree(s, t); }
    assert GrantOK(s, t);
    GrantedStays(s, s1, t, t);
    GrantKept(s, s1, t);
  }

  lemma {:induction false} SignalGrant(s: State, t: nat, pc: PC)
    requires Sound(s) && t < |s.threads|
    requires (s.threads[t].pc.WakeHead? && pc.WakeMode?) || (s.threads[t].pc.WakeSet? && pc.WakeNext?)
    ensures Sound(StepSignal(s, t, pc))
  {
    var s1 := StepSignal(s, t, pc);
    SignalInv(s, t, pc);
    assert GrantOK(s, t) && ThreadOK(s, t);
    if pc.WakeNext? { SharedStays(s, s1, s.pos[s.threads[t].target]); }
    MoveGrant(s, s1, t);
  }

  lemma {:induction false} TestModeGrant(s: State, t: nat, pc: PC)
    requires Sound(s) && t < |s.threads|
    requires (s.threads[t].pc.WakeMode? && pc.WakeNext?) || (s.threads[t].pc.WakeCheck? && pc.WakeSet?)
    ensures Sound(StepTestMode(s, t, pc))
  {
    var s1 := StepTestMode(s, t, pc);
    TestModeInv(s, t, pc);
    if pc.WakeNext? { HeadFree(s, t); } else { assert GrantOK(s, t); }
    assert ThreadOK(s, t);
    SharedStays(s, s1, s.pos[s.threads[t].target]);
    MoveGrant(s, s1, t);
  }

  lemma {:induction false} WakeTestGrant(s: State, t: nat)
    requires Sound(s) && t < |s.threads| && s.threads[t].pc.WakeTest?
    ensures Sound(StepWakeTest(s, t))
  {
    var s1 := StepWakeTest(s, t);
    WakeTestInv(s, t);
    assert GrantOK(s, t) && ThreadOK(s, t);
    SharedStays(s, s1, s.pos[s.threads[t].target]);
    MoveGrant(s, s1, t);
  }

  lemma {:induction false} OneMoreShared(s: State, l: nat, p: int)
    requires Inv(s) && l < |s.cells| && 0 <= p < |s.order| && s.order[p] == l && SharedBefore(s, p)
    requires s.cells[l].obsolete || !s.cells[l].exclusive
    ensures SharedBefore(s, p + 1)
  {
    forall m | 0 <= m < |s.cells| && Live(s, m) && s.pos[m] < p + 1 ensures !s.cells[m].exclusive {
      LivePlace(s, m);
    }
  }

  /** Going on from a lock that is obsolete or shared, all live locks before the next one are shared. */
  lemma {:induction false} NextShared(s: State, t: nat)
    requires Sound(s) && t < |s.threads| && s.threads[t].pc.WakeNext?
    ensures var x := s.threads[t];
      && IsCell(s, x.target)
      && var y := s.cells[x.target].next;
         y != NULL ==> IsCell(s, y) && s.pos[y] <= |s.order| && SharedBefore(s, s.pos[y])
  {
    var x := s.threads[t];
    assert GrantOK(s, t) && ThreadOK(s, t);
    var p := s.pos[x.target];
    PathPlace(s, p);
    if s.cells[x.target].next != NULL {
      PathPlace(s, p + 1);
      OneMoreShared(s, x.target, p);
    }
  }

  lemma {:induction false} WakeNextGrant(s: State, t: nat)
    requires Sound(s) && t < |s.threads| && s.threads[t].pc.WakeNext?
    ensures Sound(StepWakeNext(s, t))
  {
    var s1, x := StepWakeNext(s, t), s.threads[t];
    NextShared(s, t);
    WakeNextInv(s, t);
    var y := s.cells[x.target].next;
    if y != NULL { SharedStays(s, s1, s.pos[y]); }
    MoveGrant(s, s1, t);
  }

  // ---------------------------------------------------------------- every step, every run

  lemma {:induction false} InsertTo(s: State, t: nat)
    requires Sized(s) && t < |s.threads| && (HasPrev(s.threads[t].pc) || IsFirst(s.threads[t].pc))
    ensures var s1 := StepOf(s, t);
      s1.order == s.order && s1.threads[t].granted == s.threads[t].granted && Plain(s1.threads[t].pc)
  {
    match s.threads[t].pc
    case Link => assert StepOf(s, t) == StepLink(s, t);
    case WaitId => assert StepOf(s, t) == StepWaitId(s, t);
    case WaitHead => assert StepOf(s, t) == StepWaitHead(s, t);
    case ReadId => assert StepOf(s, t) == StepReadId(s, t);
    case PassId => assert StepOf(s, t) == StepPassId(s, t);
    case FirstHead => assert StepOf(s, t) == StepFirstHead(s, t);
    case _ =>
  }

  lemma {:induction false} InsertGrant(s: State, t: nat)
    requires Sound(s) && t < |s.threads| && (HasPrev(s.threads[t].pc) || IsFirst(s.threads[t].pc))
    ensures Sound(StepOf(s, t))
  {
    assert Sized(s);
    hide Inv, Respects;
    StepInv(s, t);
    InsertTo(s, t);
    PlainGrant(s, StepOf(s, t), t);
  }

  lemma {:induction false} ExchangeGrant(s: State, t: nat)
    requires Sound(s) && t < |s.threads| && s.threads[t].pc.Exchange?
    ensures Sound(StepExchange(s, t))
  {
    assert Sized(s);
    hide Inv, Respects;
    ExchangeInv(s, t);
    if StepExchange(s, t) != s { PlainGrant(s, StepExchange(s, t), t); }
  }

  lemma {:induction false} CollectGrant(s: State, t: nat)
    requires Sound(s) && t < |s.threads| && (s.threads[t].pc.ReadHead? || s.threads[t].pc.ReadNext?)
    ensures Sound(StepOf(s, t))
  {
    StepInv(s, t);
    var s1, x := StepOf(s, t), s.threads[t];
    if s1.threads[t].pc.ReadHead? {
      PlainGrant(s, s1, t);
    } else if x.pc.ReadHead? {
      Walker(s, t);
      TargetGrant(s, t, x.(target := s.head, vec := [], start := s.headPos));
    } else {
      NextInPlace(s, t);
      TargetGrant(s, t, x.(target := s.cells[x.target].next));
    }
  }

  lemma {:induction false} CheckIdGrant(s: State, t: nat)
    requires Sound(s) && t < |s.threads| && s.threads[t].pc.CheckId?
    ensures Sound(StepCheckId(s, t))
  {
    assert Sized(s);
    hide Inv, Respects;
    CheckIdInv(s, t);
    PlainGrant(s, StepCheckId(s, t), t);
  }

  lemma {:induction false} ScanStateGrant(s: State, t: nat)
    requires Sound(s) && t < |s.threads| && s.threads[t].pc.ScanState?
    ensures Sound(StepScanState(s, t))
  {
    if s.threads[t].todo == 0 {
      CheckedFree(s, t);
      GrantGrant(s, t);
    } else {
      ScanStateInv(s, t);
      Entry(s, t);
      ScanGrant(s, t, StepScanState(s, t).threads[t]);
    }
  }

  lemma {:induction false} TestIdGrant(s: State, t: nat, pc: PC)
    requires Sound(s) && t < |s.threads|
    requires (s.threads[t].pc.ScanId? && pc.ScanMode?) || (s.threads[t].pc.AgainId? && pc.Blocked?)
    ensures Sound(StepTestId(s, t, pc))
  {
    TestIdInv(s, t, pc);
    ScanCells(s, t);
    Entry(s, t);
    ScanGrant(s, t, StepTestId(s, t, pc).threads[t]);
  }

  lemma {:induction false} ScanModeGrant(s: State, t: nat)
    requires Sound(s) && t < |s.threads| && s.threads[t].pc.ScanMode?
    ensures Sound(StepScanMode(s, t))
  {
    ScanModeInv(s, t);
    ScanCells(s, t);
    Entry(s, t);
    ScanGrant(s, t, StepScanMode(s, t).threads[t]);
  }

  lemma {:induction false} AgainStateGrant(s: State, t: nat)
    requires Sound(s) && t < |s.threads| && s.threads[t].pc.AgainState?
    ensures Sound(StepAgainState(s, t))
  {
    AgainStateInv(s, t);
    ScanCells(s, t);
    Entry(s, t);
    ScanGrant(s, t, StepAgainState(s, t).threads[t]);
  }

  lemma {:induction false} BlockedGrant(s: State, t: nat)
    requires Sound(s) && t < |s.threads| && s.threads[t].pc.Blocked?
    ensures Sound(StepBlocked(s, t))
  {
    assert Sized(s);
    hide Inv, Respects;
    BlockedInv(s, t);
    PlainGrant(s, StepBlocked(s, t), t);
  }

  lemma {:induction false} WaitingGrant(s: State, t: nat)
    requires Sound(s) && t < |s.threads| && s.threads[t].pc.Waiting?
    ensures Sound(StepWaiting(s, t))
  {
    Walker(s, t);
    if s.cells[s.threads[t].lock].signal {
      assert SignalOK(s, s.threads[t].lock);
      GrantGrant(s, t);
    }
  }

  lemma {:induction false} CheckGrant(s: State, t: nat)
    requires Sound(s) && t < |s.threads| && StageOf(s.threads[t].pc) == 9
    ensures Sound(StepOf(s, t))
  {
    assert Sized(s);
    CheckSteps(s, t);
    hide Sound, StepOf;
    match s.threads[t].pc
    case ReadHead => CollectGrant(s, t);
    case CheckId => CheckIdGrant(s, t);
    case ReadNext => CollectGrant(s, t);
    case ScanState => ScanStateGrant(s, t);
    case ScanId => TestIdGrant(s, t, ScanMode);
    case ScanMode => ScanModeGrant(s, t);
    case AgainState => AgainStateGrant(s, t);
    case AgainId => TestIdGrant(s, t, PC.Blocked);
    case Blocked => BlockedGrant(s, t);
    case Waiting => WaitingGrant(s, t);
  }

  /** A step of a release before its first signal. */
  lemma {:induction false} HeadGrant(s: State, s1: State, t: nat)
    requires Sound(s) && Inv(s1) && Respects(s, s1, t) && s1.order == s.order
    requires var x, y := s.threads[t], s1.threads[t]; y.granted == x.granted && StageOf(y.pc) == 10 && !BehindHead(y.pc)
    ensures Sound(s1)
  {
    MoveGrant(s, s1, t);
  }

  lemma {:induction false} EnterGrant(s: State, t: nat)
    requires Sound(s) && t < |s.threads| && s.threads[t].pc.Enter?
    ensures Sound(StepEnter(s, t))
  {
    assert Sized(s);
    hide Inv, Respects;
    EnterInv(s, t);
    HeadGrant(s, StepEnter(s, t), t);
  }

  lemma {:induction false} TopGrant(s: State, t: nat)
    requires Sound(s) && t < |s.threads| && s.threads[t].pc.Top?
    ensures Sound(StepTop(s, t))
  {
    assert Sized(s);
    hide Inv, Respects;
    TopInv(s, t);
    HeadGrant(s, StepTop(s, t), t);
  }

  lemma {:induction false} TestGrant(s: State, t: nat)
    requires Sound(s) && t < |s.threads| && s.threads[t].pc.Test?
    ensures Sound(StepTest(s, t))
  {
    assert Sized(s);
    hide Inv, Respects;
    TestInv(s, t);
    HeadGrant(s, StepTest(s, t), t);
  }

  lemma {:induction false} FollowGrant(s: State, t: nat)
    requires Sound(s) && t < |s.threads| && s.threads[t].pc.Follow?
    ensures Sound(StepFollow(s, t))
  {
    assert Sized(s);
    hide Inv, Respects;
    FollowInv(s, t);
    HeadGrant(s, StepFollow(s, t), t);
  }

  lemma {:induction false} SetHeadGrant(s: State, t: nat)
    requires Sound(s) && t < |s.threads| && s.threads[t].pc.SetHead?
    ensures Sound(StepSetHead(s, t))
  {
    assert Sized(s);
    hide Inv, Respects;
    SetHeadInv(s, t);
    HeadGrant(s, StepSetHead(s, t), t);
  }

  lemma {:induction false} SetPassGrant(s: State, t: nat)
    requires Sound(s) && t < |s.threads| && s.threads[t].pc.SetPass?
    ensures Sound(StepSetPass(s, t))
  {
    assert Sized(s);
    hide Inv, Respects;
    SetPassInv(s, t);
    HeadGrant(s, StepSetPass(s, t), t);
  }

  lemma {:induction false} AgainGrant(s: State, t: nat)
    requires Sound(s) && t < |s.threads| && s.threads[t].pc.Again?
    ensures Sound(StepAgain(s, t))
  {
    assert Sized(s);
    hide Inv, Respects;
    AgainInv(s, t);
    HeadGrant(s, StepAgain(s, t), t);
  }

  lemma {:induction false} EnterStepGrant(s: State, t: nat)
    requires Sound(s) && t < |s.threads| && (s.threads[t].pc.Enter? || s.threads[t].pc.Top?)
    ensures Sound(StepOf(s, t))
  {
    assert Sized(s);
    hide Sound;
    if s.threads[t].pc.Enter? {
      EnterGrant(s, t);
      assert StepOf(s, t) == StepEnter(s, t);
    } else {
      TopGrant(s, t);
      assert StepOf(s, t) == StepTop(s, t);
    }
  }

  lemma {:induction false} TestStepGrant(s: State, t: nat)
    requires Sound(s) && t < |s.threads| && (s.threads[t].pc.Test? || s.threads[t].pc.Again?)
    ensures Sound(StepOf(s, t))
  {
    assert Sized(s);
    hide Sound;
    if s.threads[t].pc.Test? {
      TestGrant(s, t);
      assert StepOf(s, t) == StepTest(s, t);
    } else {
      AgainGrant(s, t);
      assert StepOf(s, t) == StepAgain(s, t);
    }
  }

  lemma {:induction false} AdvanceGrant(s: State, t: nat)
    requires Sound(s) && t < |s.threads|
    requires s.threads[t].pc.Follow? || s.threads[t].pc.SetHead? || s.threads[t].pc.SetPass?
    ensures Sound(StepOf(s, t))
  {
    assert Sized(s);
    hide Sound;
    if s.threads[t].pc.Follow? {
      FollowGrant(s, t);
      assert StepOf(s, t) == StepFollow(s, t);
    } else if s.threads[t].pc.SetHead? {
      SetHeadGrant(s, t);
      assert StepOf(s, t) == StepSetHead(s, t);
    } else {
      SetPassGrant(s, t);
      assert StepOf(s, t) == StepSetPass(s, t);
    }
  }

  lemma {:induction false} WakeGrant(s: State, t: nat)
    requires Sound(s) && t < |s.threads| && (s.threads[t].pc.WakeHead? || BehindHead(s.threads[t].pc))
    requires !s.threads[t].pc.WakeCheck?
    ensures Sound(StepOf(s, t))
  {
    assert Sized(s);
    hide Sound;
    match s.threads[t].pc
    case WakeHead => assert StepOf(s, t) == StepSignal(s, t, WakeMode); SignalGrant(s, t, WakeMode);
    case WakeNext => assert StepOf(s, t) == StepWakeNext(s, t); WakeNextGrant(s, t);
    case WakeTest => assert StepOf(s, t) == StepWakeTest(s, t); WakeTestGrant(s, t);
    case WakeSet => assert StepOf(s, t) == StepSignal(s, t, WakeNext); SignalGrant(s, t, WakeNext);
  }

  lemma {:induction false} WakeModeGrant(s: State, t: nat)
    requires Sound(s) && t < |s.threads| && (s.threads[t].pc.WakeMode? || s.threads[t].pc.WakeCheck?)
    ensures Sound(StepOf(s, t))
  {
    assert Sized(s);
    WakeSteps(s, t);
    hide Sound, StepOf;
    if s.threads[t].pc.WakeMode? {
      TestModeGrant(s, t, WakeNext);
    } else {
      TestModeGrant(s, t, WakeSet);
    }
  }

  lemma {:induction false} StepGrant(s: State, t: nat)
    requires Sound(s) && t < |s.threads|
    ensures Sound(StepOf(s, t))
  {
    assert Sized(s);
    hide Sound;
    var pc := s.threads[t].pc;
    if pc.Reset? {
      ResetGrant(s, t, pc.k);
    } else if pc.Exchange? {
      ExchangeGrant(s, t);
    } else if HasPrev(pc) || IsFirst(pc) {
      InsertGrant(s, t);
    } else if StageOf(pc) == 9 {
      CheckGrant(s, t);
    } else if pc.WakeMode? || pc.WakeCheck? {
      WakeModeGrant(s, t);
    } else if InWake(pc) {
      WakeGrant(s, t);
    } else if pc.Enter? || pc.Top? {
      EnterStepGrant(s, t);
    } else if pc.Test? || pc.Again? {
      TestStepGrant(s, t);
    } else if !pc.Idle? && !pc.AssertFailed? {
      AdvanceGrant(s, t);
    }
  }

  lemma {:induction false} ReuseGrant(s: State, t: nat, l: nat, exclusive: bool)
    requires Sound(s) && t < |s.threads| && s.threads[t].pc.Idle? && Recyclable(s, t, l)
    ensures Sound(Begin(s, t, l, exclusive))
  {
    assert Sized(s);
    hide Inv, Respects;
    ReuseInv(s, t, l, exclusive);
    PlainGrant(s, Begin(s, t, l, exclusive), t);
  }

  lemma {:induction false} ReleaseGrant(s: State, t: nat, l: nat)
    requires Sound(s) && t < |s.threads| && s.threads[t].pc.Idle? && l in s.threads[t].held && l < |s.cells|
    ensures Sound(BeginRelease(s, t, l))
  {
    assert Sized(s);
    hide Inv, Respects;
    ReleaseInv(s, t, l);
    PlainGrant(s, BeginRelease(s, t, l), t);
  }

  lemma {:induction false} VictimGrant(s: State, t: nat)
    requires Sound(s) && t < |s.threads| && s.threads[t].pc.Blocked? && s.threads[t].lock < |s.cells|
    ensures Sound(BecomeVictim(s, t))
  {
    assert Sized(s);
    hide Inv, Respects;
    VictimInv(s, t);
    PlainGrant(s, BecomeVictim(s, t), t);
  }

  lemma {:induction false} DoGrant(s: State, t: nat, a: Action)
    requires Sound(s)
    ensures Sound(Do(s, t, a))
  {
    assert Sized(s);
    hide Sound;
    if t < |s.threads| {
      var x := s.threads[t];
      match a
      case Acquire(l, exclusive) =>
        if x.pc.Idle? && Recyclable(s, t, l) {
          ReuseGrant(s, t, l, exclusive);
        } else if x.pc.Idle? && l == |s.cells| {
          NewGrant(s, t, exclusive);
        }
      case Release(l) =>
        if x.pc.Idle? && l in x.held && l < |s.cells| { ReleaseGrant(s, t, l); }
      case Victim =>
        if x.pc.Blocked? && x.lock < |s.cells| { VictimGrant(s, t); }
      case Step => StepGrant(s, t);
    }
  }

  lemma {:induction false} RunSound(n: nat, sched: seq<(nat, Action)>)
    ensures Sound(Exec(n, sched))
  {
    if sched == [] {
      InitInv(n);
      assert forall t | 0 <= t < n :: GrantOK(Init(n), t);
    } else {
      RunSound(n, sched[..|sched| - 1]);
      var (t, a) := sched[|sched| - 1];
      DoGrant(Exec(n, sched[..|sched| - 1]), t, a);
    }
  }
}
