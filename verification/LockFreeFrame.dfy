/** What the threads of the lock-free list rely on when another one takes a step. */
module LockFreeFrame {
  import opened LockFreeInvariant
  import opened LockFreeList

  /** A use of a lock ends by its resets only, and a place once left is not taken again. */
  predicate CellGrows(s: State, s1: State, l: nat)
    requires Sized(s) && Sized(s1) && l < |s.cells| <= |s1.cells|
  {
    var c, c1, g, g1 := s.cells[l], s1.cells[l], Stage(s, l), Stage(s1, l);
    && c1.owner == c.owner
    && (s1.pos[l] == s.pos[l] || (g == 5 && s1.pos[l] >= |s.order|))
    && (g <= 5 ==> g1 <= 5 || s1.pos[l] >= |s.order|) && (1 <= g <= 5 ==> g1 >= 1)
    && (g1 < g ==> g == 10 && c.obsolete && c.headPass)
    && (c.obsolete && !c1.obsolete ==> 1 <= g <= 5)
    && (c.exclusive != c1.exclusive ==> 1 <= g <= 5)
    && (!c.signal && c1.signal ==> g >= 6) && (c.signal && !c1.signal ==> 1 <= g <= 5)
  }

  /** The queue of places only grows, and the head only advances. */
  predicate Grows(s: State, s1: State)
    requires Sized(s) && Sized(s1)
  {
    && |s.cells| <= |s1.cells| && |s.order| <= |s1.order| && s1.order[..|s.order|] == s.order
    && s.headPos <= s1.headPos && s.numbered <= s1.numbered && (s.head != NULL ==> s1.head != NULL)
    && (forall l {:trigger CellGrows(s, s1, l)} | 0 <= l < |s.cells| :: CellGrows(s, s1, l))
    && (forall l {:trigger s1.cells[l]} | |s.cells| <= l < |s1.cells| :: Stage(s1, l) == 5)
  }

  /** While another thread holds the head mutex, t leaves the head and its flags alone. */
  predicate Yields(s: State, s1: State, t: nat)
    requires |s.cells| <= |s1.cells|
  {
    s.head != NULL && s.mutex != NULL && s.mutex != t ==>
      && s1.mutex == s.mutex && s1.head == s.head && s1.headPos == s.headPos
      && forall l {:trigger s1.cells[l]} | 0 <= l < |s.cells| && s1.cells[l].headPass :: s.cells[l].headPass
  }

  /** t makes only its own locks obsolete, by a release or as a victim, and none that it still counts as
      granted; it signals only what a release looks at. */
  predicate Marks(s: State, s1: State, t: nat)
    requires |s.cells| <= |s1.cells| && t < |s.threads| == |s1.threads|
  {
    var x, y := s.threads[t], s1.threads[t];
    && (forall l {:trigger s1.cells[l]} | 0 <= l < |s.cells| && s1.cells[l].obsolete ::
          s.cells[l].obsolete
          || (s.cells[l].owner == t && l !in y.granted && (x.pc.Idle? || x.pc.Blocked?)))
    && (forall l {:trigger s1.cells[l]} | 0 <= l < |s.cells| && s1.cells[l].signal ::
          s.cells[l].signal || ((x.pc.WakeHead? || x.pc.WakeSet?) && l == x.target))
  }

  /** What only some steps of t do: take a place, grant, give up a lock, move the head, stop, signal, return. */
  predicate Moves(s: State, s1: State, t: nat)
    requires t < |s.threads| == |s1.threads|
  {
    var x, y := s.threads[t], s1.threads[t];
    && (s1.order == s.order || x.pc.Exchange?)
    && (y.granted <= x.granted || x.pc.ScanState? || x.pc.Waiting?)
    && (x.granted <= y.granted || x.pc.Idle?)
    && (x.held <= y.held || x.pc.Idle?)
    && (y.held <= x.held + y.granted || x.pc.Blocked?)
    && ((s1.head == s.head && s1.headPos == s.headPos) || x.pc.FirstHead? || x.pc.SetHead?)
    && (Stopped(y.pc) ==> x.pc.AgainState? || Stopped(x.pc))
    && (y.pc.AgainState? ==> x.pc.ScanMode? || x.pc.AgainState?)
    && (InWake(y.pc) ==> InWake(x.pc) || x.pc.Again?)
    && (Releasing(x.pc) ==> Releasing(y.pc) || x.pc.Test? || x.pc.Follow? || x.pc.Again?)
  }

  /** What a step of thread t never does to the others. */
  predicate Respects(s: State, s1: State, t: nat)
    requires Sized(s) && Sized(s1)
  {
    && |s1.threads| == |s.threads| && t < |s.threads|
    && (forall u {:trigger s1.threads[u]} | 0 <= u < |s.threads| && u != t :: s1.threads[u] == s.threads[u])
    && Grows(s, s1) && Yields(s, s1, t)
    && Marks(s, s1, t) && Moves(s, s1, t)
    && (s.head == NULL != s1.head ==> s.threads[t].pc.FirstHead?)
  }

  // ---------------------------------------------------------------- which step it is

  lemma {:induction false} InsertSteps(s: State, t: nat)
    requires Sized(s) && t < |s.threads|
    ensures var pc, s1 := s.threads[t].pc, StepOf(s, t);
      && (pc.Link? ==> s1 == StepLink(s, t))
      && (pc.WriteId? ==> s1 == Number(s, t, s.threads[t].base + 1, PassId))
      && (pc.PassId? ==> s1 == StepPassId(s, t))
  {
  }

  lemma {:induction false} CheckSteps(s: State, t: nat)
    requires Sized(s) && t < |s.threads|
    ensures var pc, s1 := s.threads[t].pc, StepOf(s, t);
      && (pc.FirstHead? ==> s1 == StepFirstHead(s, t))
      && (pc.CheckId? ==> s1 == StepCheckId(s, t))
      && (pc.ScanState? ==> s1 == StepScanState(s, t))
      && (pc.ScanId? ==> s1 == StepTestId(s, t, ScanMode))
      && (pc.ScanMode? ==> s1 == StepScanMode(s, t))
      && (pc.AgainState? ==> s1 == StepAgainState(s, t))
      && (pc.AgainId? ==> s1 == StepTestId(s, t, PC.Blocked))
      && (pc.Blocked? ==> s1 == StepBlocked(s, t))
      && (pc.Waiting? ==> s1 == StepWaiting(s, t))
  {
  }

  lemma {:induction false} HeadSteps(s: State, t: nat)
    requires Sized(s) && t < |s.threads|
    ensures var pc, s1 := s.threads[t].pc, StepOf(s, t);
      && (pc.Test? ==> s1 == StepTest(s, t))
      && (pc.Follow? ==> s1 == StepFollow(s, t))
      && (pc.SetHead? ==> s1 == StepSetHead(s, t))
      && (pc.SetPass? ==> s1 == StepSetPass(s, t))
      && (pc.Again? ==> s1 == StepAgain(s, t))
      && (pc.WakeHead? ==> s1 == StepSignal(s, t, WakeMode))
  {
  }

  lemma {:induction false} WakeSteps(s: State, t: nat)
    requires Sized(s) && t < |s.threads|
    ensures var pc, s1 := s.threads[t].pc, StepOf(s, t);
      && (pc.WakeMode? ==> s1 == StepTestMode(s, t, WakeNext))
      && (pc.WakeNext? ==> s1 == StepWakeNext(s, t))
      && (pc.WakeTest? ==> s1 == StepWakeTest(s, t))
      && (pc.WakeCheck? ==> s1 == StepTestMode(s, t, WakeSet))
      && (pc.WakeSet? ==> s1 == StepSignal(s, t, WakeNext))
  {
  }

  // ---------------------------------------------------------------- places and locks

  lemma {:induction false} StillCurrent(s: State, s1: State, i: int)
    requires Sized(s) && Sized(s1) && Grows(s, s1) && Current(s, i)
    ensures s1.order[i] == s.order[i] < |s1.pos|
    ensures Current(s1, i) || s1.pos[s1.order[i]] >= |s.order|
    ensures Stage(s, s.order[i]) != 5 ==> Current(s1, i)
  {
    assert CellGrows(s, s1, s.order[i]);
  }

  /** What a collector has lost stays lost. */
  lemma {:induction false} LostStays(s: State, s1: State, l: nat, p: nat)
    requires Sized(s) && Sized(s1) && Grows(s, s1) && l < |s.cells| && p < |s.order| && Lost(s, l, p)
    ensures Lost(s1, l, p)
  {
    assert CellGrows(s, s1, l);
  }

  lemma {:induction false} AlongStays(s: State, s1: State, start: nat, vec: seq<nat>, p: int)
    requires Sized(s) && Sized(s1) && Grows(s, s1) && Along(s, start, vec, p) && Frame(s)
    ensures Along(s1, start, vec, p)
  {
    assert s1.order[start..start + |vec|] == s1.order[..|s.order|][start..start + |vec|];
    forall i | start <= i <= p ensures Current(s1, i) || (s1.order[i] < |s1.pos| && s1.pos[s1.order[i]] > p) {
      assert s1.order[i] == s1.order[..|s.order|][i];
      if Current(s, i) {
        StillCurrent(s, s1, i);
      } else {
        assert CellGrows(s, s1, s.order[i]);
      }
    }
  }

  // ---------------------------------------------------------------- one other thread

  lemma {:induction false} OtherOwn(s: State, s1: State, u: nat)
    requires Sized(s) && Sized(s1) && Grows(s, s1) && u < |s.threads| == |s1.threads|
    requires s1.threads[u] == s.threads[u] && OwnOK(s, u)
    ensures OwnOK(s1, u)
  {
    var x := s.threads[u];
    if StageOf(x.pc) < 10 { assert CellGrows(s, s1, x.lock); }
    forall l | l in x.held ensures l < |s1.cells| && s1.cells[l].owner == u {
      assert CellGrows(s, s1, l);
    }
  }

  lemma {:induction false} OtherInsert(s: State, s1: State, u: nat)
    requires Sized(s) && Sized(s1) && Grows(s, s1) && u < |s.threads| == |s1.threads|
    requires s1.threads[u] == s.threads[u] && OwnOK(s, u) && InsertOK(s, u)
    requires HasPrev(s.threads[u].pc) ==> Stage(s, s.threads[u].prev) >= 6
    requires IsFirst(s.threads[u].pc) ==> s1.head == NULL
    ensures InsertOK(s1, u)
  {
    var x := s.threads[u];
    if HasPrev(x.pc) || IsFirst(x.pc) {
      assert CellGrows(s, s1, x.lock);
      assert Stage(s, x.lock) != 5;
    }
    if HasPrev(x.pc) { StillCurrent(s, s1, s.pos[x.lock] - 1); }
  }

  lemma {:induction false} OtherWalk(s: State, s1: State, u: nat)
    requires Sized(s) && Sized(s1) && Grows(s, s1) && Frame(s) && u < |s.threads| == |s1.threads|
    requires s1.threads[u] == s.threads[u] && OwnOK(s, u) && WalkOK(s, u)
    ensures WalkOK(s1, u)
  {
    var x := s.threads[u];
    if x.pc.CheckId? || x.pc.ReadNext? || InScan(x.pc) {
      assert CellGrows(s, s1, x.lock);
      assert Stage(s, x.lock) != 5;
      var p := s.pos[x.lock];
      AlongStays(s, s1, x.start, x.vec, p);
      if x.pc.CheckId? {
        if Lost(s, x.target, p) { LostStays(s, s1, x.target, p); }
        assert s1.order[..|s.order|][x.start + |x.vec|] == s1.order[x.start + |x.vec|];
      }
    }
  }

  lemma {:induction false} OtherMove(s: State, s1: State, u: nat)
    requires Sized(s) && Sized(s1) && Grows(s, s1) && Frame(s) && u < |s.threads| == |s1.threads|
    requires s1.threads[u] == s.threads[u] && MoveOK(s, u)
    requires InMutex(s.threads[u].pc) ==>
      && s1.mutex == u && s1.head == s.head && s1.headPos == s.headPos
      && forall l {:trigger s1.cells[l]} | 0 <= l < |s.cells| && s1.cells[l].headPass :: s.cells[l].headPass
    requires forall i {:trigger Current(s, i)} | s.headPos <= i < |s.order| ::
               Current(s, i) && Stage(s, s.order[i]) >= 6
    ensures MoveOK(s1, u)
  {
    var x := s.threads[u];
    if x.pc.SetPass? {
      StillCurrent(s, s1, s.headPos - 1);
      assert CellGrows(s, s1, x.prev);
    } else if InWake(x.pc) {
      StillCurrent(s, s1, s.pos[x.target]);
      assert CellGrows(s, s1, x.target);
    } else if x.pc.Follow? {
      assert Current(s, s.headPos) && CellGrows(s, s1, x.target);
    } else if x.pc.SetHead? {
      assert Current(s, s.headPos) && CellGrows(s, s1, x.prev);
      assert s1.order[..|s.order|][s.headPos + 1] == s1.order[s.headPos + 1];
    }
  }

  // ---------------------------------------------------------------- read off the invariant

  /** A lock in the middle of its insertion is the current use of its place. */
  lemma {:induction false} OwnPlace(s: State, t: nat)
    requires Inv(s) && t < |s.threads| && 6 <= StageOf(s.threads[t].pc) <= 9
    ensures var x := s.threads[t];
      && x.lock < |s.cells| && s.cells[x.lock].owner == t && Stage(s, x.lock) == StageOf(x.pc)
      && CellOK(s, x.lock) && Current(s, s.pos[x.lock]) && s.order[s.pos[x.lock]] == x.lock
  {
    assert ThreadOK(s, t) && CellOK(s, s.threads[t].lock);
  }

  /** The predecessor waits to be told, and shows its id once it has one. */
  lemma {:induction false} Predecessor(s: State, t: nat)
    requires Inv(s) && t < |s.threads| && HasPrev(s.threads[t].pc)
    ensures var x := s.threads[t];
      && x.lock < |s.cells| && IsCell(s, x.prev) && x.prev != x.lock && CellOK(s, x.prev)
      && !s.cells[x.prev].idPass && Stage(s, x.prev) >= 6
      && var p := s.pos[x.lock];
         p > 0 && s.pos[x.prev] == p - 1 && s.cells[x.prev].id == if p - 1 < s.numbered then p - 1 else MAX_ID
  {
    OwnPlace(s, t);
    assert ThreadOK(s, t) && CellOK(s, s.threads[t].prev);
  }

  /** From the head on, every place holds the current use of its lock, past its exchange. */
  lemma {:induction false} PathPlace(s: State, i: int)
    requires Inv(s) && s.headPos <= i < |s.order|
    ensures Current(s, i) && CellOK(s, s.order[i])
    ensures Stage(s, s.order[i]) >= 6 && !s.cells[s.order[i]].headPass
  {
    assert Current(s, i) && CellOK(s, s.order[i]);
  }

  /** Only the first lock is inserted without a predecessor. */
  lemma {:induction false} OnlyFirst(s: State, t: nat, u: nat)
    requires Inv(s) && t < |s.threads| && u < |s.threads|
    requires s.threads[t].pc.FirstHead? && IsFirst(s.threads[u].pc)
    ensures t == u
  {
    OwnPlace(s, t);
    OwnPlace(s, u);
    assert ThreadOK(s, t) && ThreadOK(s, u);
  }

  /** Every thread but t is as well off after a step of t as before. */
  lemma {:induction false} OtherKept(s: State, s1: State, t: nat, u: nat)
    requires Inv(s) && Sized(s1) && Respects(s, s1, t) && u < |s.threads| && u != t
    ensures ThreadOK(s1, u)
  {
    assert ThreadOK(s, u) && s1.threads[u] == s.threads[u];
    if HasPrev(s.threads[u].pc) { Predecessor(s, u); }
    if IsFirst(s.threads[u].pc) && s.threads[t].pc.FirstHead? { OnlyFirst(s, t, u); }
    forall i | s.headPos <= i < |s.order| ensures Current(s, i) && Stage(s, s.order[i]) >= 6 {
      PathPlace(s, i);
    }
    OtherOwn(s, s1, u);
    OtherInsert(s, s1, u);
    OtherWalk(s, s1, u);
    OtherMove(s, s1, u);
  }

  /** What remains to be shown of a step: its own thread, the cells and the frame. */
  lemma {:induction false} StepKeeps(s: State, s1: State, t: nat)
    requires Inv(s) && Sized(s1) && Respects(s, s1, t)
    requires Frame(s1) && CellsOK(s1) && ThreadOK(s1, t)
    ensures Inv(s1)
  {
    forall u | 0 <= u < |s1.threads| ensures ThreadOK(s1, u) {
      if u != t { OtherKept(s, s1, t, u); }
    }
  }
}
