/** What holds in every state of the lock-free list. */
module LockFreeInvariant {
  import opened LockFreeList

  // ---------------------------------------------------------------- one use of a lock

  /** How far the current use of a lock has got: 0-4 resets to come, 5 before the exchange, 6 not
      linked, 7 no id yet, 8 predecessor not told, 9 collecting, checking or waiting, 10 inserted. */
  function StageOf(pc: PC): (g: nat)
  {
    match pc
    case Reset(k) => if k <= 5 then k else 5
    case Exchange => 5
    case Link => 6
    case WaitId => 7
    case WaitHead => 7
    case ReadId => 7
    case WriteId => 7
    case FirstId => 7
    case PassId => 8
    case FirstHead => 8
    case ReadHead => 9
    case CheckId => 9
    case ReadNext => 9
    case ScanState => 9
    case ScanId => 9
    case ScanMode => 9
    case AgainState => 9
    case AgainId => 9
    case Blocked => 9
    case Waiting => 9
    case _ => 10
  }

  function Stage(s: State, l: nat): (g: nat)
    requires l < |s.cells|
  {
    var t := s.cells[l].owner;
    if t < |s.threads| && s.threads[t].lock == l then StageOf(s.threads[t].pc) else 10
  }

  /** Place i holds the current use of its lock. */
  predicate Current(s: State, i: int)
  {
    0 <= i < |s.order| && s.order[i] < |s.cells| && s.order[i] < |s.pos| && s.pos[s.order[i]] == i
  }

  /** The predecessor of place i points to it. */
  predicate Linked(s: State, i: int)
  {
    0 <= i < |s.order| && !(Current(s, i) && Stage(s, s.order[i]) == 6)
  }

  /** The predecessor of place i has been told that its id was used. */
  predicate Passed(s: State, i: int)
  {
    0 <= i < |s.order| && !(Current(s, i) && 6 <= Stage(s, s.order[i]) <= 8)
  }

  function NextOf(s: State, p: int): (next: int)
  {
    if Linked(s, p + 1) then s.order[p + 1] else NULL
  }

  // ---------------------------------------------------------------- the fields of a lock

  /** p is the lock's place, g its stage, `next` the lock at the next place once that one is linked, and
      `passed` whether that one has used the id. */
  predicate IdFits(c: Cell, p: int, g: nat)
  {
    c.id == (if 1 <= g <= 7 then MAX_ID else p)
  }

  predicate NextFits(c: Cell, g: nat, next: int)
  {
    c.next == (if g == 4 || g == 5 then NULL else next)
  }

  predicate PassFits(c: Cell, p: int, g: nat, passed: bool)
  {
    (c.idPass <==> !(2 <= g <= 5) && passed) && (g <= 5 && p >= 0 ==> passed)
  }

  predicate StateFits(c: Cell, p: int, g: nat, headPos: nat)
  {
    && (g <= 2 ==> c.obsolete) && (3 <= g <= 9 ==> !c.obsolete)
    && (g <= 5 ==> p < headPos) && (6 <= g <= 9 ==> headPos <= p) && (g >= 10 && p < headPos ==> c.obsolete)
  }

  predicate HeadPassFits(c: Cell, p: int, g: nat, headPos: nat)
  {
    (g <= 4 ==> c.headPass) && (g == 5 ==> !c.headPass) && (g >= 6 && c.headPass ==> p < headPos)
  }

  predicate Fits(c: Cell, p: int, g: nat, next: int, passed: bool, headPos: nat, numbered: nat)
  {
    && IdFits(c, p, g) && NextFits(c, g, next) && PassFits(c, p, g, passed)
    && StateFits(c, p, g, headPos) && HeadPassFits(c, p, g, headPos)
    && (g >= 6 ==> (g <= 7 <==> p >= numbered))
  }

  predicate PlaceOK(s: State, l: nat)
    requires l < |s.cells| == |s.pos|
  {
    && s.cells[l].owner < |s.threads| && -1 <= s.pos[l] < |s.order|
    && (s.pos[l] >= 0 ==> s.order[s.pos[l]] == l) && (Stage(s, l) != 5 ==> s.pos[l] >= 0)
  }

  predicate CellOK(s: State, l: nat)
    requires l < |s.cells| == |s.pos|
  {
    var p := s.pos[l];
    PlaceOK(s, l)
    && Fits(s.cells[l], p, Stage(s, l), NextOf(s, p), Passed(s, p + 1), s.headPos, s.numbered)
  }

  /** The queue of places, the head, and the tail. */
  predicate Frame(s: State)
  {
    && |s.pos| == |s.cells|
    && (forall i {:trigger s.order[i]} | 0 <= i < |s.order| :: s.order[i] < |s.cells| && i <= s.pos[s.order[i]])
    && s.numbered <= |s.order| < MAX_ID
    && s.tail == (if s.order == [] then NULL else s.order[|s.order| - 1])
    && (if s.head == NULL then s.headPos == 0 else s.headPos < |s.order| && s.head == s.order[s.headPos])
    && (forall i {:trigger Current(s, i)} | s.headPos <= i < |s.order| :: Current(s, i))
  }

  // ---------------------------------------------------------------- a thread

  /** l is no longer where a collector for place p may have seen it: it shows no id, or a larger one. */
  predicate Lost(s: State, l: nat, p: int)
    requires l < |s.cells| == |s.pos|
  {
    s.pos[l] > p || 1 <= Stage(s, l) <= 5
  }

  /** A collection that began at place `start` and is to end at place p. */
  predicate Along(s: State, start: nat, vec: seq<nat>, p: int)
    requires |s.cells| == |s.pos|
  {
    && s.head != NULL && start <= s.headPos
    && start + |vec| <= p < |s.order| && vec == s.order[start..start + |vec|]
    && forall i {:trigger Current(s, i)} | start <= i <= p ::
         Current(s, i) || (s.order[i] < |s.pos| && s.pos[s.order[i]] > p)
  }

  /** A thread's own lock and the locks it holds. */
  predicate OwnOK(s: State, t: nat)
    requires t < |s.threads| && |s.cells| == |s.pos|
  {
    var x := s.threads[t];
    && (x.pc.Reset? ==> x.pc.k <= 6)
    && (StageOf(x.pc) < 10 ==> x.lock < |s.cells| && s.cells[x.lock].owner == t && x.lock !in x.held)
    && (StageOf(x.pc) == 9 ==> s.head != NULL)
    && (forall l | l in x.held :: l < |s.cells| && s.cells[l].owner == t && s.head != NULL)
    && x.granted <= x.held
  }

  predicate HasPrev(pc: PC)
  {
    pc.Link? || pc.WaitId? || pc.WaitHead? || pc.ReadId? || pc.WriteId? || pc.PassId?
  }

  predicate IsFirst(pc: PC)
  {
    pc.FirstId? || pc.FirstHead?
  }

  /** The predecessor of a lock being inserted. */
  predicate InsertOK(s: State, t: nat)
    requires t < |s.threads| && |s.cells| == |s.pos|
  {
    var x := s.threads[t];
    && (IsFirst(x.pc) ==> x.lock < |s.pos| && s.pos[x.lock] == 0 && s.head == NULL)
    && (HasPrev(x.pc) ==>
          x.lock < |s.pos|
          && var p := s.pos[x.lock];
             && Current(s, p - 1) && x.prev == s.order[p - 1]
             && (x.pc.WaitHead? || x.pc.ReadId? || x.pc.WriteId? ==> p - 1 < s.numbered)
             && (x.pc.ReadId? || x.pc.WriteId? || x.pc.PassId? ==> s.head != NULL)
             && (x.pc.WriteId? ==> x.base == p - 1))
  }

  predicate InScan(pc: PC)
  {
    pc.ScanState? || pc.ScanId? || pc.ScanMode? || pc.AgainState? || pc.AgainId?
  }

  /** A thread that collects the locks ahead of its own, or checks them. */
  predicate WalkOK(s: State, t: nat)
    requires t < |s.threads| && |s.cells| == |s.pos|
  {
    var x := s.threads[t];
    && (x.pc.ReadHead? ==> x.start <= s.headPos)
    && (x.pc.CheckId? || x.pc.ReadNext? || InScan(x.pc) ==>
          && x.lock < |s.pos| && Along(s, x.start, x.vec, s.pos[x.lock])
          && (x.pc.CheckId? ==>
                && IsCell(s, x.target) && x.target != x.lock
                && (x.target == s.order[x.start + |x.vec|]
                    || (Lost(s, x.target, s.pos[x.lock]) && x.start < s.headPos)))
          && (x.pc.ReadNext? ==> x.vec != [] && x.target == x.vec[|x.vec| - 1])
          && (InScan(x.pc) ==> x.start + |x.vec| == s.pos[x.lock] && x.todo <= |x.vec|)
          && (InScan(x.pc) && !x.pc.ScanState? ==> x.todo > 0 && x.target == x.vec[x.todo - 1]))
  }

  predicate InWake(pc: PC)
  {
    pc.WakeHead? || pc.WakeMode? || pc.WakeNext? || pc.WakeTest? || pc.WakeCheck? || pc.WakeSet?
  }

  predicate InMutex(pc: PC)
  {
    pc.Top? || pc.Test? || pc.Follow? || pc.SetHead? || pc.SetPass? || pc.Again? || InWake(pc)
  }

  /** A release that has not yet looked at the head for the last time. */
  predicate Releasing(pc: PC)
  {
    pc.Enter? || pc.Top? || pc.Test? || pc.Follow? || pc.SetHead? || pc.SetPass? || pc.Again?
  }

  /** An acquisition that has found an obstacle. */
  predicate Stopped(pc: PC)
  {
    pc.AgainId? || pc.Blocked? || pc.Waiting?
  }

  predicate AtHead(pc: PC)
  {
    pc.Test? || pc.Follow? || pc.SetPass? || pc.Again? || pc.WakeHead? || pc.WakeMode?
  }

  /** A thread that releases a lock. */
  predicate MoveOK(s: State, t: nat)
    requires t < |s.threads| && |s.cells| == |s.pos|
  {
    var x := s.threads[t];
    && (InMutex(x.pc) ==> s.mutex == t)
    && (InMutex(x.pc) || x.pc.Enter? ==> s.head != NULL)
    && (AtHead(x.pc) ==> x.target == s.head)
    && (x.pc.Follow? ==> IsCell(s, x.target) && s.cells[x.target].obsolete)
    && (x.pc.SetHead? ==>
          && IsCell(s, x.prev) && x.prev == s.head && s.cells[x.prev].obsolete
          && s.headPos + 1 < |s.order| && x.target == s.order[s.headPos + 1])
    && (x.pc.SetPass? ==>
          && Current(s, s.headPos - 1) && x.prev == s.order[s.headPos - 1]
          && Stage(s, x.prev) == 10 && !s.cells[x.prev].headPass)
    && (InWake(x.pc) ==> IsCell(s, x.target) && s.headPos <= s.pos[x.target] && Current(s, s.pos[x.target])
                         && s.order[s.pos[x.target]] == x.target)
  }

  predicate ThreadOK(s: State, t: nat)
    requires t < |s.threads| && |s.cells| == |s.pos|
  {
    !s.threads[t].pc.AssertFailed? && OwnOK(s, t) && InsertOK(s, t) && WalkOK(s, t) && MoveOK(s, t)
  }

  // ---------------------------------------------------------------- all of it

  predicate CellsOK(s: State)
    requires |s.cells| == |s.pos|
  {
    forall l {:trigger CellOK(s, l)} | 0 <= l < |s.cells| :: CellOK(s, l)
  }

  predicate ThreadsOK(s: State)
    requires |s.cells| == |s.pos|
  {
    forall t {:trigger ThreadOK(s, t)} | 0 <= t < |s.threads| :: ThreadOK(s, t)
  }

  predicate Inv(s: State)
  {
    Frame(s) && CellsOK(s) && ThreadsOK(s)
  }
}
