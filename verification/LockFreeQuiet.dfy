/** The steps of the lock-free list that change nothing but their own thread: they wait, walk or test. */
module LockFreeQuiet {
  import opened LockFreeFrame
  import opened LockFreeInvariant
  import opened LockFreeList

  /** Only thread t's own record differs, within one stage, and possibly the holder of the head mutex. */
  predicate Quiet(s: State, s1: State, t: nat)
    requires t < |s.threads|
  {
    && |s1.threads| == |s.threads| && s1 == s.(threads := s.threads[t := s1.threads[t]], mutex := s1.mutex)
    && (s1.mutex == s.mutex || s.mutex == NULL || s.mutex == t)
    && var x, y := s.threads[t], s1.threads[t];
       && StageOf(y.pc) == StageOf(x.pc) && y.lock == x.lock && y.held == x.held && y.granted == x.granted
       && !y.pc.Reset? && (Stopped(y.pc) ==> x.pc.AgainState? || Stopped(x.pc))
       && (Releasing(x.pc) ==> Releasing(y.pc) || x.pc.Test? || x.pc.Follow? || x.pc.Again?)
       && (y.pc.AgainState? ==> x.pc.ScanMode?) && (InWake(y.pc) ==> InWake(x.pc) || x.pc.Again?)
  }

  lemma {:induction false} QuietStages(s: State, s1: State, t: nat)
    requires Sized(s) && t < |s.threads| && Quiet(s, s1, t)
    ensures forall l {:trigger Stage(s1, l)} | 0 <= l < |s.cells| :: Stage(s1, l) == Stage(s, l)
    ensures forall i {:trigger Current(s1, i)} :: Current(s1, i) <==> Current(s, i)
  {
  }

  lemma {:induction false} QuietCell(s: State, s1: State, t: nat, l: nat)
    requires Sized(s) && t < |s.threads| && Quiet(s, s1, t)
    requires l < |s.cells| && CellOK(s, l)
    ensures CellOK(s1, l)
  {
    QuietStages(s, s1, t);
    assert NextOf(s1, s.pos[l]) == NextOf(s, s.pos[l]) && Passed(s1, s.pos[l] + 1) == Passed(s, s.pos[l] + 1);
  }

  lemma {:induction false} QuietRespects(s: State, s1: State, t: nat)
    requires Sized(s) && t < |s.threads| && Quiet(s, s1, t)
    ensures Respects(s, s1, t)
  {
    QuietStages(s, s1, t);
    assert s1.order[..|s.order|] == s.order;
  }

  /** Own parts that a quiet step leaves alone. */
  lemma {:induction false} QuietOwn(s: State, s1: State, t: nat)
    requires Sized(s) && t < |s.threads| && Quiet(s, s1, t) && OwnOK(s, t)
    ensures OwnOK(s1, t)
  {
  }

  /** What a quiet step has to establish. */
  predicate QuietTo(s: State, s1: State, t: nat)
    requires t < |s.threads| && Sized(s)
  {
    Quiet(s, s1, t) && !s1.threads[t].pc.AssertFailed? && InsertOK(s1, t) && WalkOK(s1, t) && MoveOK(s1, t)
  }

  lemma {:induction false} QuietInv(s: State, s1: State, t: nat)
    requires Inv(s) && t < |s.threads| && QuietTo(s, s1, t)
    ensures Inv(s1) && Respects(s, s1, t)
  {
    QuietRespects(s, s1, t);
    assert ThreadOK(s, t);
    QuietOwn(s, s1, t);
    forall l | 0 <= l < |s.cells| ensures CellOK(s1, l) {
      assert CellOK(s, l);
      QuietCell(s, s1, t, l);
    }
    QuietStages(s, s1, t);
    StepKeeps(s, s1, t);
  }

  // ---------------------------------------------------------------- waiting for the predecessor

  lemma {:induction false} WaitIdLocal(s: State, t: nat)
    requires Sized(s) && t < |s.threads| && InsertOK(s, t) && s.threads[t].pc.WaitId?
    requires IsCell(s, s.threads[t].prev) && s.threads[t].lock < |s.cells|
    requires var p := s.pos[s.threads[t].lock];
             s.cells[s.threads[t].prev].id == if p - 1 < s.numbered then p - 1 else MAX_ID
    ensures QuietTo(s, StepWaitId(s, t), t)
  {
    QuietStages(s, StepWaitId(s, t), t);
  }

  lemma {:induction false} WaitHeadLocal(s: State, t: nat)
    requires Sized(s) && t < |s.threads| && InsertOK(s, t) && s.threads[t].pc.WaitHead?
    ensures QuietTo(s, StepWaitHead(s, t), t)
  {
    QuietStages(s, StepWaitHead(s, t), t);
  }

  lemma {:induction false} ReadIdLocal(s: State, t: nat)
    requires Sized(s) && t < |s.threads| && InsertOK(s, t) && s.threads[t].pc.ReadId?
    requires IsCell(s, s.threads[t].prev) && s.threads[t].lock < |s.cells|
    requires var p := s.pos[s.threads[t].lock];
             s.cells[s.threads[t].prev].id == if p - 1 < s.numbered then p - 1 else MAX_ID
    ensures QuietTo(s, StepReadId(s, t), t)
  {
    QuietStages(s, StepReadId(s, t), t);
  }

  lemma {:induction false} WaitIdInv(s: State, t: nat)
    requires Inv(s) && t < |s.threads| && s.threads[t].pc.WaitId?
    ensures Inv(StepWaitId(s, t)) && Respects(s, StepWaitId(s, t), t)
  {
    Predecessor(s, t);
    assert ThreadOK(s, t);
    WaitIdLocal(s, t);
    QuietInv(s, StepWaitId(s, t), t);
  }

  lemma {:induction false} WaitHeadInv(s: State, t: nat)
    requires Inv(s) && t < |s.threads| && s.threads[t].pc.WaitHead?
    ensures Inv(StepWaitHead(s, t)) && Respects(s, StepWaitHead(s, t), t)
  {
    assert ThreadOK(s, t);
    WaitHeadLocal(s, t);
    QuietInv(s, StepWaitHead(s, t), t);
  }

  lemma {:induction false} ReadIdInv(s: State, t: nat)
    requires Inv(s) && t < |s.threads| && s.threads[t].pc.ReadId?
    ensures Inv(StepReadId(s, t)) && Respects(s, StepReadId(s, t), t)
  {
    Predecessor(s, t);
    assert ThreadOK(s, t);
    ReadIdLocal(s, t);
    QuietInv(s, StepReadId(s, t), t);
  }

  // ---------------------------------------------------------------- collecting

  /** What a collector has lost shows an id larger than its own, and nothing else does. */
  lemma {:induction false} LostShows(s: State, l: nat, p: nat)
    requires Inv(s) && l < |s.cells| && p < s.numbered
    ensures Lost(s, l, p) <==> s.cells[l].id > p
  {
    assert CellOK(s, l);
  }

  /** A collector's own lock, which shows its id. */
  lemma {:induction false} Walker(s: State, t: nat)
    requires Inv(s) && t < |s.threads| && StageOf(s.threads[t].pc) == 9
    ensures var x := s.threads[t];
      && x.lock < |s.cells| && Stage(s, x.lock) == 9 && s.head != NULL
      && var p := s.pos[x.lock];
         && s.headPos <= p < s.numbered && p < |s.order| && Current(s, p) && s.order[p] == x.lock
         && s.cells[x.lock].id == p
  {
    OwnPlace(s, t);
    assert ThreadOK(s, t);
  }

  lemma {:induction false} ReadHeadLocal(s: State, t: nat)
    requires Sized(s) && Frame(s) && t < |s.threads| && s.threads[t].pc.ReadHead? && s.head != NULL
    requires s.threads[t].lock < |s.cells| && Current(s, s.headPos)
    requires var p := s.pos[s.threads[t].lock]; s.headPos <= p < |s.order| && s.order[p] == s.threads[t].lock
    ensures QuietTo(s, StepReadHead(s, t), t)
  {
    QuietStages(s, StepReadHead(s, t), t);
    assert s.order[s.headPos..s.headPos] == [];
  }

  lemma {:induction false} ReadHeadInv(s: State, t: nat)
    requires Inv(s) && t < |s.threads| && s.threads[t].pc.ReadHead?
    ensures Inv(StepReadHead(s, t)) && Respects(s, StepReadHead(s, t), t)
  {
    Walker(s, t);
    assert ThreadOK(s, t) && Current(s, s.headPos);
    ReadHeadLocal(s, t);
    QuietInv(s, StepReadHead(s, t), t);
  }

  /** What comparing ids tells a collector about its target: a larger id shows that the target is lost, and
      then the head has passed the start; any other target is the next place to collect. */
  predicate IdDecides(s: State, t: nat)
    requires Sized(s) && t < |s.threads|
  {
    var x := s.threads[t];
    && IsCell(s, x.target) && x.lock < |s.cells| && s.cells[x.lock].id == s.pos[x.lock] < |s.order|
    && (s.cells[x.target].id > s.cells[x.lock].id <==> Lost(s, x.target, s.pos[x.lock]))
    && (Lost(s, x.target, s.pos[x.lock]) ==> x.start < s.headPos)
    && (!Lost(s, x.target, s.pos[x.lock]) ==>
          s.pos[x.target] == x.start + |x.vec| < s.pos[x.lock] && s.order[x.start + |x.vec|] == x.target)
  }

  lemma {:induction false} TargetDecides(s: State, t: nat)
    requires Inv(s) && t < |s.threads| && s.threads[t].pc.CheckId?
    ensures IdDecides(s, t)
  {
    Walker(s, t);
    assert ThreadOK(s, t);
    var x := s.threads[t];
    var b := x.start + |x.vec|;
    LostShows(s, x.target, s.pos[x.lock]);
    assert Current(s, b) || s.pos[s.order[b]] > s.pos[x.lock];
    if Lost(s, x.target, s.pos[x.lock]) && s.headPos <= b { PathPlace(s, b); }
  }

  /** Starting over. */
  lemma {:induction false} RestartTo(s: State, t: nat)
    requires Sized(s) && t < |s.threads| && (s.threads[t].pc.CheckId? || s.threads[t].pc.ReadNext?)
    requires s.threads[t].start < s.headPos
    ensures QuietTo(s, Put(s, t, Restart(s.threads[t])), t)
  {
  }

  /** Collecting the target. */
  lemma {:induction false} CollectTo(s: State, t: nat)
    requires Sized(s) && t < |s.threads| && s.threads[t].pc.CheckId? && WalkOK(s, t) && IsCell(s, s.threads[t].target)
    requires var x := s.threads[t]; var b := x.start + |x.vec|; b < s.pos[x.lock] && x.target == s.order[b]
    ensures var x := s.threads[t]; QuietTo(s, Put(s, t, x.(pc := ReadNext, vec := x.vec + [x.target])), t)
  {
    var x := s.threads[t];
    var b := x.start + |x.vec|;
    QuietStages(s, Put(s, t, x.(pc := ReadNext, vec := x.vec + [x.target])), t);
    assert s.order[x.start..b + 1] == s.order[x.start..b] + [s.order[b]];
  }

  lemma {:induction false} CheckIdInv(s: State, t: nat)
    requires Inv(s) && t < |s.threads| && s.threads[t].pc.CheckId?
    ensures Inv(StepCheckId(s, t)) && Respects(s, StepCheckId(s, t), t)
  {
    TargetDecides(s, t);
    assert ThreadOK(s, t);
    var x := s.threads[t];
    if s.cells[x.target].id > s.cells[x.lock].id { RestartTo(s, t); } else { CollectTo(s, t); }
    QuietInv(s, StepCheckId(s, t), t);
  }

  /** What the next pointer of a collected lock can be: the following place, null, or a lost lock. */
  lemma {:induction false} NextInPlace(s: State, t: nat)
    requires Inv(s) && t < |s.threads| && s.threads[t].pc.ReadNext?
    ensures var x := s.threads[t]; var b := x.start + |x.vec|;
      && IsCell(s, x.target) && x.lock < |s.cells| && 0 < b <= s.pos[x.lock] < |s.order|
      && var p, y := s.pos[x.lock], s.cells[x.target].next;
         && (y == NULL ==> x.start < s.headPos)
         && (y != NULL ==> IsCell(s, y) && (y == x.lock ==> b == p)
                           && (y == s.order[b] || (Lost(s, y, p) && x.start < s.headPos)))
  {
    Walker(s, t);
    assert ThreadOK(s, t);
    var x := s.threads[t];
    var p, b := s.pos[x.lock], x.start + |x.vec|;
    assert x.target == s.order[b - 1] && CellOK(s, x.target);
    assert Current(s, b - 1) || s.pos[x.target] > p;
    if s.headPos <= b - 1 {
      PathPlace(s, b - 1);
      PathPlace(s, b);
      assert Linked(s, b);
    } else if s.cells[x.target].next != NULL {
      assert Linked(s, s.pos[x.target] + 1);
      assert Current(s, b) || s.pos[s.order[b]] > p;
    }
  }

  /** Going on to the next lock. */
  lemma {:induction false} AdvanceTo(s: State, t: nat, y: int)
    requires Sized(s) && t < |s.threads| && s.threads[t].pc.ReadNext? && WalkOK(s, t) && IsCell(s, y)
    requires var x := s.threads[t]; var p, b := s.pos[x.lock], x.start + |x.vec|;
      && b <= p && (y == x.lock ==> b == p) && (y == s.order[b] || (Lost(s, y, p) && x.start < s.headPos))
    ensures QuietTo(s, Put(s, t, AtTarget(s.threads[t].(target := y))), t)
  {
    QuietStages(s, Put(s, t, AtTarget(s.threads[t].(target := y))), t);
  }

  lemma {:induction false} ReadNextInv(s: State, t: nat)
    requires Inv(s) && t < |s.threads| && s.threads[t].pc.ReadNext?
    ensures Inv(StepReadNext(s, t)) && Respects(s, StepReadNext(s, t), t)
  {
    NextInPlace(s, t);
    assert ThreadOK(s, t);
    var y := s.cells[s.threads[t].target].next;
    if y == NULL { RestartTo(s, t); } else { AdvanceTo(s, t, y); }
    QuietInv(s, StepReadNext(s, t), t);
  }

  // ---------------------------------------------------------------- checking

  /** A step of the check keeps what was collected. */
  lemma {:induction false} ScanTo(s: State, t: nat, y: Thread)
    requires Sized(s) && t < |s.threads| && InScan(s.threads[t].pc) && WalkOK(s, t)
    requires y == s.threads[t].(pc := y.pc, target := y.target, todo := y.todo)
    requires y.pc.Blocked? || (InScan(y.pc) && y.todo <= |y.vec|)
    requires InScan(y.pc) && !y.pc.ScanState? ==> y.todo > 0 && y.target == y.vec[y.todo - 1]
    requires Stopped(y.pc) ==> s.threads[t].pc.AgainState? || s.threads[t].pc.AgainId?
    requires y.pc.AgainState? ==> s.threads[t].pc.ScanMode?
    ensures QuietTo(s, Put(s, t, y), t)
  {
    QuietStages(s, Put(s, t, y), t);
  }

  /** Collected locks are locks. */
  lemma {:induction false} ScanCells(s: State, t: nat)
    requires Inv(s) && t < |s.threads| && InScan(s.threads[t].pc)
    ensures var x := s.threads[t];
      && x.lock < |s.cells| && x.todo <= |x.vec| && WalkOK(s, t)
      && (x.todo > 0 ==> x.vec[x.todo - 1] < |s.cells|)
      && (!x.pc.ScanState? ==> x.todo > 0 && x.target == x.vec[x.todo - 1])
  {
    assert ThreadOK(s, t);
    var x := s.threads[t];
    if x.todo > 0 { assert x.vec[x.todo - 1] == s.order[x.start + x.todo - 1]; }
  }

  lemma {:induction false} ScanStateInv(s: State, t: nat)
    requires Inv(s) && t < |s.threads| && s.threads[t].pc.ScanState? && s.threads[t].todo > 0
    ensures Inv(StepScanState(s, t)) && Respects(s, StepScanState(s, t), t)
  {
    ScanCells(s, t);
    ScanTo(s, t, StepScanState(s, t).threads[t]);
    QuietInv(s, StepScanState(s, t), t);
  }

  lemma {:induction false} TestIdInv(s: State, t: nat, pc: PC)
    requires Inv(s) && t < |s.threads| && (s.threads[t].pc.ScanId? || s.threads[t].pc.AgainId?)
    requires pc.ScanMode? || (pc.Blocked? && s.threads[t].pc.AgainId?)
    ensures Inv(StepTestId(s, t, pc)) && Respects(s, StepTestId(s, t, pc), t)
  {
    ScanCells(s, t);
    ScanTo(s, t, StepTestId(s, t, pc).threads[t]);
    QuietInv(s, StepTestId(s, t, pc), t);
  }

  lemma {:induction false} ScanModeInv(s: State, t: nat)
    requires Inv(s) && t < |s.threads| && s.threads[t].pc.ScanMode?
    ensures Inv(StepScanMode(s, t)) && Respects(s, StepScanMode(s, t), t)
  {
    ScanCells(s, t);
    ScanTo(s, t, StepScanMode(s, t).threads[t]);
    QuietInv(s, StepScanMode(s, t), t);
  }

  lemma {:induction false} AgainStateInv(s: State, t: nat)
    requires Inv(s) && t < |s.threads| && s.threads[t].pc.AgainState?
    ensures Inv(StepAgainState(s, t)) && Respects(s, StepAgainState(s, t), t)
  {
    ScanCells(s, t);
    ScanTo(s, t, StepAgainState(s, t).threads[t]);
    QuietInv(s, StepAgainState(s, t), t);
  }

  lemma {:induction false} BlockedInv(s: State, t: nat)
    requires Inv(s) && t < |s.threads| && s.threads[t].pc.Blocked?
    ensures Inv(StepBlocked(s, t)) && Respects(s, StepBlocked(s, t), t)
  {
    QuietInv(s, StepBlocked(s, t), t);
  }

  // ---------------------------------------------------------------- moving the head, and signals

  /** Taking the mutex, and reading the head. */
  lemma {:induction false} EnterLocal(s: State, t: nat)
    requires Sized(s) && t < |s.threads| && MoveOK(s, t) && (s.threads[t].pc.Enter? || s.threads[t].pc.Top?)
    ensures s.threads[t].pc.Enter? ==> QuietTo(s, StepEnter(s, t), t)
    ensures s.threads[t].pc.Top? ==> QuietTo(s, StepTop(s, t), t)
  {
  }

  lemma {:induction false} EnterInv(s: State, t: nat)
    requires Inv(s) && t < |s.threads| && s.threads[t].pc.Enter?
    ensures Inv(StepEnter(s, t)) && Respects(s, StepEnter(s, t), t)
  {
    assert ThreadOK(s, t);
    EnterLocal(s, t);
    QuietInv(s, StepEnter(s, t), t);
  }

  lemma {:induction false} TopInv(s: State, t: nat)
    requires Inv(s) && t < |s.threads| && s.threads[t].pc.Top?
    ensures Inv(StepTop(s, t)) && Respects(s, StepTop(s, t), t)
  {
    assert ThreadOK(s, t);
    EnterLocal(s, t);
    QuietInv(s, StepTop(s, t), t);
  }

  lemma {:induction false} TestLocal(s: State, t: nat)
    requires Sized(s) && t < |s.threads| && MoveOK(s, t) && s.threads[t].pc.Test? && IsCell(s, s.threads[t].target)
    ensures QuietTo(s, StepTest(s, t), t)
  {
  }

  lemma {:induction false} TestInv(s: State, t: nat)
    requires Inv(s) && t < |s.threads| && s.threads[t].pc.Test?
    ensures Inv(StepTest(s, t)) && Respects(s, StepTest(s, t), t)
  {
    assert ThreadOK(s, t);
    PathPlace(s, s.headPos);
    TestLocal(s, t);
    QuietInv(s, StepTest(s, t), t);
  }

  lemma {:induction false} AgainLocal(s: State, t: nat)
    requires Sized(s) && t < |s.threads| && MoveOK(s, t) && s.threads[t].pc.Again? && IsCell(s, s.head)
    requires s.headPos == s.pos[s.head] && Current(s, s.headPos) && s.order[s.headPos] == s.head
    ensures QuietTo(s, StepAgain(s, t), t)
  {
    QuietStages(s, StepAgain(s, t), t);
  }

  lemma {:induction false} AgainInv(s: State, t: nat)
    requires Inv(s) && t < |s.threads| && s.threads[t].pc.Again?
    ensures Inv(StepAgain(s, t)) && Respects(s, StepAgain(s, t), t)
  {
    assert ThreadOK(s, t);
    PathPlace(s, s.headPos);
    AgainLocal(s, t);
    QuietInv(s, StepAgain(s, t), t);
  }

  lemma {:induction false} FollowLocal(s: State, t: nat)
    requires Sized(s) && t < |s.threads| && MoveOK(s, t) && s.threads[t].pc.Follow?
    requires s.cells[s.threads[t].target].next == NextOf(s, s.headPos)
    ensures QuietTo(s, StepFollow(s, t), t)
  {
  }

  lemma {:induction false} FollowInv(s: State, t: nat)
    requires Inv(s) && t < |s.threads| && s.threads[t].pc.Follow?
    ensures Inv(StepFollow(s, t)) && Respects(s, StepFollow(s, t), t)
  {
    assert ThreadOK(s, t);
    PathPlace(s, s.headPos);
    FollowLocal(s, t);
    QuietInv(s, StepFollow(s, t), t);
  }

  /** A test of the lock that the wake-up looks at. */
  lemma {:induction false} WakeTestLocal(s: State, s1: State, t: nat)
    requires Sized(s) && t < |s.threads| && MoveOK(s, t) && InWake(s.threads[t].pc)
    requires |s1.threads| == |s.threads| && var pc := s1.threads[t].pc;
             s1 == Leave(s, t) || (s1 == Put(s, t, s.threads[t].(pc := pc)) && InWake(pc) && !AtHead(pc))
    ensures QuietTo(s, s1, t)
  {
    QuietStages(s, s1, t);
  }

  lemma {:induction false} TestModeInv(s: State, t: nat, pc: PC)
    requires Inv(s) && t < |s.threads| && (s.threads[t].pc.WakeMode? || s.threads[t].pc.WakeCheck?)
    requires pc.WakeNext? || pc.WakeSet?
    ensures Inv(StepTestMode(s, t, pc)) && Respects(s, StepTestMode(s, t, pc), t)
  {
    assert ThreadOK(s, t);
    WakeTestLocal(s, StepTestMode(s, t, pc), t);
    QuietInv(s, StepTestMode(s, t, pc), t);
  }

  lemma {:induction false} WakeTestInv(s: State, t: nat)
    requires Inv(s) && t < |s.threads| && s.threads[t].pc.WakeTest?
    ensures Inv(StepWakeTest(s, t)) && Respects(s, StepWakeTest(s, t), t)
  {
    assert ThreadOK(s, t);
    WakeTestLocal(s, StepWakeTest(s, t), t);
    QuietInv(s, StepWakeTest(s, t), t);
  }

  lemma {:induction false} WakeNextLocal(s: State, t: nat)
    requires Sized(s) && t < |s.threads| && MoveOK(s, t) && s.threads[t].pc.WakeNext?
    requires s.cells[s.threads[t].target].next == NextOf(s, s.pos[s.threads[t].target])
    requires var p := s.pos[s.threads[t].target]; p + 1 < |s.order| ==> Current(s, p + 1)
    ensures QuietTo(s, StepWakeNext(s, t), t)
  {
    QuietStages(s, StepWakeNext(s, t), t);
  }

  lemma {:induction false} WakeNextInv(s: State, t: nat)
    requires Inv(s) && t < |s.threads| && s.threads[t].pc.WakeNext?
    ensures Inv(StepWakeNext(s, t)) && Respects(s, StepWakeNext(s, t), t)
  {
    assert ThreadOK(s, t);
    var p := s.pos[s.threads[t].target];
    PathPlace(s, p);
    if p + 1 < |s.order| { PathPlace(s, p + 1); }
    WakeNextLocal(s, t);
    QuietInv(s, StepWakeNext(s, t), t);
  }
}
