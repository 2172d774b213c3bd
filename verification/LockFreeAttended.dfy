/** Which events leave a waiting lock attended: all but the one in which a victim gives up the exclusive lock
    it waits for. */
module LockFreeAttended {
  import opened LockFreeFrame
  import opened LockFreeGrants
  import opened LockFreeInvariant
  import opened LockFreeList
  import opened LockFreeQuiet
  import opened LockFreeSafety
  import opened LockFreeWakeups

  // ---------------------------------------------------------------- the invariant

  predicate HeadLive(s: State)
  {
    IsCell(s, s.head) && !s.cells[s.head].obsolete
  }

  /** The wake-up is about to look at the mode of an exclusive lock given up a moment ago, and to stop there. */
  predicate EndsWakeup(s: State, x: Thread)
    requires IsCell(s, x.target)
  {
    x.pc.WakeCheck? && s.cells[x.target].obsolete && s.cells[x.target].exclusive
  }

  /** The holder of the head mutex is going to come to place p with its signals. */
  predicate MoverComes(s: State, p: int)
    requires Sized(s)
  {
    0 <= s.mutex < |s.threads|
    && var x := s.threads[s.mutex];
       || AtNewHead(x.pc) || x.pc.WakeMode?
       || (BehindHead(x.pc) && IsCell(s, x.target) && !EndsWakeup(s, x)
           && (s.pos[x.target] < p || (s.pos[x.target] == p && !x.pc.WakeNext?)))
  }

  predicate Underway(s: State)
  {
    exists u {:trigger Owes(s, u)} :: 0 <= u < |s.threads| && (Releasing(s.threads[u].pc) || Owes(s, u))
  }

  /** A shared lock at place p whose obstacles are gone is going to be signalled: by the release that has
      moved the head to a lock in use, or else by one that has yet to move it. */
  predicate Attended(s: State, l: nat)
    requires Sized(s) && l < |s.cells|
  {
    || s.cells[l].signal || !SharedBefore(s, s.pos[l])
    || (if HeadLive(s) then MoverComes(s, s.pos[l]) else Underway(s))
  }

  /** Stopped by an obstacle that has not been reused since. */
  predicate Halted(s: State, t: nat)
    requires Sized(s) && t < |s.threads|
  {
    var x := s.threads[t];
    && Stopped(x.pc) && x.lock < |s.cells|
    && !(x.pc.AgainId? && IsCell(s, x.target) && Lost(s, x.target, s.pos[x.lock]))
  }

  predicate AttendOK(s: State, t: nat)
    requires Sized(s) && t < |s.threads|
  {
    Halted(s, t) ==> s.cells[s.threads[t].lock].exclusive || Attended(s, s.threads[t].lock)
  }

  /** What stops a shared lock is exclusive. */
  predicate AgainOK(s: State, t: nat)
    requires Sized(s) && t < |s.threads|
  {
    var x := s.threads[t];
    x.pc.AgainState? ==>
      && x.lock < |s.cells| && IsCell(s, x.target)
      && (s.cells[x.lock].exclusive || s.cells[x.target].exclusive || Lost(s, x.target, s.pos[x.lock]))
  }

  /** Everything live that the wake-up has gone past has been signalled. */
  predicate SignalledBefore(s: State, p: int)
    requires Sized(s)
  {
    forall m {:trigger Live(s, m)} | 0 <= m < |s.cells| && Live(s, m) && s.pos[m] < p :: s.cells[m].signal
  }

  predicate WalkerOK(s: State, t: nat)
    requires Sized(s) && t < |s.threads|
  {
    var x := s.threads[t];
    && (x.pc.WakeMode? ==> IsCell(s, x.target) && s.cells[x.target].signal)
    && (BehindHead(x.pc) ==>
          && IsCell(s, x.target) && SignalledBefore(s, s.pos[x.target])
          && (x.pc.WakeNext? ==> s.cells[x.target].obsolete || s.cells[x.target].signal)
          && (!x.pc.WakeNext? ==> s.headPos < s.pos[x.target]))
  }

  /** A lock that its thread still has to release was granted, or its thread was a victim. */
  predicate HeldOK(s: State, t: nat)
    requires t < |s.threads|
  {
    forall l {:trigger l in s.threads[t].held} | l in s.threads[t].held ::
      l in s.threads[t].granted || (l < |s.cells| && s.cells[l].obsolete)
  }

  predicate SteadyOK(s: State, t: nat)
    requires Sized(s) && t < |s.threads|
  {
    AgainOK(s, t) && WalkerOK(s, t) && HeldOK(s, t)
  }

  /** What holds whatever victims there are. */
  predicate Steady(s: State)
  {
    Awake(s) && forall t {:trigger SteadyOK(s, t)} | 0 <= t < |s.threads| :: SteadyOK(s, t)
  }

  /** Whoever was attended is attended still. */
  predicate TendsOn(s: State, s1: State)
    requires Sized(s)
  {
    Steady(s1) && |s1.threads| == |s.threads|
    && forall u {:trigger AttendOK(s1, u)} | 0 <= u < |s.threads| && AttendOK(s, u) :: AttendOK(s1, u)
  }

  // ---------------------------------------------------------------- what a step leaves of it

  /** A lock becomes obsolete when a release begins, and then it was free; or with a shared victim. */
  predicate GivesUp(s: State, s1: State, t: nat)
    requires Sized(s) && |s.cells| <= |s1.cells| && t < |s1.threads|
  {
    forall m {:trigger s1.cells[m]} | 0 <= m < |s.cells| && s1.cells[m].obsolete && !s.cells[m].obsolete ::
      (Releasing(s1.threads[t].pc) && Free(s, m)) || (Owes(s1, t) && !s.cells[m].exclusive)
  }

  lemma {:induction false} UnderwayBy(s: State, t: nat)
    requires t < |s.threads| && (Releasing(s.threads[t].pc) || Owes(s, t))
    ensures Underway(s)
  {
    assert Owes(s, t) || Releasing(s.threads[t].pc);
  }

  /** A head in use that is given up leaves a release under way. */
  lemma {:induction false} HeadGivenUp(s: State, s1: State, t: nat)
    requires Sized(s) && Sized(s1) && Respects(s, s1, t) && GivesUp(s, s1, t)
    requires s1.head == s.head && HeadLive(s) && !HeadLive(s1)
    ensures Underway(s1)
  {
    assert s1.cells[s.head].obsolete;
    UnderwayBy(s1, t);
  }

  /** An exclusive lock that is free and live has no live head ahead of it. */
  lemma {:induction false} FreeIsHead(s: State, m: nat)
    requires Inv(s) && m < |s.cells| && Live(s, m) && s.cells[m].exclusive && Free(s, m) && HeadLive(s)
    ensures s.head == m
  {
    PathPlace(s, s.headPos);
    LivePlace(s, m);
    assert Live(s, s.head);
  }

  lemma {:induction false} HeadStaysDead(s: State, s1: State, t: nat)
    requires Inv(s) && Sized(s1) && Respects(s, s1, t) && s1.head == s.head && !HeadLive(s)
    requires s.head != NULL
    ensures !HeadLive(s1)
  {
    PathPlace(s, s.headPos);
    assert CellGrows(s, s1, s.head);
  }

  /** The exclusive lock that stood in the way is live still, or the release that gave it up is under way
      and finds the head not in use. */
  lemma {:induction false} ObstacleStays(s: State, s1: State, t: nat, p: int)
    requires Inv(s) && Sized(s1) && Respects(s, s1, t) && GivesUp(s, s1, t) && s1.head == s.head != NULL
    requires p <= |s.order| && !SharedBefore(s, p)
    ensures !SharedBefore(s1, p) || (!HeadLive(s1) && Underway(s1))
  {
    var m :| 0 <= m < |s.cells| && Live(s, m) && s.pos[m] < p && s.cells[m].exclusive;
    assert CellGrows(s, s1, m);
    if s1.cells[m].obsolete {
      UnderwayBy(s1, t);
      if HeadLive(s) { FreeIsHead(s, m); } else { HeadStaysDead(s, s1, t); }
    } else {
      assert Live(s1, m);
    }
  }

  /** What t's own part in the attendance of place p turns into. */
  predicate PassesOn(s: State, s1: State, t: nat, l: nat)
    requires Sized(s) && Sized(s1) && l < |s.cells| <= |s1.cells| && t < |s.threads|
  {
    && (HeadLive(s) && s.mutex == t && MoverComes(s, s.pos[l]) && SharedBefore(s, s.pos[l]) ==> Attended(s1, l))
    && (!HeadLive(s) && (Releasing(s.threads[t].pc) || Owes(s, t)) ==> Attended(s1, l))
  }

  lemma {:induction false} UnderwayStays(s: State, s1: State, t: nat)
    requires Inv(s) && Sized(s1) && Respects(s, s1, t) && Underway(s)
    ensures Underway(s1) || Releasing(s.threads[t].pc) || Owes(s, t)
  {
    var u :| 0 <= u < |s.threads| && (Releasing(s.threads[u].pc) || Owes(s, u));
    if u != t {
      assert s1.threads[u] == s.threads[u] && ThreadOK(s, u);
      if Owes(s, u) { OwesStays(s, s1, u); }
      UnderwayBy(s1, u);
    }
  }

  /** A mover at the check of a lock ahead of place p, or at p, finds it shared or not given up. */
  lemma {:induction false} MoverStays(s: State, s1: State, t: nat, l: nat)
    requires Inv(s) && Sized(s1) && Respects(s, s1, t) && s.mutex != t && s.head != NULL
    requires l < |s.cells| && Stage(s, l) == 9 && !s.cells[l].exclusive
    requires MoverComes(s, s.pos[l]) && SharedBefore(s, s.pos[l])
    ensures MoverComes(s1, s.pos[l]) && s1.head == s.head
  {
    var v := s.mutex;
    assert s1.threads[v] == s.threads[v] && ThreadOK(s, v) && CellOK(s, l);
    if BehindHead(s.threads[v].pc) {
      var m := s.threads[v].target;
      PathPlace(s, s.pos[m]);
      assert CellGrows(s, s1, m);
      if EndsWakeup(s1, s.threads[v]) { assert !Live(s, m); }
    }
  }

  /** A lock that t does not own stays attended. */
  lemma {:induction false} AttendedStays(s: State, s1: State, t: nat, l: nat)
    requires Inv(s) && Sized(s1) && Respects(s, s1, t) && GivesUp(s, s1, t) && s1.head == s.head != NULL
    requires l < |s.cells| && Stage(s, l) == 9 && !s.cells[l].exclusive && Attended(s, l) && PassesOn(s, s1, t, l)
    ensures Attended(s1, l)
  {
    assert CellOK(s, l) && CellGrows(s, s1, l);
    var p := s.pos[l];
    if s.cells[l].signal {
    } else if !SharedBefore(s, p) {
      ObstacleStays(s, s1, t, p);
    } else if HeadLive(s) {
      if s.mutex != t { MoverStays(s, s1, t, l); }
      if !HeadLive(s1) { HeadGivenUp(s, s1, t); }
    } else {
      HeadStaysDead(s, s1, t);
      UnderwayStays(s, s1, t);
    }
  }

  lemma {:induction false} OtherAgain(s: State, s1: State, t: nat, u: nat)
    requires Inv(s) && Sized(s1) && Respects(s, s1, t) && u < |s.threads| && u != t && AgainOK(s, u)
    ensures AgainOK(s1, u)
  {
    var x := s.threads[u];
    assert s1.threads[u] == x;
    if x.pc.AgainState? {
      Walker(s, u);
      ScanCells(s, u);
      assert CellGrows(s, s1, x.lock) && CellGrows(s, s1, x.target);
      if Lost(s, x.target, s.pos[x.lock]) { LostStays(s, s1, x.target, s.pos[x.lock]); }
    }
  }

  lemma {:induction false} OtherAttended(s: State, s1: State, t: nat, u: nat)
    requires Inv(s) && Sized(s1) && Respects(s, s1, t) && u < |s.threads| && u != t && AttendOK(s, u)
    requires var l := s.threads[u].lock;
             Stopped(s.threads[u].pc) && l < |s.cells| && Attended(s, l) && !s.cells[l].exclusive ==> Attended(s1, l)
    ensures AttendOK(s1, u)
  {
    var x := s.threads[u];
    assert s1.threads[u] == x;
    if Stopped(x.pc) {
      Walker(s, u);
      assert CellGrows(s, s1, x.lock);
      if x.pc.AgainId? && IsCell(s, x.target) && Lost(s, x.target, s.pos[x.lock]) {
        LostStays(s, s1, x.target, s.pos[x.lock]);
      }
    }
  }

  lemma {:induction false} SignalledStays(s: State, s1: State, p: int)
    requires Inv(s) && Sized(s1) && Grows(s, s1) && p <= |s.order| && SignalledBefore(s, p)
    ensures SignalledBefore(s1, p)
  {
    forall m | 0 <= m < |s1.cells| && Live(s1, m) && s1.pos[m] < p ensures s1.cells[m].signal {
      LiveBack(s, s1, m);
      assert CellGrows(s, s1, m);
    }
  }

  lemma {:induction false} OtherWalker(s: State, s1: State, t: nat, u: nat)
    requires Inv(s) && Sized(s1) && Respects(s, s1, t) && u < |s.threads| && u != t && WalkerOK(s, u)
    ensures WalkerOK(s1, u)
  {
    var x := s.threads[u];
    assert s1.threads[u] == x && ThreadOK(s, u);
    if BehindHead(x.pc) || x.pc.WakeMode? {
      PathPlace(s, s.pos[x.target]);
      assert CellGrows(s, s1, x.target);
    }
    if BehindHead(x.pc) { SignalledStays(s, s1, s.pos[x.target]); }
  }

  lemma {:induction false} OtherHeld(s: State, s1: State, t: nat, u: nat)
    requires Inv(s) && Sized(s1) && Respects(s, s1, t) && u < |s.threads| && u != t && HeldOK(s, u)
    ensures HeldOK(s1, u)
  {
    assert s1.threads[u] == s.threads[u] && ThreadOK(s, u);
    forall l | l in s.threads[u].held
      ensures l in s1.threads[u].granted || (l < |s1.cells| && s1.cells[l].obsolete)
    {
      assert CellGrows(s, s1, l);
    }
  }

  /** What the other threads wait with stays attended. */
  predicate OthersAttended(s: State, s1: State, t: nat)
    requires Sized(s) && Sized(s1) && |s.cells| <= |s1.cells|
  {
    forall u {:trigger s.threads[u]} | 0 <= u < |s.threads| && u != t && Stopped(s.threads[u].pc) ::
      var l := s.threads[u].lock;
      l < |s.cells| && (Attended(s, l) && !s.cells[l].exclusive ==> Attended(s1, l))
  }

  /** Of a step it remains to be shown what its own thread knows. */
  lemma {:induction false} SteadyKept(s: State, s1: State, t: nat)
    requires Steady(s) && Awake(s1) && Respects(s, s1, t) && SteadyOK(s1, t)
    ensures Steady(s1)
  {
    forall u | 0 <= u < |s1.threads| ensures SteadyOK(s1, u) {
      assert SteadyOK(s, u);
      if u != t {
        OtherAgain(s, s1, t, u);
        OtherWalker(s, s1, t, u);
        OtherHeld(s, s1, t, u);
      }
    }
  }

  /** And what the others wait with. */
  lemma {:induction false} TendedKept(s: State, s1: State, t: nat)
    requires Steady(s) && Awake(s1) && Respects(s, s1, t) && SteadyOK(s1, t)
    requires OthersAttended(s, s1, t) && (AttendOK(s, t) ==> AttendOK(s1, t))
    ensures TendsOn(s, s1)
  {
    SteadyKept(s, s1, t);
    forall u | 0 <= u < |s.threads| && AttendOK(s, u) ensures AttendOK(s1, u) {
      if u != t { OtherAttended(s, s1, t, u); }
    }
  }

  // ---------------------------------------------------------------- steps of an acquisition

  /** The locks a thread holds after a step by which none of them is given up. */
  lemma {:induction false} OwnHeld(s: State, s1: State, t: nat)
    requires Inv(s) && Sized(s1) && Respects(s, s1, t) && HeldOK(s, t)
    requires !s.threads[t].pc.Idle? && !s.threads[t].pc.Blocked?
    ensures HeldOK(s1, t)
  {
    assert ThreadOK(s, t);
    forall l | l in s1.threads[t].held
      ensures l in s1.threads[t].granted || (l < |s1.cells| && s1.cells[l].obsolete)
    {
      if l in s.threads[t].held && l !in s.threads[t].granted { assert CellGrows(s, s1, l); }
    }
  }

  /** Steps after which there is nothing new to know about the thread. */
  predicate Ordinary(pc: PC)
  {
    !(pc.Idle? || pc.FirstHead? || pc.ScanMode? || pc.AgainState? || Stopped(pc) || pc.Test? || pc.Follow?
      || pc.SetHead? || pc.SetPass? || pc.Again? || InWake(pc))
  }

  /** Another thread's lock is attended as before if t was no mover, and releases still if it did. */
  lemma {:induction false} BystanderAttended(s: State, s1: State, t: nat, l: nat)
    requires Inv(s) && Sized(s1) && Respects(s, s1, t) && GivesUp(s, s1, t) && s1.head == s.head != NULL
    requires l < |s.cells| && Stage(s, l) == 9 && !s.cells[l].exclusive && Attended(s, l)
    requires !AtNewHead(s.threads[t].pc) && !InWake(s.threads[t].pc)
    requires !HeadLive(s) && (Releasing(s.threads[t].pc) || Owes(s, t)) ==>
               Releasing(s1.threads[t].pc) || Owes(s1, t)
    ensures Attended(s1, l)
  {
    assert CellGrows(s, s1, l);
    if !HeadLive(s) {
      HeadStaysDead(s, s1, t);
      if Releasing(s.threads[t].pc) || Owes(s, t) { UnderwayBy(s1, t); }
    }
    AttendedStays(s, s1, t, l);
  }

  lemma {:induction false} BystandersAttended(s: State, s1: State, t: nat)
    requires Inv(s) && Sized(s1) && Respects(s, s1, t) && GivesUp(s, s1, t) && s1.head == s.head
    requires !AtNewHead(s.threads[t].pc) && !InWake(s.threads[t].pc)
    requires s.threads[t].held <= s1.threads[t].held || Releasing(s1.threads[t].pc)
    requires !HeadLive(s) && Releasing(s.threads[t].pc) ==> Releasing(s1.threads[t].pc)
    ensures OthersAttended(s, s1, t)
  {
    assert ThreadOK(s, t);
    if Owes(s, t) && !Releasing(s1.threads[t].pc) { OwesStays(s, s1, t); }
    forall u | 0 <= u < |s.threads| && u != t && Stopped(s.threads[u].pc)
      ensures var l := s.threads[u].lock;
              l < |s.cells| && (Attended(s, l) && !s.cells[l].exclusive ==> Attended(s1, l))
    {
      Walker(s, u);
      var l := s.threads[u].lock;
      if Attended(s, l) && !s.cells[l].exclusive { BystanderAttended(s, s1, t, l); }
    }
  }

  lemma {:induction false} OrdinaryTended(s: State, s1: State, t: nat)
    requires Steady(s) && Awake(s1) && Respects(s, s1, t) && Ordinary(s.threads[t].pc)
    ensures TendsOn(s, s1)
  {
    assert SteadyOK(s, t) && ThreadOK(s, t);
    OwnHeld(s, s1, t);
    BystandersAttended(s, s1, t);
    TendedKept(s, s1, t);
  }

  /** The first head: nobody waits yet. */
  lemma {:induction false} FirstHeadTended(s: State, t: nat)
    requires Steady(s) && t < |s.threads| && s.threads[t].pc.FirstHead?
    requires Awake(StepFirstHead(s, t)) && Respects(s, StepFirstHead(s, t), t)
    ensures TendsOn(s, StepFirstHead(s, t))
  {
    var s1 := StepFirstHead(s, t);
    assert SteadyOK(s, t) && ThreadOK(s, t);
    OwnHeld(s, s1, t);
    forall u | 0 <= u < |s.threads| ensures !Stopped(s.threads[u].pc) { assert ThreadOK(s, u); }
    TendedKept(s, s1, t);
  }

  /** A quiet step of an acquisition leaves its own lock attended. */
  lemma {:induction false} QuietAttended(s: State, s1: State, t: nat, l: nat)
    requires Inv(s) && Sized(s1) && t < |s.threads| && Quiet(s, s1, t) && StageOf(s.threads[t].pc) == 9
    requires l < |s.cells| && Attended(s, l) && s1.mutex == s.mutex
    ensures Attended(s1, l)
  {
    QuietStages(s, s1, t);
    var p := s.pos[l];
    if !s.cells[l].signal && SharedBefore(s1, p) {
      forall m | 0 <= m < |s.cells| && Live(s, m) && s.pos[m] < p ensures !s.cells[m].exclusive {
        assert Live(s1, m);
      }
      if !HeadLive(s) {
        var u :| 0 <= u < |s.threads| && (Releasing(s.threads[u].pc) || Owes(s, u));
        if Owes(s, u) {
          var m :| m in s.threads[u].held && m < |s.cells| && s.cells[m].obsolete;
          assert m in s1.threads[u].held;
        }
        UnderwayBy(s1, u);
      }
    }
  }

  /** A quiet step of an acquisition, once it is known how its own lock fares. */
  lemma {:induction false} QuietTended(s: State, s1: State, t: nat)
    requires Steady(s) && Awake(s1) && t < |s.threads| && Quiet(s, s1, t) && Respects(s, s1, t)
    requires StageOf(s.threads[t].pc) == 9 && AgainOK(s1, t) && (AttendOK(s, t) ==> AttendOK(s1, t))
    ensures TendsOn(s, s1)
  {
    assert SteadyOK(s, t) && ThreadOK(s, t);
    BystandersAttended(s, s1, t);
    TendedKept(s, s1, t);
  }

  lemma {:induction false} ScanModeAttend(s: State, t: nat)
    requires Sized(s) && t < |s.threads| && s.threads[t].pc.ScanMode?
    requires s.threads[t].lock < |s.cells| && IsCell(s, s.threads[t].target)
    ensures Quiet(s, StepScanMode(s, t), t) && AgainOK(StepScanMode(s, t), t) && AttendOK(StepScanMode(s, t), t)
  {
  }

  lemma {:induction false} ScanModeTended(s: State, t: nat)
    requires Steady(s) && t < |s.threads| && s.threads[t].pc.ScanMode?
    requires Awake(StepScanMode(s, t)) && Respects(s, StepScanMode(s, t), t)
    ensures TendsOn(s, StepScanMode(s, t))
  {
    ScanCells(s, t);
    ScanModeAttend(s, t);
    QuietTended(s, StepScanMode(s, t), t);
  }

  /** The obstacle of a shared lock is exclusive. */
  lemma {:induction false} ObstacleExclusive(s: State, t: nat)
    requires Steady(s) && t < |s.threads| && s.threads[t].pc.AgainState?
    ensures var x := s.threads[t];
      && x.lock < |s.cells| && IsCell(s, x.target)
      && (!s.cells[x.target].obsolete && !s.cells[x.lock].exclusive && !Lost(s, x.target, s.pos[x.lock]) ==>
            !SharedBefore(s, s.pos[x.lock]))
  {
    assert SteadyOK(s, t) && ThreadOK(s, t);
    EntryLive(s, t);
  }

  lemma {:induction false} AgainStateTended(s: State, t: nat)
    requires Steady(s) && t < |s.threads| && s.threads[t].pc.AgainState?
    requires Awake(StepAgainState(s, t)) && Respects(s, StepAgainState(s, t), t)
    ensures TendsOn(s, StepAgainState(s, t))
  {
    var s1, x := StepAgainState(s, t), s.threads[t];
    ObstacleExclusive(s, t);
    QuietStages(s, s1, t);
    if !SharedBefore(s, s.pos[x.lock]) { QuietAttended(s, s1, t, x.lock); }
    QuietTended(s, s1, t);
  }

  lemma {:induction false} AgainIdTended(s: State, t: nat)
    requires Steady(s) && t < |s.threads| && s.threads[t].pc.AgainId?
    requires Awake(StepTestId(s, t, PC.Blocked)) && Respects(s, StepTestId(s, t, PC.Blocked), t)
    ensures TendsOn(s, StepTestId(s, t, PC.Blocked))
  {
    var s1, x := StepTestId(s, t, PC.Blocked), s.threads[t];
    assert SteadyOK(s, t);
    ScanCells(s, t);
    Walker(s, t);
    LostShows(s, x.target, s.pos[x.lock]);
    QuietStages(s, s1, t);
    if Attended(s, x.lock) { QuietAttended(s, s1, t, x.lock); }
    QuietTended(s, s1, t);
  }

  lemma {:induction false} BlockedTended(s: State, t: nat)
    requires Steady(s) && t < |s.threads| && s.threads[t].pc.Blocked?
    requires Awake(StepBlocked(s, t)) && Respects(s, StepBlocked(s, t), t)
    ensures TendsOn(s, StepBlocked(s, t))
  {
    var s1, x := StepBlocked(s, t), s.threads[t];
    Walker(s, t);
    if Attended(s, x.lock) { QuietAttended(s, s1, t, x.lock); }
    QuietTended(s, s1, t);
  }

  lemma {:induction false} WaitingTended(s: State, t: nat)
    requires Steady(s) && t < |s.threads| && s.threads[t].pc.Waiting?
    requires Awake(StepWaiting(s, t)) && Respects(s, StepWaiting(s, t), t)
    ensures TendsOn(s, StepWaiting(s, t))
  {
    var s1 := StepWaiting(s, t);
    if s1 != s {
      assert SteadyOK(s, t) && ThreadOK(s, t);
      OwnHeld(s, s1, t);
      BystandersAttended(s, s1, t);
      TendedKept(s, s1, t);
    }
  }

  lemma {:induction false} BeginTended(s: State, t: nat, l: nat, exclusive: bool)
    requires Steady(s) && t < |s.threads| && s.threads[t].pc.Idle? && (Recyclable(s, t, l) || l == |s.cells|)
    requires Awake(Begin(s, t, l, exclusive)) && Respects(s, Begin(s, t, l, exclusive), t)
    ensures TendsOn(s, Begin(s, t, l, exclusive))
  {
    var s1 := Begin(s, t, l, exclusive);
    assert SteadyOK(s, t) && ThreadOK(s, t);
    BystandersAttended(s, s1, t);
    TendedKept(s, s1, t);
  }

  // ---------------------------------------------------------------- steps of a release

  /** What is released is free, unless it is given up already. */
  lemma {:induction false} ReleasedFree(s: State, t: nat, l: nat)
    requires Steady(s) && t < |s.threads| && l in s.threads[t].held && l < |s.cells| && !s.cells[l].obsolete
    ensures Free(s, l)
  {
    assert SteadyOK(s, t) && GrantOK(s, t);
    assert l in s.threads[t].granted;
  }

  lemma {:induction false} ReleaseTended(s: State, t: nat, l: nat)
    requires Steady(s) && t < |s.threads| && s.threads[t].pc.Idle? && l in s.threads[t].held && l < |s.cells|
    requires Awake(BeginRelease(s, t, l)) && Respects(s, BeginRelease(s, t, l), t)
    ensures TendsOn(s, BeginRelease(s, t, l))
  {
    var s1 := BeginRelease(s, t, l);
    assert SteadyOK(s, t) && ThreadOK(s, t);
    if !s.cells[l].obsolete { ReleasedFree(s, t, l); }
    BystandersAttended(s, s1, t);
    TendedKept(s, s1, t);
  }

  lemma {:induction false} TestTended(s: State, t: nat)
    requires Steady(s) && t < |s.threads| && s.threads[t].pc.Test?
    requires Awake(StepTest(s, t)) && Respects(s, StepTest(s, t), t)
    ensures TendsOn(s, StepTest(s, t))
  {
    var s1 := StepTest(s, t);
    assert SteadyOK(s, t) && ThreadOK(s, t);
    PathPlace(s, s.headPos);
    BystandersAttended(s, s1, t);
    OwnHeld(s, s1, t);
    TendedKept(s, s1, t);
  }

  lemma {:induction false} FollowTended(s: State, t: nat)
    requires Steady(s) && t < |s.threads| && s.threads[t].pc.Follow?
    requires Awake(StepFollow(s, t)) && Respects(s, StepFollow(s, t), t)
    ensures TendsOn(s, StepFollow(s, t))
  {
    var s1 := StepFollow(s, t);
    assert SteadyOK(s, t) && ThreadOK(s, t);
    OwnHeld(s, s1, t);
    forall u | 0 <= u < |s.threads| && u != t && Stopped(s.threads[u].pc)
      ensures var l := s.threads[u].lock;
              l < |s.cells| && (Attended(s, l) && !s.cells[l].exclusive ==> Attended(s1, l))
    {
      SomebodyBehind(s, t, u);
      Walker(s, u);
      var l := s.threads[u].lock;
      if Attended(s, l) && !s.cells[l].exclusive { BystanderAttended(s, s1, t, l); }
    }
    TendedKept(s, s1, t);
  }

  /** A release that has just moved the head attends to every place. */
  lemma {:induction false} NewHeadAttends(s: State, t: nat, l: nat)
    requires Sized(s) && t < |s.threads| && s.mutex == t && (s.threads[t].pc.SetPass? || s.threads[t].pc.Again?)
    requires l < |s.cells|
    ensures Attended(s, l)
  {
    UnderwayBy(s, t);
  }

  lemma {:induction false} SetHeadTended(s: State, t: nat)
    requires Steady(s) && t < |s.threads| && s.threads[t].pc.SetHead?
    requires Awake(StepSetHead(s, t)) && Respects(s, StepSetHead(s, t), t)
    ensures TendsOn(s, StepSetHead(s, t))
  {
    var s1 := StepSetHead(s, t);
    assert SteadyOK(s, t) && ThreadOK(s, t);
    OwnHeld(s, s1, t);
    forall u | 0 <= u < |s.threads| && u != t && Stopped(s.threads[u].pc)
      ensures var l := s.threads[u].lock; l < |s.cells| && Attended(s1, l)
    {
      Walker(s, u);
      NewHeadAttends(s1, t, s.threads[u].lock);
    }
    TendedKept(s, s1, t);
  }

  lemma {:induction false} SetPassTended(s: State, t: nat)
    requires Steady(s) && t < |s.threads| && s.threads[t].pc.SetPass?
    requires Awake(StepSetPass(s, t)) && Respects(s, StepSetPass(s, t), t)
    ensures TendsOn(s, StepSetPass(s, t))
  {
    var s1 := StepSetPass(s, t);
    assert SteadyOK(s, t) && ThreadOK(s, t);
    OwnHeld(s, s1, t);
    forall u | 0 <= u < |s.threads| && u != t && Stopped(s.threads[u].pc)
      ensures var l := s.threads[u].lock; l < |s.cells| && Attended(s1, l)
    {
      Walker(s, u);
      NewHeadAttends(s1, t, s.threads[u].lock);
    }
    TendedKept(s, s1, t);
  }

  /** After the test of the new head: in use it is to be signalled, and otherwise the release goes on. */
  lemma {:induction false} AgainAttends(s: State, t: nat, l: nat)
    requires Sized(s) && t < |s.threads| && s.mutex == t && l < |s.cells|
    requires s.threads[t].pc.Follow? || s.threads[t].pc.WakeHead?
    requires s.threads[t].pc.Follow? <==> !HeadLive(s)
    ensures Attended(s, l)
  {
    if s.threads[t].pc.Follow? { UnderwayBy(s, t); }
  }

  /** The release itself has nothing new to know about other locks. */
  lemma {:induction false} AgainOwn(s: State, t: nat)
    requires Inv(s) && t < |s.threads| && SteadyOK(s, t) && s.threads[t].pc.Again?
    requires Respects(s, StepAgain(s, t), t)
    ensures var s1 := StepAgain(s, t);
      && SteadyOK(s1, t) && GivesUp(s, s1, t) && AttendOK(s1, t) && s1.mutex == t
      && (s1.threads[t].pc.Follow? || s1.threads[t].pc.WakeHead?)
      && (s1.threads[t].pc.Follow? <==> !HeadLive(s1))
  {
    assert ThreadOK(s, t);
    PathPlace(s, s.headPos);
    OwnHeld(s, StepAgain(s, t), t);
  }

  lemma {:induction false} AgainTended(s: State, t: nat)
    requires Steady(s) && t < |s.threads| && s.threads[t].pc.Again?
    requires Awake(StepAgain(s, t)) && Respects(s, StepAgain(s, t), t)
    ensures TendsOn(s, StepAgain(s, t))
  {
    var s1 := StepAgain(s, t);
    assert SteadyOK(s, t);
    AgainOwn(s, t);
    forall u | 0 <= u < |s.threads| && u != t && Stopped(s.threads[u].pc)
      ensures var l := s.threads[u].lock; l < |s.cells| && Attended(s1, l)
    {
      Walker(s, u);
      AgainAttends(s1, t, s.threads[u].lock);
    }
    TendedKept(s, s1, t);
  }

  // ---------------------------------------------------------------- steps of the wake-up

  /** Where there is something left to signal, the wake-up goes on towards it. */
  predicate WakesOne(s: State, s1: State, l: nat)
    requires Sized(s) && Sized(s1) && l < |s.cells| <= |s1.cells|
  {
    HeadLive(s) && SharedBefore(s, s.pos[l]) && MoverComes(s, s.pos[l]) && !s.cells[l].exclusive ==>
      s1.cells[l].signal || (HeadLive(s1) && MoverComes(s1, s1.pos[l]))
  }

  predicate WakesOn(s: State, s1: State, t: nat)
    requires Sized(s) && Sized(s1) && |s.cells| <= |s1.cells|
  {
    forall u {:trigger s.threads[u]} | 0 <= u < |s.threads| && u != t && Stopped(s.threads[u].pc) ::
      var l := s.threads[u].lock; l < |s.cells| && WakesOne(s, s1, l)
  }

  lemma {:induction false} WakeOther(s: State, s1: State, t: nat, l: nat)
    requires Inv(s) && Sized(s1) && Respects(s, s1, t) && GivesUp(s, s1, t) && s1.head == s.head != NULL
    requires InWake(s.threads[t].pc) && s.threads[t].held <= s1.threads[t].held && OwnOK(s, t)
    requires l < |s.cells| && Stage(s, l) == 9 && !s.cells[l].exclusive && WakesOne(s, s1, l) && Attended(s, l)
    ensures Attended(s1, l)
  {
    if !HeadLive(s) {
      HeadStaysDead(s, s1, t);
      if Owes(s, t) {
        OwesStays(s, s1, t);
        UnderwayBy(s1, t);
      }
    }
    AttendedStays(s, s1, t, l);
  }

  lemma {:induction false} WakeTended(s: State, s1: State, t: nat)
    requires Steady(s) && Awake(s1) && Respects(s, s1, t) && InWake(s.threads[t].pc)
    requires WakesOn(s, s1, t) && WalkerOK(s1, t)
    ensures TendsOn(s, s1)
  {
    assert SteadyOK(s, t) && ThreadOK(s, t);
    OwnHeld(s, s1, t);
    forall u | 0 <= u < |s.threads| && u != t && Stopped(s.threads[u].pc)
      ensures var l := s.threads[u].lock;
              l < |s.cells| && (Attended(s, l) && !s.cells[l].exclusive ==> Attended(s1, l))
    {
      Walker(s, u);
      var l := s.threads[u].lock;
      if Attended(s, l) && !s.cells[l].exclusive { WakeOther(s, s1, t, l); }
    }
    TendedKept(s, s1, t);
  }

  lemma {:induction false} WakeHeadTended(s: State, t: nat)
    requires Steady(s) && t < |s.threads| && s.threads[t].pc.WakeHead?
    requires Awake(StepSignal(s, t, WakeMode)) && Respects(s, StepSignal(s, t, WakeMode), t)
    ensures TendsOn(s, StepSignal(s, t, WakeMode))
  {
    var s1 := StepSignal(s, t, WakeMode);
    assert ThreadOK(s, t);
    forall u | 0 <= u < |s.threads| && u != t && Stopped(s.threads[u].pc) ensures s.threads[u].lock < |s.cells| {
      Walker(s, u);
    }
    WakeTended(s, s1, t);
  }

  /** A waiting lock is the head, which has been signalled, or behind it. */
  lemma {:induction false} HeadOrBehind(s: State, t: nat, u: nat)
    requires Steady(s) && t < |s.threads| && s.threads[t].pc.WakeMode? && u < |s.threads| && Stopped(s.threads[u].pc)
    ensures var l := s.threads[u].lock;
      && l < |s.cells| && IsCell(s, s.head) && s.pos[s.head] == s.headPos && s.threads[t].target == s.head
      && (s.cells[l].signal || s.headPos < s.pos[l])
      && (s.cells[s.head].exclusive && HeadLive(s) ==> s.cells[l].signal || !SharedBefore(s, s.pos[l]))
  {
    assert SteadyOK(s, t) && ThreadOK(s, t);
    Walker(s, u);
    PathPlace(s, s.headPos);
    if HeadLive(s) { assert Live(s, s.head); }
  }

  lemma {:induction false} WakeModeTended(s: State, t: nat)
    requires Steady(s) && t < |s.threads| && s.threads[t].pc.WakeMode?
    requires Awake(StepTestMode(s, t, WakeNext)) && Respects(s, StepTestMode(s, t, WakeNext), t)
    ensures TendsOn(s, StepTestMode(s, t, WakeNext))
  {
    var s1 := StepTestMode(s, t, WakeNext);
    assert SteadyOK(s, t) && ThreadOK(s, t);
    PathPlace(s, s.headPos);
    forall u | 0 <= u < |s.threads| && u != t && Stopped(s.threads[u].pc)
      ensures var l := s.threads[u].lock; l < |s.cells| && WakesOne(s, s1, l)
    {
      HeadOrBehind(s, t, u);
    }
    if s1.threads[t].pc.WakeNext? {
      forall m | 0 <= m < |s1.cells| && Live(s1, m) ensures s.headPos <= s1.pos[m] { LivePlace(s1, m); }
    }
    WakeTended(s, s1, t);
  }

  /** A waiting lock behind the wake-up is linked to what the wake-up looks at. */
  lemma {:induction false} NextLinked(s: State, t: nat, u: nat)
    requires Inv(s) && t < |s.threads| && s.threads[t].pc.WakeNext? && u < |s.threads| && Stopped(s.threads[u].pc)
    requires IsCell(s, s.threads[t].target) && s.threads[u].lock < |s.cells|
    requires s.pos[s.threads[t].target] < s.pos[s.threads[u].lock]
    ensures var y := s.cells[s.threads[t].target].next;
            IsCell(s, y) && s.pos[y] == s.pos[s.threads[t].target] + 1
  {
    assert ThreadOK(s, t);
    Walker(s, u);
    var q := s.pos[s.threads[t].target];
    LinkedUpTo(s, u, q);
    PathPlace(s, q + 1);
  }

  /** The wake-up has signalled what it looks at, or that is obsolete. */
  lemma {:induction false} NextSignalled(s: State, t: nat)
    requires Steady(s) && t < |s.threads| && s.threads[t].pc.WakeNext?
    ensures var x := s.threads[t]; IsCell(s, x.target) && s.headPos <= s.pos[x.target] < |s.order|
    ensures SignalledBefore(s, s.pos[s.threads[t].target] + 1)
    ensures var y := s.cells[s.threads[t].target].next;
            y != NULL ==> IsCell(s, y) && s.pos[y] == s.pos[s.threads[t].target] + 1 <= |s.order|
  {
    var x := s.threads[t];
    assert SteadyOK(s, t) && ThreadOK(s, t);
    var q := s.pos[x.target];
    PathPlace(s, q);
    forall m | 0 <= m < |s.cells| && Live(s, m) && s.pos[m] < q + 1 ensures s.cells[m].signal { LivePlace(s, m); }
    if q + 1 < |s.order| { PathPlace(s, q + 1); }
  }

  lemma {:induction false} WakeNextWalker(s: State, t: nat)
    requires Steady(s) && t < |s.threads| && s.threads[t].pc.WakeNext? && Respects(s, StepWakeNext(s, t), t)
    ensures WalkerOK(StepWakeNext(s, t), t)
  {
    NextSignalled(s, t);
    if s.cells[s.threads[t].target].next != NULL {
      SignalledStays(s, StepWakeNext(s, t), s.pos[s.threads[t].target] + 1);
    }
  }

  lemma {:induction false} WakeNextTended(s: State, t: nat)
    requires Steady(s) && t < |s.threads| && s.threads[t].pc.WakeNext?
    requires Awake(StepWakeNext(s, t)) && Respects(s, StepWakeNext(s, t), t)
    ensures TendsOn(s, StepWakeNext(s, t))
  {
    var s1 := StepWakeNext(s, t);
    assert ThreadOK(s, t);
    forall u | 0 <= u < |s.threads| && u != t && Stopped(s.threads[u].pc)
      ensures var l := s.threads[u].lock; l < |s.cells| && WakesOne(s, s1, l)
    {
      Walker(s, u);
      if MoverComes(s, s.pos[s.threads[u].lock]) { NextLinked(s, t, u); }
    }
    WakeNextWalker(s, t);
    WakeTended(s, s1, t);
  }

  lemma {:induction false} WakeTestTended(s: State, t: nat)
    requires Steady(s) && t < |s.threads| && s.threads[t].pc.WakeTest?
    requires Awake(StepWakeTest(s, t)) && Respects(s, StepWakeTest(s, t), t)
    ensures TendsOn(s, StepWakeTest(s, t))
  {
    var s1, x := StepWakeTest(s, t), s.threads[t];
    assert SteadyOK(s, t) && ThreadOK(s, t);
    SignalledStays(s, s1, s.pos[x.target]);
    forall u | 0 <= u < |s.threads| && u != t && Stopped(s.threads[u].pc)
      ensures var l := s.threads[u].lock; l < |s.cells| && WakesOne(s, s1, l)
    {
      Walker(s, u);
      OwnPlace(s, u);
    }
    WakeTended(s, s1, t);
  }

  /** An exclusive lock in use ends the wake-up, and nobody behind it is to be woken. */
  lemma {:induction false} CheckWakesOne(s: State, t: nat, u: nat)
    requires Inv(s) && t < |s.threads| && WalkerOK(s, t) && s.threads[t].pc.WakeCheck?
    requires u < |s.threads| && u != t && Stopped(s.threads[u].pc)
    ensures var l := s.threads[u].lock; l < |s.cells| && WakesOne(s, StepTestMode(s, t, WakeSet), l)
  {
    var x := s.threads[t];
    assert ThreadOK(s, t);
    Walker(s, u);
    OwnPlace(s, u);
    PathPlace(s, s.pos[x.target]);
    if s.cells[x.target].exclusive && !s.cells[x.target].obsolete { assert Live(s, x.target); }
  }

  lemma {:induction false} WakeCheckTended(s: State, t: nat)
    requires Steady(s) && t < |s.threads| && s.threads[t].pc.WakeCheck?
    requires Awake(StepTestMode(s, t, WakeSet)) && Respects(s, StepTestMode(s, t, WakeSet), t)
    ensures TendsOn(s, StepTestMode(s, t, WakeSet))
  {
    var s1, x := StepTestMode(s, t, WakeSet), s.threads[t];
    assert SteadyOK(s, t) && ThreadOK(s, t);
    SignalledStays(s, s1, s.pos[x.target]);
    forall u | 0 <= u < |s.threads| && u != t && Stopped(s.threads[u].pc)
      ensures var l := s.threads[u].lock; l < |s.cells| && WakesOne(s, s1, l)
    {
      CheckWakesOne(s, t, u);
    }
    WakeTended(s, s1, t);
  }

  lemma {:induction false} WakeSetTended(s: State, t: nat)
    requires Steady(s) && t < |s.threads| && s.threads[t].pc.WakeSet?
    requires Awake(StepSignal(s, t, WakeNext)) && Respects(s, StepSignal(s, t, WakeNext), t)
    ensures TendsOn(s, StepSignal(s, t, WakeNext))
  {
    var s1, x := StepSignal(s, t, WakeNext), s.threads[t];
    assert SteadyOK(s, t) && ThreadOK(s, t);
    SignalledStays(s, s1, s.pos[x.target]);
    forall u | 0 <= u < |s.threads| && u != t && Stopped(s.threads[u].pc)
      ensures var l := s.threads[u].lock; l < |s.cells| && WakesOne(s, s1, l)
    {
      Walker(s, u);
      PathPlace(s, s.pos[s.threads[u].lock]);
    }
    WakeTended(s, s1, t);
  }

  // ---------------------------------------------------------------- every step, every run

  lemma {:induction false} ScanTended(s: State, t: nat)
    requires Steady(s) && t < |s.threads|
    requires s.threads[t].pc.ScanMode? || s.threads[t].pc.AgainState? || s.threads[t].pc.AgainId?
    requires Awake(StepOf(s, t)) && Respects(s, StepOf(s, t), t)
    ensures TendsOn(s, StepOf(s, t))
  {
    assert Sized(s) && Sized(StepOf(s, t));
    CheckSteps(s, t);
    hide Steady, Awake, Respects, TendsOn, StepOf;
    if s.threads[t].pc.ScanMode? {
      ScanModeTended(s, t);
    } else if s.threads[t].pc.AgainState? {
      AgainStateTended(s, t);
    } else {
      AgainIdTended(s, t);
    }
  }

  lemma {:induction false} WaitTended(s: State, t: nat)
    requires Steady(s) && t < |s.threads|
    requires s.threads[t].pc.Blocked? || s.threads[t].pc.Waiting? || s.threads[t].pc.FirstHead?
    requires Awake(StepOf(s, t)) && Respects(s, StepOf(s, t), t)
    ensures TendsOn(s, StepOf(s, t))
  {
    assert Sized(s) && Sized(StepOf(s, t));
    CheckSteps(s, t);
    hide Steady, Awake, Respects, TendsOn, StepOf;
    if s.threads[t].pc.Blocked? {
      BlockedTended(s, t);
    } else if s.threads[t].pc.Waiting? {
      WaitingTended(s, t);
    } else {
      FirstHeadTended(s, t);
    }
  }

  lemma {:induction false} HeadTended(s: State, t: nat)
    requires Steady(s) && t < |s.threads|
    requires s.threads[t].pc.Test? || s.threads[t].pc.Follow? || s.threads[t].pc.SetHead?
    requires Awake(StepOf(s, t)) && Respects(s, StepOf(s, t), t)
    ensures TendsOn(s, StepOf(s, t))
  {
    assert Sized(s) && Sized(StepOf(s, t));
    HeadSteps(s, t);
    hide Steady, Awake, Respects, TendsOn, StepOf;
    if s.threads[t].pc.Test? {
      TestTended(s, t);
    } else if s.threads[t].pc.Follow? {
      FollowTended(s, t);
    } else {
      SetHeadTended(s, t);
    }
  }

  lemma {:induction false} PassTended(s: State, t: nat)
    requires Steady(s) && t < |s.threads|
    requires s.threads[t].pc.SetPass? || s.threads[t].pc.Again? || s.threads[t].pc.WakeHead?
    requires Awake(StepOf(s, t)) && Respects(s, StepOf(s, t), t)
    ensures TendsOn(s, StepOf(s, t))
  {
    assert Sized(s) && Sized(StepOf(s, t));
    HeadSteps(s, t);
    hide Steady, Awake, Respects, TendsOn, StepOf;
    if s.threads[t].pc.SetPass? {
      SetPassTended(s, t);
    } else if s.threads[t].pc.Again? {
      AgainTended(s, t);
    } else {
      WakeHeadTended(s, t);
    }
  }

  lemma {:induction false} LookTended(s: State, t: nat)
    requires Steady(s) && t < |s.threads|
    requires s.threads[t].pc.WakeMode? || s.threads[t].pc.WakeNext?
    requires Awake(StepOf(s, t)) && Respects(s, StepOf(s, t), t)
    ensures TendsOn(s, StepOf(s, t))
  {
    assert Sized(s) && Sized(StepOf(s, t));
    WakeSteps(s, t);
    hide Steady, Awake, Respects, TendsOn, StepOf;
    if s.threads[t].pc.WakeMode? {
      WakeModeTended(s, t);
    } else {
      WakeNextTended(s, t);
    }
  }

  lemma {:induction false} SetTended(s: State, t: nat)
    requires Steady(s) && t < |s.threads|
    requires s.threads[t].pc.WakeTest? || s.threads[t].pc.WakeCheck? || s.threads[t].pc.WakeSet?
    requires Awake(StepOf(s, t)) && Respects(s, StepOf(s, t), t)
    ensures TendsOn(s, StepOf(s, t))
  {
    assert Sized(s) && Sized(StepOf(s, t));
    WakeSteps(s, t);
    hide Steady, Awake, Respects, TendsOn, StepOf;
    if s.threads[t].pc.WakeTest? {
      WakeTestTended(s, t);
    } else if s.threads[t].pc.WakeCheck? {
      WakeCheckTended(s, t);
    } else {
      WakeSetTended(s, t);
    }
  }

  lemma {:induction false} StepTended(s: State, t: nat)
    requires Steady(s) && t < |s.threads|
    ensures TendsOn(s, StepOf(s, t))
  {
    assert Sized(s);
    hide Sound, Inv, Respects;
    var pc := s.threads[t].pc;
    StepInv(s, t);
    StepAwake(s, t);
    if Ordinary(pc) {
      OrdinaryTended(s, StepOf(s, t), t);
    } else if pc.ScanMode? || pc.AgainState? || pc.AgainId? {
      ScanTended(s, t);
    } else if pc.Blocked? || pc.Waiting? || pc.FirstHead? {
      WaitTended(s, t);
    } else if pc.Test? || pc.Follow? || pc.SetHead? {
      HeadTended(s, t);
    } else if AtNewHead(pc) {
      PassTended(s, t);
    } else if pc.WakeMode? || pc.WakeNext? {
      LookTended(s, t);
    } else if InWake(pc) {
      SetTended(s, t);
    }
  }

}
