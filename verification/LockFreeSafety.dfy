/** Every step of the lock-free list keeps its invariant. */
module LockFreeSafety {
  import opened LockFreeFrame
  import opened LockFreeInvariant
  import opened LockFreeList
  import opened LockFreeQuiet
  import opened LockFreeWrites

  // ---------------------------------------------------------------- taking a lock

  lemma {:induction false} NewStages(s: State, t: nat, exclusive: bool)
    requires Sized(s) && t < |s.threads| && s.threads[t].pc.Idle?
    ensures var s1 := Begin(s, t, |s.cells|, exclusive);
      && Sized(s1) && |s1.cells| == |s.cells| + 1
      && (forall m {:trigger Stage(s1, m)} | 0 <= m < |s.cells| :: Stage(s1, m) == Stage(s, m))
      && Stage(s1, |s.cells|) == 5
  {
  }

  lemma {:induction false} NewPlaces(s: State, t: nat, exclusive: bool)
    requires Sized(s) && Frame(s) && t < |s.threads| && s.threads[t].pc.Idle?
    ensures var s1 := Begin(s, t, |s.cells|, exclusive);
      && (forall i {:trigger Current(s1, i)} :: Current(s1, i) <==> Current(s, i))
      && (forall i {:trigger Linked(s1, i)} :: Linked(s1, i) <==> Linked(s, i))
      && (forall i {:trigger Passed(s1, i)} :: Passed(s1, i) <==> Passed(s, i))
  {
    NewStages(s, t, exclusive);
    assert forall i | 0 <= i < |s.order| :: s.order[i] < |s.cells|;
  }

  lemma {:induction false} NewCells(s: State, t: nat, exclusive: bool)
    requires Inv(s) && t < |s.threads| && s.threads[t].pc.Idle?
    ensures var s1 := Begin(s, t, |s.cells|, exclusive); Sized(s1) && CellsOK(s1)
  {
    var s1 := Begin(s, t, |s.cells|, exclusive);
    NewStages(s, t, exclusive);
    NewPlaces(s, t, exclusive);
    assert s1.order[..|s.order|] == s.order;
    forall m | 0 <= m < |s1.cells| ensures CellOK(s1, m) {
      if m < |s.cells| {
        assert CellOK(s, m);
        CellKept(s, s1, m);
      }
    }
  }

  lemma {:induction false} NewRespects(s: State, t: nat, exclusive: bool)
    requires Sized(s) && t < |s.threads| && s.threads[t].pc.Idle?
    ensures var s1 := Begin(s, t, |s.cells|, exclusive); Sized(s1) && Respects(s, s1, t)
  {
    var s1 := Begin(s, t, |s.cells|, exclusive);
    NewStages(s, t, exclusive);
    assert s1.order[..|s.order|] == s.order;
  }

  lemma {:induction false} NewThread(s: State, t: nat, exclusive: bool)
    requires Sized(s) && t < |s.threads| && s.threads[t].pc.Idle? && OwnOK(s, t)
    ensures var s1 := Begin(s, t, |s.cells|, exclusive); Sized(s1) && ThreadOK(s1, t)
  {
  }

  lemma {:induction false} NewInv(s: State, t: nat, exclusive: bool)
    requires Inv(s) && t < |s.threads| && s.threads[t].pc.Idle?
    ensures var s1 := Begin(s, t, |s.cells|, exclusive); Inv(s1) && Respects(s, s1, t)
  {
    var s1 := Begin(s, t, |s.cells|, exclusive);
    NewRespects(s, t, exclusive);
    NewCells(s, t, exclusive);
    NewPlaces(s, t, exclusive);
    assert ThreadOK(s, t);
    NewThread(s, t, exclusive);
    assert Frame(s1);
    StepKeeps(s, s1, t);
  }

  lemma {:induction false} ReuseStages(s: State, t: nat, l: nat, exclusive: bool)
    requires Sized(s) && t < |s.threads| && s.threads[t].pc.Idle? && Recyclable(s, t, l)
    ensures var s1 := Begin(s, t, l, exclusive);
      && (forall m {:trigger Stage(s1, m)} | 0 <= m < |s.cells| :: Stage(s1, m) == if m == l then 0 else Stage(s, m))
      && (forall i {:trigger Current(s1, i)} :: Current(s1, i) <==> Current(s, i))
      && Stage(s, l) == 10
  {
  }

  lemma {:induction false} ReusePlaces(s: State, t: nat, l: nat, exclusive: bool)
    requires Sized(s) && t < |s.threads| && s.threads[t].pc.Idle? && Recyclable(s, t, l)
    ensures var s1 := Begin(s, t, l, exclusive);
      && (forall i {:trigger Linked(s1, i)} :: Linked(s1, i) <==> Linked(s, i))
      && (forall i {:trigger Passed(s1, i)} :: Passed(s1, i) <==> Passed(s, i))
  {
    ReuseStages(s, t, l, exclusive);
  }

  /** The three conditions are those under which the resets may begin. */
  lemma {:induction false} ReuseFits(c: Cell, p: int, next: int, passed: bool, headPos: nat, numbered: nat)
    requires Fits(c, p, 10, next, passed, headPos, numbered) && c.obsolete && c.idPass && c.headPass
    ensures Fits(c, p, 0, next, passed, headPos, numbered)
  {
  }

  lemma {:induction false} ReuseCells(s: State, t: nat, l: nat, exclusive: bool)
    requires Inv(s) && t < |s.threads| && s.threads[t].pc.Idle? && Recyclable(s, t, l)
    ensures CellsOK(Begin(s, t, l, exclusive))
  {
    var s1 := Begin(s, t, l, exclusive);
    ReuseStages(s, t, l, exclusive);
    ReusePlaces(s, t, l, exclusive);
    assert s1.order[..|s.order|] == s.order;
    forall m | 0 <= m < |s1.cells| ensures CellOK(s1, m) {
      assert CellOK(s, m);
      var p := s.pos[m];
      if m == l {
        ReuseFits(s.cells[l], p, NextOf(s, p), Passed(s, p + 1), s.headPos, s.numbered);
      } else {
        CellKept(s, s1, m);
      }
    }
  }

  lemma {:induction false} ReuseRespects(s: State, t: nat, l: nat, exclusive: bool)
    requires Sized(s) && t < |s.threads| && s.threads[t].pc.Idle? && Recyclable(s, t, l)
    ensures Respects(s, Begin(s, t, l, exclusive), t)
  {
    var s1 := Begin(s, t, l, exclusive);
    ReuseStages(s, t, l, exclusive);
    assert s1.order[..|s.order|] == s.order;
  }

  /** A lock that its owner takes again is off the path and no predecessor of a lock being inserted. */
  lemma {:induction false} ReuseInv(s: State, t: nat, l: nat, exclusive: bool)
    requires Inv(s) && t < |s.threads| && s.threads[t].pc.Idle? && Recyclable(s, t, l)
    ensures Inv(Begin(s, t, l, exclusive)) && Respects(s, Begin(s, t, l, exclusive), t)
  {
    var s1 := Begin(s, t, l, exclusive);
    ReuseRespects(s, t, l, exclusive);
    ReuseCells(s, t, l, exclusive);
    ReuseStages(s, t, l, exclusive);
    assert ThreadOK(s, t);
    assert Frame(s1);
    assert ThreadOK(s1, t);
    StepKeeps(s, s1, t);
  }

  // ---------------------------------------------------------------- the tail exchange

  lemma {:induction false} ExchangeStages(s: State, t: nat)
    requires Inv(s) && t < |s.threads| && s.threads[t].pc.Exchange? && StepExchange(s, t) != s
    ensures var s1, own := StepExchange(s, t), s.threads[t].lock;
      && Sized(s1) && own < |s.cells| == |s1.cells| && s.cells[own].owner == t && Stage(s, own) == 5
      && s.pos[own] < s.headPos && s1.order[..|s.order|] == s.order
      && Stage(s1, own) == (if s.tail == NULL then 7 else 6)
      && (forall m {:trigger Stage(s1, m)} | 0 <= m < |s.cells| && m != own :: Stage(s1, m) == Stage(s, m))
  {
    assert ThreadOK(s, t) && CellOK(s, s.threads[t].lock);
  }

  /** The new place is current and unlinked; older places are as they were, except that the lock's
      former place is no longer current. */
  lemma {:induction false} ExchangePlaces(s: State, t: nat)
    requires Inv(s) && t < |s.threads| && s.threads[t].pc.Exchange? && StepExchange(s, t) != s
    ensures var s1, own, n := StepExchange(s, t), s.threads[t].lock, |s.order|;
      && Current(s1, n) && s1.order[n] == own && !Passed(s1, n) && !Linked(s1, n + 1) && !Passed(s1, n + 1)
      && (s.order != [] ==> !Linked(s1, n))
      && (forall i {:trigger Current(s1, i)} | 0 <= i < n && s.order[i] != own :: Current(s1, i) <==> Current(s, i))
  {
    ExchangeStages(s, t);
  }

  lemma {:induction false} ExchangeLinks(s: State, t: nat)
    requires Inv(s) && t < |s.threads| && s.threads[t].pc.Exchange? && StepExchange(s, t) != s
    ensures var s1, n := StepExchange(s, t), |s.order|;
      && (forall i {:trigger Linked(s1, i)} | 0 <= i < n :: Linked(s1, i) <==> Linked(s, i))
      && (forall i {:trigger Passed(s1, i)} | 0 <= i < n :: Passed(s1, i) <==> Passed(s, i))
  {
    var s1, own := StepExchange(s, t), s.threads[t].lock;
    ExchangeStages(s, t);
    ExchangePlaces(s, t);
    forall i | 0 <= i < |s.order| ensures (Linked(s1, i) <==> Linked(s, i)) && (Passed(s1, i) <==> Passed(s, i)) {
      if s.order[i] == own { assert !Current(s1, i); }
    }
  }

  lemma {:induction false} ExchangeFrame(s: State, t: nat)
    requires Inv(s) && t < |s.threads| && s.threads[t].pc.Exchange? && StepExchange(s, t) != s
    ensures Frame(StepExchange(s, t))
  {
    var s1 := StepExchange(s, t);
    ExchangeStages(s, t);
    ExchangePlaces(s, t);
    forall i | s1.headPos <= i < |s1.order| ensures Current(s1, i) {
      if i < |s.order| { assert Current(s, i); }
    }
  }

  /** The exchanged lock is at the last place. */
  lemma {:induction false} ExchangeOwn(s: State, t: nat)
    requires Inv(s) && t < |s.threads| && s.threads[t].pc.Exchange? && StepExchange(s, t) != s
    ensures var s1, own := StepExchange(s, t), s.threads[t].lock;
            Sized(s1) && own < |s1.cells| && CellOK(s1, own)
  {
    assert CellOK(s, s.threads[t].lock);
    ExchangeStages(s, t);
    ExchangePlaces(s, t);
  }

  lemma {:induction false} ExchangeCells(s: State, t: nat)
    requires Inv(s) && t < |s.threads| && s.threads[t].pc.Exchange? && StepExchange(s, t) != s
    ensures Sized(StepExchange(s, t)) && CellsOK(StepExchange(s, t))
  {
    var s1, n := StepExchange(s, t), |s.order|;
    ExchangeStages(s, t);
    ExchangePlaces(s, t);
    ExchangeLinks(s, t);
    ExchangeOwn(s, t);
    forall m | 0 <= m < |s1.cells| ensures CellOK(s1, m) {
      assert CellOK(s, m);
      if m != s.threads[t].lock {
        assert !Linked(s, n) && !Passed(s, n);
        CellKept(s, s1, m);
      }
    }
  }

  lemma {:induction false} ExchangeRespects(s: State, t: nat)
    requires Inv(s) && t < |s.threads| && s.threads[t].pc.Exchange? && StepExchange(s, t) != s
    ensures Sized(StepExchange(s, t)) && Respects(s, StepExchange(s, t), t)
  {
    ExchangeStages(s, t);
  }

  /** The lock at the former last place is the predecessor. */
  lemma {:induction false} ExchangeTo(s: State, t: nat)
    requires Sized(s) && Frame(s) && t < |s.threads| && s.threads[t].pc.Exchange? && OwnOK(s, t)
    requires var s1, own, n := StepExchange(s, t), s.threads[t].lock, |s.order|;
      && s1 != s && own < |s.cells| && s.headPos <= n && Sized(s1) && s1.order[..n] == s.order
      && s1.pos[own] == n && (n > 0 ==> Current(s1, n - 1)) && (n == 0 ==> s.head == NULL)
    ensures ThreadOK(StepExchange(s, t), t)
  {
    var s1, n := StepExchange(s, t), |s.order|;
    if n > 0 { assert s1.order[..n][n - 1] == s1.order[n - 1]; }
  }

  lemma {:induction false} ExchangeThread(s: State, t: nat)
    requires Inv(s) && t < |s.threads| && s.threads[t].pc.Exchange? && StepExchange(s, t) != s
    ensures Sized(StepExchange(s, t)) && ThreadOK(StepExchange(s, t), t)
  {
    var s1, n := StepExchange(s, t), |s.order|;
    assert ThreadOK(s, t);
    ExchangeStages(s, t);
    ExchangeFrame(s, t);
    if n > 0 && s.headPos < n { assert Current(s1, n - 1); }
    ExchangeTo(s, t);
  }

  lemma {:induction false} NothingRespects(s: State, t: nat)
    requires Sized(s) && t < |s.threads|
    ensures Respects(s, s, t)
  {
    assert s.order[..|s.order|] == s.order;
  }

  lemma {:induction false} ExchangeInv(s: State, t: nat)
    requires Inv(s) && t < |s.threads| && s.threads[t].pc.Exchange?
    ensures Inv(StepExchange(s, t)) && Respects(s, StepExchange(s, t), t)
  {
    if StepExchange(s, t) != s {
      ExchangeRespects(s, t);
      ExchangeFrame(s, t);
      ExchangeCells(s, t);
      ExchangeThread(s, t);
      StepKeeps(s, StepExchange(s, t), t);
    } else {
      NothingRespects(s, t);
    }
  }

  // ---------------------------------------------------------------- the head

  lemma {:induction false} SetHeadStages(s: State, t: nat)
    requires Sized(s) && t < |s.threads| && s.threads[t].pc.SetHead?
    ensures var s1 := StepSetHead(s, t);
      && (forall m {:trigger Stage(s1, m)} | 0 <= m < |s.cells| :: Stage(s1, m) == Stage(s, m))
      && (forall i {:trigger Current(s1, i)} :: Current(s1, i) <==> Current(s, i))
  {
  }

  /** The head moves past place p only if the lock there is obsolete. */
  lemma {:induction false} PassedFits(c: Cell, p: int, g: nat, next: int, passed: bool, headPos: nat, numbered: nat)
    requires Fits(c, p, g, next, passed, headPos, numbered) && (p == headPos ==> g >= 6 && c.obsolete)
    ensures Fits(c, p, g, next, passed, headPos + 1, numbered)
  {
  }

  lemma {:induction false} SetHeadCell(s: State, t: nat, m: nat)
    requires Sized(s) && t < |s.threads| && s.threads[t].pc.SetHead? && m < |s.cells| && CellOK(s, m)
    requires s.pos[m] == s.headPos ==> Stage(s, m) >= 6 && s.cells[m].obsolete
    ensures CellOK(StepSetHead(s, t), m)
  {
    var s1, p := StepSetHead(s, t), s.pos[m];
    SetHeadStages(s, t);
    assert NextOf(s1, p) == NextOf(s, p) && Passed(s1, p + 1) == Passed(s, p + 1);
    PassedFits(s.cells[m], p, Stage(s, m), NextOf(s, p), Passed(s, p + 1), s.headPos, s.numbered);
  }

  lemma {:induction false} SetHeadCells(s: State, t: nat)
    requires Inv(s) && t < |s.threads| && s.threads[t].pc.SetHead?
    ensures CellsOK(StepSetHead(s, t))
  {
    assert ThreadOK(s, t);
    PathPlace(s, s.headPos);
    forall m | 0 <= m < |s.cells| ensures CellOK(StepSetHead(s, t), m) {
      assert CellOK(s, m);
      SetHeadCell(s, t, m);
    }
  }

  lemma {:induction false} SetHeadRespects(s: State, t: nat)
    requires Inv(s) && t < |s.threads| && s.threads[t].pc.SetHead?
    ensures Respects(s, StepSetHead(s, t), t)
  {
    SetHeadStages(s, t);
    assert ThreadOK(s, t);
    assert StepSetHead(s, t).order[..|s.order|] == s.order;
  }

  lemma {:induction false} SetHeadFrame(s: State, t: nat)
    requires Sized(s) && Frame(s) && t < |s.threads| && s.threads[t].pc.SetHead? && MoveOK(s, t)
    ensures Frame(StepSetHead(s, t))
  {
    SetHeadStages(s, t);
  }

  lemma {:induction false} SetHeadTo(s: State, t: nat)
    requires Sized(s) && Frame(s) && t < |s.threads| && s.threads[t].pc.SetHead? && OwnOK(s, t) && MoveOK(s, t)
    requires Current(s, s.headPos) && s.order[s.headPos] == s.head && !s.cells[s.head].headPass
    requires Stage(s, s.head) == 10
    ensures ThreadOK(StepSetHead(s, t), t)
  {
    SetHeadStages(s, t);
  }

  lemma {:induction false} SetHeadThread(s: State, t: nat)
    requires Inv(s) && t < |s.threads| && s.threads[t].pc.SetHead?
    ensures ThreadOK(StepSetHead(s, t), t)
  {
    PathPlace(s, s.headPos);
    assert ThreadOK(s, t);
    SetHeadTo(s, t);
  }

  lemma {:induction false} SetHeadInv(s: State, t: nat)
    requires Inv(s) && t < |s.threads| && s.threads[t].pc.SetHead?
    ensures Inv(StepSetHead(s, t)) && Respects(s, StepSetHead(s, t), t)
  {
    SetHeadRespects(s, t);
    SetHeadCells(s, t);
    SetHeadThread(s, t);
    assert ThreadOK(s, t);
    SetHeadFrame(s, t);
    StepKeeps(s, StepSetHead(s, t), t);
  }

  // ---------------------------------------------------------------- every step, every run

  lemma {:induction false} TakeStepInv(s: State, t: nat)
    requires Inv(s) && t < |s.threads| && StageOf(s.threads[t].pc) <= 5
    ensures Inv(StepOf(s, t)) && Respects(s, StepOf(s, t), t)
  {
    assert Sized(s);
    hide Inv, Respects;
    match s.threads[t].pc
    case Reset(k) => ResetInv(s, t, k);
    case Exchange => ExchangeInv(s, t);
  }

  lemma {:induction false} InsertStepInv(s: State, t: nat)
    requires Inv(s) && t < |s.threads|
    requires s.threads[t].pc.Link? || s.threads[t].pc.WriteId? || s.threads[t].pc.PassId?
    ensures Inv(StepOf(s, t)) && Respects(s, StepOf(s, t), t)
  {
    assert Sized(s) && Sized(StepOf(s, t));
    InsertSteps(s, t);
    hide Inv, Respects, StepOf;
    match s.threads[t].pc
    case Link => LinkInv(s, t);
    case WriteId => WriteIdInv(s, t);
    case PassId => PassIdInv(s, t);
  }

  lemma {:induction false} WaitStepInv(s: State, t: nat)
    requires Inv(s) && t < |s.threads|
    requires s.threads[t].pc.WaitId? || s.threads[t].pc.WaitHead? || s.threads[t].pc.ReadId?
    ensures Inv(StepOf(s, t)) && Respects(s, StepOf(s, t), t)
  {
    assert Sized(s);
    hide Inv, Respects;
    match s.threads[t].pc
    case WaitId => WaitIdInv(s, t);
    case WaitHead => WaitHeadInv(s, t);
    case ReadId => ReadIdInv(s, t);
  }

  lemma {:induction false} FirstStepInv(s: State, t: nat)
    requires Inv(s) && t < |s.threads| && IsFirst(s.threads[t].pc)
    ensures Inv(StepOf(s, t)) && Respects(s, StepOf(s, t), t)
  {
    assert Sized(s);
    hide Inv, Respects;
    match s.threads[t].pc
    case FirstId => FirstIdInv(s, t);
    case FirstHead => FirstHeadInv(s, t);
  }

  lemma {:induction false} WaitingInv(s: State, t: nat)
    requires Inv(s) && t < |s.threads| && s.threads[t].pc.Waiting?
    ensures Inv(StepWaiting(s, t)) && Respects(s, StepWaiting(s, t), t)
  {
    Walker(s, t);
    if s.cells[s.threads[t].lock].signal { GrantInv(s, t); } else { NothingRespects(s, t); }
  }

  lemma {:induction false} CheckStepInv(s: State, t: nat)
    requires Inv(s) && t < |s.threads| && StageOf(s.threads[t].pc) == 9
    ensures Inv(StepOf(s, t)) && Respects(s, StepOf(s, t), t)
  {
    assert Sized(s);
    CheckSteps(s, t);
    hide Inv, Respects;
    match s.threads[t].pc
    case ReadHead => ReadHeadInv(s, t);
    case CheckId => CheckIdInv(s, t);
    case ReadNext => ReadNextInv(s, t);
    case ScanState => if s.threads[t].todo == 0 { GrantInv(s, t); } else { ScanStateInv(s, t); }
    case ScanId => TestIdInv(s, t, ScanMode);
    case ScanMode => ScanModeInv(s, t);
    case AgainState => AgainStateInv(s, t);
    case AgainId => TestIdInv(s, t, PC.Blocked);
    case Blocked => BlockedInv(s, t);
    case Waiting => WaitingInv(s, t);
  }

  lemma {:induction false} MoveStepInv(s: State, t: nat)
    requires Inv(s) && t < |s.threads| && StageOf(s.threads[t].pc) == 10
    ensures Inv(StepOf(s, t)) && Respects(s, StepOf(s, t), t)
  {
    assert Sized(s);
    hide Inv, Respects;
    match s.threads[t].pc
    case Enter => EnterInv(s, t);
    case Top => TopInv(s, t);
    case Test => TestInv(s, t);
    case Follow => FollowInv(s, t);
    case SetHead => SetHeadInv(s, t);
    case SetPass => SetPassInv(s, t);
    case Again => AgainInv(s, t);
    case WakeHead => SignalInv(s, t, WakeMode);
    case WakeMode => TestModeInv(s, t, WakeNext);
    case WakeNext => WakeNextInv(s, t);
    case WakeTest => WakeTestInv(s, t);
    case WakeCheck => TestModeInv(s, t, WakeSet);
    case WakeSet => SignalInv(s, t, WakeNext);
    case _ => NothingRespects(s, t);
  }

  lemma {:induction false} StepInv(s: State, t: nat)
    requires Inv(s) && t < |s.threads|
    ensures Inv(StepOf(s, t)) && Respects(s, StepOf(s, t), t)
  {
    assert Sized(s);
    hide Inv, Respects;
    if StageOf(s.threads[t].pc) <= 5 {
      TakeStepInv(s, t);
    } else if s.threads[t].pc.Link? || s.threads[t].pc.WriteId? || s.threads[t].pc.PassId? {
      InsertStepInv(s, t);
    } else if HasPrev(s.threads[t].pc) {
      WaitStepInv(s, t);
    } else if IsFirst(s.threads[t].pc) {
      FirstStepInv(s, t);
    } else if StageOf(s.threads[t].pc) == 9 {
      CheckStepInv(s, t);
    } else {
      MoveStepInv(s, t);
    }
  }

  lemma {:induction false} DoInv(s: State, t: nat, a: Action)
    requires Inv(s)
    ensures Inv(Do(s, t, a)) && (t < |s.threads| ==> Respects(s, Do(s, t, a), t))
  {
    assert Sized(s);
    hide Inv, Respects;
    if t < |s.threads| {
      var x := s.threads[t];
      NothingRespects(s, t);
      match a
      case Acquire(l, exclusive) =>
        if x.pc.Idle? && Recyclable(s, t, l) {
          ReuseInv(s, t, l, exclusive);
        } else if x.pc.Idle? && l == |s.cells| {
          NewInv(s, t, exclusive);
        }
      case Release(l) =>
        if x.pc.Idle? && l in x.held && l < |s.cells| { ReleaseInv(s, t, l); }
      case Victim =>
        if x.pc.Blocked? && x.lock < |s.cells| { VictimInv(s, t); }
      case Step => StepInv(s, t);
    }
  }

  lemma {:induction false} InitInv(n: nat)
    ensures Inv(Init(n))
  {
    assert forall t | 0 <= t < n :: ThreadOK(Init(n), t);
  }

  lemma {:induction false} RunInv(n: nat, sched: seq<(nat, Action)>)
    ensures Inv(Exec(n, sched))
  {
    if sched == [] {
      InitInv(n);
    } else {
      RunInv(n, sched[..|sched| - 1]);
      var (t, a) := sched[|sched| - 1];
      DoInv(Exec(n, sched[..|sched| - 1]), t, a);
    }
  }
}
