/** A lock that waits without having been signalled has a live lock ahead of it, or a release is on its way. */
module LockFreeWakeups {
  import opened LockFreeFrame
  import opened LockFreeGrants
  import opened LockFreeInvariant
  import opened LockFreeList
  import opened LockFreeQuiet
  import opened LockFreeSafety

  // ---------------------------------------------------------------- the invariant

  predicate LiveAhead(s: State, l: nat)
    requires l < |s.cells| == |s.pos|
  {
    exists m {:trigger Live(s, m)} :: 0 <= m < |s.cells| && Live(s, m) && s.pos[m] < s.pos[l]
  }

  /** A transaction that has a lock to release which is no longer in use: it was a victim, and aborts. */
  predicate Owes(s: State, u: nat)
    requires u < |s.threads|
  {
    exists m {:trigger m in s.threads[u].held} :: m in s.threads[u].held && m < |s.cells| && s.cells[m].obsolete
  }

  /** Thread u is going to move the head as far as it goes, or is about to signal l. */
  predicate Helps(s: State, u: nat, l: nat)
    requires u < |s.threads|
  {
    var x := s.threads[u];
    Releasing(x.pc) || Owes(s, u) || (x.pc.WakeHead? && x.target == l)
  }

  predicate Coming(s: State, l: nat)
  {
    exists u {:trigger Helps(s, u, l)} :: 0 <= u < |s.threads| && Helps(s, u, l)
  }

  predicate Hope(s: State, l: nat)
    requires l < |s.cells| == |s.pos|
  {
    s.cells[l].signal || LiveAhead(s, l) || Coming(s, l)
  }

  predicate WaitOK(s: State, t: nat)
    requires t < |s.threads| && |s.cells| == |s.pos|
  {
    var x := s.threads[t];
    Stopped(x.pc) ==>
      && x.lock < |s.cells| && s.pos[x.lock] > 0
      && (Hope(s, x.lock) || (x.pc.AgainId? && IsCell(s, x.target) && Lost(s, x.target, s.pos[x.lock])))
  }

  predicate AtNewHead(pc: PC)
  {
    pc.SetPass? || pc.Again? || pc.WakeHead?
  }

  /** A head in use has been signalled, unless it is the first of all or the release that moved the head
      there has yet to signal it. */
  predicate HeadOK(s: State)
  {
    || s.head == NULL || s.headPos == 0
    || (IsCell(s, s.head) && (s.cells[s.head].obsolete || s.cells[s.head].signal))
    || (0 <= s.mutex < |s.threads| && AtNewHead(s.threads[s.mutex].pc))
  }

  predicate Awake(s: State)
  {
    Sound(s) && HeadOK(s) && forall t {:trigger WaitOK(s, t)} | 0 <= t < |s.threads| :: WaitOK(s, t)
  }

  // ---------------------------------------------------------------- what a step leaves of it

  lemma {:induction false} OwesStays(s: State, s1: State, u: nat)
    requires Sized(s) && Sized(s1) && Grows(s, s1) && u < |s.threads| == |s1.threads| && OwnOK(s, u)
    requires Owes(s, u) && s.threads[u].held <= s1.threads[u].held
    ensures Owes(s1, u)
  {
    var m :| m in s.threads[u].held && m < |s.cells| && s.cells[m].obsolete;
    assert CellGrows(s, s1, m);
    assert Stage(s, m) == 10;
    assert m in s1.threads[u].held;
  }

  /** t has made no lock obsolete, or is now on its way to release. */
  predicate MakesGood(s: State, s1: State, t: nat)
    requires |s.cells| <= |s1.cells| && t < |s1.threads|
  {
    Releasing(s1.threads[t].pc) || Owes(s1, t)
    || forall l {:trigger s1.cells[l]} | 0 <= l < |s.cells| && s1.cells[l].obsolete :: s.cells[l].obsolete
  }

  lemma {:induction false} LiveAheadStays(s: State, s1: State, t: nat, l: nat)
    requires Inv(s) && Sized(s1) && Respects(s, s1, t) && MakesGood(s, s1, t)
    requires l < |s.cells| && Stage(s, l) >= 6 && LiveAhead(s, l)
    ensures LiveAhead(s1, l) || Coming(s1, l)
  {
    var m :| 0 <= m < |s.cells| && Live(s, m) && s.pos[m] < s.pos[l];
    assert CellGrows(s, s1, l) && CellGrows(s, s1, m);
    if s1.cells[m].obsolete { assert Helps(s1, t, l); } else { assert Live(s1, m); }
  }

  /** Whatever t still helps after its step; `l` may lose t's help if it then has another hope. */
  predicate HandsOver(s: State, s1: State, t: nat, l: nat)
    requires t < |s.threads| && t < |s1.threads| && l < |s1.cells| == |s1.pos|
  {
    Helps(s, t, l) ==> Helps(s1, t, l) || Hope(s1, l)
  }

  lemma {:induction false} HopeStays(s: State, s1: State, t: nat, l: nat)
    requires Inv(s) && Sized(s1) && Respects(s, s1, t) && MakesGood(s, s1, t)
    requires l < |s.cells| && Stage(s, l) >= 6 && Hope(s, l) && HandsOver(s, s1, t, l)
    ensures Hope(s1, l)
  {
    assert CellGrows(s, s1, l);
    if LiveAhead(s, l) {
      LiveAheadStays(s, s1, t, l);
    } else if Coming(s, l) {
      var u :| 0 <= u < |s.threads| && Helps(s, u, l);
      if u != t {
        assert s1.threads[u] == s.threads[u] && ThreadOK(s, u);
        if Owes(s, u) { OwesStays(s, s1, u); }
      }
      assert Helps(s1, u, l) || Hope(s1, l);
    }
  }

  lemma {:induction false} WaitStays(s: State, s1: State, t: nat, u: nat)
    requires Inv(s) && Sized(s1) && Respects(s, s1, t) && MakesGood(s, s1, t)
    requires u < |s.threads| && WaitOK(s, u) && Stopped(s.threads[u].pc) && s1.threads[u] == s.threads[u]
    requires HandsOver(s, s1, t, s.threads[u].lock)
    ensures WaitOK(s1, u)
  {
    var x := s.threads[u];
    Walker(s, u);
    assert CellGrows(s, s1, x.lock);
    if Hope(s, x.lock) {
      HopeStays(s, s1, t, x.lock);
    } else {
      LostStays(s, s1, x.target, s.pos[x.lock]);
    }
  }

  lemma {:induction false} HeadStays(s: State, s1: State, t: nat)
    requires Inv(s) && Sized(s1) && Respects(s, s1, t) && HeadOK(s) && s1.head == s.head && s1.headPos == s.headPos
    requires s.mutex == t && AtNewHead(s.threads[t].pc) ==>
               (s1.mutex == t && AtNewHead(s1.threads[t].pc))
               || (IsCell(s1, s.head) && (s1.cells[s.head].obsolete || s1.cells[s.head].signal))
    ensures HeadOK(s1)
  {
    if s.head != NULL {
      PathPlace(s, s.headPos);
      assert CellGrows(s, s1, s.head);
      if 0 <= s.mutex < |s.threads| && s.mutex != t { assert s1.threads[s.mutex] == s.threads[s.mutex]; }
    }
  }

  /** What remains to be shown of a step. */
  lemma {:induction false} AwakeKept(s: State, s1: State, t: nat)
    requires Awake(s) && Sound(s1) && Respects(s, s1, t) && MakesGood(s, s1, t) && HeadOK(s1) && WaitOK(s1, t)
    requires forall u {:trigger s.threads[u]} | 0 <= u < |s.threads| && u != t && Stopped(s.threads[u].pc) ::
               s.threads[u].lock < |s1.cells| && HandsOver(s, s1, t, s.threads[u].lock)
    ensures Awake(s1)
  {
    forall u | 0 <= u < |s1.threads| ensures WaitOK(s1, u) {
      if u != t {
        assert s1.threads[u] == s.threads[u] && WaitOK(s, u);
        if Stopped(s.threads[u].pc) { WaitStays(s, s1, t, u); }
      }
    }
  }

  /** A step that makes nothing obsolete and keeps whatever help its thread was. */
  lemma {:induction false} PlainAwake(s: State, s1: State, t: nat)
    requires Awake(s) && Sound(s1) && Respects(s, s1, t) && WaitOK(s1, t) && HeadOK(s1)
    requires forall l {:trigger s1.cells[l]} | 0 <= l < |s.cells| && s1.cells[l].obsolete :: s.cells[l].obsolete
    requires var x, y := s.threads[t], s1.threads[t];
             x.held <= y.held && !x.pc.WakeHead? && (Releasing(x.pc) ==> Releasing(y.pc))
    ensures Awake(s1)
  {
    assert ThreadOK(s, t);
    if Owes(s, t) { OwesStays(s, s1, t); }
    forall u | 0 <= u < |s.threads| && u != t && Stopped(s.threads[u].pc)
      ensures s.threads[u].lock < |s1.cells| && HandsOver(s, s1, t, s.threads[u].lock)
    {
      assert WaitOK(s, u);
    }
    AwakeKept(s, s1, t);
  }

  // ---------------------------------------------------------------- steps of an acquisition

  /** Steps that neither stop an acquisition nor end a release. */
  predicate Bulk(pc: PC)
  {
    !(pc.Idle? || pc.FirstHead? || pc.AgainState? || Stopped(pc) || pc.Test? || pc.Follow? || pc.SetHead?
      || AtNewHead(pc))
  }

  lemma {:induction false} BulkAwake(s: State, s1: State, t: nat)
    requires Awake(s) && Sound(s1) && Respects(s, s1, t) && Bulk(s.threads[t].pc)
    ensures Awake(s1)
  {
    HeadStays(s, s1, t);
    PlainAwake(s, s1, t);
  }

  lemma {:induction false} FirstHeadAwake(s: State, t: nat)
    requires Awake(s) && t < |s.threads| && s.threads[t].pc.FirstHead?
    requires Sound(StepFirstHead(s, t)) && Respects(s, StepFirstHead(s, t), t)
    ensures Awake(StepFirstHead(s, t))
  {
    assert ThreadOK(s, t);
    PlainAwake(s, StepFirstHead(s, t), t);
  }

  lemma {:induction false} BeginAwake(s: State, t: nat, l: nat, exclusive: bool)
    requires Awake(s) && t < |s.threads| && s.threads[t].pc.Idle? && (Recyclable(s, t, l) || l == |s.cells|)
    requires Sound(Begin(s, t, l, exclusive)) && Respects(s, Begin(s, t, l, exclusive), t)
    ensures Awake(Begin(s, t, l, exclusive))
  {
    var s1 := Begin(s, t, l, exclusive);
    HeadStays(s, s1, t);
    PlainAwake(s, s1, t);
  }

  /** A collected lock that is neither obsolete nor lost is live at its place ahead. */
  lemma {:induction false} EntryLive(s: State, t: nat)
    requires Inv(s) && t < |s.threads| && InScan(s.threads[t].pc) && s.threads[t].todo > 0
    ensures var x := s.threads[t];
      && x.todo <= |x.vec| && x.lock < |s.cells| && s.pos[x.lock] < s.numbered
      && var e, p := x.vec[x.todo - 1], s.pos[x.lock];
         && e < |s.cells| && (!x.pc.ScanState? ==> x.target == e)
         && (!s.cells[e].obsolete && !Lost(s, e, p) ==> Live(s, e) && s.pos[e] == x.start + x.todo - 1 < p)
  {
    ScanCells(s, t);
    Walker(s, t);
    var x := s.threads[t];
    var i := x.start + x.todo - 1;
    assert CellOK(s, x.vec[x.todo - 1]) && x.vec[x.todo - 1] == s.order[i];
    assert Current(s, i) || s.pos[s.order[i]] > s.pos[x.lock];
  }

  /** A lock in the way that is not obsolete is live and ahead, unless it has been reused. */
  lemma {:induction false} ObstacleLive(s: State, t: nat)
    requires Inv(s) && t < |s.threads| && s.threads[t].pc.AgainState?
    ensures var x := s.threads[t];
      && x.lock < |s.cells| && IsCell(s, x.target) && s.pos[x.lock] > 0
      && (!s.cells[x.target].obsolete ==> Lost(s, x.target, s.pos[x.lock]) || LiveAhead(s, x.lock))
  {
    assert ThreadOK(s, t);
    EntryLive(s, t);
  }

  /** A quiet step leaves everything that is hoped for. */
  lemma {:induction false} QuietHope(s: State, s1: State, t: nat, l: nat)
    requires Inv(s) && Sized(s1) && t < |s.threads| && Quiet(s, s1, t) && !Releasing(s.threads[t].pc)
    requires !s.threads[t].pc.WakeHead? && l < |s.cells| && Hope(s, l)
    ensures Hope(s1, l)
  {
    QuietStages(s, s1, t);
    if LiveAhead(s, l) {
      var m :| 0 <= m < |s.cells| && Live(s, m) && s.pos[m] < s.pos[l];
      assert Live(s1, m);
    } else if Coming(s, l) {
      var u :| 0 <= u < |s.threads| && Helps(s, u, l);
      if Owes(s, u) {
        var m :| m in s.threads[u].held && m < |s.cells| && s.cells[m].obsolete;
        assert m in s1.threads[u].held;
      }
      assert Helps(s1, u, l);
    }
  }

  lemma {:induction false} AgainStateAwake(s: State, t: nat)
    requires Awake(s) && t < |s.threads| && s.threads[t].pc.AgainState?
    requires Sound(StepAgainState(s, t)) && Respects(s, StepAgainState(s, t), t)
    ensures Awake(StepAgainState(s, t))
  {
    var s1, x := StepAgainState(s, t), s.threads[t];
    ObstacleLive(s, t);
    QuietStages(s, s1, t);
    if !s.cells[x.target].obsolete && LiveAhead(s, x.lock) { QuietHope(s, s1, t, x.lock); }
    HeadStays(s, s1, t);
    PlainAwake(s, s1, t);
  }

  /** An obstacle that still shows no larger id has not been reused. */
  lemma {:induction false} AgainIdHope(s: State, t: nat)
    requires Awake(s) && t < |s.threads| && s.threads[t].pc.AgainId?
    ensures var x := s.threads[t];
      && x.lock < |s.cells| && IsCell(s, x.target)
      && (s.cells[x.target].id <= s.cells[x.lock].id ==> s.pos[x.lock] > 0 && Hope(s, x.lock))
  {
    var x := s.threads[t];
    ScanCells(s, t);
    Walker(s, t);
    assert WaitOK(s, t);
    LostShows(s, x.target, s.pos[x.lock]);
  }

  lemma {:induction false} AgainIdAwake(s: State, t: nat)
    requires Awake(s) && t < |s.threads| && s.threads[t].pc.AgainId?
    requires Sound(StepTestId(s, t, PC.Blocked)) && Respects(s, StepTestId(s, t, PC.Blocked), t)
    ensures Awake(StepTestId(s, t, PC.Blocked))
  {
    var s1, x := StepTestId(s, t, PC.Blocked), s.threads[t];
    AgainIdHope(s, t);
    if s.cells[x.target].id <= s.cells[x.lock].id { QuietHope(s, s1, t, x.lock); }
    HeadStays(s, s1, t);
    PlainAwake(s, s1, t);
  }

  lemma {:induction false} BlockedAwake(s: State, t: nat)
    requires Awake(s) && t < |s.threads| && s.threads[t].pc.Blocked?
    requires Sound(StepBlocked(s, t)) && Respects(s, StepBlocked(s, t), t)
    ensures Awake(StepBlocked(s, t))
  {
    var s1, x := StepBlocked(s, t), s.threads[t];
    assert WaitOK(s, t);
    QuietHope(s, s1, t, x.lock);
    HeadStays(s, s1, t);
    PlainAwake(s, s1, t);
  }

  /** A victim is going to release its lock. */
  lemma {:induction false} VictimAwake(s: State, t: nat)
    requires Awake(s) && t < |s.threads| && s.threads[t].pc.Blocked? && s.threads[t].lock < |s.cells|
    requires Sound(BecomeVictim(s, t)) && Respects(s, BecomeVictim(s, t), t)
    ensures Awake(BecomeVictim(s, t))
  {
    var s1, x := BecomeVictim(s, t), s.threads[t];
    assert x.lock in s1.threads[t].held && s1.cells[x.lock].obsolete;
    HeadStays(s, s1, t);
    forall u | 0 <= u < |s.threads| && u != t && Stopped(s.threads[u].pc)
      ensures s.threads[u].lock < |s1.cells| && HandsOver(s, s1, t, s.threads[u].lock)
    {
      assert WaitOK(s, u);
    }
    AwakeKept(s, s1, t);
  }

  lemma {:induction false} WaitingAwake(s: State, t: nat)
    requires Awake(s) && t < |s.threads| && s.threads[t].pc.Waiting?
    requires Sound(StepWaiting(s, t)) && Respects(s, StepWaiting(s, t), t)
    ensures Awake(StepWaiting(s, t))
  {
    Walker(s, t);
    if s.cells[s.threads[t].lock].signal {
      HeadStays(s, Grant(s, t), t);
      PlainAwake(s, Grant(s, t), t);
    }
  }

  // ---------------------------------------------------------------- steps of a release

  lemma {:induction false} ReleaseAwake(s: State, t: nat, l: nat)
    requires Awake(s) && t < |s.threads| && s.threads[t].pc.Idle? && l in s.threads[t].held && l < |s.cells|
    requires Sound(BeginRelease(s, t, l)) && Respects(s, BeginRelease(s, t, l), t)
    ensures Awake(BeginRelease(s, t, l))
  {
    var s1 := BeginRelease(s, t, l);
    HeadStays(s, s1, t);
    forall u | 0 <= u < |s.threads| && u != t && Stopped(s.threads[u].pc)
      ensures s.threads[u].lock < |s1.cells| && HandsOver(s, s1, t, s.threads[u].lock)
    {
      assert WaitOK(s, u);
    }
    AwakeKept(s, s1, t);
  }

  lemma {:induction false} SetHeadAwake(s: State, t: nat)
    requires Awake(s) && t < |s.threads| && s.threads[t].pc.SetHead?
    requires Sound(StepSetHead(s, t)) && Respects(s, StepSetHead(s, t), t)
    ensures Awake(StepSetHead(s, t))
  {
    assert ThreadOK(s, t);
    PlainAwake(s, StepSetHead(s, t), t);
  }

  lemma {:induction false} SetPassAwake(s: State, t: nat)
    requires Awake(s) && t < |s.threads| && s.threads[t].pc.SetPass?
    requires Sound(StepSetPass(s, t)) && Respects(s, StepSetPass(s, t), t)
    ensures Awake(StepSetPass(s, t))
  {
    assert ThreadOK(s, t);
    HeadStays(s, StepSetPass(s, t), t);
    PlainAwake(s, StepSetPass(s, t), t);
  }

  /** A lock that waits is at the head or behind it; if behind a head in use, that one is ahead of it. */
  lemma {:induction false} BehindHeadInUse(s: State, u: nat)
    requires Inv(s) && u < |s.threads| && Stopped(s.threads[u].pc) && IsCell(s, s.head) && !s.cells[s.head].obsolete
    ensures s.threads[u].lock < |s.cells| && (s.threads[u].lock == s.head || LiveAhead(s, s.threads[u].lock))
  {
    Walker(s, u);
    PathPlace(s, s.headPos);
    assert Live(s, s.head);
  }

  /** A release that finds the head in use may return: what waits there has been signalled, and what
      waits behind has the head ahead of it. */
  lemma {:induction false} TestHandsOver(s: State, t: nat, u: nat)
    requires Awake(s) && t < |s.threads| && s.threads[t].pc.Test? && IsCell(s, s.head) && !s.cells[s.head].obsolete
    requires u < |s.threads| && u != t && Stopped(s.threads[u].pc)
    ensures var l := s.threads[u].lock; l < |s.cells| && (s.cells[l].signal || LiveAhead(s, l))
  {
    BehindHeadInUse(s, u);
    Walker(s, u);
    PathPlace(s, s.headPos);
    assert ThreadOK(s, t) && WaitOK(s, u);
  }

  lemma {:induction false} HopeLeave(s: State, t: nat, l: nat)
    requires Sized(s) && t < |s.threads| && StageOf(s.threads[t].pc) == 10 && l < |s.cells|
    requires s.cells[l].signal || LiveAhead(s, l)
    ensures Hope(Leave(s, t), l)
  {
    var s1 := Leave(s, t);
    if LiveAhead(s, l) {
      var m :| 0 <= m < |s.cells| && Live(s, m) && s.pos[m] < s.pos[l];
      assert Live(s1, m);
    }
  }

  /** What a release that goes no further owed to a waiting lock. */
  lemma {:induction false} TestReturns(s: State, t: nat, u: nat)
    requires Awake(s) && t < |s.threads| && s.threads[t].pc.Test? && StepTest(s, t).threads[t].pc.Idle?
    requires u < |s.threads| && u != t && Stopped(s.threads[u].pc)
    ensures Sized(StepTest(s, t)) && s.threads[u].lock < |s.cells| && Hope(StepTest(s, t), s.threads[u].lock)
  {
    assert ThreadOK(s, t);
    TestHandsOver(s, t, u);
    HopeLeave(s, t, s.threads[u].lock);
  }

  lemma {:induction false} TestAwake(s: State, t: nat)
    requires Awake(s) && t < |s.threads| && s.threads[t].pc.Test?
    requires Sound(StepTest(s, t)) && Respects(s, StepTest(s, t), t)
    ensures Awake(StepTest(s, t))
  {
    var s1 := StepTest(s, t);
    assert ThreadOK(s, t);
    PathPlace(s, s.headPos);
    HeadStays(s, s1, t);
    forall u | 0 <= u < |s.threads| && u != t && Stopped(s.threads[u].pc)
      ensures s.threads[u].lock < |s1.cells| && HandsOver(s, s1, t, s.threads[u].lock)
    {
      assert WaitOK(s, u);
      if s1.threads[t].pc.Idle? { TestReturns(s, t, u); }
    }
    AwakeKept(s, s1, t);
  }

  /** Up to the place of a waiting lock, every place is linked. */
  lemma {:induction false} LinkedUpTo(s: State, u: nat, i: int)
    requires Inv(s) && u < |s.threads| && Stopped(s.threads[u].pc) && s.threads[u].lock < |s.pos|
    requires s.headPos <= i < s.pos[s.threads[u].lock]
    ensures i < |s.order| && s.order[i] < |s.cells| && NextOf(s, i) != NULL
    ensures s.cells[s.order[i]].next == NextOf(s, i)
  {
    Walker(s, u);
    PathPlace(s, i);
    PathPlace(s, i + 1);
  }

  /** While a lock waits behind an obsolete head, a release finds a lock linked behind that head. */
  lemma {:induction false} SomebodyBehind(s: State, t: nat, u: nat)
    requires Inv(s) && t < |s.threads| && s.threads[t].pc.Follow? && u < |s.threads| && Stopped(s.threads[u].pc)
    ensures IsCell(s, s.threads[t].target) && s.cells[s.threads[t].target].next != NULL
  {
    assert ThreadOK(s, t);
    Walker(s, u);
    OwnPlace(s, u);
    if s.headPos < s.pos[s.threads[u].lock] { LinkedUpTo(s, u, s.headPos); }
  }

  lemma {:induction false} FollowAwake(s: State, t: nat)
    requires Awake(s) && t < |s.threads| && s.threads[t].pc.Follow?
    requires Sound(StepFollow(s, t)) && Respects(s, StepFollow(s, t), t)
    ensures Awake(StepFollow(s, t))
  {
    var s1 := StepFollow(s, t);
    assert ThreadOK(s, t);
    HeadStays(s, s1, t);
    forall u | 0 <= u < |s.threads| && u != t && Stopped(s.threads[u].pc)
      ensures s.threads[u].lock < |s1.cells| && HandsOver(s, s1, t, s.threads[u].lock)
    {
      assert WaitOK(s, u);
      SomebodyBehind(s, t, u);
    }
    AwakeKept(s, s1, t);
  }

  lemma {:induction false} AgainAwake(s: State, t: nat)
    requires Awake(s) && t < |s.threads| && s.threads[t].pc.Again?
    requires Sound(StepAgain(s, t)) && Respects(s, StepAgain(s, t), t)
    ensures Awake(StepAgain(s, t))
  {
    var s1 := StepAgain(s, t);
    assert ThreadOK(s, t);
    PathPlace(s, s.headPos);
    HeadStays(s, s1, t);
    forall u | 0 <= u < |s.threads| && u != t && Stopped(s.threads[u].pc)
      ensures s.threads[u].lock < |s1.cells| && HandsOver(s, s1, t, s.threads[u].lock)
    {
      assert WaitOK(s, u);
      if s1.threads[t].pc.WakeHead? {
        assert s1.threads[u] == s.threads[u];
        BehindHeadInUse(s1, u);
      }
    }
    AwakeKept(s, s1, t);
  }

  lemma {:induction false} WakeHeadAwake(s: State, t: nat)
    requires Awake(s) && t < |s.threads| && s.threads[t].pc.WakeHead?
    requires Sound(StepSignal(s, t, WakeMode)) && Respects(s, StepSignal(s, t, WakeMode), t)
    ensures Awake(StepSignal(s, t, WakeMode))
  {
    var s1 := StepSignal(s, t, WakeMode);
    assert ThreadOK(s, t);
    HeadStays(s, s1, t);
    if Owes(s, t) { OwesStays(s, s1, t); }
    forall u | 0 <= u < |s.threads| && u != t && Stopped(s.threads[u].pc)
      ensures s.threads[u].lock < |s1.cells| && HandsOver(s, s1, t, s.threads[u].lock)
    {
      assert WaitOK(s, u);
    }
    AwakeKept(s, s1, t);
  }

  // ---------------------------------------------------------------- every step, every run

  lemma {:induction false} StopAwake(s: State, t: nat)
    requires Awake(s) && t < |s.threads| && (s.threads[t].pc.AgainState? || Stopped(s.threads[t].pc))
    requires Sound(StepOf(s, t)) && Respects(s, StepOf(s, t), t)
    ensures Awake(StepOf(s, t))
  {
    assert Sized(s) && Sized(StepOf(s, t));
    CheckSteps(s, t);
    hide Sound, Awake, Respects, StepOf;
    if s.threads[t].pc.AgainState? {
      AgainStateAwake(s, t);
    } else if s.threads[t].pc.AgainId? {
      AgainIdAwake(s, t);
    } else if s.threads[t].pc.Blocked? {
      BlockedAwake(s, t);
    } else {
      WaitingAwake(s, t);
    }
  }

  lemma {:induction false} MoveAwake(s: State, t: nat)
    requires Awake(s) && t < |s.threads|
    requires s.threads[t].pc.Test? || s.threads[t].pc.Follow? || s.threads[t].pc.SetHead?
    requires Sound(StepOf(s, t)) && Respects(s, StepOf(s, t), t)
    ensures Awake(StepOf(s, t))
  {
    assert Sized(s) && Sized(StepOf(s, t));
    HeadSteps(s, t);
    hide Sound, Awake, Respects, StepOf;
    if s.threads[t].pc.Test? {
      TestAwake(s, t);
    } else if s.threads[t].pc.Follow? {
      FollowAwake(s, t);
    } else {
      SetHeadAwake(s, t);
    }
  }

  lemma {:induction false} NewHeadAwake(s: State, t: nat)
    requires Awake(s) && t < |s.threads| && AtNewHead(s.threads[t].pc)
    requires Sound(StepOf(s, t)) && Respects(s, StepOf(s, t), t)
    ensures Awake(StepOf(s, t))
  {
    assert Sized(s) && Sized(StepOf(s, t));
    HeadSteps(s, t);
    hide Sound, Awake, Respects, StepOf;
    if s.threads[t].pc.SetPass? {
      SetPassAwake(s, t);
    } else if s.threads[t].pc.Again? {
      AgainAwake(s, t);
    } else {
      WakeHeadAwake(s, t);
    }
  }

  lemma {:induction false} StepAwake(s: State, t: nat)
    requires Awake(s) && t < |s.threads|
    ensures Awake(StepOf(s, t))
  {
    assert Sized(s);
    hide Inv, Respects, HeadOK;
    var pc := s.threads[t].pc;
    StepInv(s, t);
    StepGrant(s, t);
    if Bulk(pc) {
      BulkAwake(s, StepOf(s, t), t);
    } else if pc.AgainState? || Stopped(pc) {
      StopAwake(s, t);
    } else if AtNewHead(pc) {
      NewHeadAwake(s, t);
    } else if pc.FirstHead? {
      assert StepOf(s, t) == StepFirstHead(s, t);
      FirstHeadAwake(s, t);
    } else if !pc.Idle? {
      MoveAwake(s, t);
    }
  }

  lemma {:induction false} DoAwake(s: State, t: nat, a: Action)
    requires Awake(s)
    ensures Awake(Do(s, t, a))
  {
    assert Sized(s);
    hide Inv, Respects, HeadOK;
    if t < |s.threads| {
      var x := s.threads[t];
      DoInv(s, t, a);
      DoGrant(s, t, a);
      match a
      case Acquire(l, exclusive) =>
        if x.pc.Idle? && (Recyclable(s, t, l) || l == |s.cells|) { BeginAwake(s, t, l, exclusive); }
      case Release(l) =>
        if x.pc.Idle? && l in x.held && l < |s.cells| { ReleaseAwake(s, t, l); }
      case Victim =>
        if x.pc.Blocked? && x.lock < |s.cells| { VictimAwake(s, t); }
      case Step => StepAwake(s, t);
    }
  }

  lemma {:induction false} RunAwake(n: nat, sched: seq<(nat, Action)>)
    ensures Awake(Exec(n, sched))
  {
    if sched == [] {
      RunSound(n, sched);
    } else {
      RunAwake(n, sched[..|sched| - 1]);
      var (t, a) := sched[|sched| - 1];
      DoAwake(Exec(n, sched[..|sched| - 1]), t, a);
    }
  }
}
