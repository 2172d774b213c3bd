/** The steps of the lock-free list that store into one lock. */
module LockFreeWrites {
  import opened LockFreeFrame
  import opened LockFreeInvariant
  import opened LockFreeList

  // ---------------------------------------------------------------- one lock at a time

  /** A lock that the step does not touch, at a place whose successor it does not touch. */
  lemma {:induction false} CellKept(s: State, s1: State, l: nat)
    requires Sized(s) && Sized(s1) && l < |s.cells| <= |s1.cells| && |s1.threads| == |s.threads| && CellOK(s, l)
    requires s1.cells[l] == s.cells[l] && s1.pos[l] == s.pos[l] && Stage(s1, l) == Stage(s, l)
    requires |s.order| <= |s1.order| && s1.order[..|s.order|] == s.order && s1.headPos == s.headPos
    requires var p := s.pos[l];
             p >= 0 ==> NextOf(s1, p) == NextOf(s, p) && Passed(s1, p + 1) == Passed(s, p + 1)
    requires s.pos[l] >= s.numbered <==> s.pos[l] >= s1.numbered
    ensures CellOK(s1, l)
  {
    if s.pos[l] >= 0 { assert s1.order[..|s.order|][s.pos[l]] == s1.order[s.pos[l]]; }
  }

  /** A step of thread t that stores into lock l and leaves the queue of places alone. */
  predicate Writes(s: State, s1: State, t: nat, l: nat)
  {
    && |s1.cells| == |s.cells| && |s1.threads| == |s.threads| && t < |s.threads| && l < |s.cells|
    && s1.order == s.order && s1.pos == s.pos && s1.tail == s.tail && s1.headPos == s.headPos && s1.mutex == s.mutex
    && (forall u {:trigger s1.threads[u]} | 0 <= u < |s.threads| && u != t :: s1.threads[u] == s.threads[u])
    && (forall m {:trigger s1.cells[m]} | 0 <= m < |s.cells| && m != l :: s1.cells[m] == s.cells[m])
    && s1.cells[l].owner == s.cells[l].owner && s1.threads[t].lock == s.threads[t].lock
  }

  /** The lock a thread inserts, when it inserts one. */
  predicate Own(s: State, t: nat, m: nat)
    requires t < |s.threads| && m < |s.cells|
  {
    s.cells[m].owner == t && s.threads[t].lock == m
  }

  lemma {:induction false} WriteStages(s: State, s1: State, t: nat, l: nat)
    requires Writes(s, s1, t, l)
    ensures forall m {:trigger Stage(s1, m)} | 0 <= m < |s.cells| ::
              Stage(s1, m) == if Own(s, t, m) then StageOf(s1.threads[t].pc) else Stage(s, m)
    ensures forall i {:trigger Current(s1, i)} :: Current(s1, i) <==> Current(s, i)
  {
  }

  /** Stages that link and tell the predecessor alike. */
  predicate SameLink(g: nat, g1: nat)
  {
    (g == 6 <==> g1 == 6) && (6 <= g <= 8 <==> 6 <= g1 <= 8)
  }

  /** All that such a step can change about the places is what is known of t's own place p. */
  predicate Crosses(s: State, s1: State, t: nat, p: int)
    requires |s1.threads| == |s.threads| && t < |s.threads|
  {
    SameLink(StageOf(s.threads[t].pc), StageOf(s1.threads[t].pc))
    || (Current(s, p) && s.order[p] == s.threads[t].lock)
  }

  lemma {:induction false} WritePlaces(s: State, s1: State, t: nat, l: nat, p: int)
    requires Writes(s, s1, t, l) && Crosses(s, s1, t, p)
    ensures forall i {:trigger Linked(s1, i)} | i != p :: Linked(s1, i) <==> Linked(s, i)
    ensures forall i {:trigger Passed(s1, i)} | i != p :: Passed(s1, i) <==> Passed(s, i)
  {
    WriteStages(s, s1, t, l);
  }

  /** A lock that such a step does not store into. */
  lemma {:induction false} WriteCell(s: State, s1: State, t: nat, l: nat, p: int, m: nat)
    requires Sized(s) && Sized(s1) && Writes(s, s1, t, l) && Crosses(s, s1, t, p)
    requires p <= |s.order| && (p > 0 ==> s.order[p - 1] == l) && m < |s.cells| && m != l
    requires CellOK(s, m) && Stage(s1, m) == Stage(s, m) && (s.pos[m] >= s.numbered <==> s.pos[m] >= s1.numbered)
    ensures CellOK(s1, m)
  {
    WritePlaces(s, s1, t, l, p);
    assert s1.order[..|s.order|] == s.order;
    CellKept(s, s1, m);
  }

  /** t's own lock, when the step changes its stage or gives it an id. */
  predicate OwnKept(s: State, s1: State, t: nat)
    requires Sized(s) && Sized(s1) && |s1.cells| == |s.cells| && t < |s.threads| == |s1.threads|
  {
    var own := s.threads[t].lock;
    || (StageOf(s1.threads[t].pc) == StageOf(s.threads[t].pc) && s1.numbered == s.numbered)
    || (own < |s.cells| && CellOK(s1, own)
        && (s1.numbered == s.numbered || (s1.numbered == s.numbered + 1 && s.pos[own] == s.numbered)))
  }

  lemma {:induction false} WriteCells(s: State, s1: State, t: nat, l: nat, p: int)
    requires Inv(s) && Sized(s1) && Writes(s, s1, t, l) && Crosses(s, s1, t, p)
    requires p <= |s.order| && (p > 0 ==> s.order[p - 1] == l) && CellOK(s1, l)
    requires OwnKept(s, s1, t)
    ensures CellsOK(s1)
  {
    var own := s.threads[t].lock;
    WriteStages(s, s1, t, l);
    forall m | 0 <= m < |s1.cells| ensures CellOK(s1, m) {
      assert CellOK(s, m);
      if m != l && (m != own || !CellOK(s1, own)) {
        assert Stage(s1, m) == Stage(s, m);
        WriteCell(s, s1, t, l, p, m);
      }
    }
  }

  lemma {:induction false} WriteFrame(s: State, s1: State, t: nat, l: nat)
    requires Sized(s) && Frame(s) && Writes(s, s1, t, l) && s1.head == s.head
    requires s1.numbered == s.numbered || (s1.numbered == s.numbered + 1 && s.numbered < |s.order|)
    ensures Frame(s1)
  {
    WriteStages(s, s1, t, l);
  }

  /** The two locks that such a step can affect decide whether it respects the others. */
  lemma {:induction false} WriteRespects(s: State, s1: State, t: nat, l: nat)
    requires Sized(s) && Sized(s1) && Writes(s, s1, t, l) && s.numbered <= s1.numbered
    requires s1.head == s.head || (s.head == NULL && s.threads[t].pc.FirstHead?)
    requires CellGrows(s, s1, l) && (s.threads[t].lock < |s.cells| ==> CellGrows(s, s1, s.threads[t].lock))
    requires s.mutex == t || (s1.cells[l].headPass ==> s.cells[l].headPass)
    requires Marks(s, s1, t) && Moves(s, s1, t)
    ensures Respects(s, s1, t)
  {
    WriteStages(s, s1, t, l);
    assert s1.order[..|s.order|] == s.order;
    forall m | 0 <= m < |s.cells| ensures CellGrows(s, s1, m) {
      if m != l && m != s.threads[t].lock { assert Stage(s1, m) == Stage(s, m); }
    }
  }

  /** What such a step has to establish. */
  predicate WriteTo(s: State, s1: State, t: nat, l: nat, p: int)
    requires Sized(s) && Sized(s1)
  {
    && Writes(s, s1, t, l) && Crosses(s, s1, t, p) && p <= |s.order| && (p > 0 ==> s.order[p - 1] == l)
    && CellOK(s1, l) && OwnKept(s, s1, t)
    && var own := s.threads[t].lock;
       && CellGrows(s, s1, l) && (own < |s.cells| ==> CellGrows(s, s1, own))
       && (s.mutex == t || (s1.cells[l].headPass ==> s.cells[l].headPass))
  }

  lemma {:induction false} WriteInv(s: State, s1: State, t: nat, l: nat, p: int)
    requires Inv(s) && Sized(s1) && WriteTo(s, s1, t, l, p) && s1.head == s.head && ThreadOK(s1, t)
    requires Marks(s, s1, t) && Moves(s, s1, t)
    ensures Inv(s1) && Respects(s, s1, t)
  {
    WriteRespects(s, s1, t, l);
    WriteCells(s, s1, t, l, p);
    WriteFrame(s, s1, t, l);
    StepKeeps(s, s1, t);
  }

  lemma {:induction false} FlagCell(s: State, s1: State, t: nat, l: nat)
    requires Sized(s) && Sized(s1) && Writes(s, s1, t, l) && s1.numbered == s.numbered && CellOK(s, l)
    requires StageOf(s1.threads[t].pc) == StageOf(s.threads[t].pc)
    requires var c, p := s1.cells[l], s.pos[l];
             Fits(c, p, Stage(s, l), NextOf(s, p), Passed(s, p + 1), s.headPos, s.numbered)
    ensures CellOK(s1, l)
  {
    WriteStages(s, s1, t, l);
    WritePlaces(s, s1, t, l, -1);
  }

  /** A store into a lock by a thread that stays within its stage. */
  lemma {:induction false} FlagTo(s: State, s1: State, t: nat, l: nat)
    requires Sized(s) && Sized(s1) && Writes(s, s1, t, l) && s1.numbered == s.numbered && CellOK(s, l)
    requires StageOf(s1.threads[t].pc) == StageOf(s.threads[t].pc)
    requires var c, p := s1.cells[l], s.pos[l];
      && Fits(c, p, Stage(s, l), NextOf(s, p), Passed(s, p + 1), s.headPos, s.numbered)
      && c.exclusive == s.cells[l].exclusive && (s.cells[l].obsolete ==> c.obsolete)
      && (s.mutex == t || (c.headPass ==> s.cells[l].headPass))
      && (c.signal ==> s.cells[l].signal || Stage(s, l) >= 6) && (s.cells[l].signal ==> c.signal)
    ensures WriteTo(s, s1, t, l, -1)
  {
    WriteStages(s, s1, t, l);
    FlagCell(s, s1, t, l);
  }

  /** A releasing thread's locks, when it stores into one. */
  lemma {:induction false} WriteOwn(s: State, s1: State, t: nat, l: nat)
    requires Sized(s) && Sized(s1) && Writes(s, s1, t, l) && s1.head == s.head && OwnOK(s, t)
    requires s1.threads[t].held == s.threads[t].held && s1.threads[t].granted == s.threads[t].granted
    requires InMutex(s1.threads[t].pc)
    ensures OwnOK(s1, t) && InsertOK(s1, t) && WalkOK(s1, t)
  {
  }

  // ---------------------------------------------------------------- recycling

  /** One field further. */
  lemma {:induction false} ResetFits(
    c: Cell, p: int, k: nat, exclusive: bool, next: int, passed: bool, headPos: nat, numbered: nat)
    requires k <= 6 && Fits(c, p, StageOf(Reset(k)), next, passed, headPos, numbered)
    ensures Fits(ResetField(c, k, exclusive), p, StageOf(Reset(k + 1)), next, passed, headPos, numbered)
  {
  }

  lemma {:induction false} ResetCell(s: State, t: nat, k: nat)
    requires Inv(s) && t < |s.threads| && s.threads[t].pc == Reset(k)
    ensures var s1, l := StepReset(s, t, k), s.threads[t].lock;
            Sized(s1) && l < |s.cells| && WriteTo(s, s1, t, l, -1)
  {
    var s1, l := StepReset(s, t, k), s.threads[t].lock;
    assert ThreadOK(s, t) && CellOK(s, l);
    WritePlaces(s, s1, t, l, -1);
    ResetFits(s.cells[l], s.pos[l], k, s.threads[t].exclusive, NextOf(s, s.pos[l]), Passed(s, s.pos[l] + 1),
              s.headPos, s.numbered);
  }

  lemma {:induction false} ResetThread(s: State, t: nat, k: nat)
    requires Sized(s) && t < |s.threads| && s.threads[t].pc == Reset(k) && OwnOK(s, t)
    ensures ThreadOK(StepReset(s, t, k), t)
    ensures Marks(s, StepReset(s, t, k), t) && Moves(s, StepReset(s, t, k), t)
  {
  }

  lemma {:induction false} ResetInv(s: State, t: nat, k: nat)
    requires Inv(s) && t < |s.threads| && s.threads[t].pc == Reset(k)
    ensures Inv(StepReset(s, t, k)) && Respects(s, StepReset(s, t, k), t)
  {
    assert ThreadOK(s, t);
    ResetCell(s, t, k);
    ResetThread(s, t, k);
    WriteInv(s, StepReset(s, t, k), t, s.threads[t].lock, -1);
  }

  // ---------------------------------------------------------------- insertion

  /** The lock being linked, and its predecessor. */
  lemma {:induction false} LinkCells(s: State, t: nat)
    requires Inv(s) && t < |s.threads| && s.threads[t].pc.Link?
    ensures var s1, x := StepLink(s, t), s.threads[t];
      && Sized(s1) && x.lock < |s1.cells| && IsCell(s1, x.prev)
      && Writes(s, s1, t, x.prev) && CellOK(s1, x.lock) && CellOK(s1, x.prev)
  {
    var s1, x := StepLink(s, t), s.threads[t];
    OwnPlace(s, t);
    Predecessor(s, t);
    var p := s.pos[x.lock];
    WriteStages(s, s1, t, x.prev);
    WritePlaces(s, s1, t, x.prev, p);
    assert Linked(s1, p) && !Passed(s1, p) && !Passed(s, p);
    assert NextOf(s1, p) == NextOf(s, p);
  }

  /** A thread that goes on with the insertion of its lock. */
  lemma {:induction false} InsertOwn(s: State, s1: State, t: nat, l: nat)
    requires Sized(s) && Sized(s1) && Writes(s, s1, t, l) && s1.head == s.head && s.numbered <= s1.numbered
    requires OwnOK(s, t) && InsertOK(s, t) && 6 <= StageOf(s.threads[t].pc) <= 8
    requires var x, y := s.threads[t], s1.threads[t];
      && y.held == x.held && y.granted == x.granted && y.prev == x.prev
      && ((HasPrev(x.pc) && HasPrev(y.pc) && (y.pc.WaitId? || (y.pc.PassId? && x.pc.WriteId?)))
          || (x.pc.FirstId? && y.pc.FirstHead?)
          || (y.pc.ReadHead? && s.head != NULL && y.start == 0))
    ensures ThreadOK(s1, t)
  {
    WriteStages(s, s1, t, l);
  }

  lemma {:induction false} LinkTo(s: State, t: nat)
    requires Sized(s) && t < |s.threads| && s.threads[t].pc.Link? && IsCell(s, s.threads[t].prev)
    requires var s1, x := StepLink(s, t), s.threads[t];
      && x.lock < |s.cells| && x.prev != x.lock && s.cells[x.lock].owner == t
      && CellOK(s1, x.lock) && CellOK(s1, x.prev)
    requires var x := s.threads[t]; var p := s.pos[x.lock];
             0 < p < |s.order| && Current(s, p) && s.order[p] == x.lock && s.order[p - 1] == x.prev
    ensures var s1, x := StepLink(s, t), s.threads[t];
            WriteTo(s, s1, t, x.prev, s.pos[x.lock]) && Marks(s, s1, t) && Moves(s, s1, t)
  {
    WriteStages(s, StepLink(s, t), t, s.threads[t].prev);
  }

  lemma {:induction false} LinkInv(s: State, t: nat)
    requires Inv(s) && t < |s.threads| && s.threads[t].pc.Link?
    ensures Inv(StepLink(s, t)) && Respects(s, StepLink(s, t), t)
  {
    var s1, x := StepLink(s, t), s.threads[t];
    assert ThreadOK(s, t);
    OwnPlace(s, t);
    Predecessor(s, t);
    LinkCells(s, t);
    InsertOwn(s, s1, t, x.prev);
    LinkTo(s, t);
    WriteInv(s, s1, t, x.prev, s.pos[x.lock]);
  }

  /** The id of a new lock is its place. */
  lemma {:induction false} NumberCell(s: State, t: nat, pc: PC)
    requires Inv(s) && t < |s.threads| && StageOf(s.threads[t].pc) == 7 && StageOf(pc) == 8
    requires s.threads[t].lock < |s.cells| && s.pos[s.threads[t].lock] == s.numbered
    ensures var s1, l := Number(s, t, s.numbered, pc), s.threads[t].lock; Sized(s1) && WriteTo(s, s1, t, l, -1)
  {
    var s1, l := Number(s, t, s.numbered, pc), s.threads[t].lock;
    OwnPlace(s, t);
    WriteStages(s, s1, t, l);
    WritePlaces(s, s1, t, l, -1);
    assert NextOf(s1, s.pos[l]) == NextOf(s, s.pos[l]);
  }

  /** The places get their ids one after the other. */
  lemma {:induction false} WriteIdPlace(s: State, t: nat)
    requires Inv(s) && t < |s.threads| && s.threads[t].pc.WriteId?
    ensures var x := s.threads[t]; x.lock < |s.cells| && s.pos[x.lock] == s.numbered == x.base + 1
    ensures ThreadOK(s, t)
  {
    assert ThreadOK(s, t);
    OwnPlace(s, t);
    Predecessor(s, t);
  }

  lemma {:induction false} WriteIdInv(s: State, t: nat)
    requires Inv(s) && t < |s.threads| && s.threads[t].pc.WriteId?
    ensures var s1 := Number(s, t, s.threads[t].base + 1, PassId); Inv(s1) && Respects(s, s1, t)
  {
    var x := s.threads[t];
    WriteIdPlace(s, t);
    NumberCell(s, t, PassId);
    var s1 := Number(s, t, x.base + 1, PassId);
    InsertOwn(s, s1, t, x.lock);
    WriteInv(s, s1, t, x.lock, -1);
  }

  lemma {:induction false} FirstIdInv(s: State, t: nat)
    requires Inv(s) && t < |s.threads| && s.threads[t].pc.FirstId?
    ensures var s1 := Number(s, t, 0, FirstHead); Inv(s1) && Respects(s, s1, t)
  {
    var x := s.threads[t];
    assert ThreadOK(s, t);
    OwnPlace(s, t);
    assert s.pos[x.lock] == s.numbered;
    NumberCell(s, t, FirstHead);
    var s1 := Number(s, t, 0, FirstHead);
    InsertOwn(s, s1, t, x.lock);
    WriteInv(s, s1, t, x.lock, -1);
  }

  lemma {:induction false} PassIdPlaces(s: State, t: nat)
    requires Inv(s) && t < |s.threads| && s.threads[t].pc.PassId?
    ensures var s1, x := StepPassId(s, t), s.threads[t];
      && Sized(s1) && x.lock < |s.cells| && IsCell(s, x.prev) && Writes(s, s1, t, x.prev)
      && x.prev != x.lock && Stage(s1, x.lock) == 9 && Stage(s1, x.prev) == Stage(s, x.prev)
      && var p := s.pos[x.lock];
         && Passed(s1, p) && NextOf(s1, p - 1) == NextOf(s, p - 1)
         && NextOf(s1, p) == NextOf(s, p) && Passed(s1, p + 1) == Passed(s, p + 1)
  {
    var s1, x := StepPassId(s, t), s.threads[t];
    OwnPlace(s, t);
    Predecessor(s, t);
    var p := s.pos[x.lock];
    WriteStages(s, s1, t, x.prev);
    WritePlaces(s, s1, t, x.prev, p);
    assert Linked(s1, p) && Linked(s, p);
  }

  /** The lock whose predecessor is told, and that predecessor. */
  lemma {:induction false} PassIdCells(s: State, t: nat)
    requires Inv(s) && t < |s.threads| && s.threads[t].pc.PassId?
    ensures var s1, x := StepPassId(s, t), s.threads[t];
      && Sized(s1) && x.lock < |s1.cells| && IsCell(s1, x.prev)
      && Writes(s, s1, t, x.prev) && CellOK(s1, x.lock) && CellOK(s1, x.prev)
  {
    OwnPlace(s, t);
    Predecessor(s, t);
    PassIdPlaces(s, t);
  }

  lemma {:induction false} PassIdTo(s: State, t: nat)
    requires Sized(s) && t < |s.threads| && s.threads[t].pc.PassId? && IsCell(s, s.threads[t].prev)
    requires var s1, x := StepPassId(s, t), s.threads[t];
      && x.lock < |s.cells| && x.prev != x.lock && s.cells[x.lock].owner == t && !s.cells[x.prev].idPass
      && CellOK(s1, x.lock) && CellOK(s1, x.prev)
    requires var x := s.threads[t]; var p := s.pos[x.lock];
             0 < p < |s.order| && Current(s, p) && s.order[p] == x.lock && s.order[p - 1] == x.prev
    ensures var s1, x := StepPassId(s, t), s.threads[t];
            WriteTo(s, s1, t, x.prev, s.pos[x.lock]) && Marks(s, s1, t) && Moves(s, s1, t)
  {
    WriteStages(s, StepPassId(s, t), t, s.threads[t].prev);
  }

  lemma {:induction false} PassIdInv(s: State, t: nat)
    requires Inv(s) && t < |s.threads| && s.threads[t].pc.PassId?
    ensures Inv(StepPassId(s, t)) && Respects(s, StepPassId(s, t), t)
  {
    var s1, x := StepPassId(s, t), s.threads[t];
    assert ThreadOK(s, t);
    OwnPlace(s, t);
    Predecessor(s, t);
    PassIdCells(s, t);
    InsertOwn(s, s1, t, x.prev);
    PassIdTo(s, t);
    WriteInv(s, s1, t, x.prev, s.pos[x.lock]);
  }

  lemma {:induction false} FirstHeadCell(s: State, t: nat)
    requires Inv(s) && t < |s.threads| && s.threads[t].pc.FirstHead?
    ensures var s1, l := StepFirstHead(s, t), s.threads[t].lock;
            Sized(s1) && l < |s.cells| && s.pos[l] == 0 && WriteTo(s, s1, t, l, 0)
  {
    var s1, l := StepFirstHead(s, t), s.threads[t].lock;
    assert ThreadOK(s, t);
    OwnPlace(s, t);
    WriteStages(s, s1, t, l);
    WritePlaces(s, s1, t, l, 0);
    assert NextOf(s1, 0) == NextOf(s, 0);
  }

  lemma {:induction false} FirstHeadInv(s: State, t: nat)
    requires Inv(s) && t < |s.threads| && s.threads[t].pc.FirstHead?
    ensures Inv(StepFirstHead(s, t)) && Respects(s, StepFirstHead(s, t), t)
  {
    var s1, l := StepFirstHead(s, t), s.threads[t].lock;
    assert ThreadOK(s, t);
    OwnPlace(s, t);
    FirstHeadCell(s, t);
    WriteRespects(s, s1, t, l);
    WriteCells(s, s1, t, l, 0);
    WriteStages(s, s1, t, l);
    assert Frame(s1);
    StepKeeps(s, s1, t);
  }

  // ---------------------------------------------------------------- granted, or a victim

  /** A lock that its thread has inserted and checked is in the list for good. */
  lemma {:induction false} DoneFits(c: Cell, p: int, next: int, passed: bool, headPos: nat, numbered: nat)
    requires Fits(c, p, 9, next, passed, headPos, numbered)
    ensures Fits(c, p, 10, next, passed, headPos, numbered)
    ensures Fits(c.(obsolete := true), p, 10, next, passed, headPos, numbered)
  {
  }

  lemma {:induction false} HoldCell(s: State, s1: State, t: nat, l: nat)
    requires Inv(s) && t < |s.threads| && StageOf(s.threads[t].pc) == 9 && l == s.threads[t].lock
    requires Sized(s1) && Writes(s, s1, t, l) && s1.numbered == s.numbered && s1.threads[t].pc.Idle?
    requires s1.cells[l] == s.cells[l] || s1.cells[l] == s.cells[l].(obsolete := true)
    ensures WriteTo(s, s1, t, l, -1)
  {
    OwnPlace(s, t);
    WriteStages(s, s1, t, l);
    WritePlaces(s, s1, t, l, -1);
    DoneFits(s.cells[l], s.pos[l], NextOf(s, s.pos[l]), Passed(s, s.pos[l] + 1), s.headPos, s.numbered);
  }

  /** The lock in question stays owned by its thread, and becomes one that the thread holds. */
  predicate Holds(s: State, s1: State, t: nat, granted: set<nat>)
    requires t < |s.threads|
  {
    && |s1.threads| == |s.threads|
    && var x := s.threads[t];
       s1.threads[t] == x.(pc := Idle, held := x.held + {x.lock}, granted := granted)
       && x.granted <= granted <= x.granted + {x.lock}
  }

  lemma {:induction false} HoldMoves(s: State, s1: State, t: nat, l: nat, granted: set<nat>)
    requires t < |s.threads| && StageOf(s.threads[t].pc) == 9 && l == s.threads[t].lock
    requires Writes(s, s1, t, l) && Holds(s, s1, t, granted) && s1.head == s.head && s.cells[l].owner == t
    requires s1.cells[l] == s.cells[l]
             || (s1.cells[l] == s.cells[l].(obsolete := true) && s.threads[t].pc.Blocked? && l !in granted)
    requires var x := s.threads[t];
             (x.pc.Blocked? && granted == x.granted) || (l in granted && (x.pc.ScanState? || x.pc.Waiting?))
    ensures Marks(s, s1, t) && Moves(s, s1, t)
  {
  }

  lemma {:induction false} HoldThread(s: State, s1: State, t: nat, l: nat, granted: set<nat>)
    requires Sized(s) && Sized(s1) && t < |s.threads| && StageOf(s.threads[t].pc) == 9 && l == s.threads[t].lock
    requires Writes(s, s1, t, l) && Holds(s, s1, t, granted) && s1.head == s.head && OwnOK(s, t)
    ensures ThreadOK(s1, t)
  {
  }

  lemma {:induction false} HoldInv(s: State, s1: State, t: nat, l: nat, granted: set<nat>)
    requires Inv(s) && t < |s.threads| && StageOf(s.threads[t].pc) == 9 && l == s.threads[t].lock
    requires Sized(s1) && Writes(s, s1, t, l) && Holds(s, s1, t, granted)
    requires s1.head == s.head && s1.numbered == s.numbered
    requires s1.cells[l] == s.cells[l]
             || (s1.cells[l] == s.cells[l].(obsolete := true) && s.threads[t].pc.Blocked? && l !in granted)
    requires var x := s.threads[t];
             (x.pc.Blocked? && granted == x.granted) || (l in granted && (x.pc.ScanState? || x.pc.Waiting?))
    ensures Inv(s1) && Respects(s, s1, t)
  {
    assert ThreadOK(s, t);
    OwnPlace(s, t);
    HoldCell(s, s1, t, l);
    HoldMoves(s, s1, t, l, granted);
    HoldThread(s, s1, t, l, granted);
    WriteInv(s, s1, t, l, -1);
  }

  lemma {:induction false} GrantInv(s: State, t: nat)
    requires Inv(s) && t < |s.threads| && (s.threads[t].pc.ScanState? || s.threads[t].pc.Waiting?)
    ensures Inv(Grant(s, t)) && Respects(s, Grant(s, t), t)
  {
    OwnPlace(s, t);
    var x := s.threads[t];
    HoldInv(s, Grant(s, t), t, x.lock, x.granted + {x.lock});
  }

  lemma {:induction false} VictimInv(s: State, t: nat)
    requires Inv(s) && t < |s.threads| && s.threads[t].pc.Blocked? && s.threads[t].lock < |s.cells|
    ensures Inv(BecomeVictim(s, t)) && Respects(s, BecomeVictim(s, t), t)
  {
    assert ThreadOK(s, t);
    HoldInv(s, BecomeVictim(s, t), t, s.threads[t].lock, s.threads[t].granted);
  }

  // ---------------------------------------------------------------- releasing

  lemma {:induction false} ReleaseCell(s: State, t: nat, l: nat)
    requires Inv(s) && t < |s.threads| && s.threads[t].pc.Idle? && l < |s.cells| && Stage(s, l) == 10
    requires s.cells[l].owner == t
    ensures Sized(BeginRelease(s, t, l)) && WriteTo(s, BeginRelease(s, t, l), t, l, -1)
  {
    assert CellOK(s, l);
    FlagTo(s, BeginRelease(s, t, l), t, l);
  }

  lemma {:induction false} ReleaseInv(s: State, t: nat, l: nat)
    requires Inv(s) && t < |s.threads| && s.threads[t].pc.Idle? && l in s.threads[t].held && l < |s.cells|
    ensures Inv(BeginRelease(s, t, l)) && Respects(s, BeginRelease(s, t, l), t)
  {
    assert ThreadOK(s, t);
    ReleaseCell(s, t, l);
    assert ThreadOK(BeginRelease(s, t, l), t);
    WriteInv(s, BeginRelease(s, t, l), t, l, -1);
  }

  lemma {:induction false} SetPassCell(s: State, t: nat)
    requires Inv(s) && t < |s.threads| && s.threads[t].pc.SetPass?
    ensures var s1, l := StepSetPass(s, t), s.threads[t].prev;
            Sized(s1) && IsCell(s, l) && WriteTo(s, s1, t, l, -1)
  {
    var s1, l := StepSetPass(s, t), s.threads[t].prev;
    assert ThreadOK(s, t) && CellOK(s, l);
    FlagTo(s, s1, t, l);
  }

  lemma {:induction false} SetPassInv(s: State, t: nat)
    requires Inv(s) && t < |s.threads| && s.threads[t].pc.SetPass?
    ensures Inv(StepSetPass(s, t)) && Respects(s, StepSetPass(s, t), t)
  {
    var s1, l := StepSetPass(s, t), s.threads[t].prev;
    SetPassCell(s, t);
    assert ThreadOK(s, t);
    WriteOwn(s, s1, t, l);
    WriteInv(s, s1, t, l, -1);
  }

  lemma {:induction false} SignalTo(s: State, t: nat, pc: PC)
    requires Sized(s) && t < |s.threads| && StageOf(s.threads[t].pc) == StageOf(pc)
    requires var l := s.threads[t].target; IsCell(s, l) && CellOK(s, l) && Stage(s, l) >= 6
    ensures Sized(StepSignal(s, t, pc)) && WriteTo(s, StepSignal(s, t, pc), t, s.threads[t].target, -1)
  {
    FlagTo(s, StepSignal(s, t, pc), t, s.threads[t].target);
  }

  lemma {:induction false} SignalCell(s: State, t: nat, pc: PC)
    requires Inv(s) && t < |s.threads|
    requires (s.threads[t].pc.WakeHead? && pc.WakeMode?) || (s.threads[t].pc.WakeSet? && pc.WakeNext?)
    ensures var s1, l := StepSignal(s, t, pc), s.threads[t].target;
            Sized(s1) && IsCell(s, l) && WriteTo(s, s1, t, l, -1)
  {
    assert ThreadOK(s, t);
    PathPlace(s, s.pos[s.threads[t].target]);
    SignalTo(s, t, pc);
  }

  /** The wake-up stays at the lock it has signalled. */
  lemma {:induction false} SignalMove(s: State, t: nat, pc: PC)
    requires Sized(s) && t < |s.threads| && MoveOK(s, t)
    requires (s.threads[t].pc.WakeHead? && pc.WakeMode?) || (s.threads[t].pc.WakeSet? && pc.WakeNext?)
    ensures Sized(StepSignal(s, t, pc)) && MoveOK(StepSignal(s, t, pc), t)
  {
    WriteStages(s, StepSignal(s, t, pc), t, s.threads[t].target);
  }

  lemma {:induction false} SignalMarks(s: State, t: nat, pc: PC)
    requires t < |s.threads| && IsCell(s, s.threads[t].target)
    requires (s.threads[t].pc.WakeHead? && pc.WakeMode?) || (s.threads[t].pc.WakeSet? && pc.WakeNext?)
    ensures Marks(s, StepSignal(s, t, pc), t) && Moves(s, StepSignal(s, t, pc), t)
  {
  }

  lemma {:induction false} SignalInv(s: State, t: nat, pc: PC)
    requires Inv(s) && t < |s.threads|
    requires (s.threads[t].pc.WakeHead? && pc.WakeMode?) || (s.threads[t].pc.WakeSet? && pc.WakeNext?)
    ensures Inv(StepSignal(s, t, pc)) && Respects(s, StepSignal(s, t, pc), t)
  {
    var s1, l := StepSignal(s, t, pc), s.threads[t].target;
    SignalCell(s, t, pc);
    SignalMarks(s, t, pc);
    assert ThreadOK(s, t);
    SignalMove(s, t, pc);
    WriteOwn(s, s1, t, l);
    WriteInv(s, s1, t, l, -1);
  }
}
