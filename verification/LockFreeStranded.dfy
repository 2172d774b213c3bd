/** Exactly when a lock is left waiting behind compatible locks: a victim has given up the exclusive lock it
    waited for, behind a head in use, and the head has been in use ever since. */
module LockFreeStranded {
  import opened LockFreeAttended
  import opened LockFreeFrame
  import opened LockFreeGrants
  import opened LockFreeInvariant
  import opened LockFreeList
  import opened LockFreeQuiet
  import opened LockFreeSafety
  import opened LockFreeWakeups

  // ---------------------------------------------------------------- the victim

  /** The live locks before place p, other than m, are shared. */
  predicate SharedButFor(s: State, p: int, m: nat)
    requires Sized(s)
  {
    forall k {:trigger Live(s, k)} | 0 <= k < |s.cells| && Live(s, k) && s.pos[k] < p && k != m ::
      !s.cells[k].exclusive
  }

  /** The wake-up has found m in use and is about to look at its mode. */
  predicate ChecksNext(s: State, m: nat)
  {
    0 <= s.mutex < |s.threads| && s.threads[s.mutex].pc.WakeCheck? && s.threads[s.mutex].target == m
  }

  /** If t becomes a victim now, it takes away the last obstacle of u, and nobody will tell u: the head is in
      use and not t's lock, so the release of t's lock is going to return at once, and no wake-up comes by. */
  predicate Strands(s: State, t: nat, u: nat)
    requires Sized(s) && t < |s.threads| && u < |s.threads|
  {
    var m := s.threads[t].lock;
    && t != u && m < |s.cells| && s.cells[m].exclusive && HeadLive(s) && s.head != m
    && Halted(s, u)
    && var l := s.threads[u].lock;
       && !s.cells[l].exclusive && !s.cells[l].signal
       && s.pos[m] < s.pos[l] && SharedButFor(s, s.pos[l], m)
       && (!MoverComes(s, s.pos[l]) || ChecksNext(s, m))
  }

  /** A victim leaves the stages of all other locks and the places of all alone. */
  lemma {:induction false} VictimLocks(s: State, t: nat)
    requires Inv(s) && t < |s.threads| && s.threads[t].pc.Blocked? && s.threads[t].lock < |s.cells|
    ensures var s1, m := BecomeVictim(s, t), s.threads[t].lock;
      && s1.pos == s.pos && Live(s, m) && !Live(s1, m)
      && (forall k {:trigger Live(s1, k)} | 0 <= k < |s.cells| && k != m :: Live(s1, k) <==> Live(s, k))
      && (forall k, p {:trigger Lost(s1, k, p)} | 0 <= k < |s.cells| :: Lost(s1, k, p) <==> Lost(s, k, p))
  {
    OwnPlace(s, t);
  }

  lemma {:induction false} VictimHalted(s: State, t: nat, u: nat)
    requires Inv(s) && t < |s.threads| && s.threads[t].pc.Blocked? && s.threads[t].lock < |s.cells|
    requires u < |s.threads| && u != t
    ensures Halted(BecomeVictim(s, t), u) <==> Halted(s, u)
  {
    VictimLocks(s, t);
  }

  lemma {:induction false} VictimMover(s: State, t: nat, p: int)
    requires Inv(s) && t < |s.threads| && s.threads[t].pc.Blocked? && s.threads[t].lock < |s.cells|
    ensures var m := s.threads[t].lock;
            MoverComes(BecomeVictim(s, t), p) <==>
              MoverComes(s, p) && !(ChecksNext(s, m) && s.cells[m].exclusive)
  {
    VictimLocks(s, t);
  }

  /** What is left before a place once a victim is gone. */
  lemma {:induction false} VictimShared(s: State, t: nat, p: int)
    requires Inv(s) && t < |s.threads| && s.threads[t].pc.Blocked? && s.threads[t].lock < |s.cells|
    ensures var m := s.threads[t].lock;
      && (SharedBefore(BecomeVictim(s, t), p) <==> SharedButFor(s, p, m))
      && (SharedButFor(s, p, m) && !(s.cells[m].exclusive && s.pos[m] < p) ==> SharedBefore(s, p))
  {
    var s1, m := BecomeVictim(s, t), s.threads[t].lock;
    VictimLocks(s, t);
    if SharedBefore(s1, p) {
      forall k | 0 <= k < |s.cells| && Live(s, k) && s.pos[k] < p && k != m ensures !s.cells[k].exclusive {
        assert Live(s1, k);
      }
    }
    if SharedButFor(s, p, m) {
      forall k | 0 <= k < |s1.cells| && Live(s1, k) && s1.pos[k] < p ensures !s1.cells[k].exclusive {
        assert Live(s, k);
      }
    }
  }

  /** The waiting lock of another thread has a place of its own. */
  lemma {:induction false} VictimElsewhere(s: State, t: nat, u: nat)
    requires Inv(s) && t < |s.threads| && s.threads[t].pc.Blocked? && u < |s.threads| && u != t && Halted(s, u)
    ensures s.threads[t].lock < |s.cells| && s.pos[s.threads[t].lock] != s.pos[s.threads[u].lock]
  {
    OwnPlace(s, t);
    OwnPlace(s, u);
  }

  /** What a lock waits for once a victim is gone. */
  lemma {:induction false} VictimAttended(s: State, t: nat, u: nat)
    requires Inv(s) && t < |s.threads| && s.threads[t].pc.Blocked? && s.threads[t].lock < |s.cells|
    requires u < |s.threads| && u != t && Halted(s, u)
    ensures var m, l := s.threads[t].lock, s.threads[u].lock;
      Attended(BecomeVictim(s, t), l) <==>
        || s.cells[l].signal || !SharedButFor(s, s.pos[l], m) || !HeadLive(s) || s.head == m
        || (MoverComes(s, s.pos[l]) && !(ChecksNext(s, m) && s.cells[m].exclusive))
  {
    var s1, m := BecomeVictim(s, t), s.threads[t].lock;
    assert m in s1.threads[t].held && s1.cells[m].obsolete;
    UnderwayBy(s1, t);
    VictimElsewhere(s, t, u);
    VictimMover(s, t, s.pos[s.threads[u].lock]);
    VictimShared(s, t, s.pos[s.threads[u].lock]);
  }

  /** Exactly these victims leave u unattended. */
  lemma {:induction false} VictimExact(s: State, t: nat, u: nat)
    requires Inv(s) && t < |s.threads| && s.threads[t].pc.Blocked? && s.threads[t].lock < |s.cells|
    requires u < |s.threads| && AttendOK(s, u)
    ensures AttendOK(BecomeVictim(s, t), u) <==> !Strands(s, t, u)
  {
    if u != t { VictimHalted(s, t, u); }
    if u != t && Halted(s, u) {
      VictimAttended(s, t, u);
      VictimElsewhere(s, t, u);
      VictimShared(s, t, s.pos[s.threads[u].lock]);
    }
  }

  lemma {:induction false} StrandsHead(s: State, t: nat, u: nat)
    requires Sized(s) && t < |s.threads| && u < |s.threads| && Strands(s, t, u)
    ensures HeadLive(BecomeVictim(s, t))
  {
  }

  // ---------------------------------------------------------------- every other event

  lemma {:induction false} VictimSteady(s: State, t: nat)
    requires Steady(s) && t < |s.threads| && s.threads[t].pc.Blocked? && s.threads[t].lock < |s.cells|
    requires Awake(BecomeVictim(s, t)) && Respects(s, BecomeVictim(s, t), t)
    ensures Steady(BecomeVictim(s, t))
  {
    var s1, x := BecomeVictim(s, t), s.threads[t];
    assert SteadyOK(s, t) && x.lock in s1.threads[t].held && s1.cells[x.lock].obsolete;
    forall l | l in s1.threads[t].held
      ensures l in s1.threads[t].granted || (l < |s1.cells| && s1.cells[l].obsolete)
    {
      assert l == x.lock || l in x.held;
    }
    SteadyKept(s, s1, t);
  }

  /** The event makes t a victim that strands u. */
  predicate StrandsBy(s: State, t: nat, a: Action, u: nat)
    requires Sized(s) && u < |s.threads|
  {
    a.Victim? && t < |s.threads| && s.threads[t].pc.Blocked? && Strands(s, t, u)
  }

  lemma {:induction false} DoExact(s: State, t: nat, a: Action, u: nat)
    requires Steady(s) && u < |s.threads|
    ensures Steady(Do(s, t, a))
    ensures AttendOK(s, u) ==> (AttendOK(Do(s, t, a), u) <==> !StrandsBy(s, t, a, u))
  {
    assert Sized(s) && Inv(s);
    hide Sound, Inv, Respects, AttendOK, Strands;
    if t < |s.threads| {
      var x := s.threads[t];
      DoInv(s, t, a);
      DoAwake(s, t, a);
      match a
      case Acquire(l, exclusive) =>
        if x.pc.Idle? && (Recyclable(s, t, l) || l == |s.cells|) { BeginTended(s, t, l, exclusive); }
      case Release(l) =>
        if x.pc.Idle? && l in x.held && l < |s.cells| { ReleaseTended(s, t, l); }
      case Victim =>
        if x.pc.Blocked? && x.lock < |s.cells| {
          VictimSteady(s, t);
          if AttendOK(s, u) { VictimExact(s, t, u); }
        } else if x.pc.Blocked? {
          Walker(s, t);
        }
      case Step => StepTended(s, t);
    }
  }

  // ---------------------------------------------------------------- how long it lasts

  /** While the head is in use it does not move. */
  lemma {:induction false} HeadInUse(s: State, t: nat, a: Action)
    requires Inv(s) && HeadLive(s) && t < |s.threads|
    ensures Sized(Do(s, t, a)) && Do(s, t, a).head == s.head
  {
    DoInv(s, t, a);
    assert ThreadOK(s, t);
  }

  /** When it is given up, a release is under way or due. */
  lemma {:induction false} HeadEnds(s: State, t: nat, a: Action)
    requires Inv(s) && HeadLive(s) && t < |s.threads| && !HeadLive(Do(s, t, a))
    ensures Underway(Do(s, t, a))
  {
    var s1, x := Do(s, t, a), s.threads[t];
    HeadInUse(s, t, a);
    DoInv(s, t, a);
    assert s1.cells[s.head].obsolete;
    if a.Victim? { assert x.lock in s1.threads[t].held && s1.cells[x.lock].obsolete; }
    UnderwayBy(s1, t);
  }

  /** Program counters of a release at a head it has just moved. */
  predicate AtMovedHead(pc: PC)
  {
    pc.SetPass? || pc.Again?
  }

  lemma {:induction false} InsertsNoMove(s: State, t: nat)
    requires Sized(s) && t < |s.threads| && StageOf(s.threads[t].pc) <= 8
    ensures !AtMovedHead(StepOf(s, t).threads[t].pc)
  {
  }

  lemma {:induction false} ChecksNoMove(s: State, t: nat)
    requires Sized(s) && t < |s.threads| && StageOf(s.threads[t].pc) == 9
    ensures !AtMovedHead(StepOf(s, t).threads[t].pc)
  {
  }

  lemma {:induction false} WakesNoMove(s: State, t: nat)
    requires Sized(s) && t < |s.threads| && StageOf(s.threads[t].pc) == 10
    requires !s.threads[t].pc.SetHead? && !s.threads[t].pc.SetPass? && !s.threads[t].pc.Again?
    ensures !AtMovedHead(StepOf(s, t).threads[t].pc)
  {
  }

  /** Only a release that found the head not in use gets to move it. */
  lemma {:induction false} NoMoveByHeadInUse(s: State, t: nat, a: Action)
    requires Inv(s) && HeadLive(s) && t < |s.threads| && !AtMovedHead(s.threads[t].pc)
    ensures Sized(s) && !AtMovedHead(Do(s, t, a).threads[t].pc)
  {
    assert ThreadOK(s, t);
    if a.Step? {
      var pc := s.threads[t].pc;
      if StageOf(pc) <= 8 {
        InsertsNoMove(s, t);
      } else if StageOf(pc) == 9 {
        ChecksNoMove(s, t);
      } else {
        WakesNoMove(s, t);
      }
    }
  }

  /** The wake-up itself goes on from place to place. */
  lemma {:induction false} WakeupPasses(s: State, t: nat, p: int)
    requires Steady(s) && HeadLive(s) && t < |s.threads| && BehindHead(s.threads[t].pc) && !MoverComes(s, p)
    ensures !MoverComes(StepOf(s, t), p)
  {
    assert SteadyOK(s, t) && ThreadOK(s, t);
    hide Steady, Inv;
    if s.threads[t].pc.WakeNext? {
      NextSignalled(s, t);
      assert StepOf(s, t) == StepWakeNext(s, t);
    } else if s.threads[t].pc.WakeTest? {
      assert StepOf(s, t) == StepWakeTest(s, t);
    }
  }

  /** Nobody else comes to a place that the wake-up does not come to. */
  lemma {:induction false} OtherMover(s: State, s1: State, t: nat, p: int)
    requires Inv(s) && Sized(s1) && Respects(s, s1, t) && Inv(s1) && !MoverComes(s, p) && s1.mutex != t
    ensures !MoverComes(s1, p)
  {
    var v := s1.mutex;
    if 0 <= v < |s.threads| {
      assert s1.threads[v] == s.threads[v] && ThreadOK(s, v) && ThreadOK(s1, v);
      if BehindHead(s.threads[v].pc) {
        PathPlace(s, s.pos[s.threads[v].target]);
        assert CellGrows(s, s1, s.threads[v].target);
      }
    }
  }

  /** A thread that has the mutex after its step had it before, or is at the first step of its release. */
  lemma {:induction false} NewHolder(s: State, t: nat, a: Action)
    requires Inv(s) && Inv(Do(s, t, a)) && HeadLive(s) && t < |s.threads| && Respects(s, Do(s, t, a), t)
    ensures var pc, pc1 := s.threads[t].pc, Do(s, t, a).threads[t].pc;
      && (AtNewHead(pc1) ==> AtNewHead(pc))
      && (pc1.WakeMode? || BehindHead(pc1) ==> AtNewHead(pc) || pc.WakeMode? || BehindHead(pc))
  {
    assert ThreadOK(s, t);
    if !AtMovedHead(s.threads[t].pc) { NoMoveByHeadInUse(s, t, a); }
    assert Moves(s, Do(s, t, a), t);
  }

  /** Nobody new comes to a place that the wake-up does not come to, while the head is in use. */
  lemma {:induction false} NoNewMover(s: State, t: nat, a: Action, p: int)
    requires Steady(s) && HeadLive(s) && t < |s.threads| && !MoverComes(s, p)
    ensures Sized(Do(s, t, a)) && !MoverComes(Do(s, t, a), p)
  {
    var s1 := Do(s, t, a);
    DoInv(s, t, a);
    assert ThreadOK(s, t);
    hide Inv, Respects, SteadyOK;
    if s1.mutex != t {
      OtherMover(s, s1, t, p);
    } else if BehindHead(s.threads[t].pc) {
      WakeupPasses(s, t, p);
    } else {
      NewHolder(s, t, a);
    }
  }

  /** A halted thread either goes on being halted, with the same lock, or stops being it. */
  lemma {:induction false} SameLock(s: State, t: nat, a: Action, u: nat)
    requires Inv(s) && t < |s.threads| && u < |s.threads| && Halted(s, u) && !s.cells[s.threads[u].lock].signal
    ensures Sized(Do(s, t, a)) && (Halted(Do(s, t, a), u) ==> Do(s, t, a).threads[u].lock == s.threads[u].lock)
  {
    DoInv(s, t, a);
    if t != u { assert Do(s, t, a).threads[u] == s.threads[u]; }
  }

  /** Nobody signals a lock that no wake-up comes to. */
  lemma {:induction false} NoSignal(s: State, t: nat, a: Action, l: nat)
    requires Steady(s) && t < |s.threads| && l < |s.cells| && !s.cells[l].signal && !MoverComes(s, s.pos[l])
    ensures Sized(Do(s, t, a)) && !Do(s, t, a).cells[l].signal
  {
    DoInv(s, t, a);
    assert ThreadOK(s, t);
    assert Marks(s, Do(s, t, a), t);
  }

  /** A lock left unattended behind a head in use stays so for exactly as long as the head is in use and its
      thread waits. */
  lemma {:induction false} NotAttendedLasts(s: State, t: nat, a: Action, u: nat)
    requires Steady(s) && t < |s.threads| && u < |s.threads| && !AttendOK(s, u) && HeadLive(s)
    ensures var s1 := Do(s, t, a); Sized(s1) && (AttendOK(s1, u) <==> !(HeadLive(s1) && Halted(s1, u)))
  {
    var s1, l := Do(s, t, a), s.threads[u].lock;
    DoInv(s, t, a);
    OwnPlace(s, u);
    NoSignal(s, t, a, l);
    NoNewMover(s, t, a, s.pos[l]);
    SharedStays(s, s1, s.pos[l]);
    SameLock(s, t, a, u);
    assert CellGrows(s, s1, l);
    if !HeadLive(s1) { HeadEnds(s, t, a); }
  }

  // ---------------------------------------------------------------- every run

  /** Event k makes its thread a victim that strands u. */
  predicate StrandedAt(n: nat, sched: seq<(nat, Action)>, k: nat, u: nat)
    requires k < |sched| && u < n
  {
    StrandsBy(Exec(n, sched[..k]), sched[k].0, sched[k].1, u)
  }

  /** After event k the head has been in use and u halted all the time. */
  predicate HaltedSince(n: nat, sched: seq<(nat, Action)>, k: nat, u: nat)
    requires k < |sched| && u < n
  {
    forall i {:trigger sched[..i]} | k < i <= |sched| :: HeadLive(Exec(n, sched[..i])) && Halted(Exec(n, sched[..i]), u)
  }

  predicate Stranded(n: nat, sched: seq<(nat, Action)>, u: nat)
    requires u < n
  {
    exists k {:trigger StrandedAt(n, sched, k, u)} ::
      0 <= k < |sched| && StrandedAt(n, sched, k, u) && HaltedSince(n, sched, k, u)
  }

  lemma {:induction false} Prefixes(sched: seq<(nat, Action)>)
    requires sched != []
    ensures var k := |sched| - 1;
      sched[..|sched|] == sched && forall i {:trigger sched[..i]} | 0 <= i <= k :: sched[..k][..i] == sched[..i]
  {
  }

  lemma {:induction false} StrandedStill(n: nat, sched: seq<(nat, Action)>, u: nat)
    requires u < n && sched != [] && HeadLive(Exec(n, sched)) && Halted(Exec(n, sched), u)
    requires StrandedAt(n, sched, |sched| - 1, u) || Stranded(n, sched[..|sched| - 1], u)
    ensures Stranded(n, sched, u)
  {
    hide Exec, HeadLive, Halted, StrandsBy;
    var k := |sched| - 1;
    Prefixes(sched);
    if StrandedAt(n, sched, k, u) {
      assert HaltedSince(n, sched, k, u);
    } else {
      var j :| 0 <= j < k && StrandedAt(n, sched[..k], j, u) && HaltedSince(n, sched[..k], j, u);
      assert StrandedAt(n, sched, j, u);
      forall i | j < i <= |sched| ensures HeadLive(Exec(n, sched[..i])) && Halted(Exec(n, sched[..i]), u) {
        assert i <= k ==> sched[..k][..i] == sched[..i];
      }
      assert HaltedSince(n, sched, j, u);
    }
  }

  /** One event more. */
  lemma {:induction false} StrandedOn(n: nat, sched: seq<(nat, Action)>, u: nat)
    requires u < n && sched != []
    ensures var k := |sched| - 1;
      Stranded(n, sched, u) <==>
        && HeadLive(Exec(n, sched)) && Halted(Exec(n, sched), u)
        && (StrandedAt(n, sched, k, u) || Stranded(n, sched[..k], u))
  {
    hide Exec, HeadLive, Halted, StrandsBy;
    var k := |sched| - 1;
    Prefixes(sched);
    if HeadLive(Exec(n, sched)) && Halted(Exec(n, sched), u)
       && (StrandedAt(n, sched, k, u) || Stranded(n, sched[..k], u)) {
      StrandedStill(n, sched, u);
    }
    if Stranded(n, sched, u) {
      var j :| 0 <= j < |sched| && StrandedAt(n, sched, j, u) && HaltedSince(n, sched, j, u);
      if j < k {
        forall i | j < i <= k ensures HeadLive(Exec(n, sched[..k][..i])) && Halted(Exec(n, sched[..k][..i]), u) {
          assert sched[..k][..i] == sched[..i];
        }
        assert StrandedAt(n, sched[..k], j, u) && HaltedSince(n, sched[..k], j, u);
      }
    }
  }

  lemma {:induction false} StrandedNow(n: nat, sched: seq<(nat, Action)>, u: nat)
    requires u < n && Stranded(n, sched, u)
    ensures HeadLive(Exec(n, sched)) && Halted(Exec(n, sched), u)
  {
    var j :| 0 <= j < |sched| && StrandedAt(n, sched, j, u) && HaltedSince(n, sched, j, u);
    assert sched[..|sched|] == sched;
  }

  lemma {:induction false} RunSteady(n: nat, sched: seq<(nat, Action)>)
    ensures Steady(Exec(n, sched))
  {
    if sched == [] {
      RunAwake(n, sched);
      assert forall t | 0 <= t < n :: SteadyOK(Init(n), t);
    } else {
      RunSteady(n, sched[..|sched| - 1]);
      var (t, a) := sched[|sched| - 1];
      if n == 0 { RunAwake(n, sched); } else { DoExact(Exec(n, sched[..|sched| - 1]), t, a, 0); }
    }
  }

  /** All that an event can do to the attendance of a lock. */
  lemma {:induction false} EventExact(s: State, t: nat, a: Action, u: nat)
    requires Steady(s) && u < |s.threads| && (AttendOK(s, u) || HeadLive(s))
    ensures var s1 := Do(s, t, a);
      AttendOK(s1, u) <==> !(HeadLive(s1) && Halted(s1, u) && (StrandsBy(s, t, a, u) || !AttendOK(s, u)))
  {
    assert Sized(s);
    hide Inv, Attended;
    if AttendOK(s, u) {
      DoExact(s, t, a, u);
      if StrandsBy(s, t, a, u) { StrandsHead(s, t, u); }
    } else if t < |s.threads| {
      NotAttendedLasts(s, t, a, u);
    }
  }

  /** A lock is not attended to if and only if a victim has stranded it, and ever since the head has been in
      use and its thread halted. */
  lemma {:induction false} RunExact(n: nat, sched: seq<(nat, Action)>, u: nat)
    requires u < n
    ensures Steady(Exec(n, sched))
    ensures AttendOK(Exec(n, sched), u) <==> !Stranded(n, sched, u)
  {
    RunSteady(n, sched);
    if sched != [] {
      hide Steady, Do, Stranded, StrandsBy, AttendOK, HeadLive, Halted;
      var k := |sched| - 1;
      var (t, a) := sched[k];
      RunExact(n, sched[..k], u);
      StrandedOn(n, sched, u);
      if Stranded(n, sched[..k], u) { StrandedNow(n, sched[..k], u); }
      EventExact(Exec(n, sched[..k]), t, a, u);
    }
  }

  // ---------------------------------------------------------------- left behind

  /** No release is under way, and none is due for a lock that is no longer in use. */
  predicate NoRelease(s: State)
  {
    forall u {:trigger Owes(s, u)} | 0 <= u < |s.threads| ::
      !s.threads[u].pc.Enter? && !InMutex(s.threads[u].pc) && !Owes(s, u)
  }

  /** A lock waits for its signal although all live locks ahead of it are compatible with it, and nobody is
      about to signal anything. */
  predicate LeftBehind(s: State, t: nat)
    requires Sized(s) && t < |s.threads|
  {
    var l := s.threads[t].lock;
    s.threads[t].pc.Waiting? && l < |s.cells| && !s.cells[l].signal && Free(s, l) && NoRelease(s)
  }

  lemma {:induction false} NobodyHelps(s: State, l: nat)
    requires Sized(s) && NoRelease(s)
    ensures !Coming(s, l) && !Underway(s) && forall p :: !MoverComes(s, p)
  {
    forall u | 0 <= u < |s.threads|
      ensures !Helps(s, u, l) && !Releasing(s.threads[u].pc) && !InWake(s.threads[u].pc)
    {
      var owes := Owes(s, u);
    }
  }

  /** Only a shared lock is ever left behind, and some live lock is ahead of it. */
  lemma {:induction false} OnlySharedLeftBehind(n: nat, sched: seq<(nat, Action)>, t: nat)
    requires t < n && LeftBehind(Exec(n, sched), t)
    ensures var s := Exec(n, sched); !s.cells[s.threads[t].lock].exclusive && LiveAhead(s, s.threads[t].lock)
  {
    var s := Exec(n, sched);
    RunAwake(n, sched);
    assert WaitOK(s, t);
    NobodyHelps(s, s.threads[t].lock);
  }

  /** While no release is under way or due, a lock is left behind if and only if it is not attended to. */
  lemma {:induction false} LeftBehindUnattended(s: State, t: nat)
    requires Awake(s) && t < |s.threads| && s.threads[t].pc.Waiting? && NoRelease(s)
    ensures LeftBehind(s, t) <==> !AttendOK(s, t)
  {
    var l := s.threads[t].lock;
    assert WaitOK(s, t);
    NobodyHelps(s, l);
    if LeftBehind(s, t) {
      forall m | 0 <= m < |s.cells| && Live(s, m) && s.pos[m] < s.pos[l] ensures !s.cells[m].exclusive {
        assert BothShared(s, l, m);
      }
    }
  }

  /** A lock is left behind if and only if it waits, no release is under way or due, and a victim has stranded
      it behind a head that has been in use ever since. */
  lemma {:induction false} LeftBehindExactly(n: nat, sched: seq<(nat, Action)>, t: nat)
    requires t < n
    ensures var s := Exec(n, sched);
      LeftBehind(s, t) <==> s.threads[t].pc.Waiting? && NoRelease(s) && Stranded(n, sched, t)
  {
    var s := Exec(n, sched);
    RunExact(n, sched, t);
    if s.threads[t].pc.Waiting? && NoRelease(s) { LeftBehindUnattended(s, t); }
  }

  /** A lock that no victim strands is never left behind. */
  lemma {:induction false} NobodyLeftBehind(n: nat, sched: seq<(nat, Action)>, t: nat)
    requires t < n && forall k {:trigger StrandedAt(n, sched, k, t)} | 0 <= k < |sched| :: !StrandedAt(n, sched, k, t)
    ensures !LeftBehind(Exec(n, sched), t)
  {
    LeftBehindExactly(n, sched, t);
  }

  // ---------------------------------------------------------------- and the victims that do

  /** A victim's rollback of its last lock: all of it, if the head is in use. */
  function GiveUp(t: nat, m: nat): (more: seq<(nat, Action)>)
  {
    [(t, Victim), (t, Release(m)), (t, Step), (t, Step), (t, Step)]
  }

  lemma {:induction false} StartsToRelease(s: State, t: nat)
    requires Inv(s) && t < |s.threads| && s.threads[t].pc.Blocked? && s.threads[t].lock < |s.cells|
    ensures var x, m := s.threads[t], s.threads[t].lock;
      Do(Do(s, t, Victim), t, Release(m)) == Put(Obsolete(s, m), t, x.(pc := Enter, granted := x.granted - {m}))
  {
    var x, m := s.threads[t], s.threads[t].lock;
    assert ThreadOK(s, t);
    assert Do(s, t, Victim) == BecomeVictim(s, t);
    assert x.held + {m} - {m} == x.held;
  }

  /** A release that finds the head in use is over after three steps. */
  lemma {:induction false} ReturnsAtOnce(s: State, t: nat)
    requires Sized(s) && t < |s.threads| && s.threads[t].pc.Enter? && HeadLive(s) && s.mutex == NULL
    ensures Do(Do(Do(s, t, Step), t, Step), t, Step) == Put(s, t, s.threads[t].(pc := Idle, target := s.head))
  {
    var s1 := Do(s, t, Step);
    assert s1 == StepEnter(s, t);
    var s2 := Do(s1, t, Step);
    assert s2 == StepTop(s1, t);
    assert Do(s2, t, Step) == StepTest(s2, t);
  }

  lemma {:induction false} GivenUp(s: State, t: nat)
    requires Inv(s) && t < |s.threads| && s.threads[t].pc.Blocked? && s.threads[t].lock < |s.cells|
    requires HeadLive(s) && s.head != s.threads[t].lock && s.mutex == NULL
    ensures var x, m := s.threads[t], s.threads[t].lock;
      var s1 := Do(Do(s, t, Victim), t, Release(m));
      Do(Do(Do(s1, t, Step), t, Step), t, Step)
        == Put(Obsolete(s, m), t, x.(pc := Idle, target := s.head, granted := x.granted - {m}))
  {
    hide Do, Inv;
    StartsToRelease(s, t);
    ReturnsAtOnce(Do(Do(s, t, Victim), t, Release(s.threads[t].lock)), t);
  }

  lemma {:induction false} StrandsInDeed(s: State, t: nat, u: nat)
    requires Inv(s) && t < |s.threads| && s.threads[t].pc.Blocked? && u < |s.threads| && s.threads[u].pc.Waiting?
    requires NoRelease(s) && Strands(s, t, u)
    ensures var x, m := s.threads[t], s.threads[t].lock;
      var s1 := Put(Obsolete(s, m), t, x.(pc := Idle, target := s.head, granted := x.granted - {m}));
      Sized(s1) && LeftBehind(s1, u)
  {
    var x, m := s.threads[t], s.threads[t].lock;
    var s1 := Put(Obsolete(s, m), t, x.(pc := Idle, target := s.head, granted := x.granted - {m}));
    VictimShared(s, t, s.pos[s.threads[u].lock]);
    assert forall k {:trigger Live(s1, k)} | 0 <= k < |s.cells| :: Live(s1, k) <==> Live(BecomeVictim(s, t), k);
    forall v | 0 <= v < |s1.threads|
      ensures !s1.threads[v].pc.Enter? && !InMutex(s1.threads[v].pc) && !Owes(s1, v)
    {
      assert ThreadOK(s, v) && ThreadOK(s, t) && !Owes(s, v);
    }
  }

  lemma {:induction false} OneMore(n: nat, sched: seq<(nat, Action)>, t: nat, a: Action)
    ensures Exec(n, sched + [(t, a)]) == Do(Exec(n, sched), t, a)
  {
    assert (sched + [(t, a)])[..|sched + [(t, a)]| - 1] == sched;
  }

  lemma {:induction false} FiveMore(n: nat, sched: seq<(nat, Action)>, t: nat, m: nat)
    ensures var s1 := Do(Do(Exec(n, sched), t, Victim), t, Release(m));
            Exec(n, sched + GiveUp(t, m)) == Do(Do(Do(s1, t, Step), t, Step), t, Step)
  {
    hide Do, Exec;
    var one := sched + [(t, Victim)];
    var two := one + [(t, Release(m))];
    var three := two + [(t, Step)];
    OneMore(n, sched, t, Victim);
    OneMore(n, one, t, Release(m));
    OneMore(n, two, t, Step);
    OneMore(n, three, t, Step);
    OneMore(n, three + [(t, Step)], t, Step);
    assert sched + GiveUp(t, m) == three + [(t, Step)] + [(t, Step)];
  }

  /** While no release is under way or due, the five events of a stranding victim leave the other lock behind. */
  lemma {:induction false} VictimLeavesBehind(n: nat, sched: seq<(nat, Action)>, t: nat, u: nat)
    requires t < n && u < n && Exec(n, sched).threads[t].pc.Blocked? && Exec(n, sched).threads[u].pc.Waiting?
    requires NoRelease(Exec(n, sched)) && Exec(n, sched).mutex == NULL && Strands(Exec(n, sched), t, u)
    ensures LeftBehind(Exec(n, sched + GiveUp(t, Exec(n, sched).threads[t].lock)), u)
  {
    var s := Exec(n, sched);
    RunInv(n, sched);
    assert Sized(s);
    hide Do, LeftBehind;
    FiveMore(n, sched, t, s.threads[t].lock);
    GivenUp(s, t);
    StrandsInDeed(s, t, u);
  }
}
