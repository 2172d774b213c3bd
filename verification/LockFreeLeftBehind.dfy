/** A run in which a shared lock goes on waiting although only shared locks are left ahead of it, because a
    victim of a real deadlock has given up its exclusive lock behind a head in use.

    Thread 0 has read record 0 and waits to write record 1, which thread 1 has read.  Thread 1 asks to write
    record 0, and that closes the cycle; but before it finds out, thread 2 asks to read record 0 and waits
    behind its lock. */
module LockFreeLeftBehind {
  import opened LockFreeGrants
  import opened LockFreeInvariant
  import opened LockFreeList
  import opened LockFreeRecords
  import opened LockFreeStranded
  import opened LockFreeWakeups

  // ---------------------------------------------------------------- runs of one thread

  ghost predicate Reached(w: System)
  {
    exists sched {:trigger ExecAll(2, 3, sched)} :: ExecAll(2, 3, sched) == w
  }

  /** A state of the system is reached in which record r is as s says and the other record as in w. */
  ghost predicate At(w: System, r: nat, s: State)
  {
    |w| == 2 && r < 2 && Reached(w[r := s]) && Sized(s) && |s.threads| == 3
  }

  predicate Elsewhere(w: System, r: nat, t: nat)
  {
    |w| == 2 && r < 2 && |w[1 - r].threads| == 3 && t < 3 && w[1 - r].threads[t].pc.Idle?
  }

  lemma {:induction false} After(w: System, r: nat, s: State, t: nat, a: Action)
    requires At(w, r, s) && Elsewhere(w, r, t)
    requires Whole(w[r := s]) && Possible(w[r := s], Event(r, t, a))
    ensures At(w, r, Do(s, t, a))
  {
    var sched :| ExecAll(2, 3, sched) == w[r := s];
    var more := sched + [Event(r, t, a)];
    assert more[..|more| - 1] == sched;
    assert ExecAll(2, 3, more) == DoAt(w[r := s], Event(r, t, a)) == w[r := Do(s, t, a)];
  }

  lemma {:induction false} Then(w: System, r: nat, s: State, t: nat, s1: State)
    requires At(w, r, s) && Elsewhere(w, r, t) && !s.threads[t].pc.Blocked? && StepOf(s, t) == s1
    ensures At(w, r, s1)
  {
    var sched :| ExecAll(2, 3, sched) == w[r := s];
    After(w, r, s, t, Step);
  }

  /** Links its lock and finds its predecessor numbered. */
  lemma {:induction false} Links(w: System, r: nat, s: State, t: nat) returns (u: State)
    requires At(w, r, s) && Elsewhere(w, r, t) && s.threads[t].pc.Link? && s.head != NULL
    requires IsCell(s, s.threads[t].prev) && s.cells[s.threads[t].prev].id != MAX_ID
    ensures var x := s.threads[t]; var c := s.cells[x.prev];
            u == PutCell(Put(s, t, x.(pc := WriteId, base := c.id)), x.prev, c.(next := x.lock))
    ensures At(w, r, u)
  {
    var s1 := StepLink(s, t);
    Then(w, r, s, t, s1);
    var s2 := Put(s1, t, s1.threads[t].(pc := WaitHead));
    Then(w, r, s1, t, s2);
    var s3 := Put(s2, t, s2.threads[t].(pc := ReadId));
    Then(w, r, s2, t, s3);
    u := StepReadId(s3, t);
    Then(w, r, s3, t, u);
    var x := s.threads[t];
    assert u.threads == s.threads[t := x.(pc := WriteId, base := s.cells[x.prev].id)];
  }

  /** Takes its id and tells the predecessor, and starts to collect at a head other than its own lock. */
  lemma {:induction false} Numbers(w: System, r: nat, s: State, t: nat) returns (u: State)
    requires At(w, r, s) && Elsewhere(w, r, t) && s.threads[t].pc.WriteId?
    requires var x := s.threads[t];
      && x.lock < |s.cells| && IsCell(s, x.prev) && x.prev != x.lock && !s.cells[x.prev].idPass
      && s.head != NULL && s.head != x.lock
    ensures var x := s.threads[t];
      && u.cells == s.cells[x.lock := s.cells[x.lock].(id := x.base + 1)]
                           [x.prev := s.cells[x.prev].(idPass := true)]
      && u.threads == s.threads[t := x.(pc := CheckId, target := s.head, vec := [], start := s.headPos)]
      && u == s.(cells := u.cells, threads := u.threads, numbered := s.numbered + 1)
    ensures At(w, r, u)
  {
    var s1 := Number(s, t, s.threads[t].base + 1, PassId);
    Then(w, r, s, t, s1);
    var s2 := StepPassId(s1, t);
    Then(w, r, s1, t, s2);
    u := StepReadHead(s2, t);
    Then(w, r, s2, t, u);
  }

  /** Collects one lock and goes on to the next. */
  lemma {:induction false} Collects(w: System, r: nat, s: State, t: nat) returns (u: State)
    requires At(w, r, s) && Elsewhere(w, r, t) && s.threads[t].pc.CheckId?
    requires var x := s.threads[t];
      && IsCell(s, x.target) && x.lock < |s.cells| && s.cells[x.target].id <= s.cells[x.lock].id
      && s.cells[x.target].next != NULL
    ensures var x := s.threads[t];
            u == Put(s, t, AtTarget(x.(pc := ReadNext, vec := x.vec + [x.target], target := s.cells[x.target].next)))
    ensures At(w, r, u)
  {
    var s1 := StepCheckId(s, t);
    Then(w, r, s, t, s1);
    u := StepReadNext(s1, t);
    Then(w, r, s1, t, u);
  }

  /** Finds the last lock collected neither obsolete nor reused. */
  lemma {:induction false} FindsLive(w: System, r: nat, s: State, t: nat) returns (u: State)
    requires At(w, r, s) && Elsewhere(w, r, t) && s.threads[t].pc.ScanState?
    requires var x := s.threads[t];
      && 0 < x.todo <= |x.vec| && x.vec[x.todo - 1] < |s.cells| && x.lock < |s.cells|
      && !s.cells[x.vec[x.todo - 1]].obsolete && s.cells[x.vec[x.todo - 1]].id <= s.cells[x.lock].id
    ensures var x := s.threads[t]; u == Put(s, t, x.(pc := ScanMode, target := x.vec[x.todo - 1]))
    ensures At(w, r, u)
  {
    var x := s.threads[t];
    var s1 := Put(s, t, x.(pc := ScanId, target := x.vec[x.todo - 1]));
    Then(w, r, s, t, s1);
    u := Put(s1, t, s1.threads[t].(pc := ScanMode));
    Then(w, r, s1, t, u);
  }

  /** Meets an obstacle in it. */
  lemma {:induction false} Stops(w: System, r: nat, s: State, t: nat) returns (u: State)
    requires At(w, r, s) && Elsewhere(w, r, t) && s.threads[t].pc.ScanState?
    requires var x := s.threads[t];
      && 0 < x.todo <= |x.vec| && x.vec[x.todo - 1] < |s.cells| && x.lock < |s.cells|
      && var e := x.vec[x.todo - 1];
         && !s.cells[e].obsolete && s.cells[e].id <= s.cells[x.lock].id
         && (s.cells[e].exclusive || s.cells[x.lock].exclusive)
    ensures var x := s.threads[t]; u == Put(s, t, x.(pc := PC.Blocked, target := x.vec[x.todo - 1]))
    ensures At(w, r, u)
  {
    var s1 := FindsLive(w, r, s, t);
    var s2 := Put(s1, t, s1.threads[t].(pc := AgainState));
    Then(w, r, s1, t, s2);
    var s3 := Put(s2, t, s2.threads[t].(pc := AgainId));
    Then(w, r, s2, t, s3);
    u := Put(s3, t, s3.threads[t].(pc := PC.Blocked));
    Then(w, r, s3, t, u);
  }

  /** Takes a new lock and a place behind the last one. */
  lemma {:induction false} Begins(w: System, r: nat, s: State, t: nat, exclusive: bool) returns (u: State)
    requires At(w, r, s) && Elsewhere(w, r, t) && s.threads[t].pc.Idle? && |s.order| < 3
    ensures var x, l := s.threads[t], |s.cells|;
      && u.cells == s.cells + [NewCell(t).(exclusive := exclusive)] && u.pos == s.pos + [|s.order|]
      && u.order == s.order + [l] && u.tail == l
      && u.threads == s.threads[t := x.(pc := if s.tail == NULL then FirstId else Link, lock := l,
                                        exclusive := exclusive, prev := s.tail)]
      && u == s.(cells := u.cells, pos := u.pos, order := u.order, tail := l, threads := u.threads)
    ensures At(w, r, u)
  {
    After(w, r, s, t, Acquire(|s.cells|, exclusive));
    var s1 := Begin(s, t, |s.cells|, exclusive);
    var s2 := StepReset(s1, t, 6);
    Then(w, r, s1, t, s2);
    u := StepExchange(s2, t);
    Then(w, r, s2, t, u);
  }


  // ---------------------------------------------------------------- what the records look like

  predicate Fresh(x: Thread)
  {
    x == Init(1).threads[0]
  }

  predicate AtStart(s: State, numbered: nat)
  {
    s.head == 0 && s.mutex == NULL && s.headPos == 0 && s.numbered == numbered && |s.threads| == 3 && Sized(s)
  }

  /** Thread x holds a shared lock, and nothing else has happened on the record. */
  predicate Held(s: State, x: nat)
  {
    && AtStart(s, 1) && s.tail == 0 && s.order == [0] && s.pos == [0] && x < 3
    && s.cells == [Cell(x, 0, false, false, NULL, false, false, false)]
    && s.threads[x].pc.Idle? && s.threads[x].held == {0}
    && forall v {:trigger s.threads[v]} | 0 <= v < 3 && v != x :: Fresh(s.threads[v])
  }

  /** Behind it thread y has put an exclusive lock, and has found that it has to wait. */
  predicate Queued(s: State, x: nat, y: nat)
  {
    && AtStart(s, 2) && s.tail == 1 && s.order == [0, 1] && s.pos == [0, 1] && x < 3 && y < 3 && x != y
    && s.cells == [Cell(x, 0, true, false, 1, false, false, false), Cell(y, 1, false, false, NULL, false, false, true)]
    && s.threads[x].pc.Idle? && s.threads[x].held == {0}
    && (s.threads[y].pc.Blocked? || s.threads[y].pc.Waiting?) && s.threads[y].lock == 1 && s.threads[y].held == {}
    && forall v {:trigger s.threads[v]} | 0 <= v < 3 && v != x && v != y :: Fresh(s.threads[v])
  }

  /** On record 0 thread 2 has put a shared lock behind those two; thread 1's is given up or not. */
  predicate Crowded(s: State, givenUp: bool)
  {
    && |s.threads| == 3 && s.pos == [0, 1, 2] && s.head == 0
    && s.cells == [Cell(0, 0, true, false, 1, false, false, false), Cell(1, 1, true, givenUp, 2, false, false, true),
                   Cell(2, 2, false, false, NULL, false, false, false)]
    && s.threads[0].pc.Idle? && s.threads[0].held == {0} && s.threads[2].lock == 2 && s.threads[2].held == {}
  }

  // ---------------------------------------------------------------- the deadlock

  /** Nobody waits for t. */
  lemma {:induction false} NotDeadlocked(w: System, t: nat)
    requires Whole(w) && forall v {:trigger Waits(w, v, t)} :: !Waits(w, v, t)
    ensures !Deadlocked(w, t)
  {
    forall path: seq<nat> | Cycle(w, path) ensures path[0] != t {
      assert Waits(w, path[|path| - 2], path[|path| - 2 + 1]);
    }
  }

  lemma {:induction false} HeldWaits(s: State, x: nat, v: nat, u: nat)
    requires Held(s, x)
    ensures !WaitsOn(s, v, u)
  {
  }

  lemma {:induction false} QueuedWaits(s: State, x: nat, y: nat, v: nat, u: nat)
    requires Queued(s, x, y)
    ensures WaitsOn(s, v, u) <==> v == y && u == x
  {
    assert Live(s, 0);
  }

  lemma {:induction false} CrowdedWaits(s: State, v: nat, u: nat)
    requires Crowded(s, false) && s.threads[1].pc.Blocked? && s.threads[1].lock == 1
    ensures WaitsOn(s, v, u) ==> u < 2
    ensures WaitsOn(s, 1, 0)
  {
    assert Live(s, 0);
  }

  /** Waits on both records. */
  lemma {:induction false} WaitsOnEither(a: State, b: State, v: nat, u: nat)
    requires Sized(a) && Sized(b)
    ensures Whole([a, b]) && (Waits([a, b], v, u) <==> WaitsOn(a, v, u) || WaitsOn(b, v, u))
  {
    assert [a, b][0] == a && [a, b][1] == b;
  }

  /** The search of t finds nothing, and t waits. */
  lemma {:induction false} GoesToWait(w: System, r: nat, s: State, t: nat)
    requires At(w, r, s) && Elsewhere(w, r, t) && s.threads[t].pc.Blocked?
    requires Whole(w[r := s]) && !Deadlocked(w[r := s], t)
    ensures At(w, r, StepBlocked(s, t))
  {
    assert Do(s, t, Step) == StepBlocked(s, t);
    After(w, r, s, t, Step);
  }

  // ---------------------------------------------------------------- the run

  lemma {:induction false} FirstNumbered(w: System, r: nat, x: nat) returns (u: State)
    requires At(w, r, Init(3)) && Elsewhere(w, r, x)
    ensures At(w, r, u)
    ensures u.cells == [Cell(x, 0, false, false, NULL, false, false, false)] && u.order == [0] && u.pos == [0]
    ensures u.head == NULL && u.tail == 0 && u.mutex == NULL && u.headPos == 0 && u.numbered == 1
    ensures u.threads[x].pc.FirstHead? && u.threads[x].lock == 0 && u.threads[x].held == {}
    ensures forall v | 0 <= v < 3 && v != x :: Fresh(u.threads[v])
  {
    var s := Begins(w, r, Init(3), x, false);
    u := Number(s, x, 0, FirstHead);
    Then(w, r, s, x, u);
  }

  /** Thread x is granted a shared lock. */
  lemma {:induction false} First(w: System, r: nat, x: nat) returns (u: State)
    requires At(w, r, Init(3)) && Elsewhere(w, r, x)
    ensures At(w, r, u) && Held(u, x)
  {
    var s := FirstNumbered(w, r, x);
    var s1 := StepFirstHead(s, x);
    Then(w, r, s, x, s1);
    var s2 := StepReadHead(s1, x);
    Then(w, r, s1, x, s2);
    u := StepScanState(s2, x);
    Then(w, r, s2, x, u);
  }

  /** Thread y meets it with an exclusive one. */
  lemma {:induction false} Second(w: System, r: nat, s: State, x: nat, y: nat) returns (u: State)
    requires At(w, r, s) && Held(s, x) && y != x && Elsewhere(w, r, y)
    ensures At(w, r, u) && Queued(u, x, y) && u.threads[y].pc.Blocked?
  {
    assert Fresh(s.threads[y]);
    var s1 := Begins(w, r, s, y, true);
    var s2 := Links(w, r, s1, y);
    var s3 := Numbers(w, r, s2, y);
    var s4 := Collects(w, r, s3, y);
    u := Stops(w, r, s4, y);
  }

  /** Thread 2 puts a shared lock behind those two. */
  lemma {:induction false} ThirdCollects(w: System, s: State) returns (u: State)
    requires At(w, 0, s) && Queued(s, 0, 1) && s.threads[1].pc.Blocked? && Elsewhere(w, 0, 2)
    ensures At(w, 0, u) && Crowded(u, false)
    ensures u.mutex == NULL && u.threads[1] == s.threads[1]
    ensures u.threads[2].pc.CheckId? && u.threads[2].target == 0 && u.threads[2].vec == []
  {
    assert Fresh(s.threads[2]);
    var s1 := Begins(w, 0, s, 2, false);
    var s2 := Links(w, 0, s1, 2);
    u := Numbers(w, 0, s2, 2);
  }

  /** It stops at the exclusive one, and its search finds nothing. */
  lemma {:induction false} Third(w: System, a: State, b: State) returns (u: State)
    requires w == [a, b] && At(w, 0, a) && Queued(a, 0, 1) && a.threads[1].pc.Blocked? && Queued(b, 1, 0)
    ensures At(w, 0, u) && Crowded(u, false) && u.mutex == NULL && u.threads[1] == a.threads[1]
    ensures u.threads[2].pc.Waiting?
  {
    assert Fresh(b.threads[2]);
    var s := ThirdCollects(w, a);
    var s1 := Collects(w, 0, s, 2);
    var s2 := Collects(w, 0, s1, 2);
    var s3 := Stops(w, 0, s2, 2);
    assert w[0 := s3] == [s3, b];
    forall v ensures Whole([s3, b]) && !Waits([s3, b], v, 2) {
      WaitsOnEither(s3, b, v, 2);
      CrowdedWaits(s3, v, 2);
      QueuedWaits(b, 1, 0, v, 2);
    }
    NotDeadlocked([s3, b], 2);
    GoesToWait(w, 0, s3, 2);
    u := StepBlocked(s3, 2);
  }

  /** Threads 0 and 1 wait for each other. */
  lemma {:induction false} RealDeadlock(a: State, b: State)
    requires Crowded(a, false) && Sized(a) && a.threads[1].pc.Blocked? && a.threads[1].lock == 1 && Queued(b, 1, 0)
    ensures Whole([a, b]) && Deadlocked([a, b], 1)
  {
    WaitsOnEither(a, b, 1, 0);
    WaitsOnEither(a, b, 0, 1);
    CrowdedWaits(a, 1, 0);
    QueuedWaits(b, 1, 0, 0, 1);
    var path: seq<nat> := [1, 0, 1];
    forall i | 0 <= i < |path| - 1 ensures Waits([a, b], path[i], path[i + 1]) { assert i == 0 || i == 1; }
    assert Cycle([a, b], path);
  }

  /** Thread 1 is the victim. */
  lemma {:induction false} GivesUp(w: System, a: State, b: State) returns (u: State)
    requires w == [a, b] && At(w, 0, a) && Crowded(a, false) && a.mutex == NULL && Queued(b, 1, 0)
    requires a.threads[1].pc.Blocked? && a.threads[1].lock == 1 && a.threads[1].held == {}
    requires a.threads[2].pc.Waiting?
    ensures At(w, 0, u) && Crowded(u, true) && u.mutex == NULL && u.threads[2] == a.threads[2]
    ensures u.threads[1].pc.Idle? && u.threads[1].held == {1}
  {
    RealDeadlock(a, b);
    assert w[0 := a] == [a, b];
    assert a.threads[1].lock < |a.cells|;
    u := BecomeVictim(a, 1);
    assert Do(a, 1, Victim) == u;
    After(w, 0, a, 1, Victim);
  }

  /** Its release on record 1 moves the head to the lock of thread 0. */
  lemma {:induction false} MovesOn(w: System, s: State) returns (u: State)
    requires At(w, 1, s) && Elsewhere(w, 1, 1) && s.threads[1].pc.Follow? && s.threads[1].target == 0 == s.head
    requires |s.cells| == 2 && s.cells[0].next == 1
    ensures At(w, 1, u) && u.threads[1].pc.Again? && u.threads[1].target == 1 == u.head
    ensures |u.cells| == 2 && u.cells[1] == s.cells[1]
  {
    var x := s.threads[1];
    var s1 := Put(s, 1, x.(pc := SetHead, prev := 0, target := 1));
    Then(w, 1, s, 1, s1);
    var s2 := StepSetHead(s1, 1);
    Then(w, 1, s1, 1, s2);
    u := StepSetPass(s2, 1);
    Then(w, 1, s2, 1, u);
  }

  /** And signals it. */
  lemma {:induction false} Signals(w: System, s: State) returns (u: State)
    requires At(w, 1, s) && Elsewhere(w, 1, 1) && s.threads[1].pc.Again? && s.threads[1].target == 1 == s.head
    requires |s.cells| == 2 && !s.cells[1].obsolete && s.cells[1].exclusive
    ensures At(w, 1, u) && u.threads[1].pc.Idle? && |u.cells| == 2 && u.cells[1].signal
  {
    var x := s.threads[1];
    var s1 := Put(s, 1, x.(pc := WakeHead));
    Then(w, 1, s, 1, s1);
    var s2 := PutCell(Put(s, 1, x.(pc := WakeMode)), 1, s.cells[1].(signal := true));
    assert s2.threads == s1.threads[1 := x.(pc := WakeMode)];
    Then(w, 1, s1, 1, s2);
    u := Leave(s2, 1);
    Then(w, 1, s2, 1, u);
  }

  /** Gives a lock up, takes the head mutex and reads the head. */
  lemma {:induction false} Releases(w: System, r: nat, s: State, t: nat, l: nat) returns (u: State)
    requires At(w, r, s) && Elsewhere(w, r, t) && s.threads[t].pc.Idle? && s.mutex == NULL && s.head != NULL
    requires l in s.threads[t].held && l < |s.cells|
    ensures At(w, r, u)
    ensures var x := s.threads[t];
      u == Put(Obsolete(s, l), t, x.(pc := Test, target := s.head, held := x.held - {l}, granted := x.granted - {l}))
             .(mutex := t)
  {
    assert Do(s, t, Release(l)) == BeginRelease(s, t, l);
    After(w, r, s, t, Release(l));
    var s1 := BeginRelease(s, t, l);
    var s2 := Put(s1, t, s1.threads[t].(pc := Top)).(mutex := t);
    Then(w, r, s1, t, s2);
    u := Put(s2, t, s2.threads[t].(pc := Test, target := s.head));
    Then(w, r, s2, t, u);
  }

  /** It rolls back: its lock on record 1 first, which wakes thread 0. */
  lemma {:induction false} Wakes(w: System, s: State) returns (u: State)
    requires At(w, 1, s) && Queued(s, 1, 0) && s.threads[0].pc.Waiting? && Elsewhere(w, 1, 1)
    ensures At(w, 1, u) && u.threads[1].pc.Idle? && |u.cells| == 2 && u.cells[1].signal
  {
    var s1 := Releases(w, 1, s, 1, 0);
    var s2 := Put(s1, 1, s1.threads[1].(pc := Follow));
    Then(w, 1, s1, 1, s2);
    var s3 := MovesOn(w, s2);
    u := Signals(w, s3);
  }

  /** And then the one on record 0, where the head is in use. */
  lemma {:induction false} Last(w: System, s: State) returns (u: State)
    requires At(w, 0, s) && Crowded(s, true) && s.mutex == NULL && Elsewhere(w, 0, 1)
    requires s.threads[1].pc.Idle? && s.threads[1].held == {1} && s.threads[2].pc.Waiting?
    ensures At(w, 0, u) && Crowded(u, true) && u.threads[2] == s.threads[2]
    ensures u.threads[1].pc.Idle? && u.threads[1].held == {}
  {
    var s1 := Releases(w, 0, s, 1, 1);
    u := Leave(s1, 1);
    Then(w, 0, s1, 1, u);
  }

  /** Thread 0 has read record 0 and waits to write record 1, which thread 1 has read. */
  lemma {:induction false} Crossed() returns (a: State, b: State)
    ensures At([a, b], 0, a) && Held(a, 0) && Queued(b, 1, 0) && b.threads[0].pc.Waiting?
  {
    var w := ExecAll(2, 3, []);
    assert w[0 := Init(3)] == w && w[0] == Init(3) && w[1] == Init(3);
    a := First(w, 0, 0);
    var w1 := [a, Init(3)];
    assert w[0 := a] == w1 && w1[1 := Init(3)] == w1;
    var b1 := First(w1, 1, 1);
    var w2 := [a, b1];
    assert w1[1 := b1] == w2 && w2[1 := b1] == w2;
    var b2 := Second(w2, 1, b1, 1, 0);
    assert w2[1 := b2] == [a, b2];
    forall v ensures Whole([a, b2]) && !Waits([a, b2], v, 0) {
      WaitsOnEither(a, b2, v, 0);
      HeldWaits(a, 0, v, 0);
      QueuedWaits(b2, 1, 0, v, 0);
    }
    NotDeadlocked([a, b2], 0);
    GoesToWait(w2, 1, b2, 0);
    b := StepBlocked(b2, 0);
    assert w2[1 := b] == [a, b] && [a, b][0 := a] == [a, b];
  }

  lemma {:induction false} IsLeftBehind(s: State)
    requires Sized(s) && Crowded(s, true) && s.threads[2].pc.Waiting?
    requires s.threads[1].pc.Idle? && s.threads[1].held == {}
    ensures LeftBehind(s, 2)
  {
    forall u | 0 <= u < 3 ensures !s.threads[u].pc.Enter? && !InMutex(s.threads[u].pc) && !Owes(s, u) {
      assert u == 0 || u == 1 || u == 2;
    }
  }

  /** It happens: on record 0 thread 2 waits behind the shared lock of thread 0 only. */
  lemma {:induction false} SharedLeftBehind()
    ensures exists sched {:trigger ExecAll(2, 3, sched)} ::
              var s := ExecAll(2, 3, sched)[0]; |s.threads| == 3 && LeftBehind(s, 2)
  {
    var a, b := Crossed();
    var a1 := Second([a, b], 0, a, 0, 1);
    assert [a, b][0 := a1] == [a1, b] && [a1, b][0 := a1] == [a1, b];
    var a2 := Third([a1, b], a1, b);
    assert [a1, b][0 := a2] == [a2, b] && [a2, b][0 := a2] == [a2, b];
    var a3 := GivesUp([a2, b], a2, b);
    assert [a2, b][0 := a3] == [a3, b] && [a3, b][1 := b] == [a3, b];
    var b1 := Wakes([a3, b], b);
    assert [a3, b][1 := b1] == [a3, b1] && [a3, b1][0 := a3] == [a3, b1];
    var a4 := Last([a3, b1], a3);
    IsLeftBehind(a4);
    var sched :| ExecAll(2, 3, sched) == [a3, b1][0 := a4];
    assert ExecAll(2, 3, sched)[0] == a4;
  }
}
