/** Every run can be completed: with three records and a thread, every reachable state has a continuation in
    which all threads come to their end; with fewer records none has. */
module SystemCompletion {
  import opened LockTable
  import opened SystemInvariant
  import opened SystemSafety
  import opened SystemTheorems
  import opened Transactions

  // ---------------------------------------------------------------- one step less

  /** A bound on the steps left in the transaction. */
  function Left(pc: PC): (k: int)
  {
    match pc
    case Lock(m) => 21 - 4 * m
    case Blocked(m) => 20 - 4 * m
    case Access(m) => 19 - 4 * m
    case Note(m) => 18 - 4 * m
    case Commit => 9
    case Undo(a) => 7 - 2 * a
    case FreeUndone(a) => 6 - 2 * a
    case Log(a) => 8 - 2 * a
    case FreeLogged(a) => 7 - 2 * a
    case Publish => 1
    case _ => 0
  }

  function TotalLeft(xs: seq<Trx>): (k: int)
  {
    if xs == [] then 0 else Left(xs[0].pc) + TotalLeft(xs[1..])
  }

  lemma {:induction false} TotalPut(xs: seq<Trx>, t: nat, x: Trx)
    requires t < |xs|
    ensures TotalLeft(xs[t := x]) == TotalLeft(xs) - Left(xs[t].pc) + Left(x.pc)
  {
    if t == 0 {
      assert xs[t := x][1..] == xs[1..];
    } else {
      TotalPut(xs[1..], t - 1, x);
      assert xs[t := x][1..] == xs[1..][t - 1 := x];
    }
  }

  predicate AtRest(x: Trx)
  {
    x.pc.Idle? || x.pc.Done?
  }

  lemma {:induction false} LeftNotNegative(s: System, t: nat)
    requires t < |s.trx| && TrxOK(s, t)
    ensures Left(s.trx[t].pc) >= 0
  {
  }

  lemma {:induction false} TotalNotNegative(xs: seq<Trx>)
    requires forall t | 0 <= t < |xs| :: Left(xs[t].pc) >= 0
    ensures TotalLeft(xs) >= 0
  {
    if xs != [] {
      assert Left(xs[0].pc) >= 0;
      TotalNotNegative(xs[1..]);
    }
  }

  /** The step changes its own transaction only, which comes closer to its end. */
  predicate Closer(s: System, s1: System, t: nat)
    requires t < |s.trx|
  {
    && |s1.trx| == |s.trx| && s1.trx == s.trx[t := s1.trx[t]]
    && Left(s1.trx[t].pc) < Left(s.trx[t].pc) && s1.count >= s.count
  }

  lemma {:induction false} GrowingCloser(s: System, t: nat, l: nat)
    requires |s.trx| == |s.logs| && CanStep(s, t) && TrxOK(s, t) && l !in s.table.locks
    requires s.trx[t].pc.Lock? || s.trx[t].pc.Blocked? || s.trx[t].pc.Access? || s.trx[t].pc.Note?
    ensures Closer(s, StepOf(s, t, l), t)
  {
  }

  lemma {:induction false} FreeCloser(s: System, t: nat, l: nat)
    requires |s.trx| == |s.logs| && CanStep(s, t) && TrxOK(s, t)
    requires s.trx[t].pc.FreeUndone? || s.trx[t].pc.FreeLogged?
    ensures Closer(s, StepOf(s, t, l), t)
  {
    hide Release;
  }

  lemma {:induction false} EndingCloser(s: System, t: nat, l: nat)
    requires |s.trx| == |s.logs| && CanStep(s, t) && TrxOK(s, t)
    requires s.trx[t].pc.Undo? || s.trx[t].pc.Commit? || s.trx[t].pc.Log? || s.trx[t].pc.Publish?
    ensures Closer(s, StepOf(s, t, l), t)
  {
  }

  lemma {:induction false} StepCloser(s: System, t: nat, l: nat)
    requires SysInv(s) && CanStep(s, t) && l !in s.table.locks
    ensures Closer(s, StepOf(s, t, l), t)
  {
    var pc := s.trx[t].pc;
    assert TrxOK(s, t);
    if pc.Lock? || pc.Blocked? || pc.Access? || pc.Note? {
      GrowingCloser(s, t, l);
    } else if pc.FreeUndone? || pc.FreeLogged? {
      FreeCloser(s, t, l);
    } else {
      EndingCloser(s, t, l);
    }
  }

  /** There is always another lock object. */
  lemma {:induction false} Unused(locks: set<nat>) returns (l: nat)
    ensures l !in locks && forall k | k in locks :: k < l
  {
    if locks == {} {
      l := 0;
    } else {
      var k :| k in locks;
      l := Unused(locks - {k});
      l := if l > k then l else k + 1;
      forall j | j in locks ensures j < l { assert j == k || j in locks - {k}; }
    }
  }

  lemma {:induction false} OneMore(records: nat, threads: nat, last: int, sched: seq<(nat, Action)>, t: nat, a: Action)
    ensures Exec(records, threads, last, sched + [(t, a)]) == Do(Exec(records, threads, last, sched), t, a)
  {
    assert (sched + [(t, a)])[..|sched|] == sched;
  }

  // ---------------------------------------------------------------- everybody comes to rest

  /** A transaction that can take a step, if not all are at rest. */
  lemma {:induction false} SomeStep(records: nat, threads: nat, last: int, sched: seq<(nat, Action)>)
    returns (t: nat, l: nat)
    requires exists u :: 0 <= u < threads && !AtRest(Exec(records, threads, last, sched).trx[u])
    ensures var s := Exec(records, threads, last, sched); CanStep(s, t) && l !in s.table.locks
  {
    var s := Exec(records, threads, last, sched);
    RunInv(records, threads, last, sched);
    t :| 0 <= t < threads && !AtRest(s.trx[t]);
    assert TrxOK(s, t);
    if s.trx[t].pc.Blocked? { t := SystemNeverStuck(records, threads, last, sched, t); }
    l := Unused(s.table.locks.Keys);
  }

  lemma {:induction false} RunLeft(records: nat, threads: nat, last: int, sched: seq<(nat, Action)>)
    ensures TotalLeft(Exec(records, threads, last, sched).trx) >= 0
  {
    var s := Exec(records, threads, last, sched);
    RunInv(records, threads, last, sched);
    forall t | 0 <= t < |s.trx| ensures Left(s.trx[t].pc) >= 0 {
      assert TrxOK(s, t);
      LeftNotNegative(s, t);
    }
    TotalNotNegative(s.trx);
  }

  /** If nobody begins anything new, everybody comes to rest: a blocked transaction never keeps the others from
      going on until it is woken. */
  lemma {:induction false} ComeToRest(records: nat, threads: nat, last: int, sched: seq<(nat, Action)>)
    returns (more: seq<(nat, Action)>)
    ensures forall t | 0 <= t < threads :: AtRest(Exec(records, threads, last, sched + more).trx[t])
    decreases TotalLeft(Exec(records, threads, last, sched).trx)
  {
    var s := Exec(records, threads, last, sched);
    if forall t | 0 <= t < threads :: AtRest(s.trx[t]) {
      more := [];
      assert sched + [] == sched;
    } else {
      var t, l := SomeStep(records, threads, last, sched);
      RunInv(records, threads, last, sched);
      OneMore(records, threads, last, sched, t, Step(l));
      StepCloser(s, t, l);
      TotalPut(s.trx, t, StepOf(s, t, l).trx[t]);
      RunLeft(records, threads, last, sched + [(t, Step(l))]);
      var rest := ComeToRest(records, threads, last, sched + [(t, Step(l))]);
      more := [(t, Step(l))] + rest;
      assert sched + more == sched + [(t, Step(l))] + rest;
    }
  }

  // ---------------------------------------------------------------- one transaction by itself

  predicate Alone(s: System, t: nat)
  {
    t < |s.trx| && forall u {:trigger s.trx[u]} | 0 <= u < |s.trx| && u != t :: AtRest(s.trx[u])
  }

  /** Nothing is in the way of a transaction that runs by itself. */
  lemma {:induction false} NothingInTheWay(s: System, t: nat, m: nat, k: nat)
    requires SysInv(s) && Alone(s, t) && s.trx[t].pc == Lock(m)
    requires var r := Rec(s.trx[t].tx, m); r in s.table.queue && k < |s.table.queue[r]|
    ensures var x := s.table.queue[Rec(s.trx[t].tx, m)][k];
            x in s.table.locks && s.table.locks[x].state == OBSOLETE
  {
    var r := Rec(s.trx[t].tx, m);
    var x := s.table.queue[r][k];
    assert TrxOK(s, t) && PathOK(s.table, r) && OwnedOK(s, x);
    forall y: nat | y < m ensures y < |s.trx[t].deque| && s.trx[t].deque[y] != x { assert Noted(s, t, y); }
  }

  /** So its lock is granted at once. */
  lemma {:induction false} GrantedAlone(s: System, t: nat, m: nat, l: nat)
    requires SysInv(s) && Alone(s, t) && s.trx[t].pc == Lock(m) && l !in s.table.locks
    ensures StepOf(s, t, l).trx[t].pc == Access(m)
  {
    var x := s.trx[t];
    var r := Rec(x.tx, m);
    assert TrxOK(s, t) && ValidTx(s, x.tx);
    assert r in s.value && r in s.table.queue && PathOK(s.table, r);
    forall k | 0 <= k < |s.table.queue[r]|
      ensures !Blocks(s.table.locks[s.table.queue[r][k]], LockInfo(r, t, ModeOf(m), ACTIVE, false, false, 0))
    {
      NothingInTheWay(s, t, m, k);
    }
  }

  /** How far the only transaction in progress has come since the commit counter stood at c. */
  predicate Course(s: System, t: nat, c: int)
    requires t < |s.trx|
  {
    var x := s.trx[t];
    match x.pc
    case Lock(m) => s.count == c
    case Access(m) => s.count == c
    case Note(m) => s.count == c
    case Commit => s.count == c
    case Undo(a) => x.final && s.count == c + 1 > s.last
    case FreeUndone(a) => x.final && s.count == c + 1 > s.last
    case Done => s.count == c + 1 > s.last
    case Blocked(m) => false
    case AssertFailed => false
    case _ => s.count == c + 1 <= s.last
  }

  lemma {:induction false} GrowingCourse(s: System, t: nat, l: nat, c: int)
    requires |s.trx| == |s.logs| && t < |s.trx| && TrxOK(s, t) && Course(s, t, c)
    requires s.trx[t].pc.Lock? || s.trx[t].pc.Access? || s.trx[t].pc.Note? || s.trx[t].pc.Commit?
    requires s.trx[t].pc.Lock? ==> StepOf(s, t, l).trx[t].pc == Access(s.trx[t].pc.m)
    requires |StepOf(s, t, l).trx| == |s.trx| && !StepOf(s, t, l).trx[t].pc.AssertFailed?
    ensures Course(StepOf(s, t, l), t, c)
  {
  }

  lemma {:induction false} EndingCourse(s: System, t: nat, l: nat, c: int)
    requires |s.trx| == |s.logs| && t < |s.trx| && TrxOK(s, t) && Course(s, t, c)
    requires s.trx[t].pc.Undo? || s.trx[t].pc.FreeUndone? || Committing(s.trx[t])
    requires |StepOf(s, t, l).trx| == |s.trx| && !StepOf(s, t, l).trx[t].pc.AssertFailed?
    ensures Course(StepOf(s, t, l), t, c)
  {
    hide Release, Listed, Rollback, Logging;
  }

  lemma {:induction false} CourseKept(s: System, t: nat, l: nat, c: int)
    requires SysInv(s) && Alone(s, t) && Course(s, t, c) && !AtRest(s.trx[t]) && l !in s.table.locks
    ensures CanStep(s, t) && |StepOf(s, t, l).trx| == |s.trx| && Course(StepOf(s, t, l), t, c)
  {
    assert TrxOK(s, t);
    StepInv(s, t, l);
    StepCloser(s, t, l);
    assert TrxOK(StepOf(s, t, l), t);
    hide SysInv, StepOf, TrxOK;
    if s.trx[t].pc.Undo? || s.trx[t].pc.FreeUndone? || Committing(s.trx[t]) {
      EndingCourse(s, t, l, c);
    } else {
      if s.trx[t].pc.Lock? { GrantedAlone(s, t, s.trx[t].pc.m, l); }
      GrowingCourse(s, t, l, c);
    }
  }

  /** It takes the next commit id: accepted if that is not past the last order, and otherwise its thread ends. */
  lemma {:induction false} RunAlone(records: nat, threads: nat, last: int, sched: seq<(nat, Action)>, t: nat, c: int)
    returns (more: seq<(nat, Action)>)
    requires var s := Exec(records, threads, last, sched); Alone(s, t) && Course(s, t, c)
    ensures var s, s1 := Exec(records, threads, last, sched), Exec(records, threads, last, sched + more);
      && Course(s1, t, c) && AtRest(s1.trx[t]) && s1.trx == s.trx[t := s1.trx[t]]
    decreases Left(Exec(records, threads, last, sched).trx[t].pc)
  {
    var s := Exec(records, threads, last, sched);
    RunInv(records, threads, last, sched);
    assert TrxOK(s, t);
    LeftNotNegative(s, t);
    hide Exec, SysInv, TrxOK, Course, StepOf, CanStep;
    if AtRest(s.trx[t]) {
      more := [];
      assert sched + [] == sched;
    } else {
      var l := Unused(s.table.locks.Keys);
      CourseKept(s, t, l, c);
      StepCloser(s, t, l);
      OneMore(records, threads, last, sched, t, Step(l));
      var rest := RunAlone(records, threads, last, sched + [(t, Step(l))], t, c);
      more := [(t, Step(l))] + rest;
      assert sched + more == sched + [(t, Step(l))] + rest;
    }
  }

  // ---------------------------------------------------------------- everybody ends

  function Unfinished(xs: seq<Trx>): (k: nat)
  {
    if xs == [] then 0 else (if xs[0].pc.Done? then 0 else 1) + Unfinished(xs[1..])
  }

  lemma {:induction false} UnfinishedPut(xs: seq<Trx>, t: nat, x: Trx)
    requires t < |xs| && !xs[t].pc.Done?
    ensures Unfinished(xs[t := x]) == Unfinished(xs) - (if x.pc.Done? then 1 else 0)
  {
    if t == 0 {
      assert xs[t := x][1..] == xs[1..];
    } else {
      UnfinishedPut(xs[1..], t - 1, x);
      assert xs[t := x][1..] == xs[1..][t - 1 := x];
    }
  }

  function ToGo(s: System): (k: nat)
  {
    if s.count >= s.last then 0 else s.last - s.count
  }

  /** A thread at rest begins a transaction. */
  lemma {:induction false} Starts(records: nat, threads: nat, last: int, sched: seq<(nat, Action)>, t: nat)
    requires records >= 3
    requires var s := Exec(records, threads, last, sched); Alone(s, t) && s.trx[t].pc.Idle?
    ensures var s, s1 := Exec(records, threads, last, sched),
                         Exec(records, threads, last, sched + [(t, Start(Tx(1, 2, 3)))]);
      && |s1.trx| == |s.trx| && s1.trx == s.trx[t := s1.trx[t]] && Alone(s1, t) && Course(s1, t, s.count)
  {
    RunRecords(records, threads, last, sched);
    OneMore(records, threads, last, sched, t, Start(Tx(1, 2, 3)));
  }

  /** One thread's next transaction: it is accepted, or its thread ends. */
  lemma {:induction false} OneTransaction(records: nat, threads: nat, last: int, sched: seq<(nat, Action)>, t: nat)
    returns (more: seq<(nat, Action)>)
    requires records >= 3
    requires var s := Exec(records, threads, last, sched); Alone(s, t) && s.trx[t].pc.Idle?
    ensures var s, s1 := Exec(records, threads, last, sched), Exec(records, threads, last, sched + more);
      && s1.trx == s.trx[t := s1.trx[t]] && AtRest(s1.trx[t])
      && (Unfinished(s1.trx) < Unfinished(s.trx) || (Unfinished(s1.trx) == Unfinished(s.trx) && ToGo(s1) < ToGo(s)))
  {
    var s := Exec(records, threads, last, sched);
    Starts(records, threads, last, sched, t);
    var sched1 := sched + [(t, Start(Tx(1, 2, 3)))];
    var one := RunAlone(records, threads, last, sched1, t, s.count);
    more := [(t, Start(Tx(1, 2, 3)))] + one;
    assert sched + more == sched1 + one;
    var s1 := Exec(records, threads, last, sched + more);
    RunRecords(records, threads, last, sched);
    RunRecords(records, threads, last, sched + more);
    UnfinishedPut(s.trx, t, s1.trx[t]);
  }

  lemma {:induction false} FinishFrom(records: nat, threads: nat, last: int, sched: seq<(nat, Action)>)
    returns (more: seq<(nat, Action)>)
    requires records >= 3 && threads > 0
    requires forall t | 0 <= t < threads :: AtRest(Exec(records, threads, last, sched).trx[t])
    ensures AllDone(Exec(records, threads, last, sched + more))
    decreases Unfinished(Exec(records, threads, last, sched).trx), ToGo(Exec(records, threads, last, sched))
  {
    hide Exec;
    var s := Exec(records, threads, last, sched);
    if AllDone(s) {
      more := [];
      assert sched + [] == sched;
    } else {
      var t: nat :| t < threads && s.trx[t].pc.Idle?;
      var one := OneTransaction(records, threads, last, sched, t);
      var rest := FinishFrom(records, threads, last, sched + one);
      more := one + rest;
      assert sched + more == sched + one + rest;
    }
  }

  /** With fewer than three records no thread ever begins. */
  lemma {:induction false} NeverBegins(records: nat, threads: nat, last: int, sched: seq<(nat, Action)>, t: nat)
    requires records < 3 && t < threads
    ensures Exec(records, threads, last, sched).trx[t].pc.Idle?
  {
    if sched != [] {
      var before := sched[..|sched| - 1];
      RunRecords(records, threads, last, before);
      NeverBegins(records, threads, last, before, t);
      var (u, a) := sched[|sched| - 1];
      if u < threads { NeverBegins(records, threads, last, before, u); }
    }
  }

  /** From any reachable state the run can be completed, if and only if there are three records and a thread. */
  lemma {:induction false} CanComplete(records: nat, threads: nat, last: int, sched: seq<(nat, Action)>)
    ensures (exists more: seq<(nat, Action)> :: AllDone(Exec(records, threads, last, sched + more)))
            <==> records >= 3 && threads > 0
  {
    if records >= 3 && threads > 0 {
      var more := ComeToRest(records, threads, last, sched);
      var rest := FinishFrom(records, threads, last, sched + more);
      assert sched + more + rest == sched + (more + rest);
    } else if more: seq<(nat, Action)> :| AllDone(Exec(records, threads, last, sched + more)) {
      NeverBegins(records, threads, last, sched + more, 0);
    }
  }
}
