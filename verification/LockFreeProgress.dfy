/** The walk over the locks ahead and the check of what it collected end after a bounded number of the
    thread's own steps, whatever the other threads do. */
module LockFreeProgress {
  import opened LockFreeFrame
  import opened LockFreeInvariant
  import opened LockFreeList
  import opened LockFreeQuiet
  import opened LockFreeSafety

  predicate Walking(pc: PC)
  {
    pc.ReadHead? || pc.CheckId? || pc.ReadNext? || InScan(pc)
  }

  /** Steps of a walk over d places, with everything that starting over can cost. */
  function Walk(d: nat): (w: nat)
  {
    d * d + 3 * d
  }

  /** A walk over d + 1 places is two steps for each of them, two more, and a walk over d places. */
  lemma {:induction false} WalkSteps(d: nat)
    requires d > 0
    ensures Walk(d) == Walk(d - 1) + 2 * d + 2
  {
    assert (d - 1) * (d - 1) == d * d - 2 * d + 1;
  }

  lemma {:induction false} WalkGrows(d: nat, e: nat)
    requires d <= e
    ensures Walk(d) <= Walk(e)
  {
    assert d * d <= d * e <= e * e;
  }

  /** What is left of the walk and of the check. */
  function Work(x: Thread, p: int): (w: int)
  {
    var d := p - x.start;
    var rest := if d > 0 then Walk(d - 1) else 0;
    match x.pc
    case ReadHead => 1 + (if d >= 0 then Walk(d) else 0) + 5 * p + 1
    case CheckId => 2 * (d - |x.vec|) + 2 + rest + 5 * p + 1
    case ReadNext => 2 * (d - |x.vec|) + 3 + rest + 5 * p + 1
    case ScanState => 5 * x.todo + 1
    case ScanId => 5 * x.todo
    case ScanMode => 5 * x.todo - 1
    case AgainState => 5 * x.todo - 2
    case AgainId => 5 * x.todo - 3
    case _ => 0
  }

  /** The place of the thread's own lock. */
  function OwnPos(s: State, t: nat): (p: int)
    requires t < |s.threads|
  {
    if s.threads[t].lock < |s.pos| then s.pos[s.threads[t].lock] else NULL
  }

  /** The work left to a thread that walks towards its own lock. */
  function Left(s: State, t: nat): (w: int)
    requires t < |s.threads|
  {
    if Walking(s.threads[t].pc) then Work(s.threads[t], OwnPos(s, t)) else 0
  }

  lemma {:induction false} LeftBound(s: State, t: nat)
    requires Inv(s) && t < |s.threads| && Walking(s.threads[t].pc)
    ensures var p := OwnPos(s, t); p >= 0 && 0 < Left(s, t) <= p * p + 8 * p + 2
  {
    Walker(s, t);
    assert ThreadOK(s, t);
    var x := s.threads[t];
    var p := s.pos[x.lock];
    WalkGrows(p - x.start, p);
    if p - x.start > 0 { WalkSteps(p - x.start); }
    assert Walk(p) == p * p + 3 * p;
  }

  // ---------------------------------------------------------------- one step of the walk

  lemma {:induction false} ReadHeadLess(s: State, t: nat)
    requires Inv(s) && t < |s.threads| && s.threads[t].pc.ReadHead?
    ensures Left(StepReadHead(s, t), t) < Left(s, t)
  {
    Walker(s, t);
    assert ThreadOK(s, t);
    var x := s.threads[t];
    var p := s.pos[x.lock];
    WalkGrows(p - s.headPos, p - x.start);
    if s.headPos < p { WalkSteps(p - s.headPos); }
    if s.headPos == p { assert s.head == x.lock; }
  }

  lemma {:induction false} CheckIdLess(s: State, t: nat)
    requires Inv(s) && t < |s.threads| && s.threads[t].pc.CheckId?
    ensures Left(StepCheckId(s, t), t) < Left(s, t)
  {
    Walker(s, t);
    TargetDecides(s, t);
    assert ThreadOK(s, t);
  }

  lemma {:induction false} ReadNextLess(s: State, t: nat)
    requires Inv(s) && t < |s.threads| && s.threads[t].pc.ReadNext?
    ensures Left(StepReadNext(s, t), t) < Left(s, t)
  {
    Walker(s, t);
    NextInPlace(s, t);
    assert ThreadOK(s, t);
  }

  lemma {:induction false} ScanLess(s: State, t: nat)
    requires Sized(s) && t < |s.threads| && InScan(s.threads[t].pc)
    requires var x := s.threads[t];
      && x.lock < |s.cells| && x.todo <= |x.vec| && (x.todo > 0 ==> x.vec[x.todo - 1] < |s.cells|)
      && (!x.pc.ScanState? ==> x.todo > 0 && x.target == x.vec[x.todo - 1])
    ensures Left(StepOf(s, t), t) < Left(s, t)
  {
    var pc := s.threads[t].pc;
    if pc.ScanState? {
      assert StepOf(s, t) == StepScanState(s, t);
    } else if pc.ScanId? {
      assert StepOf(s, t) == StepTestId(s, t, ScanMode);
    } else if pc.ScanMode? {
      assert StepOf(s, t) == StepScanMode(s, t);
    } else if pc.AgainState? {
      assert StepOf(s, t) == StepAgainState(s, t);
    } else {
      assert StepOf(s, t) == StepTestId(s, t, PC.Blocked);
    }
  }

  lemma {:induction false} StepLess(s: State, t: nat)
    requires Inv(s) && t < |s.threads| && Walking(s.threads[t].pc)
    ensures Left(StepOf(s, t), t) < Left(s, t)
  {
    var pc := s.threads[t].pc;
    if pc.ReadHead? {
      ReadHeadLess(s, t);
      assert StepOf(s, t) == StepReadHead(s, t);
    } else if pc.CheckId? {
      CheckIdLess(s, t);
      assert StepOf(s, t) == StepCheckId(s, t);
    } else if pc.ReadNext? {
      ReadNextLess(s, t);
      assert StepOf(s, t) == StepReadNext(s, t);
    } else {
      Walker(s, t);
      ScanCells(s, t);
      ScanLess(s, t);
    }
  }

  /** A walk is at its own thread's mercy only. */
  lemma {:induction false} OtherLeaves(s: State, s1: State, t: nat, u: nat)
    requires Inv(s) && Sized(s1) && Respects(s, s1, t) && u < |s.threads| && u != t && Walking(s.threads[u].pc)
    ensures s1.threads[u] == s.threads[u] && OwnPos(s1, u) == OwnPos(s, u) && Left(s1, u) == Left(s, u)
  {
    Walker(s, u);
    assert CellGrows(s, s1, s.threads[u].lock);
  }

  // ---------------------------------------------------------------- runs

  /** Own turns of thread t in a schedule. */
  function Turns(sched: seq<(nat, Action)>, t: nat): (n: nat)
  {
    if sched == [] then 0
    else Turns(sched[..|sched| - 1], t) + (if sched[|sched| - 1] == (t, Step) then 1 else 0)
  }

  /** Each own step of a walk uses up work, and no event of another thread adds any. */
  lemma {:induction false} WaitFree(n: nat, sched: seq<(nat, Action)>, t: nat, u: nat, a: Action)
    requires t < n && Walking(Exec(n, sched).threads[t].pc)
    ensures var s, s1 := Exec(n, sched), Exec(n, sched + [(u, a)]);
            Left(s1, t) <= Left(s, t) - (if (u, a) == (t, Step) then 1 else 0)
  {
    var s := Exec(n, sched);
    RunInv(n, sched);
    assert (sched + [(u, a)])[..|sched + [(u, a)]| - 1] == sched;
    if u == t {
      if a.Step? { StepLess(s, t); }
    } else if u < n {
      DoInv(s, u, a);
      OtherLeaves(s, Do(s, u, a), u, t);
    }
  }

  predicate EndsWithin(n: nat, sched: seq<(nat, Action)>, t: nat, more: seq<(nat, Action)>)
    requires t < n
  {
    exists k :: 0 <= k <= |more| && !Walking(Exec(n, sched + more[..k]).threads[t].pc)
  }

  lemma {:induction false} EndsLater(
    n: nat, sched: seq<(nat, Action)>, t: nat, more: seq<(nat, Action)>, e: (nat, Action))
    requires t < n && EndsWithin(n, sched, t, more)
    ensures EndsWithin(n, sched, t, more + [e])
  {
    var k :| 0 <= k <= |more| && !Walking(Exec(n, sched + more[..k]).threads[t].pc);
    assert (more + [e])[..k] == more[..k];
  }

  /** Either the walk has ended, or its remaining work has dropped by one per turn. */
  lemma {:induction false} Progress(n: nat, sched: seq<(nat, Action)>, t: nat, more: seq<(nat, Action)>)
    requires t < n
    ensures EndsWithin(n, sched, t, more)
            || Turns(more, t) + Left(Exec(n, sched + more), t) <= Left(Exec(n, sched), t)
    decreases |more|
  {
    if more == [] {
      assert sched + more == sched;
    } else {
      var prev := more[..|more| - 1];
      var (u, a) := more[|more| - 1];
      Progress(n, sched, t, prev);
      assert prev + [(u, a)] == more && sched + more == (sched + prev) + [(u, a)];
      if EndsWithin(n, sched, t, prev) {
        EndsLater(n, sched, t, prev, (u, a));
      } else {
        assert prev[..|prev|] == prev;
        WaitFree(n, sched + prev, t, u, a);
      }
    }
  }

  /** A walk towards place p ends by the time its thread has had p * p + 8 * p + 2 turns. */
  lemma {:induction false} WalkEnds(n: nat, sched: seq<(nat, Action)>, t: nat, more: seq<(nat, Action)>)
    requires t < n && Walking(Exec(n, sched).threads[t].pc)
    requires var p := OwnPos(Exec(n, sched), t); Turns(more, t) >= p * p + 8 * p + 2
    ensures EndsWithin(n, sched, t, more)
  {
    RunInv(n, sched);
    RunInv(n, sched + more);
    LeftBound(Exec(n, sched), t);
    if !Walking(Exec(n, sched + more).threads[t].pc) {
      assert more[..|more|] == more;
    } else {
      Progress(n, sched, t, more);
      LeftBound(Exec(n, sched + more), t);
    }
  }
}
