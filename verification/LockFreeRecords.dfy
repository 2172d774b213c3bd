/** The lock-free lists of several records.  A thread works on one record at a time, and its deadlock search,
    here in one piece, follows the waits on all of them. */
module LockFreeRecords {
  import opened LockFreeFrame
  import opened LockFreeGrants
  import opened LockFreeInvariant
  import opened LockFreeList
  import opened LockFreeSafety

  // ---------------------------------------------------------------- the system

  type System = seq<State>

  datatype Event = Event(record: nat, thread: nat, action: Action)

  predicate Whole(w: System)
  {
    forall r {:trigger w[r]} | 0 <= r < |w| :: Sized(w[r])
  }

  /** On this record v has set its conflict lock, and a lock of u in use is ahead of it. */
  predicate WaitsOn(s: State, v: nat, u: nat)
    requires Sized(s)
  {
    v < |s.threads| && StageOf(s.threads[v].pc) == 9
    && var l := s.threads[v].lock;
       l < |s.cells|
       && exists m {:trigger Live(s, m)} ::
            0 <= m < |s.cells| && Live(s, m) && s.cells[m].owner == u && s.pos[m] < s.pos[l]
  }

  predicate Waits(w: System, v: nat, u: nat)
    requires Whole(w)
  {
    exists r {:trigger w[r]} :: 0 <= r < |w| && WaitsOn(w[r], v, u)
  }

  /** Each thread of the path waits for the next. */
  predicate Chain(w: System, path: seq<nat>)
    requires Whole(w)
  {
    |path| >= 2 && forall i {:trigger path[i]} | 0 <= i < |path| - 1 :: Waits(w, path[i], path[i + 1])
  }

  predicate Cycle(w: System, path: seq<nat>)
    requires Whole(w)
  {
    Chain(w, path) && path[0] == path[|path| - 1]
  }

  /** What the deadlock search looks for: a way back to t. */
  ghost predicate Deadlocked(w: System, t: nat)
    requires Whole(w)
  {
    exists path: seq<nat> {:trigger Cycle(w, path)} :: Cycle(w, path) && path[0] == t
  }

  predicate IdleElsewhere(w: System, r: nat, t: nat)
  {
    forall q {:trigger w[q]} | 0 <= q < |w| && q != r && t < |w[q].threads| :: w[q].threads[t].pc.Idle?
  }

  /** A thread is in one call at a time, and becomes a victim if and only if the search finds it deadlocked. */
  ghost predicate Possible(w: System, e: Event)
    requires Whole(w)
  {
    && e.record < |w| && e.thread < |w[e.record].threads| && IdleElsewhere(w, e.record, e.thread)
    && (w[e.record].threads[e.thread].pc.Blocked? ==> (e.action.Victim? <==> Deadlocked(w, e.thread)))
  }

  ghost function DoAt(w: System, e: Event): (w1: System)
    requires Whole(w)
    ensures Whole(w1) && |w1| == |w|
  {
    if Possible(w, e) then w[e.record := Do(w[e.record], e.thread, e.action)] else w
  }

  ghost function ExecAll(records: nat, n: nat, sched: seq<Event>): (w: System)
    ensures Whole(w) && |w| == records
  {
    if sched == [] then seq(records, _ => Init(n))
    else DoAt(ExecAll(records, n, sched[..|sched| - 1]), sched[|sched| - 1])
  }

  // ---------------------------------------------------------------- each record by itself

  /** The events of a schedule that take place on record r. */
  ghost function EventsOn(records: nat, n: nat, sched: seq<Event>, r: nat): (own: seq<(nat, Action)>)
  {
    if sched == [] then []
    else
      var rest, e := sched[..|sched| - 1], sched[|sched| - 1];
      var own := EventsOn(records, n, rest, r);
      if e.record == r && Possible(ExecAll(records, n, rest), e) then own + [(e.thread, e.action)] else own
  }

  /** What happens on one record is a run of that record: whatever holds of every run of one list holds of
      every list of the system. */
  lemma {:induction false} EachRecord(records: nat, n: nat, sched: seq<Event>, r: nat)
    requires r < records
    ensures ExecAll(records, n, sched)[r] == Exec(n, EventsOn(records, n, sched, r))
  {
    if sched != [] {
      hide Possible, Do;
      var rest, e := sched[..|sched| - 1], sched[|sched| - 1];
      EachRecord(records, n, rest, r);
      var own := EventsOn(records, n, rest, r);
      assert (own + [(e.thread, e.action)])[..|own|] == own;
    }
  }

  lemma {:induction false} RecordInv(records: nat, n: nat, sched: seq<Event>, r: nat)
    requires r < records
    ensures Inv(ExecAll(records, n, sched)[r]) && |ExecAll(records, n, sched)[r].threads| == n
  {
    EachRecord(records, n, sched, r);
    RunInv(n, EventsOn(records, n, sched, r));
  }

  // ---------------------------------------------------------------- one call at a time

  /** An event changes the threads of one record, and of them only its own. */
  lemma {:induction false} OtherIdle(w: System, e: Event, q: nat, t: nat)
    requires Whole(w) && q < |w| && Inv(w[q]) && t < |w[q].threads|
    ensures var w1 := DoAt(w, e);
      && |w1[q].threads| == |w[q].threads|
      && (w1[q].threads[t] == w[q].threads[t] || (q == e.record && t == e.thread && IdleElsewhere(w, q, t)))
  {
    if q == e.record { DoInv(w[q], e.thread, e.action); }
  }

  /** Where a thread is in a call on one record, it is in none on any other: its conflict lock is null when
      AcquireLock sets it. */
  lemma {:induction false} OneCall(records: nat, n: nat, sched: seq<Event>, q: nat, r: nat, t: nat)
    requires q < records && r < records && q != r && t < n
    ensures var w := ExecAll(records, n, sched);
      && t < |w[q].threads| && t < |w[r].threads|
      && (w[q].threads[t].pc.Idle? || w[r].threads[t].pc.Idle?)
  {
    RecordInv(records, n, sched, q);
    RecordInv(records, n, sched, r);
    if sched != [] {
      var rest, e := sched[..|sched| - 1], sched[|sched| - 1];
      OneCall(records, n, rest, q, r, t);
      RecordInv(records, n, rest, q);
      RecordInv(records, n, rest, r);
      OtherIdle(ExecAll(records, n, rest), e, q, t);
      OtherIdle(ExecAll(records, n, rest), e, r, t);
    }
  }

  // ---------------------------------------------------------------- no deadlock is missed

  predicate IsWaiting(w: System, v: nat)
  {
    exists r {:trigger w[r]} :: 0 <= r < |w| && v < |w[r].threads| && w[r].threads[v].pc.Waiting?
  }

  predicate AllWaiting(w: System, path: seq<nat>)
  {
    forall i {:trigger path[i]} | 0 <= i < |path| :: IsWaiting(w, path[i])
  }

  predicate Single(w: System)
  {
    forall q, r, t {:trigger w[q].threads[t], w[r].threads[t]} |
      0 <= q < |w| && 0 <= r < |w| && q != r && 0 <= t < |w[q].threads| && t < |w[r].threads| ::
      w[q].threads[t].pc.Idle? || w[r].threads[t].pc.Idle?
  }

  /** Two neighbours on the path turned round at place i are neighbours on the path. */
  lemma {:induction false} Neighbours(path: seq<nat>, i: nat, j: nat)
    requires |path| >= 2 && path[0] == path[|path| - 1] && i < |path| && j < |path| - 1
    ensures var round, k := path[i..] + path[1..i + 1], if j + i < |path| - 1 then j + i else j + i + 1 - |path|;
            |round| == |path| && round[j] == path[k] && round[j + 1] == path[k + 1]
  {
  }

  /** A cycle may be entered anywhere. */
  lemma {:induction false} Rotated(w: System, path: seq<nat>, i: nat)
    requires Whole(w) && Cycle(w, path) && i < |path|
    ensures var round := path[i..] + path[1..i + 1]; Cycle(w, round) && round[0] == path[i]
  {
    hide Waits;
    var round := path[i..] + path[1..i + 1];
    forall j | 0 <= j < |round| - 1 ensures Waits(w, round[j], round[j + 1]) {
      Neighbours(path, i, j);
      var k := if j + i < |path| - 1 then j + i else j + i + 1 - |path|;
      assert Waits(w, path[k], path[k + 1]);
    }
    Neighbours(path, i, |path| - 2);
  }

  /** A thread comes to wait by the end of its search only. */
  lemma {:induction false} WaitingBack(s: State, t: nat, a: Action)
    requires Inv(s) && t < |s.threads| && Do(s, t, a).threads[t].pc.Waiting?
    ensures var x, y := s.threads[t], Do(s, t, a).threads[t];
            (x.pc.Waiting? || (a.Step? && x.pc.Blocked?)) && y.lock == x.lock
  {
    DoInv(s, t, a);
    assert Moves(s, Do(s, t, a), t);
  }

  /** Who is ahead of a lock was ahead of it before. */
  lemma {:induction false} AheadBack(s: State, s1: State, v: nat, u: nat)
    requires Inv(s) && Sized(s1) && Grows(s, s1) && v < |s.threads| == |s1.threads|
    requires StageOf(s.threads[v].pc) == 9 && s1.threads[v].lock == s.threads[v].lock && WaitsOn(s1, v, u)
    ensures WaitsOn(s, v, u)
  {
    var l := s1.threads[v].lock;
    OwnPlace(s, v);
    var m :| 0 <= m < |s1.cells| && Live(s1, m) && s1.cells[m].owner == u && s1.pos[m] < s1.pos[l];
    assert CellGrows(s, s1, l);
    LiveBack(s, s1, m);
    assert CellGrows(s, s1, m) && Live(s, m);
  }

  /** Whoever waits now waited before, or has just ended its search, and for no other threads than then. */
  lemma {:induction false} WaitsOnBack(s: State, t: nat, a: Action, v: nat, u: nat)
    requires Inv(s) && v < |s.threads| && Do(s, t, a).threads[v].pc.Waiting? && WaitsOn(Do(s, t, a), v, u)
    ensures WaitsOn(s, v, u)
    ensures s.threads[v].pc.Waiting? || (v == t && a.Step? && s.threads[v].pc.Blocked?)
  {
    assert Sized(s);
    hide Inv, WaitsOn;
    DoInv(s, t, a);
    if t < |s.threads| {
      if v == t { WaitingBack(s, t, a); }
      AheadBack(s, Do(s, t, a), v, u);
    }
  }

  /** A thread's wait is on the record on which it waits. */
  lemma {:induction false} WaitsThere(w: System, v: nat, u: nat) returns (r: nat)
    requires Whole(w) && Single(w) && IsWaiting(w, v) && Waits(w, v, u)
    ensures r < |w| && v < |w[r].threads| && w[r].threads[v].pc.Waiting? && WaitsOn(w[r], v, u)
  {
    r :| 0 <= r < |w| && v < |w[r].threads| && w[r].threads[v].pc.Waiting?;
    var q :| 0 <= q < |w| && WaitsOn(w[q], v, u);
    assert q == r;
  }

  predicate AllInv(w: System)
  {
    forall r {:trigger w[r]} | 0 <= r < |w| :: Inv(w[r])
  }

  lemma {:induction false} WaitsBack(w: System, e: Event, v: nat, u: nat)
    requires Whole(w) && AllInv(w) && Single(DoAt(w, e)) && IsWaiting(DoAt(w, e), v) && Waits(DoAt(w, e), v, u)
    ensures Waits(w, v, u)
    ensures IsWaiting(w, v) || (Possible(w, e) && v == e.thread && !Deadlocked(w, v))
  {
    hide Single, Deadlocked;
    var r := WaitsThere(DoAt(w, e), v, u);
    if Possible(w, e) && r == e.record {
      DoInv(w[r], e.thread, e.action);
      WaitsOnBack(w[r], e.thread, e.action, v, u);
    }
  }

  lemma {:induction false} AllSingle(records: nat, n: nat, sched: seq<Event>)
    ensures Single(ExecAll(records, n, sched)) && AllInv(ExecAll(records, n, sched))
  {
    var w := ExecAll(records, n, sched);
    forall r | 0 <= r < |w| ensures Inv(w[r]) && |w[r].threads| == n { RecordInv(records, n, sched, r); }
    forall q, r, t | 0 <= q < |w| && 0 <= r < |w| && q != r && 0 <= t < n
      ensures w[q].threads[t].pc.Idle? || w[r].threads[t].pc.Idle?
    {
      OneCall(records, n, sched, q, r, t);
    }
  }

  /** If threads wait for each other in a cycle, they did so before the event, and the search of the last one
      would have found it. */
  lemma {:induction false} CycleBack(w: System, e: Event, path: seq<nat>)
    requires Whole(w) && AllInv(w) && Single(DoAt(w, e))
    requires Cycle(DoAt(w, e), path) && AllWaiting(DoAt(w, e), path)
    ensures Cycle(w, path) && AllWaiting(w, path)
  {
    hide Single, DoAt, Waits, AllInv, IsWaiting;
    var w1 := DoAt(w, e);
    forall i | 0 <= i < |path| - 1 ensures Waits(w, path[i], path[i + 1]) {
      assert Waits(w1, path[i], path[i + 1]) && IsWaiting(w1, path[i]);
      WaitsBack(w, e, path[i], path[i + 1]);
    }
    assert Cycle(w, path);
    forall i | 0 <= i < |path| ensures IsWaiting(w, path[i]) {
      var k := if i == |path| - 1 then 0 else i;
      assert path[i] == path[k] && Waits(w1, path[k], path[k + 1]) && IsWaiting(w1, path[k]);
      WaitsBack(w, e, path[k], path[k + 1]);
      Rotated(w, path, k);
    }
  }

  /** No deadlock is missed: in no run do threads wait for each other in a cycle all of whose searches have
      ended, on however many records. */
  lemma {:induction false} NoCycleWaits(records: nat, n: nat, sched: seq<Event>, path: seq<nat>)
    ensures !(Cycle(ExecAll(records, n, sched), path) && AllWaiting(ExecAll(records, n, sched), path))
  {
    var w1 := ExecAll(records, n, sched);
    if Cycle(w1, path) && AllWaiting(w1, path) {
      assert IsWaiting(w1, path[0]);
      if sched != [] {
        var w := ExecAll(records, n, sched[..|sched| - 1]);
        AllSingle(records, n, sched);
        AllSingle(records, n, sched[..|sched| - 1]);
        CycleBack(w, sched[|sched| - 1], path);
        NoCycleWaits(records, n, sched[..|sched| - 1], path);
      }
    }
  }
}
