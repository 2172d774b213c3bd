/** The mode of a lock is the one that its current user has asked for, read off the schedule. */
module LockFreeModes {
  import opened LockFreeGrants
  import opened LockFreeInvariant
  import opened LockFreeList
  import opened LockFreeSafety

  // ---------------------------------------------------------------- requests

  datatype Request = Nobody | By(thread: nat, exclusive: bool)

  /** In this event, which calls AcquireLock with lock l to use, its thread leaves its idle state. */
  predicate BeginsAt(n: nat, sched: seq<(nat, Action)>, e: nat, l: nat)
    requires e < |sched|
  {
    var (t, a) := sched[e];
    t < n && a.Acquire? && a.l == l
    && Exec(n, sched[..e]).threads[t].pc.Idle? && !Exec(n, sched[..e + 1]).threads[t].pc.Idle?
  }

  /** Who began the current use of lock l, and which mode it asked for. */
  function Asked(n: nat, sched: seq<(nat, Action)>, l: nat): (request: Request)
  {
    if sched == [] then Nobody
    else
      var k := |sched| - 1;
      if BeginsAt(n, sched, k, l) then By(sched[k].0, sched[k].1.exclusive) else Asked(n, sched[..k], l)
  }

  // ---------------------------------------------------------------- what a step does to modes

  /** The owner of l is resetting its fields. */
  predicate InReset(s: State, l: nat)
    requires l < |s.cells|
  {
    var t := s.cells[l].owner;
    t < |s.threads| && s.threads[t].lock == l && s.threads[t].pc.Reset?
  }

  /** The step leaves the modes of all locks alone, and its thread is not resetting a lock after it. */
  predicate KeepsModes(s: State, s1: State, t: nat)
    requires t < |s.threads|
  {
    && |s1.cells| == |s.cells| && |s1.threads| == |s.threads| && !s1.threads[t].pc.Reset?
    && forall l {:trigger s1.cells[l]} | 0 <= l < |s.cells| ::
         s1.cells[l].exclusive == s.cells[l].exclusive && s1.cells[l].owner == s.cells[l].owner
  }

  lemma {:induction false} InsertKeepsModes(s: State, t: nat)
    requires Sized(s) && t < |s.threads| && StageOf(s.threads[t].pc) <= 8 && !s.threads[t].pc.Reset?
    ensures KeepsModes(s, StepOf(s, t), t)
  {
  }

  lemma {:induction false} CheckKeepsModes(s: State, t: nat)
    requires Sized(s) && t < |s.threads| && StageOf(s.threads[t].pc) == 9
    ensures KeepsModes(s, StepOf(s, t), t)
  {
  }

  lemma {:induction false} HeadKeepsModes(s: State, t: nat)
    requires Sized(s) && t < |s.threads| && StageOf(s.threads[t].pc) == 10 && !InWake(s.threads[t].pc)
    ensures KeepsModes(s, StepOf(s, t), t)
  {
  }

  lemma {:induction false} WakeKeepsModes(s: State, t: nat)
    requires Sized(s) && t < |s.threads| && InWake(s.threads[t].pc)
    ensures KeepsModes(s, StepOf(s, t), t)
  {
  }

  lemma {:induction false} StepKeepsModes(s: State, t: nat)
    requires Sized(s) && t < |s.threads| && !s.threads[t].pc.Reset?
    ensures KeepsModes(s, StepOf(s, t), t)
  {
    var g := StageOf(s.threads[t].pc);
    if g <= 8 {
      InsertKeepsModes(s, t);
    } else if g == 9 {
      CheckKeepsModes(s, t);
    } else if InWake(s.threads[t].pc) {
      WakeKeepsModes(s, t);
    } else {
      HeadKeepsModes(s, t);
    }
  }

  /** The lock shows the mode asked for, or its owner remembers to set it. */
  predicate ModeOK(s: State, l: nat, request: Request)
    requires l < |s.cells|
  {
    var c := s.cells[l];
    && request.By? && c.owner == request.thread < |s.threads|
    && (if InReset(s, l) then s.threads[c.owner].exclusive else c.exclusive) == request.exclusive
  }

  /** An own step while the fields are reset. */
  lemma {:induction false} ResetMode(s: State, t: nat, l: nat, request: Request)
    requires Inv(s) && t < |s.threads| && s.threads[t].pc.Reset? && l < |s.cells| && ModeOK(s, l, request)
    ensures var s1 := StepOf(s, t); l < |s1.cells| && ModeOK(s1, l, request)
  {
    assert ThreadOK(s, t);
    assert StepOf(s, t) == StepReset(s, t, s.threads[t].pc.k);
  }

  /** A step of a thread that resets nothing. */
  lemma {:induction false} OthersMode(s: State, s1: State, t: nat, l: nat, request: Request)
    requires t < |s.threads| && !s.threads[t].pc.Reset? && KeepsModes(s, s1, t)
    requires forall u {:trigger s1.threads[u]} | 0 <= u < |s.threads| && u != t :: s1.threads[u] == s.threads[u]
    requires l < |s.cells| && ModeOK(s, l, request)
    ensures ModeOK(s1, l, request)
  {
    assert s1.cells[l].owner == s.cells[l].owner;
  }

  /** An event that does not begin a use of l. */
  lemma {:induction false} EventMode(s: State, t: nat, a: Action, l: nat, request: Request)
    requires Inv(s) && l < |s.cells| && ModeOK(s, l, request)
    requires a.Acquire? && a.l == l && t < |s.threads| && s.threads[t].pc.Idle? ==> Do(s, t, a).threads[t].pc.Idle?
    ensures var s1 := Do(s, t, a); l < |s1.cells| && ModeOK(s1, l, request)
  {
    if t < |s.threads| && a.Step? {
      if s.threads[t].pc.Reset? {
        ResetMode(s, t, l, request);
      } else {
        StepKeepsModes(s, t);
        StepInv(s, t);
        OthersMode(s, StepOf(s, t), t, l, request);
      }
    }
  }

  /** A lock object comes into being by the event that begins its first use. */
  lemma {:induction false} NewOnlyBegun(s: State, t: nat, a: Action, l: nat)
    requires Inv(s) && l < |Do(s, t, a).cells|
    ensures l < |s.cells|
            || (a.Acquire? && a.l == l && t < |s.threads| && s.threads[t].pc.Idle? && !Do(s, t, a).threads[t].pc.Idle?)
  {
    if t < |s.threads| && a.Step? { DoInv(s, t, a); }
  }

  /** An event that begins one. */
  lemma {:induction false} BeginMode(s: State, t: nat, l: nat, exclusive: bool)
    requires Inv(s) && t < |s.threads| && s.threads[t].pc.Idle? && !Begin(s, t, l, exclusive).threads[t].pc.Idle?
    ensures var s1 := Begin(s, t, l, exclusive); l < |s1.cells| && ModeOK(s1, l, By(t, exclusive))
  {
  }

  // ---------------------------------------------------------------- every run

  lemma {:induction false} RunModes(n: nat, sched: seq<(nat, Action)>, l: nat)
    requires l < |Exec(n, sched).cells|
    ensures ModeOK(Exec(n, sched), l, Asked(n, sched, l))
  {
    if sched != [] {
      var k := |sched| - 1;
      var (t, a) := sched[k];
      var s := Exec(n, sched[..k]);
      RunInv(n, sched[..k]);
      assert sched[..k + 1] == sched;
      if BeginsAt(n, sched, k, l) {
        BeginMode(s, t, l, a.exclusive);
      } else {
        assert l < |s.cells| by { NewOnlyBegun(s, t, a, l); }
        RunModes(n, sched[..k], l);
        EventMode(s, t, a, l, Asked(n, sched[..k], l));
      }
    }
  }

  /** A lock past its resets has the mode that its owner asked for. */
  lemma {:induction false} ModeAsked(n: nat, sched: seq<(nat, Action)>, l: nat)
    requires l < |Exec(n, sched).cells| && Stage(Exec(n, sched), l) >= 6
    ensures var c := Exec(n, sched).cells[l]; Asked(n, sched, l) == By(c.owner, c.exclusive)
  {
    RunModes(n, sched, l);
  }

  /** A lock that AcquireLock has returned to t was asked for by t, and has the mode that t asked for. */
  lemma {:induction false} GrantedAsAsked(n: nat, sched: seq<(nat, Action)>, t: nat, l: nat)
    requires t < n && l in Exec(n, sched).threads[t].granted
    ensures l < |Exec(n, sched).cells| && Asked(n, sched, l) == By(t, Exec(n, sched).cells[l].exclusive)
  {
    var s := Exec(n, sched);
    RunInv(n, sched);
    assert ThreadOK(s, t);
    GrantedStage(s, t, l);
    ModeAsked(n, sched, l);
  }

  // ---------------------------------------------------------------- what is granted

  /** By this step AcquireLock returns its lock. */
  predicate Returns(x: Thread, y: Thread)
  {
    StageOf(x.pc) == 9 && y.pc.Idle?
  }

  lemma {:induction false} CheckGrants(s: State, t: nat)
    requires Sized(s) && t < |s.threads| && StageOf(s.threads[t].pc) == 9
    ensures var x, y := s.threads[t], StepOf(s, t).threads[t];
            y.granted == if Returns(x, y) then x.granted + {x.lock} else x.granted
  {
  }

  lemma {:induction false} StepGrants(s: State, t: nat)
    requires Inv(s) && t < |s.threads|
    ensures Sized(s) && |StepOf(s, t).threads| == |s.threads|
    ensures var x, y := s.threads[t], StepOf(s, t).threads[t];
            y.granted == if Returns(x, y) then x.granted + {x.lock} else x.granted
  {
    StepInv(s, t);
    if StageOf(s.threads[t].pc) == 9 { CheckGrants(s, t); }
  }

  /** Which locks a thread has been granted, event by event: the one that AcquireLock returns to it joins
      them, the one that it begins to release leaves them, and nothing else happens to them. */
  lemma {:induction false} GrantedChange(n: nat, sched: seq<(nat, Action)>, t: nat)
    requires sched != [] && t < n
    ensures var k := |sched| - 1;
      var x, y, u, a := Exec(n, sched[..k]).threads[t], Exec(n, sched).threads[t], sched[k].0, sched[k].1;
      y.granted ==
        if u == t && a.Step? && Returns(x, y) then x.granted + {x.lock}
        else if u == t && a.Release? && x.pc.Idle? && !y.pc.Idle? then x.granted - {a.l}
        else x.granted
  {
    var k := |sched| - 1;
    var s := Exec(n, sched[..k]);
    RunInv(n, sched[..k]);
    var (u, a) := sched[k];
    if u < n {
      DoInv(s, u, a);
      if a.Step? { StepGrants(s, u); }
    }
  }
}
