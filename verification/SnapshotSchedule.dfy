/** What the registers and the returned vectors are, read off the schedule alone: which updates have been
    completed, and with which values they were called. */
module SnapshotSchedule {
  import opened SnapshotInvariant
  import opened SnapshotModel
  import opened SnapshotSafety
  import opened SnapshotTheorems

  // ---------------------------------------------------------------- calls and completed updates

  /** In this event p, which was idle, calls scan or update. */
  predicate CallsAt(n: nat, sched: seq<(nat, Action)>, e: nat, p: nat)
    requires e < |sched| && p < n
  {
    sched[e].0 == p && !sched[e].1.Advance? && Exec(n, sched[..e]).threads[p].pc.Idle?
  }

  /** In this event p comes to the end of its operation. */
  predicate EndsAt(n: nat, sched: seq<(nat, Action)>, e: nat, p: nat)
    requires e < |sched| && p < n
  {
    !Exec(n, sched[..e]).threads[p].pc.Idle? && Exec(n, sched[..e + 1]).threads[p].pc.Idle?
  }

  /** The event in which p has called its last operation; none yet if that is the length of the schedule. */
  function LastCall(n: nat, sched: seq<(nat, Action)>, p: nat): (e: nat)
    requires p < n
    ensures e <= |sched| && (e < |sched| ==> CallsAt(n, sched, e, p))
  {
    if sched == [] then 0
    else
      var k := |sched| - 1;
      if CallsAt(n, sched, k, p) then k
      else
        var e := LastCall(n, sched[..k], p);
        if e == k then k + 1
        else
          assert sched[..k][..e] == sched[..e];
          e
  }

  /** The values of the updates that p has completed, in their order. */
  function Written(n: nat, sched: seq<(nat, Action)>, p: nat): (values: seq<int>)
    requires p < n
  {
    if sched == [] then []
    else
      var k := |sched| - 1;
      var e := LastCall(n, sched[..k], p);
      var rest := Written(n, sched[..k], p);
      if EndsAt(n, sched, k, p) && e < k && sched[e].1.CallUpdate? then rest + [sched[e].1.v] else rest
  }

  // ---------------------------------------------------------------- what an event does to one thread

  /** The thread is in the operation that was called by the event a. */
  predicate DoesJob(t: Thread, a: Action)
  {
    match t.job case ScanJob => a.CallScan? case UpdateJob(v) => a == CallUpdate(v)
  }

  predicate JobOK(t: Thread)
  {
    !t.pc.Idle? && !InScan(t.pc) ==> t.job.UpdateJob?
  }

  /** An own step: it writes the register and ends an update, ends a scan, or does neither. */
  lemma {:induction false} OwnStep(s: State, p: nat)
    requires Shape(s) && p < s.N() && !s.threads[p].pc.Idle? && JobOK(s.threads[p])
    requires !Step(s, p).threads[p].pc.AssertFailed?
    ensures var s1 := Step(s, p); var t, t1 := s.threads[p], s1.threads[p];
      && t1.job == t.job && t1.start == t.start && JobOK(t1)
      && (if t1.pc.Idle? && t.job.UpdateJob? then s1.regs[p] == Reg(s.regs[p].ts + 1, t.job.v)
          else s1.regs[p] == s.regs[p])
  {
    OwnReturn(s, p);
    OwnWrite(s, p);
    if InScan(s.threads[p].pc) { ScanPhase(s, p); } else { PublishPhase(s, p); }
  }

  /** How an operation of p, called by the last call of the schedule, stands. */
  ghost predicate Standing(n: nat, sched: seq<(nat, Action)>, p: nat)
    requires p < n
  {
    var t, e := Exec(n, sched).threads[p], LastCall(n, sched, p);
    && JobOK(t)
    && (!t.pc.Idle? ==>
          e < |sched| && DoesJob(t, sched[e].1) && t.start == |Exec(n, sched[..e]).hist| - 1)
  }

  /** An event as seen by thread p. */
  lemma {:induction false} EventFor(n: nat, sched: seq<(nat, Action)>, p: nat)
    requires sched != [] && p < n && Standing(n, sched[..|sched| - 1], p)
    ensures var k := |sched| - 1;
      var s, s1, a := Exec(n, sched[..k]), Exec(n, sched), sched[k].1;
      var t, t1 := s.threads[p], s1.threads[p];
      if CallsAt(n, sched, k, p) then
        DoesJob(t1, a) && !t1.pc.Idle? && JobOK(t1) && t1.start == |s.hist| - 1 && s1.regs[p] == s.regs[p]
      else
        && (t.pc.Idle? ==> t1.pc.Idle?) && t1.job == t.job && t1.start == t.start && JobOK(t1)
        && (if !t.pc.Idle? && t1.pc.Idle? && t.job.UpdateJob? then s1.regs[p] == Reg(s.regs[p].ts + 1, t.job.v)
            else s1.regs[p] == s.regs[p])
  {
    var k := |sched| - 1;
    var s := Exec(n, sched[..k]);
    var (q, a) := sched[k];
    RunShape(n, sched[..k]);
    NoAssertFails(n, sched, p);
    if q != p {
      if q < n { OtherEffect(s, p, q, a); }
    } else if !s.threads[p].pc.Idle? && a.Advance? {
      OwnStep(s, p);
    }
  }

  lemma {:induction false} Prefixes(sched: seq<(nat, Action)>, e: nat)
    requires e < |sched|
    ensures var k := |sched| - 1; sched[..k][..e] == sched[..e] && sched[..k + 1] == sched
  {
  }

  lemma {:induction false} RunStanding(n: nat, sched: seq<(nat, Action)>, p: nat)
    requires p < n
    ensures Standing(n, sched, p)
  {
    if sched != [] {
      var k := |sched| - 1;
      RunStanding(n, sched[..k], p);
      EventFor(n, sched, p);
      var e := LastCall(n, sched, p);
      if e < |sched| { Prefixes(sched, e); }
      hide Exec, JobOK, DoesJob;
      if !CallsAt(n, sched, k, p) && LastCall(n, sched[..k], p) < k {
        Prefixes(sched, LastCall(n, sched[..k], p));
      }
    }
  }

  /** In every run a register is determined by the schedule: it counts the updates that its thread has
      completed and holds the value of the last one, and before the first it is zero. */
  lemma {:induction false} Registers(n: nat, sched: seq<(nat, Action)>, p: nat)
    requires p < n
    ensures var values := Written(n, sched, p);
      Exec(n, sched).regs[p] == Reg(|values|, if values == [] then 0 else values[|values| - 1])
  {
    if sched != [] {
      var k := |sched| - 1;
      Registers(n, sched[..k], p);
      RunStanding(n, sched[..k], p);
      EventFor(n, sched, p);
      var e := LastCall(n, sched[..k], p);
      assert sched[..k + 1] == sched;
      if e < k { Prefixes(sched, e); }
    }
  }

  // ---------------------------------------------------------------- instants

  /** After m events the registers hold v, and so says the schedule. */
  ghost predicate ContentsAt(n: nat, sched: seq<(nat, Action)>, m: nat, v: Vec)
    requires m <= |sched|
  {
    v == Exec(n, sched[..m]).regs
    && forall p {:trigger v[p]} | 0 <= p < n ::
         var values := Written(n, sched[..m], p);
         v[p] == Reg(|values|, if values == [] then 0 else values[|values| - 1])
  }

  lemma {:induction false} Contents(n: nat, sched: seq<(nat, Action)>, m: nat)
    requires m <= |sched|
    ensures ContentsAt(n, sched, m, Exec(n, sched[..m]).regs)
  {
    forall p | 0 <= p < n
      ensures var values := Written(n, sched[..m], p);
              Exec(n, sched[..m]).regs[p] == Reg(|values|, if values == [] then 0 else values[|values| - 1])
    {
      Registers(n, sched[..m], p);
    }
  }

  lemma {:induction false} SameContents(n: nat, sched: seq<(nat, Action)>, longer: seq<(nat, Action)>, m: nat, v: Vec)
    requires m <= |sched| && sched <= longer && ContentsAt(n, sched, m, v)
    ensures ContentsAt(n, longer, m, v)
  {
    assert sched[..m] == longer[..m];
  }

  /** The history of registers: it grows by at most one entry an event, and ends with the present ones. */
  lemma {:induction false} HistGrows(s: State, q: nat, a: Action)
    requires Inv(s)
    ensures var s1 := Do(s, q, a); s.hist <= s1.hist && |s1.hist| <= |s.hist| + 1
  {
    if q < s.N() && !s.threads[q].pc.Idle? && a.Advance? {
      assert ThreadOK(s, q);
      StepBookkeeping(s, q);
    }
  }

  lemma {:induction false} LastEntry(n: nat, sched: seq<(nat, Action)>)
    ensures var h := Exec(n, sched).hist; |h| > 0 && h[|h| - 1] == Exec(n, sched).regs
  {
    RunInv(n, sched);
  }

  lemma {:induction false} EarlierEntries(n: nat, sched: seq<(nat, Action)>)
    requires |Exec(n, sched).hist| > 1
    ensures sched != []
    ensures var h, h1 := Exec(n, sched[..|sched| - 1]).hist, Exec(n, sched).hist; h <= h1 && |h1| <= |h| + 1
  {
    if sched != [] {
      var k := |sched| - 1;
      RunInv(n, sched[..k]);
      HistGrows(Exec(n, sched[..k]), sched[k].0, sched[k].1);
    }
  }

  /** Every entry of the history from the b-th event on was the register contents after some event since. */
  lemma {:induction false} InstantOf(n: nat, sched: seq<(nat, Action)>, b: nat, a: nat) returns (m: nat)
    requires b <= |sched| && a < |Exec(n, sched).hist| && |Exec(n, sched[..b]).hist| <= a + 1
    ensures b <= m <= |sched| && ContentsAt(n, sched, m, Exec(n, sched).hist[a])
  {
    hide Exec, ContentsAt;
    assert sched[..|sched|] == sched;
    m := |sched|;
    LastEntry(n, sched);
    if a == |Exec(n, sched).hist| - 1 {
      Contents(n, sched, m);
    } else {
      var k := |sched| - 1;
      EarlierEntries(n, sched);
      assert sched[..k][..b] == sched[..b];
      m := InstantOf(n, sched[..k], b, a);
      SameContents(n, sched[..k], sched, m, Exec(n, sched).hist[a]);
    }
  }

  /** In this event p's scan, its own or the one embedded in an update, returns v. */
  predicate ReturnsAt(n: nat, sched: seq<(nat, Action)>, e: nat, p: nat, v: Vec)
    requires e < |sched|
  {
    var rs, rs1 := Exec(n, sched[..e]).results, Exec(n, sched[..e + 1]).results;
    |rs| < |rs1| && rs1[|rs1| - 1].tid == p && rs1[|rs1| - 1].vec == v
  }

  /** Only a step of the thread itself returns, and what it returns was seen during its call. */
  lemma {:induction false} ReturnSeen(n: nat, sched: seq<(nat, Action)>, e: nat, p: nat, v: Vec)
    requires e < |sched| && ReturnsAt(n, sched, e, p, v)
    ensures var s := Exec(n, sched[..e]);
            p < n && !s.threads[p].pc.Idle? && Seen(s.hist, s.threads[p].start, v)
  {
    var s := Exec(n, sched[..e]);
    var (q, a) := sched[e];
    RunInv(n, sched[..e]);
    assert sched[..e + 1][..e] == sched[..e];
    assert Exec(n, sched[..e + 1]) == Do(s, q, a);
    if q < n && !s.threads[q].pc.Idle? && a.Advance? {
      assert ThreadOK(s, q);
      OwnReturn(s, q);
    }
  }

  /** The call itself adds nothing to the history. */
  lemma {:induction false} CallAddsNothing(n: nat, sched: seq<(nat, Action)>, c: nat, p: nat)
    requires c < |sched| && p < n && CallsAt(n, sched, c, p)
    ensures Exec(n, sched[..c + 1]).hist == Exec(n, sched[..c]).hist && |Exec(n, sched[..c]).hist| > 0
  {
    RunShape(n, sched[..c]);
    assert sched[..c + 1][..c] == sched[..c];
  }

  /** The operation in which p is was called at an event, since which the history has grown from its start. */
  lemma {:induction false} CallOf(n: nat, sched: seq<(nat, Action)>, p: nat) returns (c: nat)
    requires p < n && !Exec(n, sched).threads[p].pc.Idle?
    ensures c == LastCall(n, sched, p) < |sched|
    ensures |Exec(n, sched[..c + 1]).hist| == Exec(n, sched).threads[p].start + 1
  {
    RunStanding(n, sched, p);
    c := LastCall(n, sched, p);
    CallAddsNothing(n, sched, c, p);
  }

  /** Linearizability in terms of the schedule: what a scan returns is the register contents after some event
      between its call and its return, and each component is the number and the last value of the updates
      completed by then. */
  lemma {:induction false} ScanInstant(n: nat, sched: seq<(nat, Action)>, e: nat, p: nat, v: Vec)
    requires e < |sched| && ReturnsAt(n, sched, e, p, v)
    ensures p < n && LastCall(n, sched[..e], p) < e
    ensures exists m {:trigger ContentsAt(n, sched, m, v)} ::
              LastCall(n, sched[..e], p) < m <= e && ContentsAt(n, sched, m, v)
  {
    ReturnSeen(n, sched, e, p, v);
    hide Exec;
    var s := Exec(n, sched[..e]);
    var c := CallOf(n, sched[..e], p);
    var a :| s.threads[p].start <= a < |s.hist| && s.hist[a] == v;
    assert sched[..e][..c + 1] == sched[..c + 1];
    var m := InstantOf(n, sched[..e], c + 1, a);
    SameContents(n, sched[..e], sched, m, v);
  }
}
