/** What every run of the wait-free atomic snapshot guarantees. */
module SnapshotTheorems {
  import opened SnapshotModel
  import opened SnapshotInvariant
  import opened SnapshotPools
  import opened SnapshotSafety

  // ---------------------------------------------------------------- linearizability

  /** The returned vector was the register contents at one instant between the call and the return,
      and every scan that had returned by the call did so no later than the call. */
  ghost predicate ResultOK(h: seq<Vec>, rs: seq<ScanResult>, b: nat)
    requires b < |rs|
  {
    var r := rs[b];
    && r.start <= r.end < |h| && r.before <= b
    && (exists a :: r.start <= a <= r.end && h[a] == r.vec)
    && (forall a | 0 <= a < r.before :: rs[a].end <= r.start)
  }

  ghost predicate ResultsInv(s: State)
  {
    && (forall b | 0 <= b < |s.results| :: ResultOK(s.hist, s.results, b))
    && (forall p | 0 <= p < |s.threads| && InScan(s.threads[p].pc) ::
          && s.threads[p].before <= |s.results|
          && forall a | 0 <= a < s.threads[p].before :: s.results[a].end <= s.threads[p].start)
  }

  /** What the bookkeeping of results needs to know about an event. */
  ghost predicate Bookkeeping(s: State, s1: State, p: nat)
  {
    && p < |s.threads| && |s1.threads| == |s.threads| && 0 < |s.hist| && s.hist <= s1.hist
    && (forall q | 0 <= q < |s.threads| && q != p :: s1.threads[q] == s.threads[q])
    && var t, t1 := s.threads[p], s1.threads[p];
       if t.pc.Return? then
         s1.results == s.results + [ScanResult(p, t.first, t.start, |s.hist| - 1, t.before)] && !InScan(t1.pc)
       else
         && s1.results == s.results
         && (InScan(t1.pc) ==>
               (InScan(t.pc) && t1.start == t.start && t1.before == t.before)
               || (t1.start == |s.hist| - 1 && t1.before == |s.results|))
  }

  lemma {:induction false} StepBookkeeping(s: State, p: nat)
    requires Shape(s) && p < s.N() && !s.threads[p].pc.Idle? && !s.threads[p].pc.AssertFailed?
    ensures Bookkeeping(s, Step(s, p), p)
  {
  }

  lemma {:induction false} DoBookkeeping(s: State, p: nat, a: Action)
    requires Inv(s) && p < s.N()
    ensures Do(s, p, a) == s || Bookkeeping(s, Do(s, p, a), p)
  {
    if !s.threads[p].pc.Idle? && a.Advance? {
      assert ThreadOK(s, p);
      StepBookkeeping(s, p);
    }
  }

  lemma {:induction false} KeepResults(s: State, s1: State, p: nat)
    requires Inv(s) && ResultsInv(s) && Bookkeeping(s, s1, p)
    ensures ResultsInv(s1)
  {
    var h, h' := s.hist, s1.hist;
    assert ThreadOK(s, p);
    forall b | 0 <= b < |s1.results| ensures ResultOK(h', s1.results, b) {
      if b < |s.results| {
        var r := s.results[b];
        assert ResultOK(h, s.results, b);
        var a :| r.start <= a <= r.end && h[a] == r.vec;
        assert h'[a] == r.vec;
      } else {
        var t := s.threads[p];
        var a :| t.start <= a < |h| && h[a] == t.first;
        assert h'[a] == t.first;
      }
    }
    forall q | 0 <= q < |s1.threads| && InScan(s1.threads[q].pc)
      ensures s1.threads[q].before <= |s1.results|
      ensures forall a | 0 <= a < s1.threads[q].before :: s1.results[a].end <= s1.threads[q].start
    {
      forall a | 0 <= a < s1.threads[q].before && a < |s.results| ensures s1.results[a].end <= s1.threads[q].start {
        assert ResultOK(h, s.results, a);
      }
    }
  }

  lemma {:induction false} RunResults(n: nat, sched: seq<(nat, Action)>)
    ensures ResultsInv(Exec(n, sched))
  {
    if sched != [] {
      var before := sched[..|sched| - 1];
      var (p, a) := sched[|sched| - 1];
      var s := Exec(n, before);
      RunInv(n, before);
      RunResults(n, before);
      if p < s.N() {
        DoBookkeeping(s, p, a);
        if Do(s, p, a) != s { KeepResults(s, Do(s, p, a), p); }
      }
    }
  }

  /** In every interleaving the vector returned by a scan is the contents of all registers at one
      instant between its call and its return, whether it came from a clean double collect or was
      borrowed from a writer. */
  lemma {:induction false} ScanLinearizable(n: nat, sched: seq<(nat, Action)>, b: nat)
    requires b < |Exec(n, sched).results|
    ensures var s := Exec(n, sched); var r := s.results[b];
      r.start <= r.end < |s.hist| && exists a :: r.start <= a <= r.end && s.hist[a] == r.vec
  {
    RunResults(n, sched);
    assert ResultOK(Exec(n, sched).hist, Exec(n, sched).results, b);
  }

  /** No component of v is older than in u. */
  ghost predicate AtLeast(v: Vec, u: Vec)
  {
    |v| == |u| && forall k | 0 <= k < |u| :: u[k].ts <= v[k].ts && (u[k].ts == v[k].ts ==> u[k] == v[k])
  }

  /** Any two snapshots, by any threads, are ordered. */
  lemma {:induction false} ScansComparable(n: nat, sched: seq<(nat, Action)>, a: nat, b: nat)
    requires a < |Exec(n, sched).results| && b < |Exec(n, sched).results|
    ensures var rs := Exec(n, sched).results; AtLeast(rs[a].vec, rs[b].vec) || AtLeast(rs[b].vec, rs[a].vec)
  {
    RunInv(n, sched);
    RunResults(n, sched);
    var h, rs := Exec(n, sched).hist, Exec(n, sched).results;
    assert ResultOK(h, rs, a) && ResultOK(h, rs, b);
    var x :| rs[a].start <= x <= rs[a].end && h[x] == rs[a].vec;
    var y :| rs[b].start <= y <= rs[b].end && h[y] == rs[b].vec;
    if x <= y {
      assert AtLeast(h[y], h[x]);
    } else {
      assert AtLeast(h[x], h[y]);
    }
  }

  /** A scan that starts after another one returned is no older than it. */
  lemma {:induction false} ScansRespectRealTime(n: nat, sched: seq<(nat, Action)>, a: nat, b: nat)
    requires b < |Exec(n, sched).results| && a < Exec(n, sched).results[b].before
    ensures a < b && AtLeast(Exec(n, sched).results[b].vec, Exec(n, sched).results[a].vec)
  {
    RunInv(n, sched);
    RunResults(n, sched);
    var h, rs := Exec(n, sched).hist, Exec(n, sched).results;
    assert ResultOK(h, rs, b);
    assert ResultOK(h, rs, a);
    var x :| rs[a].start <= x <= rs[a].end && h[x] == rs[a].vec;
    var y :| rs[b].start <= y <= rs[b].end && h[y] == rs[b].vec;
    assert x <= y;
  }

  /** A scan sees every write that landed before its call and none that landed after its return. */
  lemma {:induction false} ScanSeesCompletedUpdates(n: nat, sched: seq<(nat, Action)>, b: nat)
    requires b < |Exec(n, sched).results|
    ensures var s := Exec(n, sched); var r := s.results[b];
      r.start <= r.end < |s.hist| && AtLeast(r.vec, s.hist[r.start]) && AtLeast(s.hist[r.end], r.vec)
  {
    RunInv(n, sched);
    RunResults(n, sched);
    var h, rs := Exec(n, sched).hist, Exec(n, sched).results;
    assert ResultOK(h, rs, b);
    var y :| rs[b].start <= y <= rs[b].end && h[y] == rs[b].vec;
  }

  // ---------------------------------------------------------------- what an operation does

  /** The result of an operation called by p in state s0 is among the results. */
  ghost predicate Returned(s0: State, s: State, p: nat)
  {
    && |s0.hist| > 0
    && exists b :: |s0.results| <= b < |s.results| && s.results[b].tid == p &&
                   s.results[b].start == |s0.hist| - 1 && s.results[b].before == |s0.results|
  }

  /** Where the operation `job`, called by p in s0, stands in s: before its write the register is the
      old one; at the end an update has written its value once and a scan has written nothing. */
  ghost predicate Effect(s0: State, s: State, p: nat, job: Job)
    requires Shape(s0) && Shape(s) && s.N() == s0.N() && p < s.N()
  {
    var t := s.threads[p];
    var prior := s0.regs[p];
    && |s0.results| <= |s.results|
    && (if t.pc.Idle? then
          Returned(s0, s, p) && s.regs[p] == (match job case ScanJob => prior case UpdateJob(v) => Reg(prior.ts + 1, v))
        else
          && t.job == job && s.regs[p] == prior
          && (if InScan(t.pc) then t.start == |s0.hist| - 1 && t.before == |s0.results|
              else !t.pc.AssertFailed? ==> job.UpdateJob? && Returned(s0, s, p)))
  }

  lemma {:induction false} ReturnedKept(s0: State, s: State, s1: State, p: nat)
    requires s.results <= s1.results && Returned(s0, s, p)
    ensures Returned(s0, s1, p)
  {
    var b :| |s0.results| <= b < |s.results| && s.results[b].tid == p &&
             s.results[b].start == |s0.hist| - 1 && s.results[b].before == |s0.results|;
    assert s1.results[b] == s.results[b];
  }

  lemma {:induction false} ScanLeavesAlone(s: State, p: nat, q: nat)
    requires Shape(s) && p < s.N() && q < s.N() && p != q && InScan(s.threads[q].pc)
    ensures var s1 := Step(s, q); s1.threads[p] == s.threads[p] && s1.regs[p] == s.regs[p] && s.results <= s1.results
  {
  }

  lemma {:induction false} UpdateLeavesAlone(s: State, p: nat, q: nat)
    requires Shape(s) && p < s.N() && q < s.N() && p != q && !InScan(s.threads[q].pc)
    ensures var s1 := Step(s, q); s1.threads[p] == s.threads[p] && s1.regs[p] == s.regs[p] && s.results <= s1.results
  {
  }

  lemma {:induction false} OtherEffect(s: State, p: nat, q: nat, a: Action)
    requires Shape(s) && p < s.N() && q < s.N() && p != q
    ensures var s1 := Do(s, q, a); s1.threads[p] == s.threads[p] && s1.regs[p] == s.regs[p] && s.results <= s1.results
  {
    var pc := s.threads[q].pc;
    if a.Advance? && !pc.Idle? {
      if InScan(pc) { ScanLeavesAlone(s, p, q); } else { UpdateLeavesAlone(s, p, q); }
    }
  }

  /** A returned scan is the last result. */
  lemma {:induction false} OwnReturn(s: State, p: nat)
    requires Shape(s) && p < s.N() && !s.threads[p].pc.Idle?
    ensures var s1 := Step(s, p); var t, t1 := s.threads[p], s1.threads[p];
      && t1.job == t.job && s.results <= s1.results && t1.start == t.start && t1.before == t.before
      && (t.pc.Return? <==> |s1.results| != |s.results|)
      && (t.pc.Return? ==> s1.results[|s.results|] == ScanResult(p, t.first, t.start, |s.hist| - 1, t.before)
                           && t1.pc == (if t.job.ScanJob? then Idle else Search(0)))
  {
  }

  lemma {:induction false} OwnWrite(s: State, p: nat)
    requires Shape(s) && p < s.N() && !s.threads[p].pc.Idle?
    ensures var s1 := Step(s, p); var t, t1 := s.threads[p], s1.threads[p];
      if t.pc.Write? then
        t1.pc.Idle? && s1.regs[p] == Reg(s.regs[p].ts + 1, if t.job.UpdateJob? then t.job.v else 0)
      else s1.regs[p] == s.regs[p]
  {
  }

  lemma {:induction false} ScanPhase(s: State, p: nat)
    requires Shape(s) && p < s.N() && InScan(s.threads[p].pc)
    ensures var t, t1 := s.threads[p], Step(s, p).threads[p];
      && (t1.pc.Idle? ==> t.pc.Return?)
      && (!t.pc.Return? ==> InScan(t1.pc) || t1.pc.AssertFailed?)
  {
  }

  lemma {:induction false} PublishingPhase(s: State, p: nat)
    requires Shape(s) && p < s.N() && Publishing(s.threads[p].pc)
    ensures var t1 := Step(s, p).threads[p]; !t1.pc.Idle? && !InScan(t1.pc)
  {
  }

  lemma {:induction false} PublishPhase(s: State, p: nat)
    requires Shape(s) && p < s.N() && !InScan(s.threads[p].pc) && !s.threads[p].pc.Idle?
    ensures var t, t1 := s.threads[p], Step(s, p).threads[p];
      (t1.pc.Idle? ==> t.pc.Write?) && !InScan(t1.pc)
  {
    if Publishing(s.threads[p].pc) { PublishingPhase(s, p); }
  }

  lemma {:induction false} EffectStep(s0: State, s: State, p: nat, job: Job, q: nat, a: Action)
    requires Shape(s0) && Shape(s) && s.N() == s0.N() && p < s.N() && |s0.hist| > 0
    requires Effect(s0, s, p, job) && !s.threads[p].pc.Idle? && !s.threads[p].pc.AssertFailed?
    requires !Do(s, q, a).threads[p].pc.AssertFailed?
    ensures Effect(s0, Do(s, q, a), p, job)
  {
    var s1 := Do(s, q, a);
    var t := s.threads[p];
    if q < s.N() && q != p {
      OtherEffect(s, p, q, a);
      if Returned(s0, s, p) { ReturnedKept(s0, s, s1, p); }
    } else if q == p && a.Advance? {
      OwnReturn(s, p);
      OwnWrite(s, p);
      if InScan(t.pc) { ScanPhase(s, p); } else { PublishPhase(s, p); }
      if Returned(s0, s, p) { ReturnedKept(s0, s, s1, p); }
      if t.pc.Return? {
        assert s1.results[|s.results|].tid == p;
      }
    }
  }

  /** The operation of p is still running after every proper prefix of `more`. */
  ghost predicate Running(n: nat, sched: seq<(nat, Action)>, p: nat, more: seq<(nat, Action)>)
    requires p < n
  {
    forall k | 0 <= k < |more| :: !Exec(n, sched + more[..k]).threads[p].pc.Idle?
  }

  function Call(job: Job): (a: Action)
  {
    match job case ScanJob => CallScan case UpdateJob(v) => CallUpdate(v)
  }

  // ---------------------------------------------------------------- reclamation

  /** No assert fails and no null version is dereferenced; in particular the search in exchange always
      finds a slot among n + 1. */
  lemma {:induction false} NoAssertFails(n: nat, sched: seq<(nat, Action)>, p: nat)
    requires p < n
    ensures var pc := Exec(n, sched).threads[p].pc; !pc.AssertFailed? && (pc.Search? ==> pc.j <= n)
  {
    RunInv(n, sched);
    assert ThreadOK(Exec(n, sched), p) && PhaseOK(Exec(n, sched), p);
  }

  lemma {:induction false} RunShape(n: nat, sched: seq<(nat, Action)>)
    ensures Shape(Exec(n, sched)) && Exec(n, sched).N() == n && |Exec(n, sched).hist| > 0
  {
    RunInv(n, sched);
  }

  /** From its call to its end, in any interleaving, an update writes its value to its own register
      exactly once, after its embedded scan has returned; a scan writes nothing and returns once. */
  lemma {:induction false} OperationEffect(n: nat, sched: seq<(nat, Action)>, p: nat, job: Job,
      more: seq<(nat, Action)>)
    requires p < n && Exec(n, sched).threads[p].pc.Idle?
    requires Running(n, sched + [(p, Call(job))], p, more)
    ensures Effect(Exec(n, sched), Exec(n, sched + [(p, Call(job))] + more), p, job)
    decreases |more|
  {
    var call := sched + [(p, Call(job))];
    RunShape(n, sched);
    RunShape(n, call + more);
    NoAssertFails(n, call + more, p);
    if more == [] {
      assert call + more == call && call[..|call| - 1] == sched;
    } else {
      var prev := more[..|more| - 1];
      var (q, a) := more[|more| - 1];
      assert forall k | 0 <= k < |prev| :: prev[..k] == more[..k];
      OperationEffect(n, sched, p, job, prev);
      RunShape(n, call + prev);
      NoAssertFails(n, call + prev, p);
      assert (call + more)[..|call + more| - 1] == call + prev;
      assert Exec(n, call + more) == Do(Exec(n, call + prev), q, a);
      EffectStep(Exec(n, sched), Exec(n, call + prev), p, job, q, a);
    }
  }

  /** Outstanding readers of a version: acquisitions minus releases while it is reachable or waiting
      for its reset, and minus the inner count once retired. */
  lemma {:induction false} ReadersAccounted(n: nat, sched: seq<(nat, Action)>, w: nat, j: nat)
    requires w < n && j <= n && Exec(n, sched).writers[w].slots[j].Version?
    ensures var s := Exec(n, sched); var sl := s.writers[w].slots[j];
      |Holders(s, w, j)| == (if Live(s, w, j) then Acquired(s, w, j) else 0) - sl.inner
    ensures var s := Exec(n, sched); s.writers[w].slots[j].flag ==> Holders(s, w, j) == {} && !Live(s, w, j)
  {
    RunInv(n, sched);
    assert SlotOK(Exec(n, sched), w, j);
  }

  /** Only the owner's install step stores a vector in a slot. */
  lemma {:induction false} OnlyInstallStores(s: State, p: nat, a: Action, w: nat, j: nat)
    requires Shape(s) && p < s.N() && w < s.N() && j <= s.N() && s.writers[w].slots[j].Version?
    ensures var sl := Do(s, p, a).writers[w].slots[j];
      (sl.Version? && sl.vec == s.writers[w].slots[j].vec) || (w == p && s.threads[p].pc == Install(j))
  {
  }

  /** A version is not overwritten between a reader's acquire and its release: whatever thread takes
      the next step, the slot keeps its vector. */
  lemma {:induction false} HeldVersionStable(n: nat, sched: seq<(nat, Action)>, p: nat, a: Action, q: nat, w: nat,
      j: nat)
    requires p < n && q < n && w < n && j <= n && Holding(Exec(n, sched).threads[q].pc, w, j)
    ensures var s := Exec(n, sched); var s1 := Do(s, p, a);
      s.writers[w].slots[j].Version? && s1.writers[w].slots[j].Version?
          && s1.writers[w].slots[j].vec == s.writers[w].slots[j].vec
  {
    RunInv(n, sched);
    var s := Exec(n, sched);
    assert ThreadOK(s, q);
    OnlyInstallStores(s, p, a, w, j);
    if w == p && s.threads[p].pc == Install(j) {
      assert PhaseOK(s, p) && SlotOK(s, p, j);
      NoReaders(s, q, w, j);
    }
  }

  lemma {:induction false} Subset(a: set<nat>, b: set<nat>)
    requires a <= b
    ensures |a| <= |b|
  {
    if a != {} {
      var x :| x in a;
      Subset(a - {x}, b - {x});
    }
  }

  /** A recycle flag is raised once per version: whoever is about to raise it is the only one, the
      flag is down, and the version is neither current nor read. */
  lemma {:induction false} FlagRaisedOnce(n: nat, sched: seq<(nat, Action)>, p: nat, w: nat, j: nat)
    requires p < n && w < n && j <= n
    requires var pc := Exec(n, sched).threads[p].pc; pc == ReleaseFlag(w, j) || (p == w && pc == ResetFlag(j))
    ensures var s := Exec(n, sched); var sl := s.writers[w].slots[j];
      sl.Version? && !sl.flag && !Live(s, w, j) && Holders(s, w, j) == {}
    ensures var s := Exec(n, sched);
      forall q | 0 <= q < n && q != p ::
          s.threads[q].pc != ReleaseFlag(w, j) && !(q == w && s.threads[q].pc == ResetFlag(j))
  {
    RunInv(n, sched);
    var s := Exec(n, sched);
    assert SlotOK(s, w, j);
    Counted(s, p, w, j);
    forall q | 0 <= q < n && q != p ensures s.threads[q].pc != ReleaseFlag(w, j)
        && !(q == w && s.threads[q].pc == ResetFlag(j)) {
      Counted(s, q, w, j);
      if p in Flaggers(s, w, j) && q in Flaggers(s, w, j) {
        assert {p, q} <= Flaggers(s, w, j);
        Subset({p, q}, Flaggers(s, w, j));
      }
    }
  }

  /** The current version's flag is down, and only the very first install meets old_index == i. */
  lemma {:induction false} CurrentVersion(n: nat, sched: seq<(nat, Action)>, w: nat)
    requires w < n
    ensures var sh := Exec(n, sched).writers[w]; sh.installs > 0 ==> sh.slots[sh.idx].Version? && !sh.slots[sh.idx].flag
    ensures var s := Exec(n, sched); var sh := s.writers[w];
      s.threads[w].pc.Swap? ==> (s.threads[w].pc.j == sh.idx <==> sh.installs == 0)
  {
    RunInv(n, sched);
    var s := Exec(n, sched);
    assert WriterOK(s, w) && PhaseOK(s, w) && SlotOK(s, w, s.writers[w].idx);
  }

  // ---------------------------------------------------------------- wait-freedom

  /** Steps left once the scan has its vector. */
  function ReturnWork(t: Thread, n: nat): (w: nat)
  {
    if t.job.UpdateJob? then n + 9 else 1
  }

  function AcquireWork(t: Thread, n: nat): (w: nat)
  {
    ReturnWork(t, n) + n + 4
  }

  /** Steps of k more unclean passes. */
  function Passes(k: int, n: nat): (w: nat)
    decreases k
  {
    if k <= 0 then 0 else (n + 1) + Passes(k - 1, n)
  }

  lemma {:induction false} PassesProduct(k: nat, n: nat)
    ensures Passes(k, n) == k * (n + 1)
  {
    if k > 0 {
      PassesProduct(k - 1, n);
      assert k * (n + 1) == (k - 1) * (n + 1) + (n + 1);
    }
  }

  lemma {:induction false} PassesMonotone(k: int, m: int, n: nat)
    requires k <= m
    ensures Passes(k, n) <= Passes(m, n)
    decreases m - k
  {
    if k < m { PassesMonotone(k, m - 1, n); }
  }

  function PassWork(t: Thread, n: nat, i: nat): (w: int)
  {
    (n - i) + 1 + Passes(n - 1 - t.failed, n) + AcquireWork(t, n)
  }

  /** An upper bound on the steps that the thread itself still takes before it is idle. */
  function Work(t: Thread, n: nat): (w: int)
  {
    match t.pc
    case Idle => 0
    case Collect(i) => (n - i) + 1 + PassWork(t, n, 0)
    case Pass(i) => PassWork(t, n, i)
    case Acquire(_) => AcquireWork(t, n)
    case Copy(_, _, k) => ReturnWork(t, n) + 3 + (n - k)
    case Release(_, _) => ReturnWork(t, n) + 2
    case ReleaseFlag(_, _) => ReturnWork(t, n) + 1
    case Return => ReturnWork(t, n)
    case Search(j) => 8 + (n - j)
    case Install(_) => 7
    case ZeroInner(_) => 6
    case ClearFlag(_) => 5
    case Swap(_) => 4
    case Reset(_, _) => 3
    case ResetFlag(_) => 2
    case Write => 1
    case AssertFailed => 0
  }

  /** A scan makes at most n passes after the first collect, whatever the writers do: every unclean
      pass used up one register other than the scanner's own. */
  lemma {:induction false} PassBound(n: nat, sched: seq<(nat, Action)>, p: nat)
    requires p < n && Exec(n, sched).threads[p].pc.Pass?
    ensures Exec(n, sched).threads[p].failed + 1 <= n
    ensures Exec(n, sched).threads[p].same || Exec(n, sched).threads[p].failed + 2 <= n
  {
    RunInv(n, sched);
    var s := Exec(n, sched);
    assert ThreadOK(s, p);
    SumWithZero(s.threads[p].changes, p);
  }

  lemma {:induction false} PassWorkDecreases(s: State, p: nat, i: nat)
    requires Shape(s) && p < s.N() && s.threads[p].pc == Pass(i)
    requires s.threads[p].failed + (if s.threads[p].same then 1 else 2) <= s.N()
    ensures 0 <= Work(StepPass(s, p, i).threads[p], s.N()) < Work(s.threads[p], s.N())
  {
  }

  lemma {:induction false} CollectWorkDecreases(s: State, p: nat)
    requires Shape(s) && p < s.N() && (s.threads[p].pc.Collect? || s.threads[p].pc.Return?)
    ensures 0 <= Work(Step(s, p).threads[p], s.N()) < Work(s.threads[p], s.N())
  {
  }

  lemma {:induction false} BorrowWorkDecreases(s: State, p: nat)
    requires Shape(s) && p < s.N() && InScan(s.threads[p].pc)
    requires !s.threads[p].pc.Pass? && !s.threads[p].pc.Collect? && !s.threads[p].pc.Return?
    ensures 0 <= Work(Step(s, p).threads[p], s.N()) < Work(s.threads[p], s.N())
  {
  }

  lemma {:induction false} PublishWorkDecreases(s: State, p: nat)
    requires Base(s) && p < s.N() && ThreadOK(s, p) && PhaseOK(s, p) && !InScan(s.threads[p].pc)
             && !s.threads[p].pc.Idle?
    ensures 0 <= Work(Step(s, p).threads[p], s.N()) < Work(s.threads[p], s.N())
  {
  }

  lemma {:induction false} WorkBound(s: State, p: nat)
    requires Inv(s) && p < s.N()
    ensures Work(s.threads[p], s.N()) <= s.N() * s.N() + 4 * s.N() + 14
  {
    assert ThreadOK(s, p);
    var t, n := s.threads[p], s.N();
    PassesProduct(n - 1, n);
    PassesMonotone(n - 1 - t.failed, n - 1, n);
    assert (n - 1) * (n + 1) == n * n - 1;
  }

  lemma {:induction false} WorkBounds(n: nat, sched: seq<(nat, Action)>, p: nat)
    requires p < n && !Exec(n, sched).threads[p].pc.Idle?
    ensures var s := Exec(n, sched);
      0 <= Work(Step(s, p).threads[p], n) < Work(s.threads[p], n) <= n * n + 4 * n + 14
  {
    RunInv(n, sched);
    var s := Exec(n, sched);
    if s.threads[p].pc.Pass? {
      PassBound(n, sched, p);
      PassWorkDecreases(s, p, s.threads[p].pc.i);
    } else if s.threads[p].pc.Collect? || s.threads[p].pc.Return? {
      CollectWorkDecreases(s, p);
    } else if InScan(s.threads[p].pc) {
      BorrowWorkDecreases(s, p);
    } else {
      PublishWorkDecreases(s, p);
    }
    WorkBound(s, p);
  }

  lemma {:induction false} OthersKeepThread(s: State, p: nat, q: nat, a: Action)
    requires Shape(s) && p < s.N() && !s.threads[p].pc.Idle? && (q != p || !a.Advance?)
    ensures Do(s, q, a).threads[p] == s.threads[p]
  {
  }

  /** Wait-freedom: an operation takes at most n * n + 4 * n + 14 steps of its own thread, and every
      one of them brings it closer to its end, however the other threads are scheduled. */
  lemma {:induction false} WaitFree(n: nat, sched: seq<(nat, Action)>, p: nat, q: nat, a: Action)
    requires p < n && !Exec(n, sched).threads[p].pc.Idle?
    ensures var s := Exec(n, sched);
      0 < Work(s.threads[p], n) <= n * n + 4 * n + 14
    ensures var s := Exec(n, sched);
      if q == p && a.Advance? then Work(Do(s, q, a).threads[p], n) < Work(s.threads[p], n)
      else Do(s, q, a).threads[p] == s.threads[p]
  {
    var s := Exec(n, sched);
    WorkBounds(n, sched, p);
    if q != p || !a.Advance? { OthersKeepThread(s, p, q, a); }
  }

  function Turns(sched: seq<(nat, Action)>, p: nat): (k: nat)
  {
    if sched == [] then 0
    else Turns(sched[..|sched| - 1], p) + (if sched[|sched| - 1] == (p, Advance) then 1 else 0)
  }

  predicate EndsWithin(n: nat, sched: seq<(nat, Action)>, p: nat, more: seq<(nat, Action)>)
    requires p < n
  {
    exists k :: 0 <= k <= |more| && Exec(n, sched + more[..k]).threads[p].pc.Idle?
  }

  lemma {:induction false} EndsLater(
    n: nat, sched: seq<(nat, Action)>, p: nat, more: seq<(nat, Action)>, e: (nat, Action))
    requires p < n && EndsWithin(n, sched, p, more)
    ensures EndsWithin(n, sched, p, more + [e])
  {
    var k :| 0 <= k <= |more| && Exec(n, sched + more[..k]).threads[p].pc.Idle?;
    assert (more + [e])[..k] == more[..k];
  }

  /** What is left of the operation after `more`, if it has not ended. */
  predicate Progressed(n: nat, sched: seq<(nat, Action)>, p: nat, more: seq<(nat, Action)>)
    requires p < n
  {
    EndsWithin(n, sched, p, more)
    || Turns(more, p) + Work(Exec(n, sched + more).threads[p], n) <= Work(Exec(n, sched).threads[p], n)
  }

  lemma {:induction false} ExecOne(n: nat, sched: seq<(nat, Action)>, more: seq<(nat, Action)>, q: nat, a: Action)
    ensures Exec(n, sched + (more + [(q, a)])) == Do(Exec(n, sched + more), q, a)
  {
    var all := sched + (more + [(q, a)]);
    assert all[..|all| - 1] == sched + more;
  }

  lemma {:induction false} TurnsOne(more: seq<(nat, Action)>, q: nat, a: Action, p: nat)
    ensures Turns(more + [(q, a)], p) == Turns(more, p) + if (q, a) == (p, Advance) then 1 else 0
  {
    assert (more + [(q, a)])[..|more|] == more;
  }

  lemma {:induction false} ProgressOnce(
    n: nat, sched: seq<(nat, Action)>, p: nat, more: seq<(nat, Action)>, q: nat, a: Action)
    requires p < n && Progressed(n, sched, p, more)
    ensures Progressed(n, sched, p, more + [(q, a)])
  {
    if EndsWithin(n, sched, p, more) {
      EndsLater(n, sched, p, more, (q, a));
    } else {
      assert more[..|more|] == more;
      ExecOne(n, sched, more, q, a);
      TurnsOne(more, q, a, p);
      WaitFree(n, sched + more, p, q, a);
    }
  }

  /** Either the operation has ended, or its remaining work has dropped by one per turn. */
  lemma {:induction false} Progress(n: nat, sched: seq<(nat, Action)>, p: nat, more: seq<(nat, Action)>)
    requires p < n
    ensures Progressed(n, sched, p, more)
    decreases |more|
  {
    if more == [] {
      assert sched + more == sched;
    } else {
      var (q, a) := more[|more| - 1];
      Progress(n, sched, p, more[..|more| - 1]);
      ProgressOnce(n, sched, p, more[..|more| - 1], q, a);
      assert more[..|more| - 1] + [(q, a)] == more;
    }
  }

  /** Every operation ends by the time its thread has had n * n + 4 * n + 14 turns. */
  lemma {:induction false} OperationEnds(n: nat, sched: seq<(nat, Action)>, p: nat, more: seq<(nat, Action)>)
    requires p < n && Turns(more, p) >= n * n + 4 * n + 14
    ensures EndsWithin(n, sched, p, more)
  {
    if Exec(n, sched).threads[p].pc.Idle? {
      assert sched + more[..0] == sched;
    } else if Exec(n, sched + more).threads[p].pc.Idle? {
      assert more[..|more|] == more;
    } else {
      Progress(n, sched, p, more);
      WaitFree(n, sched, p, p, Advance);
      WaitFree(n, sched + more, p, p, Advance);
    }
  }
}
