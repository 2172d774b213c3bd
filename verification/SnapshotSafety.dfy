/** The invariant holds in every reachable state of the snapshot. */
module SnapshotSafety {
  import opened SnapshotModel
  import opened SnapshotInvariant
  import opened SnapshotHistory
  import opened SnapshotPools

  lemma {:induction false} Assemble(s: State, s1: State, p: nat)
    requires Inv(s) && Frame(s, s1, p) && PoolFrame(s, s1, p)
    requires forall w | 0 <= w < s.N() && w != p :: s1.writers[w].cnt == s.writers[w].cnt || s.writers[w].installs > 0
    requires ThreadOK(s1, p) && WriterOK(s1, p) && PhaseOK(s1, p)
    requires forall w, j | 0 <= w < s.N() && 0 <= j <= s.N() :: SlotOK(s1, w, j)
    ensures Inv(s1)
  {
    forall q | 0 <= q < s.N() ensures ThreadOK(s1, q) && WriterOK(s1, q) && PhaseOK(s1, q) {
      if q != p {
        OtherThread(s, s1, p, q);
        OtherWriter(s, s1, p, q);
        OtherPhase(s, s1, p, q);
      }
    }
  }

  /** Steps that touch no register, no version pool and no reference. */
  lemma {:induction false} QuietInv(s: State, s1: State, p: nat)
    requires Inv(s) && Quiet(s, s1, p) && s1.regs == s.regs && s1.hist == s.hist
    requires !Swapped(s.threads[p].pc) && !Swapped(s1.threads[p].pc)
    requires ThreadOK(s1, p) && PhaseOK(s1, p)
    ensures Inv(s1)
  {
    QuietSlots(s, s1, p);
    assert WriterOK(s, p);
    Assemble(s, s1, p);
  }

  /** Program counters that neither hold a reference nor have a pool update in flight. */
  predicate Neutral(pc: PC)
  {
    pc.Idle? || pc.Collect? || pc.Pass? || pc.Acquire? || pc.Return? || pc.Search? || pc.Install?
  }

  lemma {:induction false} NeutralInv(s: State, s1: State, p: nat)
    requires Inv(s) && OnlyThread(s, s1, p) && s1.writers == s.writers && s1.regs == s.regs && s1.hist == s.hist
    requires Neutral(s.threads[p].pc) && Neutral(s1.threads[p].pc)
    requires ThreadOK(s1, p) && PhaseOK(s1, p)
    ensures Inv(s1)
  {
    QuietInv(s, s1, p);
  }

  lemma {:induction false} BeginInv(s: State, p: nat, job: Job)
    requires Inv(s) && p < s.N() && s.threads[p].pc == Idle
    ensures Inv(Begin(s, p, job))
  {
    BeginStep(s, p, job);
    NeutralInv(s, Begin(s, p, job), p);
  }

  lemma {:induction false} CollectInv(s: State, p: nat, i: nat)
    requires Inv(s) && p < s.N() && s.threads[p].pc == Collect(i)
    ensures Inv(StepCollect(s, p, i))
  {
    CollectStep(s, p, i);
    NeutralInv(s, StepCollect(s, p, i), p);
  }

  lemma {:induction false} PassInv(s: State, p: nat, i: nat)
    requires Inv(s) && p < s.N() && s.threads[p].pc == Pass(i) && i < s.N()
    ensures Inv(StepPass(s, p, i))
  {
    PassStep(s, p, i);
    NeutralInv(s, StepPass(s, p, i), p);
  }

  lemma {:induction false} PassEndInv(s: State, p: nat)
    requires Inv(s) && p < s.N() && s.threads[p].pc == Pass(s.N())
    ensures Inv(StepPass(s, p, s.N()))
  {
    PassEndStep(s, p);
    NeutralInv(s, StepPass(s, p, s.N()), p);
  }

  lemma {:induction false} CopyInv(s: State, p: nat, w: nat, j: nat, k: nat)
    requires Inv(s) && p < s.N() && s.threads[p].pc == Copy(w, j, k)
    ensures Inv(StepCopy(s, p, w, j, k))
  {
    CopyStep(s, p, w, j, k);
    QuietInv(s, StepCopy(s, p, w, j, k), p);
  }

  lemma {:induction false} ReturnInv(s: State, p: nat)
    requires Inv(s) && p < s.N() && s.threads[p].pc == Return
    ensures Inv(StepReturn(s, p))
  {
    assert WriterOK(s, p);
    ReturnStep(s, p);
    FreeSlot(s, p);
    NeutralInv(s, StepReturn(s, p), p);
  }

  lemma {:induction false} SearchLocal(s: State, p: nat, j: nat)
    requires Base(s) && p < s.N() && s.threads[p].pc == Search(j)
    requires ThreadOK(s, p) && PhaseOK(s, p) && WriterOK(s, p) && (j <= s.N() ==> SlotOK(s, p, j))
    ensures ThreadOK(StepSearch(s, p, j), p) && PhaseOK(StepSearch(s, p, j), p) && j <= s.N()
  {
  }

  lemma {:induction false} SearchInv(s: State, p: nat, j: nat)
    requires Inv(s) && p < s.N() && s.threads[p].pc == Search(j)
    ensures Inv(StepSearch(s, p, j))
  {
    SearchLocal(s, p, j);
    NeutralInv(s, StepSearch(s, p, j), p);
  }

  lemma {:induction false} AcquireFrame(s: State, p: nat, w: nat)
    requires Base(s) && p < s.N() && w < s.N() && p != w
    ensures Frame(s, StepAcquire(s, p, w), p) && PoolFrame(s, StepAcquire(s, p, w), p)
  {
  }

  lemma {:induction false} AcquireLocal(s: State, p: nat, w: nat)
    requires Base(s) && p < s.N() && w < s.N() && s.threads[p].pc == Acquire(w)
    requires ThreadOK(s, p) && WriterOK(s, w) && WriterOK(s, p)
    ensures p != w && s.writers[w].installs > 0 && s.writers[w].slots[s.writers[w].idx].Version?
    ensures var s1 := StepAcquire(s, p, w); ThreadOK(s1, p) && WriterOK(s1, p) && PhaseOK(s1, p)
  {
    BorrowedVersion(s, p, w);
    AcquireStep(s, p, w);
  }

  lemma {:induction false} AcquireInv(s: State, p: nat, w: nat)
    requires Inv(s) && p < s.N() && w < s.N() && s.threads[p].pc == Acquire(w)
    ensures Inv(StepAcquire(s, p, w))
  {
    AcquireLocal(s, p, w);
    AcquireSlots(s, p, w);
    AcquireFrame(s, p, w);
    Assemble(s, StepAcquire(s, p, w), p);
  }

  lemma {:induction false} ReaderFrame(s: State, s1: State, p: nat, w: nat, j: nat)
    requires Base(s) && OnlyThread(s, s1, p) && w < s.N() && j <= s.N() && Touches(s.threads[p].pc, w, j)
    requires s1.regs == s.regs && s1.hist == s.hist
    requires s1.writers == s.writers[w := s.writers[w].(slots := s.writers[w].slots[j := s1.writers[w].slots[j]])]
    requires SlotStep(s.writers[w].slots[j], s1.writers[w].slots[j], true)
    ensures Frame(s, s1, p) && PoolFrame(s, s1, p)
  {
    assert s1.writers[w].idx == s.writers[w].idx && s1.writers[w].installs == s.writers[w].installs;
    assert forall x, y | 0 <= x < s.N() && 0 <= y <= s.N() ::
      SlotStep(s.writers[x].slots[y], s1.writers[x].slots[y], Touches(s.threads[p].pc, x, y));
  }

  /** A reader's steps reach one slot that it holds, and leave its vector alone. */
  lemma {:induction false} ReaderInv(s: State, s1: State, p: nat, w: nat, j: nat)
    requires Inv(s) && OnlyThread(s, s1, p) && w < s.N() && j <= s.N() && Touches(s.threads[p].pc, w, j)
    requires s1.regs == s.regs && s1.hist == s.hist && s1.results == s.results
    requires s1.writers == s.writers[w := s.writers[w].(slots := s.writers[w].slots[j := s1.writers[w].slots[j]])]
    requires SlotStep(s.writers[w].slots[j], s1.writers[w].slots[j], true)
             && s1.threads[p].pc in {Return, ReleaseFlag(w, j)}
    requires ThreadOK(s1, p) && forall x, y | 0 <= x < s.N() && 0 <= y <= s.N() :: SlotOK(s1, x, y)
    ensures Inv(s1)
  {
    ReaderFrame(s, s1, p, w, j);
    assert WriterOK(s, p) && WriterOK(s1, p);
    Assemble(s, s1, p);
  }

  lemma {:induction false} ReleaseInv(s: State, p: nat, w: nat, j: nat)
    requires Inv(s) && p < s.N() && s.threads[p].pc == Release(w, j)
    ensures Inv(StepRelease(s, p, w, j))
  {
    assert ThreadOK(s, p);
    ReleaseStep(s, p, w, j);
    ReleaseSlots(s, p, w, j);
    ReaderInv(s, StepRelease(s, p, w, j), p, w, j);
  }

  lemma {:induction false} ReleaseFlagInv(s: State, p: nat, w: nat, j: nat)
    requires Inv(s) && p < s.N() && s.threads[p].pc == ReleaseFlag(w, j)
    ensures Inv(StepRaiseFlag(s, p, w, j, Return))
  {
    assert ThreadOK(s, p);
    ReleaseFlagStep(s, p, w, j);
    RaiseFlagSlots(s, p, w, j, Return);
    ReaderInv(s, StepRaiseFlag(s, p, w, j, Return), p, w, j);
  }

  /** The owner's steps: its slot has no readers, so no other thread can notice. */
  lemma {:induction false} OwnerFrame(s: State, s1: State, p: nat, j: nat)
    requires Inv(s) && OnlyThread(s, s1, p) && j <= s.N()
    requires s1.regs == s.regs && s1.hist == s.hist && s1.results == s.results
    requires s1.writers == s.writers[p := s1.writers[p]]
             && s1.writers[p].slots == s.writers[p].slots[j := s1.writers[p].slots[j]]
    requires forall q | 0 <= q < s.N() && q != p && Touches(s.threads[q].pc, p, j) ::
             SlotFrame(s.writers[p].slots[j], s1.writers[p].slots[j])
    ensures Frame(s, s1, p) && PoolFrame(s, s1, p)
  {
    forall q, y | 0 <= q < s.N() && 0 <= y <= s.N() && q != p && Touches(s.threads[q].pc, p, y)
      ensures SlotFrame(s.writers[p].slots[y], s1.writers[p].slots[y])
    {
    }
  }

  lemma {:induction false} OwnerInv(s: State, s1: State, p: nat, j: nat)
    requires Inv(s) && OnlyThread(s, s1, p) && j <= s.N()
    requires s1.regs == s.regs && s1.hist == s.hist && s1.results == s.results
    requires s1.writers == s.writers[p := s1.writers[p]]
             && s1.writers[p].slots == s.writers[p].slots[j := s1.writers[p].slots[j]]
    requires forall q | 0 <= q < s.N() && q != p && Touches(s.threads[q].pc, p, j) ::
             SlotFrame(s.writers[p].slots[j], s1.writers[p].slots[j])
    requires ThreadOK(s1, p) && WriterOK(s1, p) && PhaseOK(s1, p)
    requires forall w, y | 0 <= w < s.N() && 0 <= y <= s.N() :: SlotOK(s1, w, y)
    ensures Inv(s1)
  {
    OwnerFrame(s, s1, p, j);
    Assemble(s, s1, p);
  }

  lemma {:induction false} NobodyTouches(s: State, p: nat, j: nat)
    requires Inv(s) && p < s.N() && j <= s.N()
    requires s.writers[p].slots[j].Free() || (s.threads[p].pc == Swap(j) && !Live(s, p, j))
    ensures forall q | 0 <= q < s.N() :: !Touches(s.threads[q].pc, p, j)
  {
    forall q | 0 <= q < s.N() ensures !Touches(s.threads[q].pc, p, j) {
      NoReaders(s, q, p, j);
    }
  }

  lemma {:induction false} InstallInv(s: State, p: nat, j: nat)
    requires Inv(s) && p < s.N() && s.threads[p].pc == Install(j)
    ensures Inv(StepInstall(s, p, j))
  {
    var s1 := StepInstall(s, p, j);
    assert ThreadOK(s, p) && WriterOK(s, p) && PhaseOK(s, p);
    NobodyTouches(s, p, j);
    InstallSlots(s, p, j);
    OwnerInv(s, s1, p, j);
  }

  lemma {:induction false} ZeroInnerInv(s: State, p: nat, j: nat)
    requires Inv(s) && p < s.N() && s.threads[p].pc == ZeroInner(j)
    ensures Inv(StepZeroInner(s, p, j))
  {
    var s1 := StepZeroInner(s, p, j);
    assert ThreadOK(s, p) && WriterOK(s, p) && PhaseOK(s, p);
    NobodyTouches(s, p, j);
    ZeroInnerSlots(s, p, j);
    OwnerInv(s, s1, p, j);
  }

  lemma {:induction false} ClearFlagInv(s: State, p: nat, j: nat)
    requires Inv(s) && p < s.N() && s.threads[p].pc == ClearFlag(j)
    ensures Inv(StepClearFlag(s, p, j))
  {
    var s1 := StepClearFlag(s, p, j);
    assert ThreadOK(s, p) && WriterOK(s, p) && PhaseOK(s, p);
    NobodyTouches(s, p, j);
    ClearFlagSlots(s, p, j);
    OwnerInv(s, s1, p, j);
  }

  lemma {:induction false} SwapInv(s: State, p: nat, j: nat)
    requires Inv(s) && p < s.N() && s.threads[p].pc == Swap(j)
    ensures Inv(StepSwap(s, p, j))
  {
    var s1 := StepSwap(s, p, j);
    assert ThreadOK(s, p) && WriterOK(s, p) && PhaseOK(s, p);
    SwapSlots(s, p, j);
    OwnerInv(s, s1, p, j);
  }

  lemma {:induction false} ResetInv(s: State, p: nat, j: nat, c: nat)
    requires Inv(s) && p < s.N() && s.threads[p].pc == Reset(j, c)
    ensures Inv(StepReset(s, p, j, c))
  {
    var s1 := StepReset(s, p, j, c);
    assert ThreadOK(s, p) && WriterOK(s, p) && PhaseOK(s, p) && SlotOK(s, p, j);
    ResetSlots(s, p, j, c);
    OwnerInv(s, s1, p, j);
  }

  lemma {:induction false} ResetFlagInv(s: State, p: nat, j: nat)
    requires Inv(s) && p < s.N() && s.threads[p].pc == ResetFlag(j)
    ensures Inv(StepRaiseFlag(s, p, p, j, Write))
  {
    var s1 := StepRaiseFlag(s, p, p, j, Write);
    assert ThreadOK(s, p) && WriterOK(s, p) && PhaseOK(s, p) && SlotOK(s, p, j);
    RaiseFlagSlots(s, p, p, j, Write);
    OwnerInv(s, s1, p, j);
  }

  /** A register write appends a vector that is larger in the writer's component only. */
  lemma {:induction false} HistAppend(h: seq<Vec>, n: nat, p: nat, r: Reg)
    requires HistOK(h, n) && p < n && r.ts == h[|h| - 1][p].ts + 1
    ensures HistOK(h + [h[|h| - 1][p := r]], n)
  {
    var last := h[|h| - 1];
    var h': seq<Vec> := h + [last[p := r]];
    forall a, b, k | 0 <= a <= b < |h'| && 0 <= k < n
      ensures h'[a][k].ts <= h'[b][k].ts && (h'[a][k].ts == h'[b][k].ts ==> h'[a][k] == h'[b][k])
    {
      if b == |h| && a < |h| {
        assert h[a][k].ts <= last[k].ts;
      }
    }
  }

  lemma {:induction false} WriteFrame(s: State, p: nat)
    requires Base(s) && p < s.N() && s.threads[p].pc == Write
    ensures Frame(s, StepWrite(s, p), p) && PoolFrame(s, StepWrite(s, p), p) && Quiet(s, StepWrite(s, p), p)
  {
    HistAppend(s.hist, s.N(), p, StepWrite(s, p).regs[p]);
  }

  lemma {:induction false} WriteInv(s: State, p: nat)
    requires Inv(s) && p < s.N() && s.threads[p].pc == Write
    ensures Inv(StepWrite(s, p))
  {
    var s1 := StepWrite(s, p);
    WriteFrame(s, p);
    assert WriterOK(s1, p) by {
      assert WriterOK(s, p);
      Extend(s.hist, s1.hist);
    }
    QuietSlots(s, s1, p);
    Assemble(s, s1, p);
  }

  lemma {:induction false} ScanStepInv(s: State, p: nat)
    requires Inv(s) && p < s.N() && InScan(s.threads[p].pc)
    ensures Inv(Step(s, p))
  {
    assert ThreadShape(s.threads[p], s.N());
    match s.threads[p].pc
    case Collect(i) => CollectInv(s, p, i);
    case Pass(i) => if i < s.N() { PassInv(s, p, i); } else { PassEndInv(s, p); }
    case Acquire(w) => AcquireInv(s, p, w);
    case Copy(w, j, k) => CopyInv(s, p, w, j, k);
    case Release(w, j) => ReleaseInv(s, p, w, j);
    case ReleaseFlag(w, j) => ReleaseFlagInv(s, p, w, j);
    case Return => ReturnInv(s, p);
  }

  lemma {:induction false} StepInv(s: State, p: nat)
    requires Inv(s) && p < s.N()
    ensures Inv(Step(s, p))
  {
    if InScan(s.threads[p].pc) {
      ScanStepInv(s, p);
    } else {
      match s.threads[p].pc
      case Search(j) => SearchInv(s, p, j);
      case Install(j) => InstallInv(s, p, j);
      case ZeroInner(j) => ZeroInnerInv(s, p, j);
      case ClearFlag(j) => ClearFlagInv(s, p, j);
      case Swap(j) => SwapInv(s, p, j);
      case Reset(j, c) => ResetInv(s, p, j, c);
      case ResetFlag(j) => ResetFlagInv(s, p, j);
      case Write => WriteInv(s, p);
      case _ =>
    }
  }

  lemma {:induction false} DoInv(s: State, p: nat, a: Action)
    requires Inv(s)
    ensures Inv(Do(s, p, a))
  {
    if p < s.N() {
      if s.threads[p].pc.Idle? {
        match a
        case CallScan => BeginInv(s, p, ScanJob);
        case CallUpdate(v) => BeginInv(s, p, UpdateJob(v));
        case Advance =>
      } else if a.Advance? {
        StepInv(s, p);
      }
    }
  }

  lemma {:induction false} InitInv(n: nat)
    ensures Inv(Init(n))
  {
    var s := Init(n);
    forall w, j | 0 <= w < n && 0 <= j <= n ensures SlotOK(s, w, j) {
      assert Holders(s, w, j) == {} && Flaggers(s, w, j) == {};
    }
  }

  /** The invariant in every run: any number of threads, any schedule. */
  lemma {:induction false} RunInv(n: nat, sched: seq<(nat, Action)>)
    ensures Inv(Exec(n, sched))
  {
    if sched == [] {
      InitInv(n);
    } else {
      var before := sched[..|sched| - 1];
      var (p, a) := sched[|sched| - 1];
      RunInv(n, before);
      DoInv(Exec(n, before), p, a);
    }
  }
}
