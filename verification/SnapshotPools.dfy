/** Every step keeps the reference counts of the version pools.

    The outer count of a version is only ever incremented and the inner count collects the releases;
    the two are reconciled once, by the writer, after the version stops being current. */
module SnapshotPools {
  import opened SnapshotModel
  import opened SnapshotInvariant

  // ---------------------------------------------------------------- counting readers

  ghost predicate SameOthers(ts: seq<Thread>, ts1: seq<Thread>, p: nat)
  {
    |ts1| == |ts| && p < |ts| && forall q | 0 <= q < |ts| && q != p :: ts1[q] == ts[q]
  }

  ghost predicate OnlyThread(s: State, s1: State, p: nat)
  {
    Shape(s) && Shape(s1) && s1.N() == s.N() && SameOthers(s.threads, s1.threads, p)
  }

  lemma {:induction false} CardChange(a: set<nat>, b: set<nat>, p: nat)
    requires a - {p} == b - {p}
    ensures |b| == |a| - One(p in a) + One(p in b)
  {
    assert p !in a ==> a - {p} == a;
    assert p !in b ==> b - {p} == b;
  }

  lemma {:induction false} HoldersAfter(s: State, s1: State, p: nat, w: nat, j: nat)
    requires SameOthers(s.threads, s1.threads, p)
    ensures |Holders(s1, w, j)|
            == |Holders(s, w, j)| - One(Holding(s.threads[p].pc, w, j)) + One(Holding(s1.threads[p].pc, w, j))
  {
    CardChange(Holders(s, w, j), Holders(s1, w, j), p);
  }

  lemma {:induction false} FlaggersAfter(s: State, s1: State, p: nat, w: nat, j: nat)
    requires SameOthers(s.threads, s1.threads, p)
    ensures |Flaggers(s1, w, j)|
            == |Flaggers(s, w, j)| - One(Flagging(s.threads[p].pc, w, j)) + One(Flagging(s1.threads[p].pc, w, j))
  {
    CardChange(Flaggers(s, w, j), Flaggers(s1, w, j), p);
  }

  /** A reader or a pending flag writer is counted. */
  lemma {:induction false} Counted(s: State, q: nat, w: nat, j: nat)
    requires Shape(s) && q < s.N()
    ensures Holding(s.threads[q].pc, w, j) ==> |Holders(s, w, j)| >= 1
    ensures Flagging(s.threads[q].pc, w, j) ==> |Flaggers(s, w, j)| >= 1
  {
    if Holding(s.threads[q].pc, w, j) { assert q in Holders(s, w, j); }
    if Flagging(s.threads[q].pc, w, j) { assert q in Flaggers(s, w, j); }
  }

  /** Reclamation safety: nobody touches a slot that is free, or being filled. */
  lemma {:induction false} NoReaders(s: State, q: nat, w: nat, j: nat)
    requires Shape(s) && q < s.N() && w < s.N() && j <= s.N() && SlotOK(s, w, j)
    requires s.writers[w].slots[j].Free() || (s.threads[w].pc == Swap(j) && !Live(s, w, j))
    ensures !Touches(s.threads[q].pc, w, j)
  {
    Counted(s, q, w, j);
  }

  /** The parts of an owner's program counter that the slot accounting looks at. */
  predicate SameRole(a: PC, b: PC, j: nat)
  {
    && (a.Reset? && a.j == j <==> b.Reset? && b.j == j) && (a.Reset? && a.j == j ==> a == b)
    && (a == Swap(j) <==> b == Swap(j)) && (a == ResetFlag(j) <==> b == ResetFlag(j))
  }

  /** A step that neither touches the slot nor changes who uses it. */
  lemma {:induction false} SlotUntouched(s: State, s1: State, p: nat, w: nat, j: nat)
    requires OnlyThread(s, s1, p) && w < s.N() && j <= s.N() && SlotOK(s, w, j)
    requires s1.writers[w].slots[j] == s.writers[w].slots[j]
    requires s1.writers[w].idx == s.writers[w].idx && s1.writers[w].installs == s.writers[w].installs
    requires s1.writers[w].cnt == s.writers[w].cnt || s.writers[w].idx != j
    requires Holding(s.threads[p].pc, w, j) <==> Holding(s1.threads[p].pc, w, j)
    requires Flagging(s.threads[p].pc, w, j) <==> Flagging(s1.threads[p].pc, w, j)
    requires w == p ==> SameRole(s.threads[p].pc, s1.threads[p].pc, j)
    ensures SlotOK(s1, w, j)
  {
    HoldersAfter(s, s1, p, w, j);
    FlaggersAfter(s, s1, p, w, j);
  }

  /** Steps that leave the pools and the users of every slot alone. */
  ghost predicate Quiet(s: State, s1: State, p: nat)
  {
    && OnlyThread(s, s1, p) && s1.writers == s.writers
    && (forall w, j :: Holding(s.threads[p].pc, w, j) <==> Holding(s1.threads[p].pc, w, j))
    && !s.threads[p].pc.ReleaseFlag? && !s1.threads[p].pc.ReleaseFlag?
    && !s.threads[p].pc.Reset? && !s.threads[p].pc.Swap? && !s.threads[p].pc.ResetFlag?
    && !s1.threads[p].pc.Reset? && !s1.threads[p].pc.Swap? && !s1.threads[p].pc.ResetFlag?
  }

  lemma {:induction false} QuietSlots(s: State, s1: State, p: nat)
    requires Quiet(s, s1, p) && PoolInv(s)
    ensures forall w, j | 0 <= w < s1.N() && 0 <= j <= s1.N() :: SlotOK(s1, w, j)
  {
    forall w, j | 0 <= w < s1.N() && 0 <= j <= s1.N() ensures SlotOK(s1, w, j) {
      SlotUntouched(s, s1, p, w, j);
    }
  }

  // ---------------------------------------------------------------- the owner's view of other threads' steps

  predicate SlotStep(a: Slot, b: Slot, touched: bool)
  {
    a == b || (touched && a.Version? && b.Version? && a.vec == b.vec && (a.flag ==> b.flag))
  }

  /** Another thread's step reaches the pool of q only through a slot that it holds. */
  ghost predicate PoolFrame(s: State, s1: State, p: nat)
  {
    && OnlyThread(s, s1, p)
    && forall q | 0 <= q < s.N() && q != p ::
         && s1.writers[q].idx == s.writers[q].idx && s1.writers[q].installs == s.writers[q].installs
         && forall j | 0 <= j <= s.N() ::
               SlotStep(s.writers[q].slots[j], s1.writers[q].slots[j], Touches(s.threads[p].pc, q, j))
  }

  lemma {:induction false} OtherPhase(s: State, s1: State, p: nat, q: nat)
    requires PoolFrame(s, s1, p) && q < s.N() && q != p && PhaseOK(s, q)
    requires forall j | 0 <= j <= s.N() :: SlotOK(s, q, j)
    ensures PhaseOK(s1, q)
  {
    assert s1.threads[q] == s.threads[q];
    match s.threads[q].pc
    case Search(i) =>
      var x :| i <= x <= s.N() && s.writers[q].slots[x].Free();
      assert SlotStep(s.writers[q].slots[x], s1.writers[q].slots[x], Touches(s.threads[p].pc, q, x));
      assert s1.writers[q].slots[x].Free();
    case Install(j) => NoReaders(s, p, q, j);
    case ZeroInner(j) => NoReaders(s, p, q, j);
    case ClearFlag(j) => NoReaders(s, p, q, j);
    case Swap(j) => NoReaders(s, p, q, j);
    case Reset(j, _) => assert SlotStep(s.writers[q].slots[j], s1.writers[q].slots[j], Touches(s.threads[p].pc, q, j));
    case ResetFlag(j) => assert SlotStep(s.writers[q].slots[j], s1.writers[q].slots[j], Touches(s.threads[p].pc, q, j));
    case _ =>
  }

  // ---------------------------------------------------------------- the steps that change a count

  lemma {:induction false} AcquireSlots(s: State, p: nat, w: nat)
    requires Shape(s) && PoolInv(s) && p < s.N() && w < s.N() && s.threads[p].pc == Acquire(w) && w != p
    requires s.writers[w].installs > 0 && s.writers[w].slots[s.writers[w].idx].Version?
    ensures forall x, j | 0 <= x < s.N() && 0 <= j <= s.N() :: SlotOK(StepAcquire(s, p, w), x, j)
  {
    var s1 := StepAcquire(s, p, w);
    forall x, j | 0 <= x < s.N() && 0 <= j <= s.N() ensures SlotOK(s1, x, j) {
      assert SlotOK(s, x, j);
      if x == w && j == s.writers[w].idx {
        HoldersAfter(s, s1, p, x, j);
        FlaggersAfter(s, s1, p, x, j);
      } else {
        SlotUntouched(s, s1, p, x, j);
      }
    }
  }

  /** A release makes the inner count zero only when the version is retired and this was its last reader. */
  lemma {:induction false} ReleaseSlots(s: State, p: nat, w: nat, j: nat)
    requires Shape(s) && PoolInv(s) && p < s.N() && w < s.N() && j <= s.N() && s.threads[p].pc == Release(w, j)
    requires s.writers[w].slots[j].Version?
    ensures forall x, y | 0 <= x < s.N() && 0 <= y <= s.N() :: SlotOK(StepRelease(s, p, w, j), x, y)
  {
    var s1 := StepRelease(s, p, w, j);
    Counted(s, p, w, j);
    forall x, y | 0 <= x < s.N() && 0 <= y <= s.N() ensures SlotOK(s1, x, y) {
      if x == w && y == j {
        assert SlotOK(s, w, j);
        HoldersAfter(s, s1, p, x, y);
        FlaggersAfter(s, s1, p, x, y);
      } else {
        SlotUntouched(s, s1, p, x, y);
      }
    }
  }

  lemma {:induction false} RaiseFlagSlots(s: State, p: nat, w: nat, j: nat, pc: PC)
    requires Shape(s) && PoolInv(s) && p < s.N() && w < s.N() && j <= s.N()
    requires s.writers[w].slots[j].Version? && PcShape(pc, s.N())
    requires (Flagging(s.threads[p].pc, w, j) && pc == Return)
             || (w == p && s.threads[p].pc == ResetFlag(j) && pc == Write)
    ensures forall x, y | 0 <= x < s.N() && 0 <= y <= s.N() :: SlotOK(StepRaiseFlag(s, p, w, j, pc), x, y)
  {
    var s1 := StepRaiseFlag(s, p, w, j, pc);
    Counted(s, p, w, j);
    forall x, y | 0 <= x < s.N() && 0 <= y <= s.N() ensures SlotOK(s1, x, y) {
      if x == w && y == j {
        assert SlotOK(s, w, j) && PhaseOK(s, p);
        HoldersAfter(s, s1, p, x, y);
        FlaggersAfter(s, s1, p, x, y);
      } else {
        SlotUntouched(s, s1, p, x, y);
      }
    }
  }

  predicate Reader(pc: PC) { pc.Copy? || pc.Release? || pc.ReleaseFlag? }

  /** The owner rewrites one slot of its pool. */
  lemma {:induction false} OwnSlot(s: State, s1: State, p: nat, j: nat)
    requires OnlyThread(s, s1, p) && PoolInv(s) && j <= s.N()
    requires s1.writers == s.writers[p := s1.writers[p]]
             && s1.writers[p].slots == s.writers[p].slots[j := s1.writers[p].slots[j]]
    requires s1.writers[p].idx == s.writers[p].idx && s1.writers[p].installs == s.writers[p].installs
             && s1.writers[p].cnt == s.writers[p].cnt
    requires !Reader(s.threads[p].pc) && !Reader(s1.threads[p].pc)
    requires forall y | 0 <= y <= s.N() && y != j :: SameRole(s.threads[p].pc, s1.threads[p].pc, y)
    requires SlotOK(s1, p, j)
    ensures forall x, y | 0 <= x < s.N() && 0 <= y <= s.N() :: SlotOK(s1, x, y)
  {
    forall x, y | 0 <= x < s.N() && 0 <= y <= s.N() ensures SlotOK(s1, x, y) {
      if x != p || y != j {
        SlotUntouched(s, s1, p, x, y);
      }
    }
  }

  lemma {:induction false} InstallSlots(s: State, p: nat, j: nat)
    requires Shape(s) && PoolInv(s) && p < s.N() && s.threads[p].pc == Install(j)
    requires s.writers[p].installs == 0 ==> s.writers[p].idx == 0
    ensures forall x, y | 0 <= x < s.N() && 0 <= y <= s.N() :: SlotOK(StepInstall(s, p, j), x, y)
  {
    var s1 := StepInstall(s, p, j);
    assert PhaseOK(s, p) && SlotOK(s, p, j);
    HoldersAfter(s, s1, p, p, j);
    FlaggersAfter(s, s1, p, p, j);
    OwnSlot(s, s1, p, j);
  }

  lemma {:induction false} ZeroInnerSlots(s: State, p: nat, j: nat)
    requires Shape(s) && PoolInv(s) && p < s.N() && s.threads[p].pc == ZeroInner(j)
    ensures forall x, y | 0 <= x < s.N() && 0 <= y <= s.N() :: SlotOK(StepZeroInner(s, p, j), x, y)
  {
    var s1 := StepZeroInner(s, p, j);
    assert PhaseOK(s, p) && SlotOK(s, p, j);
    HoldersAfter(s, s1, p, p, j);
    FlaggersAfter(s, s1, p, p, j);
    OwnSlot(s, s1, p, j);
  }

  lemma {:induction false} ClearFlagSlots(s: State, p: nat, j: nat)
    requires Shape(s) && PoolInv(s) && p < s.N() && s.threads[p].pc == ClearFlag(j)
    ensures forall x, y | 0 <= x < s.N() && 0 <= y <= s.N() :: SlotOK(StepClearFlag(s, p, j), x, y)
  {
    var s1 := StepClearFlag(s, p, j);
    assert PhaseOK(s, p) && SlotOK(s, p, j);
    HoldersAfter(s, s1, p, p, j);
    FlaggersAfter(s, s1, p, p, j);
    OwnSlot(s, s1, p, j);
  }

  lemma {:induction false} ResetSlots(s: State, p: nat, j: nat, c: nat)
    requires Shape(s) && PoolInv(s) && p < s.N() && s.threads[p].pc == Reset(j, c)
    ensures forall x, y | 0 <= x < s.N() && 0 <= y <= s.N() :: SlotOK(StepReset(s, p, j, c), x, y)
  {
    var s1 := StepReset(s, p, j, c);
    assert PhaseOK(s, p) && SlotOK(s, p, j);
    HoldersAfter(s, s1, p, p, j);
    FlaggersAfter(s, s1, p, p, j);
    OwnSlot(s, s1, p, j);
  }

  /** The swap hands the outer count of the old version over to the pending reset. */
  lemma {:induction false} SwapSlots(s: State, p: nat, j: nat)
    requires Shape(s) && PoolInv(s) && p < s.N() && s.threads[p].pc == Swap(j)
    requires s.writers[p].installs == 0 ==> s.writers[p].idx == 0
    requires s.writers[p].installs > 0 ==> s.writers[p].slots[s.writers[p].idx].Version?
    ensures forall x, y | 0 <= x < s.N() && 0 <= y <= s.N() :: SlotOK(StepSwap(s, p, j), x, y)
  {
    var s1 := StepSwap(s, p, j);
    var prev := s.writers[p].idx;
    assert PhaseOK(s, p) && SlotOK(s, p, j) && SlotOK(s, p, prev);
    forall x, y | 0 <= x < s.N() && 0 <= y <= s.N() ensures SlotOK(s1, x, y) {
      assert SlotOK(s, x, y);
      HoldersAfter(s, s1, p, x, y);
      FlaggersAfter(s, s1, p, x, y);
    }
  }

  // ---------------------------------------------------------------- the free slot

  /** Distinct slots need distinct pinning threads. */
  lemma {:induction false} Pigeonhole(slots: set<nat>, pin: map<nat, nat>, threads: set<nat>)
    requires forall j | j in slots :: j in pin && pin[j] in threads
    requires forall i, j | i in slots && j in slots && i != j :: pin[i] != pin[j]
    ensures |slots| <= |threads|
  {
    if slots != {} {
      var j :| j in slots;
      Pigeonhole(slots - {j}, pin, threads - {pin[j]});
    }
  }

  function Below(n: nat): (r: set<nat>)
    ensures |r| == n && forall j: nat :: j in r <==> j < n
  {
    if n == 0 then {} else Below(n - 1) + {n - 1}
  }

  /** The thread that keeps a retired slot from being free: a reader, or a releaser that has not
      written the flag yet. */
  lemma {:induction false} Pinner(s: State, w: nat, j: nat) returns (q: nat)
    requires Shape(s) && PoolInv(s) && w < s.N() && j <= s.N() && s.threads[w].pc == Return
    requires s.writers[w].installs > 0 && s.writers[w].idx != j && !s.writers[w].slots[j].Free()
    ensures q < s.N() && q != w && Touches(s.threads[q].pc, w, j)
  {
    assert SlotOK(s, w, j);
    var h, f := Holders(s, w, j), Flaggers(s, w, j);
    assert h + f != {};
    q :| q in h + f;
  }

  ghost predicate Pins(s: State, w: nat, pin: map<nat, nat>)
  {
    forall j | j in pin :: pin[j] < |s.threads| && pin[j] != w && Touches(s.threads[pin[j]].pc, w, j)
  }

  lemma {:induction false} PinMap(s: State, w: nat, retired: set<nat>) returns (pin: map<nat, nat>)
    requires Shape(s) && PoolInv(s) && w < s.N() && s.threads[w].pc == Return && s.writers[w].installs > 0
    requires forall j | j in retired :: j <= s.N() && j != s.writers[w].idx && !s.writers[w].slots[j].Free()
    ensures pin.Keys == retired && Pins(s, w, pin)
  {
    if retired == {} {
      pin := map[];
    } else {
      var j :| j in retired;
      pin := PinMap(s, w, retired - {j});
      var q := Pinner(s, w, j);
      pin := pin[j := q];
    }
  }

  /** A thread touches one slot at a time, so n - 1 threads pin at most n - 1 slots. */
  lemma {:induction false} PinsBound(s: State, w: nat, slots: set<nat>, pin: map<nat, nat>)
    requires w < |s.threads| && pin.Keys == slots && Pins(s, w, pin)
    ensures |slots| < |s.threads|
  {
    var others := Below(|s.threads|) - {w};
    forall j | j in slots ensures pin[j] in others {
    }
    forall i, j | i in slots && j in slots && i != j ensures pin[i] != pin[j] {
      assert Touches(s.threads[pin[i]].pc, w, i) && Touches(s.threads[pin[j]].pc, w, j);
    }
    Pigeonhole(slots, pin, others);
  }

  /** Among n + 1 slots one is free whenever the writer starts to look: one slot is current and each
      of the other n - 1 threads pins at most one. */
  lemma {:induction false} FreeSlot(s: State, w: nat)
    requires Shape(s) && PoolInv(s) && w < s.N() && s.threads[w].pc == Return
    requires s.writers[w].installs == 0 ==> s.writers[w].slots[0].Empty?
    ensures exists x :: 0 <= x <= s.N() && s.writers[w].slots[x].Free()
  {
    var sh := s.writers[w];
    if sh.installs == 0 {
      assert sh.slots[0].Free();
    } else if forall x | 0 <= x <= s.N() :: !sh.slots[x].Free() {
      var retired := Below(s.N() + 1) - {sh.idx};
      var pin := PinMap(s, w, retired);
      PinsBound(s, w, retired, pin);
    }
  }
}
