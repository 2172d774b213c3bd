/** scan and update as the program text runs them: loops over local variables, with the other threads
    acting in an arbitrary way before every access to shared memory.

    Each access also advances the state machine of module SnapshotModel by one step of this thread, so
    the loops are shown to walk exactly through its program counters, and what is proved of the
    machine's runs holds of the program. */
module SnapshotCode {
  import opened SnapshotInvariant
  import opened SnapshotModel
  import opened SnapshotPools
  import opened SnapshotSafety
  import opened SnapshotSchedule
  import opened SnapshotTheorems

  datatype Option<T> = None | Some(value: T)

  /** What a borrowing thread has acquired is not null. */
  lemma {:induction false} HeldSlot(n: nat, run: seq<(nat, Action)>, p: nat, w: nat, j: nat)
    requires p < n && w < n && j <= n && Holding(Exec(n, run).threads[p].pc, w, j)
    ensures Exec(n, run).writers[w].slots[j].Version? && |Exec(n, run).writers[w].slots[j].vec| == n
  {
    RunInv(n, run);
    assert ThreadOK(Exec(n, run), p);
  }

  /** What a writer is about to reset is not null. */
  lemma {:induction false} RetiredSlot(n: nat, run: seq<(nat, Action)>, p: nat, j: nat, c: nat)
    requires p < n && j <= n && Exec(n, run).threads[p].pc == Reset(j, c)
    ensures Exec(n, run).writers[p].slots[j].Version?
  {
    var next := run + [(p, Action.Advance)];
    assert next[..|next| - 1] == run;
    NoAssertFails(n, next, p);
  }

  /** Before its first pass a scan has counted nothing. */
  lemma {:induction false} Collected(n: nat, run: seq<(nat, Action)>, p: nat)
    requires p < n && Exec(n, run).threads[p].pc.Collect?
    ensures Exec(n, run).threads[p].changes == seq(n, _ => 0) && Exec(n, run).threads[p].same
  {
    RunInv(n, run);
    assert ThreadOK(Exec(n, run), p);
  }

  /** The search never passes the last slot. */
  lemma {:induction false} SearchEnds(n: nat, run: seq<(nat, Action)>, p: nat)
    requires p < n
    ensures Exec(n, run).threads[p].pc != Search(n + 1)
  {
    var next := run + [(p, Action.Advance)];
    assert next[..|next| - 1] == run;
    NoAssertFails(n, next, p);
  }

  /** The same versions in the same slots, and the same one current; counts and flags may differ. */
  predicate SameVersions(sh: Shared, sh1: Shared)
  {
    && sh1.idx == sh.idx && sh1.installs == sh.installs && |sh1.slots| == |sh.slots|
    && forall j {:trigger sh1.slots[j]} | 0 <= j < |sh.slots| && sh.slots[j].Version? ::
         sh1.slots[j].Version? && sh1.slots[j].vec == sh.slots[j].vec
  }

  /** What a thread finds in its pool after the exchange of the control block: its vector is published. */
  predicate Publishes(sh: Shared, snapshot: Vec)
  {
    sh.idx < |sh.slots| && sh.slots[sh.idx].Version? && sh.slots[sh.idx].vec == snapshot
  }

  lemma {:induction false} SamePublished(sh: Shared, sh1: Shared, snapshot: Vec)
    requires SameVersions(sh, sh1) && Publishes(sh, snapshot)
    ensures Publishes(sh1, snapshot) && sh1.idx == sh.idx && sh1.installs == sh.installs
  {
    assert sh1.slots[sh.idx].Version?;
  }

  /** Flagged, with all its readers gone. */
  predicate Retired(sl: Slot)
  {
    sl.Version? && sl.inner == 0 && sl.flag
  }

  /** Adding c to the inner count that `met` shows for slot j of writer w brings it to zero. */
  predicate Empties(met: State, w: nat, j: nat, c: int)
  {
    Shape(met) && w < met.N() && j <= met.N() && met.writers[w].slots[j].Version?
    && met.writers[w].slots[j].inner + c == 0
  }

  /** c was added to it; if that left nothing to count, the flag has been raised. */
  predicate Tallied(met: State, s: State, w: nat, j: nat, c: int)
  {
    Shape(met) && w < met.N() && j <= met.N() && met.writers[w].slots[j].Version?
    && var sl := met.writers[w].slots[j];
       if sl.inner + c != 0 then s.writers == SetSlot(met, w, j, sl.(inner := sl.inner + c)).writers
       else w < |s.writers| && j < |s.writers[w].slots| && Retired(s.writers[w].slots[j])
  }

  /** In this run of n threads, `met` is the state met by a step of p with program counter pc, taken after the
      events `before`. */
  ghost predicate Met(
    n: nat, run: seq<(nat, Action)>, met: State, p: nat, pc: PC, before: seq<(nat, Action)>)
  {
    before <= run && exists k {:trigger run[k]} ::
      && |before| <= k < |run| && run[k] == (p, Action.Advance) && met == Exec(n, run[..k])
      && p < |met.threads| && met.threads[p].pc == pc
  }

  lemma {:induction false} StillMet(
    n: nat, run: seq<(nat, Action)>, longer: seq<(nat, Action)>, met: State, p: nat, pc: PC,
    before: seq<(nat, Action)>)
    requires Met(n, run, met, p, pc, before) && run <= longer
    ensures Met(n, longer, met, p, pc, before)
  {
    var k :| |before| <= k < |run| && run[k] == (p, Action.Advance) && met == Exec(n, run[..k])
             && p < |met.threads| && met.threads[p].pc == pc;
    assert longer[..k] == run[..k] && longer[k] == run[k];
  }

  /** The reset step of p met `met`, and its effect is in s. */
  ghost predicate Resets(
    n: nat, run: seq<(nat, Action)>, met: State, s: State, p: nat, j: nat, c: nat, before: seq<(nat, Action)>)
  {
    Met(n, run, met, p, Reset(j, c), before) && Tallied(met, s, p, j, -(c as int))
  }

  /** What was met since a later point of the run was met since an earlier one. */
  lemma {:induction false} ResetsSince(
    n: nat, run: seq<(nat, Action)>, swapped: State, met: State, s: State, p: nat, i: nat, j: nat, c: nat,
    before: seq<(nat, Action)>, sofar: seq<(nat, Action)>)
    requires Met(n, sofar, swapped, p, Swap(i), before) && Resets(n, run, met, s, p, j, c, sofar)
    ensures Met(n, run, swapped, p, Swap(i), before) && Resets(n, run, met, s, p, j, c, before)
  {
    StillMet(n, sofar, run, swapped, p, Swap(i), before);
  }

  /** An entry of the history made since some event was the register contents after that event or a later one. */
  lemma {:induction false} SinceCall(
    n: nat, before: seq<(nat, Action)>, run: seq<(nat, Action)>, h: seq<Vec>, v: Vec)
    requires before <= run && h == Exec(n, before).hist
    requires exists a :: |h| - 1 <= a < |Exec(n, run).hist| && Exec(n, run).hist[a] == v
    ensures exists m :: |before| <= m <= |run| && ContentsAt(n, run, m, v)
  {
    hide Exec, ContentsAt;
    LastEntry(n, before);
    var a :| |h| - 1 <= a < |Exec(n, run).hist| && Exec(n, run).hist[a] == v;
    assert run[..|before|] == before;
    var m := InstantOf(n, run, |before|, a);
  }

  lemma {:induction false} OthersKeep(s: State, p: nat, q: nat, a: Action)
    requires Shape(s) && p < s.N() && q != p
    ensures var s1 := Do(s, q, a); s1.threads[p] == s.threads[p] && s1.regs[p] == s.regs[p] && s.hist <= s1.hist
  {
    if q < s.N() { OtherEffect(s, p, q, a); }
  }

  /** Others count references to the versions of p and raise their flags, but store none. */
  lemma {:induction false} OthersStoreNothing(s: State, p: nat, q: nat, a: Action)
    requires Shape(s) && p < s.N() && q != p
    ensures SameVersions(s.writers[p], Do(s, q, a).writers[p])
  {
  }

  /** A slot that is about to be made current holds the new vector, unread and unflagged. */
  lemma {:induction false} FilledSlot(n: nat, run: seq<(nat, Action)>, p: nat, i: nat)
    requires p < n && i <= n && Exec(n, run).threads[p].pc == Swap(i)
    ensures Exec(n, run).writers[p].slots[i] == Version(Exec(n, run).threads[p].first, 0, false)
  {
    RunInv(n, run);
    assert PhaseOK(Exec(n, run), p);
  }

  /** A raised flag stands on a version whose readers have all gone. */
  lemma {:induction false} FlaggedSlot(n: nat, run: seq<(nat, Action)>, w: nat, j: nat)
    requires w < n && j <= n && Exec(n, run).writers[w].slots[j].Version? && Exec(n, run).writers[w].slots[j].flag
    ensures Exec(n, run).writers[w].slots[j].inner == 0
  {
    RunInv(n, run);
    assert SlotOK(Exec(n, run), w, j);
  }

  /** A slot found free is not current, unless it is the first of all. */
  lemma {:induction false} FoundSlot(n: nat, run: seq<(nat, Action)>, p: nat, i: nat)
    requires p < n && i <= n && Exec(n, run).threads[p].pc == Install(i)
    ensures var s := Exec(n, run); var sh := s.writers[p];
      && sh.slots[i].Free() && (sh.installs == 0 || i != sh.idx)
      && forall q | 0 <= q < n :: !Touches(s.threads[q].pc, p, i)
  {
    RunInv(n, run);
    var s := Exec(n, run);
    assert PhaseOK(s, p) && SlotOK(s, p, i);
    forall q | 0 <= q < n ensures !Touches(s.threads[q].pc, p, i) { NoReaders(s, q, p, i); }
  }

  /** A thread after it has read register i for the second time and found r. */
  function ReadBy(t: Thread, n: nat, i: nat, r: Reg): (t1: Thread)
    requires ThreadShape(t, n) && i < n
  {
    var c := t.changes[i] + 1;
    if t.first[i] == r then t.(second := t.second[i := r], pc := Pass(i + 1))
    else
      t.(second := t.second[i := r], pc := if c == 2 then Acquire(i) else Pass(i + 1), same := false,
         changes := t.changes[i := c])
  }

  class WaitfreeAtomicSnapshot {
    const threadCount: nat
    /** Shared memory, and what the threads are doing. */
    var s: State
    /** The events so far. */
    ghost var run: seq<(nat, Action)>

    ghost predicate Valid()
      reads this
    {
      s == Exec(threadCount, run) && |s.regs| == |s.writers| == |s.threads| == threadCount
    }

    constructor (threadCount: nat)
      ensures Valid() && this.threadCount == threadCount && s == Init(threadCount)
      ensures forall k | 0 <= k < threadCount :: s.regs[k] == Reg(0, 0)
    {
      this.threadCount := threadCount;
      s := Init(threadCount);
      run := [];
    }

    method Event(q: nat, a: Action)
      requires Valid()
      modifies this
      ensures Valid() && s == Do(old(s), q, a) && run == old(run) + [(q, a)]
    {
      s := Do(s, q, a);
      run := run + [(q, a)];
      assert run[..|run| - 1] == old(run);
    }

    /** This thread's next step; none of its asserts fails. */
    method Advance(p: nat)
      requires Valid() && p < threadCount && !s.threads[p].pc.Idle?
      modifies this
      ensures Valid() && s == Step(old(s), p) && !s.threads[p].pc.AssertFailed?
      ensures run == old(run) + [(p, Action.Advance)]
    {
      Event(p, Action.Advance);
      NoAssertFails(threadCount, run, p);
    }

    /** Any number of events of any other threads. */
    method Others(p: nat)
      requires Valid() && p < threadCount
      modifies this
      ensures Valid() && s.threads[p] == old(s.threads[p]) && s.regs[p] == old(s.regs[p]) && old(s.hist) <= s.hist
      ensures SameVersions(old(s.writers[p]), s.writers[p]) && old(run) <= run
    {
      var rounds: nat := *;
      while rounds > 0
        invariant Valid() && s.threads[p] == old(s.threads[p]) && s.regs[p] == old(s.regs[p]) && old(s.hist) <= s.hist
        invariant SameVersions(old(s.writers[p]), s.writers[p]) && old(run) <= run
      {
        var q: nat := *;
        var a: Action := *;
        if q != p {
          OthersKeep(s, p, q, a);
          OthersStoreNothing(s, p, q, a);
          Event(q, a);
        }
        rounds := rounds - 1;
      }
    }

    /** The call behind `x` is still in progress: same call position and job, register not written yet. */
    ghost predicate During(p: nat, x: Thread, h: seq<Vec>, r: Reg, events: seq<(nat, Action)>)
      reads this
      requires Valid() && p < threadCount
    {
      var y := s.threads[p];
      y.start == x.start && y.job == x.job && s.regs[p] == r && h <= s.hist && events <= run
    }

    /** The scan of p, called at position `start`, has returned this vector: the registers' contents at one
        instant since then. */
    ghost predicate Returned(p: nat, start: nat, snapshot: Vec)
      reads this
      requires Valid() && p < threadCount
    {
      && s.threads[p].pc == (if s.threads[p].job.ScanJob? then Idle else Search(0))
      && s.threads[p].first == snapshot && Seen(s.hist, start, snapshot)
    }

    /** shared_snapshot::acquire of writer w. */
    method AcquireIndex(p: nat, w: nat) returns (index: nat)
      requires Valid() && p < threadCount && w < threadCount && s.threads[p].pc == Acquire(w)
      modifies this
      ensures Valid() && During(p, old(s.threads[p]), old(s.hist), old(s.regs[p]), old(run))
      ensures index <= threadCount && s.threads[p] == old(s.threads[p]).(pc := Copy(w, index, 0))
    {
      Others(p);
      index := s.writers[w].idx;
      Advance(p);
    }

    /** The copy of register k of a version. */
    method CopyOne(p: nat, w: nat, index: nat, k: nat) returns (r: Reg)
      requires Valid() && p < threadCount && w < threadCount && index <= threadCount && k < threadCount
      requires s.threads[p].pc == Copy(w, index, k)
      modifies this
      ensures Valid() && During(p, old(s.threads[p]), old(s.hist), old(s.regs[p]), old(run))
      ensures s.threads[p] == old(s.threads[p]).(pc := Copy(w, index, k + 1), first := old(s.threads[p].first)[k := r])
    {
      Others(p);
      HeldSlot(threadCount, run, p, w, index);
      r := s.writers[w].slots[index].vec[k];
      Advance(p);
    }

    /** The copy of a version that has been acquired. */
    method CopyVersion(p: nat, w: nat, index: nat) returns (first: Vec)
      requires Valid() && p < threadCount && w < threadCount && index <= threadCount
      requires s.threads[p].pc == Copy(w, index, 0)
      modifies this
      ensures Valid() && During(p, old(s.threads[p]), old(s.hist), old(s.regs[p]), old(run))
      ensures s.threads[p].pc == Copy(w, index, threadCount) && s.threads[p].first == first
    {
      ghost var x, h, r, events := s.threads[p], s.hist, s.regs[p], run;
      first := seq(threadCount, _ => Reg(0, 0));
      var k := 0;
      while k < threadCount
        invariant 0 <= k <= threadCount && Valid() && During(p, x, h, r, events) && |first| == threadCount
        invariant s.threads[p].pc == Copy(w, index, k)
        invariant forall m | 0 <= m < k :: first[m] == s.threads[p].first[m]
      {
        var c := CopyOne(p, w, index, k);
        first := first[k := c];
        k := k + 1;
      }
      assert first == s.threads[p].first;
    }

    /** acquire, and the copy of the version that the control block refers to. */
    method AcquireAndCopy(p: nat, w: nat) returns (first: Vec, index: nat)
      requires Valid() && p < threadCount && w < threadCount && s.threads[p].pc == Acquire(w)
      modifies this
      ensures Valid() && During(p, old(s.threads[p]), old(s.hist), old(s.regs[p]), old(run))
      ensures index <= threadCount && s.threads[p].pc == Release(w, index) && s.threads[p].first == first
    {
      index := AcquireIndex(p, w);
      first := CopyVersion(p, w, index);
      Others(p);
      Advance(p);
    }

    /** The fetch_add of release: `at` is the state it meets. */
    method AddInner(p: nat, w: nat, index: nat) returns (ghost at: State, remaining: int)
      requires Valid() && p < threadCount && w < threadCount && index <= threadCount
               && s.threads[p].pc == Release(w, index)
      modifies this
      ensures Valid() && During(p, old(s.threads[p]), old(s.hist), old(s.regs[p]), old(run))
      ensures Met(threadCount, run, at, p, Release(w, index), old(run))
      ensures if remaining == 0 then Empties(at, w, index, 1) else Tallied(at, s, w, index, 1)
      ensures s.threads[p] == old(s.threads[p]).(pc := if remaining == 0 then ReleaseFlag(w, index) else Return)
    {
      Others(p);
      HeldSlot(threadCount, run, p, w, index);
      at := s;
      remaining := s.writers[w].slots[index].inner + 1;
      ghost var k := |run|;
      Advance(p);
      assert run[k] == (p, Action.Advance) && run[..k] + [run[k]] == run;
    }

    /** The flag, raised by the last reader. */
    method FlagLast(p: nat, w: nat, index: nat, ghost met: State, ghost before: seq<(nat, Action)>)
      requires Valid() && p < threadCount && w < threadCount && index <= threadCount
               && s.threads[p].pc == ReleaseFlag(w, index)
      requires Met(threadCount, run, met, p, Release(w, index), before) && Empties(met, w, index, 1)
      modifies this
      ensures Valid() && During(p, old(s.threads[p]), old(s.hist), old(s.regs[p]), old(run))
      ensures s.threads[p] == old(s.threads[p]).(pc := Return)
      ensures Met(threadCount, run, met, p, Release(w, index), before) && Tallied(met, s, w, index, 1)
    {
      Others(p);
      Advance(p);
      FlaggedSlot(threadCount, run, w, index);
      StillMet(threadCount, old(run), run, met, p, Release(w, index), before);
    }

    /** Snapshot::release: one reader less; the last one of a retired version raises its flag. */
    method ReleaseSnapshot(p: nat, w: nat, index: nat) returns (ghost at: State)
      requires Valid() && p < threadCount && w < threadCount && index <= threadCount
               && s.threads[p].pc == Release(w, index)
      modifies this
      ensures Valid() && During(p, old(s.threads[p]), old(s.hist), old(s.regs[p]), old(run))
      ensures s.threads[p] == old(s.threads[p]).(pc := Return)
      ensures Met(threadCount, run, at, p, Release(w, index), old(run)) && Tallied(at, s, w, index, 1)
    {
      var remaining;
      at, remaining := AddInner(p, w, index);
      hide Exec, Empties, Tallied, Met;
      if remaining == 0 { FlagLast(p, w, index, at, old(run)); }
    }

    /** The return of scan. */
    method Finish(p: nat)
      requires Valid() && p < threadCount && s.threads[p].pc == Return
      modifies this
      ensures Valid() && During(p, old(s.threads[p]), old(s.hist), old(s.regs[p]), old(run))
      ensures Returned(p, old(s.threads[p].start), old(s.threads[p].first))
    {
      Others(p);
      RunInv(threadCount, run);
      assert ThreadOK(s, p);
      Advance(p);
    }

    /** A version borrowed from writer w, and the return. */
    method Borrow(p: nat, w: nat) returns (first: Vec)
      requires Valid() && p < threadCount && w < threadCount && s.threads[p].pc == Acquire(w)
      modifies this
      ensures Valid() && During(p, old(s.threads[p]), old(s.hist), old(s.regs[p]), old(run))
      ensures Returned(p, old(s.threads[p].start), first)
    {
      var index;
      first, index := AcquireAndCopy(p, w);
      var _ := ReleaseSnapshot(p, w, index);
      Finish(p);
    }

    /** The second read of register i, and what it does to the change counts. */
    method ReadAgain(p: nat, i: nat) returns (current: Reg)
      requires Valid() && p < threadCount && i < threadCount && s.threads[p].pc == Pass(i)
      modifies this
      ensures Valid() && During(p, old(s.threads[p]), old(s.hist), old(s.regs[p]), old(run))
      ensures var t := old(s.threads[p]); s.threads[p] == ReadBy(t, threadCount, i, current)
    {
      Others(p);
      current := s.regs[i];
      Advance(p);
    }

    /** One pass over the registers: ends early with a borrowed snapshot when a register has changed twice. */
    method OnePass(p: nat, first: Vec, counts: seq<nat>)
      returns (second: Vec, changeCount: seq<nat>, same: bool, borrowed: Option<Vec>)
      requires Valid() && p < threadCount && |first| == threadCount == |counts|
      requires s.threads[p].pc == Pass(0) && s.threads[p].first == first && s.threads[p].changes == counts
               && s.threads[p].same
      modifies this
      ensures Valid() && During(p, old(s.threads[p]), old(s.hist), old(s.regs[p]), old(run))
      ensures borrowed.None? ==>
        && s.threads[p].pc == Pass(threadCount) && s.threads[p].first == first && s.threads[p].second == second
        && s.threads[p].changes == changeCount && s.threads[p].same == same
              && s.threads[p].failed == old(s.threads[p].failed)
        && |second| == threadCount == |changeCount|
      ensures borrowed.Some? ==> Returned(p, old(s.threads[p].start), borrowed.value)
    {
      ghost var x, h, r, events := s.threads[p], s.hist, s.regs[p], run;
      hide Exec, Returned;
      second, changeCount, same, borrowed := first, counts, true, None;
      var i := 0;
      while i < threadCount
        invariant 0 <= i <= threadCount && Valid() && During(p, x, h, r, events)
        invariant s.threads[p].pc == Pass(i) && s.threads[p].first == first && s.threads[p].changes == changeCount
                  && s.threads[p].same == same
        invariant s.threads[p].failed == x.failed
        invariant |second| == threadCount == |changeCount|
                  && forall k | 0 <= k < i :: second[k] == s.threads[p].second[k]
      {
        var current := ReadAgain(p, i);
        second := second[i := current];
        if first[i] != second[i] {
          same := false;
          changeCount := changeCount[i := changeCount[i] + 1];
          if changeCount[i] == 2 {
            var snapshot := Borrow(p, i);
            borrowed := Some(snapshot);
            return;
          }
        }
        i := i + 1;
      }
      assert second == s.threads[p].second;
    }

    /** The copy of all registers with which scan begins. */
    method FirstCollect(p: nat) returns (first: Vec)
      requires Valid() && p < threadCount && s.threads[p].pc == Collect(0)
      modifies this
      ensures Valid() && During(p, old(s.threads[p]), old(s.hist), old(s.regs[p]), old(run))
      ensures s.threads[p] == old(s.threads[p]).(pc := Pass(0), first := first, mark := s.threads[p].mark)
              && |first| == threadCount
      ensures s.threads[p].changes == seq(threadCount, _ => 0) && s.threads[p].same
    {
      ghost var x, h, r, events := s.threads[p], s.hist, s.regs[p], run;
      first := seq(threadCount, _ => Reg(0, 0));
      var i := 0;
      while i < threadCount
        invariant 0 <= i <= threadCount && Valid() && During(p, x, h, r, events) && |first| == threadCount
        invariant s.threads[p] == x.(pc := Collect(i), first := s.threads[p].first)
        invariant forall k | 0 <= k < i :: first[k] == s.threads[p].first[k]
      {
        Others(p);
        first := first[i := s.regs[i]];
        Advance(p);
        i := i + 1;
      }
      assert first == s.threads[p].first;
      Others(p);
      Collected(threadCount, run, p);
      Advance(p);
    }

    /** The end of a complete pass: the scan is over, or what was read second is to be read first. */
    method EndPass(p: nat)
      requires Valid() && p < threadCount && s.threads[p].pc == Pass(threadCount)
      modifies this
      ensures Valid() && During(p, old(s.threads[p]), old(s.hist), old(s.regs[p]), old(run))
      ensures var t, t1 := old(s.threads[p]), s.threads[p];
        if t.same then t1 == t.(pc := Return)
        else t1 == t.(pc := Pass(0), first := t.second, same := true, mark := t1.mark, failed := t.failed + 1)
             && t1.failed < threadCount
    {
      PassBound(threadCount, run, p);
      Others(p);
      Advance(p);
    }

    /** The body of scan. */
    method Collecting(p: nat) returns (first: Vec)
      requires Valid() && p < threadCount && s.threads[p].pc == Collect(0)
      modifies this
      ensures Valid() && During(p, old(s.threads[p]), old(s.hist), old(s.regs[p]), old(run))
      ensures Returned(p, old(s.threads[p].start), first)
    {
      ghost var x, h, r, events := s.threads[p], s.hist, s.regs[p], run;
      hide Exec, Returned;
      first := FirstCollect(p);
      var second := first;
      var changeCount: seq<nat> := seq(threadCount, _ => 0);
      while true
        invariant Valid() && During(p, x, h, r, events) && |first| == threadCount == |changeCount|
        invariant s.threads[p].pc == Pass(0) && s.threads[p].first == first && s.threads[p].changes == changeCount
                  && s.threads[p].same
        decreases threadCount - s.threads[p].failed
      {
        var same, borrowed;
        second, changeCount, same, borrowed := OnePass(p, first, changeCount);
        if borrowed.Some? { return borrowed.value; }
        EndPass(p);
        if same {
          Finish(p);
          return;
        }
        first := second;
      }
    }

    /** scan: the registers' contents at one instant during the call. */
    method Scan(p: nat) returns (snapshot: Vec)
      requires Valid() && p < threadCount && s.threads[p].pc.Idle?
      modifies this
      ensures Valid() && s.threads[p].pc.Idle? && s.regs[p] == old(s.regs[p]) && old(s.hist) <= s.hist
      ensures exists a :: |old(s.hist)| - 1 <= a < |s.hist| && s.hist[a] == snapshot
      ensures old(run) <= run
      ensures exists m :: |old(run)| <= m <= |run| && ContentsAt(threadCount, run, m, snapshot)
    {
      Event(p, CallScan);
      snapshot := Collecting(p);
      hide Exec, ContentsAt;
      SinceCall(threadCount, old(run), run, old(s.hist), snapshot);
    }

    /** The inner count and flag of a slot that had been used before. */
    method ClearCounts(p: nat, i: nat)
      requires Valid() && p < threadCount && i <= threadCount && s.threads[p].pc == ZeroInner(i)
      modifies this
      ensures Valid() && During(p, old(s.threads[p]), old(s.hist), old(s.regs[p]), old(run))
      ensures s.threads[p] == old(s.threads[p]).(pc := Swap(i))
    {
      Others(p);
      Advance(p);
      Others(p);
      Advance(p);
    }

    /** The new version's vector, inner count and flag. */
    method Fill(p: nat, i: nat, snapshot: Vec)
      requires Valid() && p < threadCount && i <= threadCount && s.threads[p].pc == Install(i)
               && s.threads[p].first == snapshot
      modifies this
      ensures Valid() && During(p, old(s.threads[p]), old(s.hist), old(s.regs[p]), old(run))
      ensures s.threads[p] == old(s.threads[p]).(pc := Swap(i))
      ensures s.writers[p].slots[i] == Version(snapshot, 0, false)
    {
      Others(p);
      var empty := s.writers[p].slots[i].Empty?;
      Advance(p);
      if !empty { ClearCounts(p, i); }
      FilledSlot(threadCount, run, p, i);
    }

    /** The exchange of the control block: the counts start again, and the old count and index are returned.
        `at` is the state it meets. */
    method SwapControl(p: nat, i: nat) returns (ghost at: State, oldCount: nat, oldIndex: nat)
      requires Valid() && p < threadCount && i <= threadCount && s.threads[p].pc == Swap(i)
      modifies this
      ensures Valid() && During(p, old(s.threads[p]), old(s.hist), old(s.regs[p]), old(run))
      ensures oldIndex <= threadCount
      ensures s.threads[p] == old(s.threads[p]).(pc := if oldIndex != i then Reset(oldIndex, oldCount) else Write)
      ensures Met(threadCount, run, at, p, Swap(i), old(run))
      ensures Shape(at) && at.N() == threadCount && at.writers[p].cnt == oldCount && at.writers[p].idx == oldIndex
      ensures s.writers[p] == at.writers[p].(cnt := 0, idx := i, installs := at.writers[p].installs + 1)
      ensures Publishes(s.writers[p], old(s.threads[p].first))
    {
      Others(p);
      FilledSlot(threadCount, run, p, i);
      at := s;
      oldCount, oldIndex := s.writers[p].cnt, s.writers[p].idx;
      ghost var k := |run|;
      Advance(p);
      assert run[k] == (p, Action.Advance) && run[..k] + [run[k]] == run;
    }

    /** The fetch_sub of reset. */
    method SubtractInner(p: nat, oldIndex: nat, oldCount: nat) returns (ghost at: State, remaining: int)
      requires Valid() && p < threadCount && oldIndex <= threadCount && s.threads[p].pc == Reset(oldIndex, oldCount)
      modifies this
      ensures Valid() && During(p, old(s.threads[p]), old(s.hist), old(s.regs[p]), old(run))
      ensures s.threads[p] == old(s.threads[p]).(pc := if remaining == 0 then ResetFlag(oldIndex) else Write)
      ensures Met(threadCount, run, at, p, Reset(oldIndex, oldCount), old(run))
      ensures if remaining == 0 then Empties(at, p, oldIndex, -(oldCount as int))
              else Tallied(at, s, p, oldIndex, -(oldCount as int))
      ensures SameVersions(old(s.writers[p]), s.writers[p])
    {
      Others(p);
      RetiredSlot(threadCount, run, p, oldIndex, oldCount);
      at := s;
      remaining := s.writers[p].slots[oldIndex].inner - oldCount;
      ghost var k := |run|;
      Advance(p);
      assert run[k] == (p, Action.Advance) && run[..k] + [run[k]] == run;
    }

    /** The flag, when nothing was left to count. */
    method FlagOld(p: nat, oldIndex: nat, oldCount: nat, ghost met: State, ghost before: seq<(nat, Action)>)
      requires Valid() && p < threadCount && oldIndex <= threadCount && s.threads[p].pc == ResetFlag(oldIndex)
      requires Met(threadCount, run, met, p, Reset(oldIndex, oldCount), before)
               && Empties(met, p, oldIndex, -(oldCount as int))
      modifies this
      ensures Valid() && During(p, old(s.threads[p]), old(s.hist), old(s.regs[p]), old(run))
      ensures s.threads[p] == old(s.threads[p]).(pc := Write)
      ensures Resets(threadCount, run, met, s, p, oldIndex, oldCount, before)
      ensures SameVersions(old(s.writers[p]), s.writers[p])
    {
      Others(p);
      Advance(p);
      FlaggedSlot(threadCount, run, p, oldIndex);
      StillMet(threadCount, old(run), run, met, p, Reset(oldIndex, oldCount), before);
    }

    /** Snapshot::reset: the acquisitions counted so far are settled; a retired version without readers gets
        its flag. */
    method ResetOld(p: nat, oldIndex: nat, oldCount: nat) returns (ghost at: State)
      requires Valid() && p < threadCount && oldIndex <= threadCount && s.threads[p].pc == Reset(oldIndex, oldCount)
      modifies this
      ensures Valid() && During(p, old(s.threads[p]), old(s.hist), old(s.regs[p]), old(run))
      ensures s.threads[p] == old(s.threads[p]).(pc := Write)
      ensures Resets(threadCount, run, at, s, p, oldIndex, oldCount, old(run))
      ensures SameVersions(old(s.writers[p]), s.writers[p])
    {
      var remaining;
      at, remaining := SubtractInner(p, oldIndex, oldCount);
      hide Exec, Empties, Tallied, Met;
      if remaining == 0 { FlagOld(p, oldIndex, oldCount, at, old(run)); }
    }

    /** The exchange of the control block, and the reset of the version that was current, by the count that
        the exchange returned.  `swapped` and `at` are the states that the two met. */
    method SwapAndReset(p: nat, i: nat) returns (ghost swapped: State, ghost at: State)
      requires Valid() && p < threadCount && i <= threadCount && s.threads[p].pc == Swap(i)
      modifies this
      ensures Valid() && During(p, old(s.threads[p]), old(s.hist), old(s.regs[p]), old(run))
      ensures s.threads[p] == old(s.threads[p]).(pc := Write)
      ensures Publishes(s.writers[p], old(s.threads[p].first)) && s.writers[p].idx == i
      ensures Met(threadCount, run, swapped, p, Swap(i), old(run)) && |swapped.writers| == threadCount
      ensures s.writers[p].installs == swapped.writers[p].installs + 1
      ensures var met := swapped.writers[p];
              met.idx != i ==> Resets(threadCount, run, at, s, p, met.idx, met.cnt, old(run))
    {
      hide Exec, Resets, Met, Publishes, SameVersions;
      var oldCount, oldIndex;
      swapped, oldCount, oldIndex := SwapControl(p, i);
      at := swapped;
      if oldIndex != i {
        ghost var sofar, sh := run, s.writers[p];
        at := ResetOld(p, oldIndex, oldCount);
        SamePublished(sh, s.writers[p], old(s.threads[p].first));
        ResetsSince(threadCount, run, swapped, at, s, p, i, oldIndex, oldCount, old(run), sofar);
      }
    }

    /** The search loop of exchange, with its assert. */
    method FindFree(p: nat) returns (i: nat)
      requires Valid() && p < threadCount && s.threads[p].pc == Search(0)
      modifies this
      ensures Valid() && During(p, old(s.threads[p]), old(s.hist), old(s.regs[p]), old(run))
      ensures i <= threadCount && s.threads[p] == old(s.threads[p]).(pc := Install(i))
      ensures s.writers[p].slots[i].Free() && (s.writers[p].installs == 0 || i != s.writers[p].idx)
      ensures forall q | 0 <= q < threadCount :: !Touches(s.threads[q].pc, p, i)
    {
      ghost var x, h, r, events := s.threads[p], s.hist, s.regs[p], run;
      i := 0;
      while i < threadCount + 1
        invariant 0 <= i <= threadCount + 1 && Valid() && During(p, x, h, r, events)
        invariant s.threads[p] == x.(pc := Search(i))
      {
        Others(p);
        var free := s.writers[p].slots[i].Free();
        Advance(p);
        if free {
          FoundSlot(threadCount, run, p, i);
          return;
        }
        i := i + 1;
      }
      SearchEnds(threadCount, run, p);
    }

    /** shared_snapshot::exchange: a free slot is found, filled and made current; the old version gets
        its count. */
    method Exchange(p: nat, snapshot: Vec)
      requires Valid() && p < threadCount && s.threads[p].pc == Search(0) && s.threads[p].first == snapshot
      modifies this
      ensures Valid() && During(p, old(s.threads[p]), old(s.hist), old(s.regs[p]), old(run))
      ensures s.threads[p].pc == Write && Publishes(s.writers[p], snapshot)
    {
      var i := FindFree(p);
      Fill(p, i, snapshot);
      var _, _ := SwapAndReset(p, i);
    }

    /** The register write with which update ends. */
    method WriteRegister(p: nat, value: int)
      requires Valid() && p < threadCount && s.threads[p].pc == Write && s.threads[p].job == UpdateJob(value)
      modifies this
      ensures Valid() && s.threads[p].pc.Idle? && s.regs[p] == Reg(old(s.regs[p]).ts + 1, value)
      ensures old(s.hist) <= s.hist && SameVersions(old(s.writers[p]), s.writers[p]) && old(run) <= run
    {
      Others(p);
      Advance(p);
    }

    /** The call of update, and its embedded scan. */
    method ScanForUpdate(p: nat, value: int) returns (snapshot: Vec)
      requires Valid() && p < threadCount && s.threads[p].pc.Idle?
      modifies this
      ensures Valid() && s.regs[p] == old(s.regs[p]) && old(s.hist) <= s.hist && old(run) <= run
      ensures s.threads[p].pc == Search(0) && s.threads[p].job == UpdateJob(value) && s.threads[p].first == snapshot
      ensures exists a :: |old(s.hist)| - 1 <= a < |s.hist| && s.hist[a] == snapshot
    {
      Event(p, CallUpdate(value));
      snapshot := Collecting(p);
    }

    /** update: one embedded scan, its publication, one register write.  What is published is the registers'
        contents at one instant during the call. */
    method Update(p: nat, value: int)
      requires Valid() && p < threadCount && s.threads[p].pc.Idle?
      modifies this
      ensures Valid() && s.threads[p].pc.Idle? && s.regs[p] == Reg(old(s.regs[p]).ts + 1, value)
              && old(s.hist) <= s.hist
      ensures exists a :: |old(s.hist)| - 1 <= a < |s.hist| && Publishes(s.writers[p], s.hist[a])
      ensures old(run) <= run && exists m, v :: |old(run)| <= m <= |run| && Publishes(s.writers[p], v)
                                                && ContentsAt(threadCount, run, m, v)
    {
      var snapshot := ScanForUpdate(p, value);
      hide Exec;
      ghost var a :| |old(s.hist)| - 1 <= a < |s.hist| && s.hist[a] == snapshot;
      Exchange(p, snapshot);
      WriteRegister(p, value);
      assert s.hist[a] == snapshot;
      hide ContentsAt;
      SinceCall(threadCount, old(run), run, old(s.hist), snapshot);
    }
  }
}
