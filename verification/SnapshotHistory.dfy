/** Every step keeps the history invariant. */
module SnapshotHistory {
  import opened SnapshotModel
  import opened SnapshotInvariant

  predicate SlotFrame(a: Slot, b: Slot)
  {
    a.Version? == b.Version? && (a.Version? ==> a.vec == b.vec && (a.flag ==> b.flag))
  }

  /** What a step of thread p leaves alone, as the other threads see it. */
  ghost predicate Frame(s: State, s1: State, p: nat)
  {
    && Shape(s) && Shape(s1) && s1.N() == s.N() && p < s.N()
    && s.hist <= s1.hist && HistOK(s1.hist, s1.N()) && s1.hist[|s1.hist| - 1] == s1.regs
    && (forall q | 0 <= q < s.N() && q != p :: s1.threads[q] == s.threads[q] && s1.regs[q] == s.regs[q])
    && (forall w | 0 <= w < s.N() && w != p ::
          s1.writers[w].idx == s.writers[w].idx && s1.writers[w].installs == s.writers[w].installs)
    && (forall w, j | 0 <= w < s.N() && w != p && 0 <= j <= s.N() ::
          SlotFrame(s.writers[w].slots[j], s1.writers[w].slots[j]))
    && (forall q, j | 0 <= q < s.N() && 0 <= j <= s.N() && q != p && Touches(s.threads[q].pc, p, j) ::
          SlotFrame(s.writers[p].slots[j], s1.writers[p].slots[j]))
  }

  lemma {:induction false} ReadsExtend(h: seq<Vec>, h': seq<Vec>, n: nat, m: nat, x: seq<Reg>, i: nat)
    requires h <= h' && m < |h| && i <= n && |x| == n && forall a | 0 <= a < |h'| :: |h'[a]| == n
    requires forall k | 0 <= k < i :: h[m][k].ts <= x[k].ts && InColumn(h, k, x[k])
    ensures forall k | 0 <= k < i :: ReadAfter(h', m, k, x[k])
  {
    Extend(h, h');
    assert h'[m] == h[m];
  }

  lemma {:induction false} PassExtend(h: seq<Vec>, h': seq<Vec>, t: Thread, n: nat, p: nat, i: nat)
    requires h <= h' && forall a | 0 <= a < |h'| :: |h'[a]| == n
    requires ThreadShape(t, n) && p < n && i <= n && t.start < |h| && forall a | 0 <= a < |h| :: |h[a]| == n
    requires PassOK(h, t, n, p, i)
    ensures PassOK(h', t, n, p, i)
  {
    ReadsExtend(h, h', n, t.start, t.first, n);
    ReadsExtend(h, h', n, t.mark, t.second, i);
    assert h'[t.start] == h[t.start] && h'[t.mark] == h[t.mark];
  }

  lemma {:induction false} HeldSlot(s: State, s1: State, p: nat, q: nat, w: nat, j: nat)
    requires Frame(s, s1, p) && q < s.N() && q != p && w < s.N() && j <= s.N() && Touches(s.threads[q].pc, w, j)
    ensures SlotFrame(s.writers[w].slots[j], s1.writers[w].slots[j])
  {
    if w == p {
      assert Touches(s.threads[q].pc, p, j);
    }
  }

  lemma {:induction false} OtherThread(s: State, s1: State, p: nat, q: nat)
    requires Frame(s, s1, p) && q < s.N() && q != p && ThreadOK(s, q)
    requires HistOK(s.hist, s.N()) && s.hist[|s.hist| - 1] == s.regs
    ensures ThreadOK(s1, q)
  {
    var t := s.threads[q];
    var h, h' := s.hist, s1.hist;
    assert s1.threads[q] == t;
    match t.pc
    case Collect(i) => ReadsExtend(h, h', s.N(), t.start, t.first, i);
    case Pass(i) => PassExtend(h, h', t, s.N(), q, i);
    case Acquire(w) =>
      assert h[|h| - 1][w] == s.regs[w] && h'[|h| - 1] == h[|h| - 1];
      assert h'[|h| - 1][w].ts <= h'[|h'| - 1][w].ts;
    case Copy(w, j, k) => Extend(h, h'); HeldSlot(s, s1, p, q, w, j);
    case Release(w, j) => Extend(h, h'); HeldSlot(s, s1, p, q, w, j);
    case ReleaseFlag(w, j) => Extend(h, h'); HeldSlot(s, s1, p, q, w, j);
    case _ => Extend(h, h');
  }

  lemma {:induction false} OtherWriter(s: State, s1: State, p: nat, w: nat)
    requires Frame(s, s1, p) && w < s.N() && w != p && WriterOK(s, w)
    requires s1.writers[w].cnt == s.writers[w].cnt || s.writers[w].installs > 0
    ensures WriterOK(s1, w)
  {
    Extend(s.hist, s1.hist);
    var sh := s.writers[w];
    assert SlotFrame(sh.slots[sh.idx], s1.writers[w].slots[sh.idx]);
    assert SlotFrame(sh.slots[0], s1.writers[w].slots[0]);
  }

  // ---------------------------------------------------------------- the scanning thread itself

  /** Reading register k now is a read at or after every past position. */
  lemma {:induction false} ReadNow(s: State, m: nat, k: nat)
    requires Base(s) && m < |s.hist| && k < s.N()
    ensures ReadAfter(s.hist, m, k, s.regs[k])
  {
    assert s.hist[|s.hist| - 1][k] == s.regs[k];
  }

  lemma {:induction false} ReadsBelowNow(s: State, m: nat, x: seq<Reg>, i: nat)
    requires Base(s) && m < |s.hist| && i <= s.N() && |x| == s.N()
    requires forall k | 0 <= k < i :: ReadAfter(s.hist, m, k, x[k])
    ensures forall k | 0 <= k < i :: x[k].ts <= s.regs[k].ts
  {
    forall k | 0 <= k < i ensures x[k].ts <= s.regs[k].ts {
      ColumnOrder(s.hist, s.N(), k, x[k], x[k]);
    }
  }

  lemma {:induction false} CollectStep(s: State, p: nat, i: nat)
    requires Base(s) && p < s.N() && ThreadOK(s, p) && s.threads[p].pc == Collect(i)
    ensures ThreadOK(StepCollect(s, p, i), p)
  {
    var t := s.threads[p];
    if i < s.N() {
      ReadNow(s, t.start, i);
    } else {
      ReadsBelowNow(s, t.start, t.first, s.N());
      SumZero(s.N());
    }
  }

  lemma {:induction false} SameCounts(h: seq<Vec>, t: Thread, t1: Thread, n: nat, p: nat, i: nat)
    requires HistOK(h, n) && ThreadShape(t, n) && ThreadShape(t1, n) && p < n && i < n && t.start < |h|
             && CountsOK(h, t, n, p, i)
    requires t1 == t.(second := t.second[i := t.first[i]], pc := t1.pc)
    ensures CountsOK(h, t1, n, p, i + 1)
  {
    assert forall k | 0 <= k < n :: Latest(t1, i + 1, k) == Latest(t, i, k);
  }

  /** A read that agrees with first extends the pass. */
  lemma {:induction false} SameRead(h: seq<Vec>, t: Thread, t1: Thread, n: nat, p: nat, i: nat)
    requires HistOK(h, n) && ThreadShape(t, n) && ThreadShape(t1, n) && p < n && i < n && t.start < |h|
             && PassOK(h, t, n, p, i)
    requires ReadAfter(h, t.mark, i, t.first[i])
    requires t1 == t.(second := t.second[i := t.first[i]], pc := t1.pc)
    ensures PassOK(h, t1, n, p, i + 1)
  {
    SameCounts(h, t, t1, n, p, i);
    hide CountsOK, HistOK, InColumn;
  }

  lemma {:induction false} ChangedCounts(h: seq<Vec>, t: Thread, t1: Thread, n: nat, p: nat, i: nat, r: Reg)
    requires ThreadShape(t, n) && ThreadShape(t1, n) && p < n && i < n && t.start < |h|
             && forall a | 0 <= a < |h| :: |h[a]| == n
    requires CountsOK(h, t, n, p, i) && t.first[i].ts < r.ts && i != p && t.changes[i] == 0
    requires t1.first == t.first && t1.second == t.second[i := r] && t1.changes == t.changes[i := 1]
    requires t1.start == t.start && t1.failed == t.failed && !t1.same
    ensures CountsOK(h, t1, n, p, i + 1)
  {
    SumUpdate(t.changes, i, 1);
    forall k | 0 <= k < n ensures t1.changes[k] <= 1 && h[t1.start][k].ts + t1.changes[k] <= Latest(t1, i + 1, k).ts {
      assert h[t.start][k].ts + t.changes[k] <= Latest(t, i, k).ts;
    }
  }

  /** A read that differs is a later write, and is counted. */
  lemma {:induction false} ChangedRead(h: seq<Vec>, t: Thread, t1: Thread, n: nat, p: nat, i: nat, r: Reg)
    requires HistOK(h, n) && ThreadShape(t, n) && ThreadShape(t1, n) && p < n && i < n && t.start < |h|
             && PassOK(h, t, n, p, i)
    requires ReadAfter(h, t.mark, i, r) && t.first[i].ts < r.ts && i != p && t.changes[i] == 0
    requires t1 == t.(second := t.second[i := r], pc := t1.pc, same := false, changes := t.changes[i := 1])
    ensures PassOK(h, t1, n, p, i + 1)
  {
    ChangedCounts(h, t, t1, n, p, i, r);
    forall k | 0 <= k < i + 1 ensures ReadAfter(h, t.mark, k, t1.second[k]) {
      assert k < i ==> t1.second[k] == t.second[k];
    }
  }

  /** One read of a pass, where r is the current content of register i. */
  lemma {:induction false} PassRead(h: seq<Vec>, t: Thread, n: nat, p: nat, i: nat, r: Reg)
    requires HistOK(h, n) && ThreadShape(t, n) && p < n && i < n && t.start < |h| && PassOK(h, t, n, p, i)
    requires r == h[|h| - 1][i] && h[t.start][p] == h[|h| - 1][p]
    ensures t.first[i] == r ==> PassOK(h, t.(second := t.second[i := r], pc := Pass(i + 1)), n, p, i + 1)
    ensures t.first[i] != r && t.changes[i] == 0 ==>
      PassOK(h, t.(second := t.second[i := r], pc := Pass(i + 1), same := false, changes := t.changes[i := 1]), n, p,
          i + 1)
    ensures t.first[i] != r && t.changes[i] == 1 ==> h[t.start][i].ts + 2 <= r.ts
    ensures t.changes[i] <= 1
  {
    assert ReadAfter(h, t.mark, i, r);
    ColumnOrder(h, n, i, t.first[i], r);
    assert h[t.start][i].ts + t.changes[i] <= Latest(t, i, i).ts;
    if t.first[i] == r {
      SameRead(h, t, t.(second := t.second[i := r], pc := Pass(i + 1)), n, p, i);
    } else if t.changes[i] == 0 {
      ChangedRead(h, t, t.(second := t.second[i := r], pc := Pass(i + 1), same := false,
          changes := t.changes[i := 1]), n, p, i, r);
    }
  }

  /** The three outcomes of a read in a pass: no change, a first change, a second change. */
  lemma {:induction false} NextInPass(s: State, p: nat, i: nat)
    requires Shape(s) && p < s.N() && i < s.N() && s.threads[p].pc == Pass(i) && s.threads[p].changes[i] <= 1
    ensures var t, r := s.threads[p], s.regs[i];
      StepPass(s, p, i) == SetThread(s, p,
        if t.first[i] == r then t.(second := t.second[i := r], pc := Pass(i + 1))
        else if t.changes[i] == 0 then
          t.(second := t.second[i := r], pc := Pass(i + 1), same := false, changes := t.changes[i := 1])
        else t.(second := t.second[i := r], pc := Acquire(i), same := false, changes := t.changes[i := 2]))
  {
  }

  lemma {:induction false} AcquireThread(s: State, p: nat, t1: Thread, w: nat)
    requires Shape(s) && p < s.N() && w < s.N() && CallOK(s, p) && ThreadShape(t1, s.N())
    requires t1.pc == Acquire(w) && t1.start == s.threads[p].start && s.hist[t1.start][w].ts + 2 <= s.regs[w].ts
    ensures Shape(SetThread(s, p, t1)) && ThreadOK(SetThread(s, p, t1), p)
  {
  }

  lemma {:induction false} PassThread(s: State, p: nat, t1: Thread, i: nat)
    requires Shape(s) && p < s.N() && CallOK(s, p) && ThreadShape(t1, s.N()) && t1.pc == Pass(i)
             && t1.start == s.threads[p].start
    requires i <= s.N() && PassOK(s.hist, t1, s.N(), p, i)
    ensures Shape(SetThread(s, p, t1)) && ThreadOK(SetThread(s, p, t1), p)
  {
  }

  lemma {:induction false} PassStep(s: State, p: nat, i: nat)
    requires Base(s) && p < s.N() && ThreadOK(s, p) && s.threads[p].pc == Pass(i) && i < s.N()
    ensures ThreadOK(StepPass(s, p, i), p)
  {
    var t, r := s.threads[p], s.regs[i];
    PassRead(s.hist, t, s.N(), p, i, r);
    NextInPass(s, p, i);
    if t.first[i] == r {
      PassThread(s, p, t.(second := t.second[i := r], pc := Pass(i + 1)), i + 1);
    } else if t.changes[i] == 0 {
      PassThread(s, p, t.(second := t.second[i := r], pc := Pass(i + 1), same := false, changes := t.changes[i := 1]),
          i + 1);
    } else {
      AcquireThread(s, p, t.(second := t.second[i := r], pc := Acquire(i), same := false,
          changes := t.changes[i := 2]), i);
    }
  }

  /** The clean double collect: equal reads on both sides of `mark` are the registers at `mark`. */
  lemma {:induction false} CleanCollect(s: State, p: nat)
    requires Base(s) && p < s.N() && ThreadOK(s, p) && s.threads[p].pc == Pass(s.N()) && s.threads[p].same
    ensures s.hist[s.threads[p].mark] == s.threads[p].first
  {
    var t := s.threads[p];
    var h := s.hist;
    forall k | 0 <= k < s.N() ensures h[t.mark][k] == t.first[k] {
      assert ReadAfter(h, t.mark, k, t.second[k]);
      ColumnOrder(h, s.N(), k, t.first[k], h[t.mark][k]);
    }
  }

  /** What was read second is what the next pass compares with. */
  lemma {:induction false} NextPass(s: State, p: nat)
    requires Base(s) && p < s.N() && ThreadOK(s, p) && s.threads[p].pc == Pass(s.N()) && !s.threads[p].same
    ensures PassOK(s.hist, StepPass(s, p, s.N()).threads[p], s.N(), p, 0)
  {
    var t, t1, h := s.threads[p], StepPass(s, p, s.N()).threads[p], s.hist;
    ReadsBelowNow(s, t.mark, t.second, s.N());
    forall k | 0 <= k < s.N() ensures ReadAfter(h, t.start, k, t1.first[k]) {
      assert ReadAfter(h, t.mark, k, t.second[k]) && h[t.start][k].ts <= h[t.mark][k].ts;
    }
    assert forall k | 0 <= k < s.N() :: Latest(t1, 0, k) == Latest(t, s.N(), k);
  }

  lemma {:induction false} PassEndStep(s: State, p: nat)
    requires Base(s) && p < s.N() && ThreadOK(s, p) && s.threads[p].pc == Pass(s.N())
    ensures ThreadOK(StepPass(s, p, s.N()), p)
  {
    var t := s.threads[p];
    if t.same {
      CleanCollect(s, p);
      assert s.hist[t.mark] == t.first;
    } else {
      NextPass(s, p);
      var s1 := StepPass(s, p, s.N());
      assert CallOK(s1, p) && s1.threads[p].pc == Pass(0);
    }
  }

  lemma {:induction false} ColumnGrows(h: seq<Vec>, n: nat, a: nat, b: nat, k: nat)
    requires HistOK(h, n) && a < |h| && b < |h| && k < n
    ensures a <= b ==> h[a][k].ts <= h[b][k].ts
  {
  }

  /** The borrowed snapshot: a version current after two writes of w since the call was collected
      after the call, because its own component w counts at least one of those writes. */
  lemma {:induction false} BorrowedVersion(s: State, p: nat, w: nat)
    requires Base(s) && p < s.N() && w < s.N() && ThreadOK(s, p) && WriterOK(s, w) && s.threads[p].pc == Acquire(w)
    ensures var sh := s.writers[w];
            sh.installs > 0 && sh.slots[sh.idx].Version?
            && Seen(s.hist, s.threads[p].start, sh.slots[sh.idx].vec)
    ensures w != p
  {
    var t := s.threads[p];
    var h := s.hist;
    var v := s.writers[w].slots[s.writers[w].idx].vec;
    var a :| 0 <= a < |h| && h[a] == v;
    ColumnGrows(h, s.N(), a, t.start, w);
  }

  lemma {:induction false} AcquireStep(s: State, p: nat, w: nat)
    requires Base(s) && p < s.N() && w < s.N() && ThreadOK(s, p) && WriterOK(s, w) && s.threads[p].pc == Acquire(w)
    ensures ThreadOK(StepAcquire(s, p, w), p)
  {
    BorrowedVersion(s, p, w);
  }

  lemma {:induction false} CopyStep(s: State, p: nat, w: nat, j: nat, k: nat)
    requires Base(s) && p < s.N() && ThreadOK(s, p) && s.threads[p].pc == Copy(w, j, k)
    ensures ThreadOK(StepCopy(s, p, w, j, k), p)
  {
    var t := s.threads[p];
    if k == s.N() {
      assert t.first == s.writers[w].slots[j].vec;
    }
  }

  lemma {:induction false} ReleaseStep(s: State, p: nat, w: nat, j: nat)
    requires Base(s) && p < s.N() && ThreadOK(s, p) && s.threads[p].pc == Release(w, j)
    ensures ThreadOK(StepRelease(s, p, w, j), p)
  {
  }

  lemma {:induction false} ReleaseFlagStep(s: State, p: nat, w: nat, j: nat)
    requires Base(s) && p < s.N() && ThreadOK(s, p) && s.threads[p].pc == ReleaseFlag(w, j)
    ensures ThreadOK(StepRaiseFlag(s, p, w, j, Return), p)
  {
  }

  lemma {:induction false} ReturnStep(s: State, p: nat)
    requires Base(s) && p < s.N() && ThreadOK(s, p) && s.threads[p].pc == Return
    ensures ThreadOK(StepReturn(s, p), p)
  {
    var t := s.threads[p];
    var h := s.hist;
    var a :| t.start <= a < |h| && h[a] == t.first;
    assert h[t.start][p].ts <= h[a][p].ts <= h[|h| - 1][p].ts;
  }

  lemma {:induction false} BeginStep(s: State, p: nat, job: Job)
    requires Base(s) && p < s.N() && s.threads[p].pc == Idle
    ensures ThreadOK(Begin(s, p, job), p)
  {
  }
}
