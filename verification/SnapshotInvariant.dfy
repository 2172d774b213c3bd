/** The history invariant of the snapshot: what each thread's local vectors say about the
    register history, and what the current version of each writer says about its own register. */
module SnapshotInvariant {
  import opened SnapshotModel

  // ---------------------------------------------------------------- the register history

  /** Along the history every component's write count never falls, and equal counts mean equal words. */
  ghost predicate HistOK(h: seq<Vec>, n: nat)
  {
    && |h| > 0 && (forall a | 0 <= a < |h| :: |h[a]| == n)
    && forall a, b, k | 0 <= a <= b < |h| && 0 <= k < n ::
         h[a][k].ts <= h[b][k].ts && (h[a][k].ts == h[b][k].ts ==> h[a][k] == h[b][k])
  }

  /** v was the content of all registers at one instant, no earlier than position lo. */
  ghost predicate Seen(h: seq<Vec>, lo: nat, v: Vec)
  {
    exists a :: lo <= a < |h| && h[a] == v
  }

  /** r was the content of register k at some instant. */
  ghost predicate InColumn(h: seq<Vec>, k: nat, r: Reg)
  {
    exists a :: 0 <= a < |h| && k < |h[a]| && h[a][k] == r
  }

  lemma {:induction false} ColumnOrder(h: seq<Vec>, n: nat, k: nat, r: Reg, q: Reg)
    requires HistOK(h, n) && k < n && InColumn(h, k, r) && InColumn(h, k, q)
    ensures r.ts == q.ts ==> r == q
    ensures r.ts <= h[|h| - 1][k].ts
  {
    var a :| 0 <= a < |h| && k < |h[a]| && h[a][k] == r;
    var b :| 0 <= b < |h| && k < |h[b]| && h[b][k] == q;
  }

  lemma {:induction false} Extend(h: seq<Vec>, h': seq<Vec>)
    requires h <= h'
    ensures forall lo: nat, v | Seen(h, lo, v) :: Seen(h', lo, v)
    ensures forall k: nat, r | InColumn(h, k, r) :: InColumn(h', k, r)
  {
    forall lo: nat, v | Seen(h, lo, v) ensures Seen(h', lo, v) {
      var a :| lo <= a < |h| && h[a] == v;
      assert h'[a] == v;
    }
    forall k: nat, r | InColumn(h, k, r) ensures InColumn(h', k, r) {
      var a :| 0 <= a < |h| && k < |h[a]| && h[a][k] == r;
      assert h'[a][k] == r;
    }
  }

  // ---------------------------------------------------------------- sums of change counts

  function Sum(c: seq<nat>): (sum: nat)
  {
    if c == [] then 0 else c[0] + Sum(c[1..])
  }

  lemma {:induction false} SumUpdate(c: seq<nat>, i: nat, v: nat)
    requires i < |c|
    ensures Sum(c[i := v]) == Sum(c) - c[i] + v
  {
    if i == 0 {
      assert c[i := v][1..] == c[1..];
    } else {
      SumUpdate(c[1..], i - 1, v);
      assert c[i := v][1..] == c[1..][i - 1 := v];
    }
  }

  lemma {:induction false} SumAtMostLength(c: seq<nat>)
    requires forall k | 0 <= k < |c| :: c[k] <= 1
    ensures Sum(c) <= |c|
  {
    if c != [] { SumAtMostLength(c[1..]); }
  }

  lemma {:induction false} SumZero(n: nat)
    ensures Sum(seq(n, _ => 0)) == 0
  {
    if n > 0 {
      SumZero(n - 1);
      assert seq<nat>(n, _ => 0)[1..] == seq<nat>(n - 1, _ => 0);
    }
  }

  lemma {:induction false} SumWithZero(c: seq<nat>, p: nat)
    requires p < |c| && c[p] == 0 && forall k | 0 <= k < |c| :: c[k] <= 1
    ensures Sum(c) <= |c| - 1
  {
    SumUpdate(c, p, 1);
    SumAtMostLength(c[p := 1]);
  }

  // ---------------------------------------------------------------- the invariant of one thread

  predicate InScan(pc: PC)
  {
    pc.Collect? || pc.Pass? || pc.Acquire? || pc.Copy? || pc.Release? || pc.ReleaseFlag? || pc.Return?
  }

  /** The thread is publishing the vector of its embedded scan. */
  predicate Publishing(pc: PC)
  {
    pc.Search? || pc.Install? || pc.ZeroInner? || pc.ClearFlag? || pc.Swap?
  }

  /** r was read from register k at position m or later. */
  ghost predicate ReadAfter(h: seq<Vec>, m: nat, k: nat, r: Reg)
    requires m < |h| && k < |h[m]|
  {
    h[m][k].ts <= r.ts && InColumn(h, k, r)
  }

  /** The call position exists, and the thread's own register has not changed since. */
  ghost predicate CallOK(s: State, p: nat)
    requires Shape(s) && p < s.N()
  {
    var t := s.threads[p];
    t.start < |s.hist| && s.hist[t.start][p] == s.regs[p]
  }

  ghost predicate CollectOK(h: seq<Vec>, t: Thread, n: nat, i: nat)
    requires ThreadShape(t, n) && i <= n && t.start < |h| && forall a | 0 <= a < |h| :: |h[a]| == n
  {
    && (forall k | 0 <= k < i :: ReadAfter(h, t.start, k, t.first[k]))
    && t.changes == seq(n, _ => 0) && t.same && t.failed == 0
  }

  /** The latest read of register k in this scan. */
  function Latest(t: Thread, i: nat, k: nat): (r: Reg)
    requires k < |t.first| && k < |t.second|
  {
    if k < i then t.second[k] else t.first[k]
  }

  /** The change counts: every counted change is a write that landed after the call. */
  ghost predicate CountsOK(h: seq<Vec>, t: Thread, n: nat, p: nat, i: nat)
    requires ThreadShape(t, n) && p < n && t.start < |h| && forall a | 0 <= a < |h| :: |h[a]| == n
  {
    && (forall k | 0 <= k < n :: t.changes[k] <= 1 && h[t.start][k].ts + t.changes[k] <= Latest(t, i, k).ts)
    && t.changes[p] == 0
    && t.failed + (if t.same then 0 else 1) <= Sum(t.changes)
  }

  /** first was collected before `mark`, second[..i] after it. */
  ghost predicate PassOK(h: seq<Vec>, t: Thread, n: nat, p: nat, i: nat)
    requires ThreadShape(t, n) && p < n && i <= n && t.start < |h| && forall a | 0 <= a < |h| :: |h[a]| == n
  {
    && t.start <= t.mark < |h|
    && (forall k | 0 <= k < n :: ReadAfter(h, t.start, k, t.first[k]) && t.first[k].ts <= h[t.mark][k].ts)
    && (forall k | 0 <= k < i :: ReadAfter(h, t.mark, k, t.second[k]))
    && (t.same ==> forall k | 0 <= k < i :: t.first[k] == t.second[k])
    && CountsOK(h, t, n, p, i)
  }

  ghost predicate CopyOK(s: State, t: Thread, w: nat, j: nat, k: nat)
    requires Shape(s) && ThreadShape(t, s.N()) && w < s.N() && j <= s.N() && k <= s.N()
  {
    var sl := s.writers[w].slots[j];
    && sl.Version? && Seen(s.hist, t.start, sl.vec)
    && forall x | 0 <= x < k :: t.first[x] == sl.vec[x]
  }

  /** What the thread's program counter says about its local variables. */
  ghost predicate ThreadOK(s: State, p: nat)
    requires Shape(s) && p < s.N()
  {
    var t := s.threads[p];
    && ThreadShape(t, s.N())
    && (InScan(t.pc) ==> CallOK(s, p))
    && match t.pc
       case Collect(i) => CollectOK(s.hist, t, s.N(), i)
       case Pass(i) => PassOK(s.hist, t, s.N(), p, i)
       case Acquire(w) => s.hist[t.start][w].ts + 2 <= s.regs[w].ts
       case Copy(w, j, k) => CopyOK(s, t, w, j, k)
       case Release(w, j) => s.writers[w].slots[j].Version? && Seen(s.hist, t.start, t.first)
       case ReleaseFlag(w, j) => s.writers[w].slots[j].Version? && Seen(s.hist, t.start, t.first)
       case Return => Seen(s.hist, t.start, t.first)
       case AssertFailed => false
       case _ => Publishing(t.pc) ==> Seen(s.hist, 0, t.first) && t.first[p].ts == s.regs[p].ts
  }

  // ---------------------------------------------------------------- the version pools

  predicate Holding(pc: PC, w: nat, j: nat)
  {
    (pc.Copy? && pc.w == w && pc.j == j) || pc == Release(w, j)
  }

  predicate Flagging(pc: PC, w: nat, j: nat)
  {
    pc == ReleaseFlag(w, j)
  }

  predicate Touches(pc: PC, w: nat, j: nat)
  {
    Holding(pc, w, j) || Flagging(pc, w, j)
  }

  /** Threads between their fetch_add on the control block and their fetch_add on the inner count. */
  function Holders(s: State, w: nat, j: nat): (ps: set<nat>)
  {
    set q | 0 <= q < |s.threads| && Holding(s.threads[q].pc, w, j)
  }

  /** Threads that brought the inner count to zero and have not written the flag yet. */
  function Flaggers(s: State, w: nat, j: nat): (ps: set<nat>)
  {
    set q | 0 <= q < |s.threads| && Flagging(s.threads[q].pc, w, j)
  }

  predicate Swapped(pc: PC)
  {
    pc.Reset? || pc.ResetFlag? || pc.Write?
  }

  /** The control block and the current version: what is published trails the register by one write. */
  ghost predicate WriterOK(s: State, w: nat)
    requires Shape(s) && w < s.N()
  {
    var sh := s.writers[w];
    var pc := s.threads[w].pc;
    && sh.installs == s.regs[w].ts + (if Swapped(pc) then 1 else 0)
    && (sh.installs == 0 ==> sh.idx == 0 && sh.cnt == 0 && (sh.slots[0].Empty? || pc == Swap(0)))
    && (sh.installs > 0 ==>
          var sl := sh.slots[sh.idx];
          sl.Version? && Seen(s.hist, 0, sl.vec) && sl.vec[w].ts + 1 == sh.installs)
  }

  /** What the owner's program counter says about its own pool. */
  ghost predicate PhaseOK(s: State, p: nat)
    requires Shape(s) && p < s.N()
  {
    var t := s.threads[p];
    var sh := s.writers[p];
    && ThreadShape(t, s.N())
    && match t.pc
       case Search(i) => (exists x :: i <= x <= s.N() && sh.slots[x].Free()) && (sh.installs == 0 ==> i == 0)
       case Install(j) => sh.slots[j].Free() && (if sh.installs == 0 then j == 0 && sh.slots[j].Empty? else j != sh.idx)
       case ZeroInner(j) => sh.installs > 0 && j != sh.idx && sh.slots[j].Version? && sh.slots[j].flag
           && sh.slots[j].vec == t.first
       case ClearFlag(j) => sh.installs > 0 && j != sh.idx && sh.slots[j].Version? && sh.slots[j].flag
           && sh.slots[j].inner == 0 && sh.slots[j].vec == t.first
       case Swap(j) => sh.slots[j] == Version(t.first, 0, false) && (if sh.installs == 0 then j == 0 else j != sh.idx)
       case Reset(j, _) => sh.installs > 1 && j != sh.idx && sh.slots[j].Version?
       case ResetFlag(j) => sh.installs > 1 && j != sh.idx && sh.slots[j].Version?
       case _ => true
  }

  function One(b: bool): (n: int) { if b then 1 else 0 }

  /** The version is reachable through the control block, or its count has not been settled yet. */
  predicate Live(s: State, w: nat, j: nat)
    requires Shape(s) && w < s.N() && j <= s.N()
  {
    var pc := s.threads[w].pc;
    (s.writers[w].installs > 0 && s.writers[w].idx == j) || (pc.Reset? && pc.j == j)
  }

  /** The number of acquisitions of a live version. */
  function Acquired(s: State, w: nat, j: nat): (n: nat)
    requires Shape(s) && w < s.N() && j <= s.N() && Live(s, w, j)
  {
    if s.writers[w].installs > 0 && s.writers[w].idx == j then s.writers[w].cnt else s.threads[w].pc.c
  }

  /** The reference count accounting of one slot: readers are acquisitions minus releases while the
      version is live, and minus the inner count afterwards; the flag is raised by exactly one party. */
  ghost predicate SlotOK(s: State, w: nat, j: nat)
    requires Shape(s) && w < s.N() && j <= s.N()
  {
    var sl := s.writers[w].slots[j];
    var pc := s.threads[w].pc;
    var readers := |Holders(s, w, j)|;
    var raising := |Flaggers(s, w, j)| + One(pc == ResetFlag(j));
    if sl.Empty? then readers == 0 && raising == 0
    else if Live(s, w, j) then !sl.flag && raising == 0 && sl.inner >= 0 && Acquired(s, w, j) == sl.inner + readers
    else if pc == Swap(j) then !sl.flag && raising == 0 && sl.inner == 0 && readers == 0
    else readers == -sl.inner && raising + One(sl.flag) == One(sl.inner == 0)
  }

  /** The history is ordered and ends in the current registers. */
  ghost predicate Base(s: State)
  {
    Shape(s) && HistOK(s.hist, s.N()) && s.hist[|s.hist| - 1] == s.regs
  }

  ghost predicate HistoryInv(s: State)
  {
    && Base(s)
    && (forall p | 0 <= p < s.N() :: ThreadOK(s, p))
    && (forall w | 0 <= w < s.N() :: WriterOK(s, w))
  }

  ghost predicate PoolInv(s: State)
    requires Shape(s)
  {
    && (forall p | 0 <= p < s.N() :: PhaseOK(s, p))
    && (forall w, j | 0 <= w < s.N() && 0 <= j <= s.N() :: SlotOK(s, w, j))
  }

  ghost predicate Inv(s: State)
  {
    HistoryInv(s) && PoolInv(s)
  }
}
