/** The wait-free atomic snapshot as a state machine: one step per access to shared memory.

    Thread p of n owns register p and version pool p.  A step is `Do(s, p, a)`: the scheduler picks
    the thread, and the thread's program counter picks the access.  `Exec` runs a whole schedule, so a
    statement about `Exec(n, sched)` for every `sched` is a statement about every interleaving.

    `hist` records the register vector after every register write; `results` records every snapshot
    that a scan returned.  Both are history: no step reads them. */
module SnapshotModel {

  /** A register word: the write count and the value. */
  datatype Reg = Reg(ts: nat, val: int)

  type Vec = seq<Reg>

  /** One version slot: a null pointer, or a Snapshot with its inner count and recycle flag. */
  datatype Slot = Empty | Version(vec: Vec, inner: int, flag: bool) {
    predicate Free() { Empty? || flag }
  }

  /** One shared_snapshot: the control block (outer count, current index) and the version slots.
      `installs` counts the completed control-block swaps. */
  datatype Shared = Shared(cnt: nat, idx: nat, slots: seq<Slot>, installs: nat)

  datatype PC =
    | Idle
    | Collect(i: nat)                 // copying register i into first_snapshot
    | Pass(i: nat)                    // reading register i into second_snapshot
    | Acquire(w: nat)                 // about to fetch_add writer w's control block
    | Copy(w: nat, j: nat, k: nat)    // copying component k of the acquired version
    | Release(w: nat, j: nat)         // about to fetch_add the inner count
    | ReleaseFlag(w: nat, j: nat)     // brought the inner count to zero
    | Return                          // the scan returns first_snapshot
    | Search(j: nat)                  // looking for an empty slot
    | Install(j: nat)                 // about to store the vector in slot j
    | ZeroInner(j: nat)
    | ClearFlag(j: nat)
    | Swap(j: nat)                    // about to exchange the control block
    | Reset(j: nat, c: nat)           // about to fetch_sub c from the retired version
    | ResetFlag(j: nat)               // brought the inner count to zero
    | Write                           // about to write the register
    | AssertFailed                    // a failed assert or a null dereference

  /** What a thread is doing: a plain scan, or an update with the value to write. */
  datatype Job = ScanJob | UpdateJob(v: int)

  /** `start` and `mark` are the history positions at the call and at the end of the last collect;
      `failed` counts completed unclean passes; `before` counts the scans that had returned by the call. */
  datatype Thread = Thread(
    pc: PC, job: Job,
    first: Vec, second: Vec, changes: seq<nat>, same: bool,
    start: nat, mark: nat, failed: nat, before: nat)

  datatype ScanResult = ScanResult(tid: nat, vec: Vec, start: nat, end: nat, before: nat)

  datatype State = State(
    regs: Vec, writers: seq<Shared>, threads: seq<Thread>,
    hist: seq<Vec>, results: seq<ScanResult>)
  {
    function N(): (n: nat) { |regs| }
  }

  datatype Action = CallScan | CallUpdate(v: int) | Advance

  function Init(n: nat): (s: State)
  {
    var zero := seq(n, _ => Reg(0, 0));
    State(
      zero,
      seq(n, _ => Shared(0, 0, seq(n + 1, _ => Empty), 0)),
      seq(n, _ => Thread(Idle, ScanJob, zero, zero, seq(n, _ => 0), true, 0, 0, 0, 0)),
      [zero], [])
  }

  // ---------------------------------------------------------------- index bounds

  predicate PcShape(pc: PC, n: nat)
  {
    match pc
    case Collect(i) => i <= n
    case Pass(i) => i <= n
    case Acquire(w) => w < n
    case Copy(w, j, k) => w < n && j <= n && k <= n
    case Release(w, j) => w < n && j <= n
    case ReleaseFlag(w, j) => w < n && j <= n
    case Search(j) => j <= n + 1
    case Install(j) => j <= n
    case ZeroInner(j) => j <= n
    case ClearFlag(j) => j <= n
    case Swap(j) => j <= n
    case Reset(j, _) => j <= n
    case ResetFlag(j) => j <= n
    case _ => true
  }

  predicate ThreadShape(t: Thread, n: nat)
  {
    PcShape(t.pc, n) && |t.first| == n && |t.second| == n && |t.changes| == n
  }

  predicate SharedShape(sh: Shared, n: nat)
  {
    && |sh.slots| == n + 1 && sh.idx <= n
    && forall j | 0 <= j <= n :: sh.slots[j].Version? ==> |sh.slots[j].vec| == n
  }

  predicate Shape(s: State)
  {
    && |s.writers| == s.N() && |s.threads| == s.N()
    && (forall p | 0 <= p < s.N() :: ThreadShape(s.threads[p], s.N()))
    && (forall w | 0 <= w < s.N() :: SharedShape(s.writers[w], s.N()))
    && |s.hist| > 0 && (forall a | 0 <= a < |s.hist| :: |s.hist[a]| == s.N())
  }

  // ---------------------------------------------------------------- the steps

  function SetThread(s: State, p: nat, t: Thread): (s1: State)
    requires p < |s.threads|
  {
    s.(threads := s.threads[p := t])
  }

  function SetPc(s: State, p: nat, pc: PC): (s1: State)
    requires p < |s.threads|
  {
    SetThread(s, p, s.threads[p].(pc := pc))
  }

  function SetSlot(s: State, w: nat, j: nat, sl: Slot): (s1: State)
    requires w < |s.writers| && j < |s.writers[w].slots|
  {
    s.(writers := s.writers[w := s.writers[w].(slots := s.writers[w].slots[j := sl])])
  }

  function Begin(s: State, p: nat, job: Job): (s1: State)
    requires Shape(s) && p < s.N()
    ensures Shape(s1) && s1.N() == s.N()
  {
    var t := s.threads[p];
    SetThread(s, p, t.(
      pc := Collect(0), job := job, changes := seq(s.N(), _ => 0), same := true,
      start := |s.hist| - 1, mark := |s.hist| - 1, failed := 0, before := |s.results|))
  }

  function StepCollect(s: State, p: nat, i: nat): (s1: State)
    requires Shape(s) && p < s.N() && i <= s.N()
    ensures Shape(s1) && s1.N() == s.N()
  {
    var t := s.threads[p];
    if i < s.N() then
      SetThread(s, p, t.(pc := Collect(i + 1), first := t.first[i := s.regs[i]]))
    else
      SetThread(s, p, t.(pc := Pass(0), mark := |s.hist| - 1))
  }

  function StepPass(s: State, p: nat, i: nat): (s1: State)
    requires Shape(s) && p < s.N() && i <= s.N()
    ensures Shape(s1) && s1.N() == s.N()
  {
    var t := s.threads[p];
    if i < s.N() then
      var t' := t.(second := t.second[i := s.regs[i]]);
      if t.first[i] == s.regs[i] then
        SetThread(s, p, t'.(pc := Pass(i + 1)))
      else
        var c := t.changes[i] + 1;
        var pc := if c == 2 then Acquire(i) else Pass(i + 1);
        SetThread(s, p, t'.(pc := pc, same := false, changes := t.changes[i := c]))
    else if t.same then
      SetPc(s, p, Return)
    else
      SetThread(s, p, t.(pc := Pass(0), first := t.second, same := true, mark := |s.hist| - 1, failed := t.failed + 1))
  }

  function StepAcquire(s: State, p: nat, w: nat): (s1: State)
    requires Shape(s) && p < s.N() && w < s.N()
    ensures Shape(s1) && s1.N() == s.N()
  {
    var sh := s.writers[w];
    if sh.slots[sh.idx].Empty? then SetPc(s, p, AssertFailed)
    else SetPc(s.(writers := s.writers[w := sh.(cnt := sh.cnt + 1)]), p, Copy(w, sh.idx, 0))
  }

  function StepCopy(s: State, p: nat, w: nat, j: nat, k: nat): (s1: State)
    requires Shape(s) && p < s.N() && w < s.N() && j <= s.N() && k <= s.N()
    ensures Shape(s1) && s1.N() == s.N()
  {
    var t := s.threads[p];
    var sl := s.writers[w].slots[j];
    if sl.Empty? then SetPc(s, p, AssertFailed)
    else if k < s.N() then SetThread(s, p, t.(pc := Copy(w, j, k + 1), first := t.first[k := sl.vec[k]]))
    else SetPc(s, p, Release(w, j))
  }

  function StepRelease(s: State, p: nat, w: nat, j: nat): (s1: State)
    requires Shape(s) && p < s.N() && w < s.N() && j <= s.N()
    ensures Shape(s1) && s1.N() == s.N()
  {
    var sl := s.writers[w].slots[j];
    if sl.Empty? then SetPc(s, p, AssertFailed)
    else SetPc(SetSlot(s, w, j, sl.(inner := sl.inner + 1)), p, if sl.inner + 1 == 0 then ReleaseFlag(w, j) else Return)
  }

  /** Setting a recycle flag, by the last releaser or by the writer's own reset. */
  function StepRaiseFlag(s: State, p: nat, w: nat, j: nat, pc: PC): (s1: State)
    requires Shape(s) && p < s.N() && w < s.N() && j <= s.N() && PcShape(pc, s.N())
    ensures Shape(s1) && s1.N() == s.N()
  {
    var sl := s.writers[w].slots[j];
    if sl.Empty? then SetPc(s, p, AssertFailed)
    else SetPc(SetSlot(s, w, j, sl.(flag := true)), p, pc)
  }

  function StepReturn(s: State, p: nat): (s1: State)
    requires Shape(s) && p < s.N()
    ensures Shape(s1) && s1.N() == s.N()
  {
    var t := s.threads[p];
    var r := ScanResult(p, t.first, t.start, |s.hist| - 1, t.before);
    SetPc(s.(results := s.results + [r]), p, if t.job.ScanJob? then Idle else Search(0))
  }

  function StepSearch(s: State, p: nat, j: nat): (s1: State)
    requires Shape(s) && p < s.N()
    ensures Shape(s1) && s1.N() == s.N()
  {
    if j > s.N() then SetPc(s, p, AssertFailed)
    else if s.writers[p].slots[j].Free() then SetPc(s, p, Install(j))
    else SetPc(s, p, Search(j + 1))
  }

  function StepInstall(s: State, p: nat, j: nat): (s1: State)
    requires Shape(s) && p < s.N() && j <= s.N()
    ensures Shape(s1) && s1.N() == s.N()
  {
    var sl := s.writers[p].slots[j];
    var v := s.threads[p].first;
    if sl.Empty? then SetPc(SetSlot(s, p, j, Version(v, 0, false)), p, Swap(j))
    else SetPc(SetSlot(s, p, j, sl.(vec := v)), p, ZeroInner(j))
  }

  function StepZeroInner(s: State, p: nat, j: nat): (s1: State)
    requires Shape(s) && p < s.N() && j <= s.N()
    ensures Shape(s1) && s1.N() == s.N()
  {
    var sl := s.writers[p].slots[j];
    if sl.Empty? then SetPc(s, p, AssertFailed)
    else SetPc(SetSlot(s, p, j, sl.(inner := 0)), p, ClearFlag(j))
  }

  function StepClearFlag(s: State, p: nat, j: nat): (s1: State)
    requires Shape(s) && p < s.N() && j <= s.N()
    ensures Shape(s1) && s1.N() == s.N()
  {
    var sl := s.writers[p].slots[j];
    if sl.Empty? then SetPc(s, p, AssertFailed)
    else SetPc(SetSlot(s, p, j, sl.(flag := false)), p, Swap(j))
  }

  function StepSwap(s: State, p: nat, j: nat): (s1: State)
    requires Shape(s) && p < s.N() && j <= s.N()
    ensures Shape(s1) && s1.N() == s.N()
  {
    var sh := s.writers[p];
    SetPc(s.(writers := s.writers[p := sh.(cnt := 0, idx := j, installs := sh.installs + 1)]), p,
      if sh.idx != j then Reset(sh.idx, sh.cnt) else Write)
  }

  function StepReset(s: State, p: nat, j: nat, c: nat): (s1: State)
    requires Shape(s) && p < s.N() && j <= s.N()
    ensures Shape(s1) && s1.N() == s.N()
  {
    var sl := s.writers[p].slots[j];
    if sl.Empty? then SetPc(s, p, AssertFailed)
    else SetPc(SetSlot(s, p, j, sl.(inner := sl.inner - c)), p, if sl.inner - c == 0 then ResetFlag(j) else Write)
  }

  function StepWrite(s: State, p: nat): (s1: State)
    requires Shape(s) && p < s.N()
    ensures Shape(s1) && s1.N() == s.N()
  {
    var t := s.threads[p];
    var v := if t.job.UpdateJob? then t.job.v else 0;
    var regs := s.regs[p := Reg(s.regs[p].ts + 1, v)];
    SetPc(s.(regs := regs, hist := s.hist + [regs]), p, Idle)
  }

  function Step(s: State, p: nat): (s1: State)
    requires Shape(s) && p < s.N()
    ensures Shape(s1) && s1.N() == s.N()
  {
    assert ThreadShape(s.threads[p], s.N());
    match s.threads[p].pc
    case Idle => s
    case Collect(i) => StepCollect(s, p, i)
    case Pass(i) => StepPass(s, p, i)
    case Acquire(w) => StepAcquire(s, p, w)
    case Copy(w, j, k) => StepCopy(s, p, w, j, k)
    case Release(w, j) => StepRelease(s, p, w, j)
    case ReleaseFlag(w, j) => StepRaiseFlag(s, p, w, j, Return)
    case Return => StepReturn(s, p)
    case Search(j) => StepSearch(s, p, j)
    case Install(j) => StepInstall(s, p, j)
    case ZeroInner(j) => StepZeroInner(s, p, j)
    case ClearFlag(j) => StepClearFlag(s, p, j)
    case Swap(j) => StepSwap(s, p, j)
    case Reset(j, c) => StepReset(s, p, j, c)
    case ResetFlag(j) => StepRaiseFlag(s, p, p, j, Write)
    case Write => StepWrite(s, p)
    case AssertFailed => s
  }

  /** One scheduled event.  A call is taken only by an idle thread; anything else leaves the state alone. */
  function Do(s: State, p: nat, a: Action): (s1: State)
    requires Shape(s)
    ensures Shape(s1) && s1.N() == s.N()
  {
    if p >= s.N() then s
    else if s.threads[p].pc.Idle? then
      match a
      case CallScan => Begin(s, p, ScanJob)
      case CallUpdate(v) => Begin(s, p, UpdateJob(v))
      case Advance => s
    else if a.Advance? then Step(s, p)
    else s
  }

  /** The state after a whole schedule. */
  function Exec(n: nat, sched: seq<(nat, Action)>): (s: State)
    ensures Shape(s) && s.N() == n
  {
    if sched == [] then Init(n)
    else
      var s := Exec(n, sched[..|sched| - 1]);
      var (p, a) := sched[|sched| - 1];
      Do(s, p, a)
  }
}
