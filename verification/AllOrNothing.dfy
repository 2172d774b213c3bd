/** A transaction takes effect as a whole or not at all.

    One thread executes any list of finds and updates, each granted at once or after a wait, and then Commit.
    Between its steps, and while it waits, the other threads do what a script says: they acquire and release
    locks, go on from their waits, change records that they have locked, and take ids. */
module AllOrNothing {
  import opened LockTable
  import opened LockTableProofs
  import opened Requests
  import opened TrxManager
  import L = LockManager

  datatype Op = Find(record: int) | Update(record: int, diff: int)

  function ModeFor(op: Op): (mode: Mode)
  {
    if op.Find? then SHARED else EXCLUSIVE
  }

  function DiffOf(op: Op): (diff: int)
  {
    if op.Find? then 0 else op.diff
  }

  /** What the updates in a list add to record r. */
  function Total(ops: seq<Op>, r: int): (sum: int)
  {
    if ops == [] then 0
    else
      var last := ops[|ops| - 1];
      Total(ops[..|ops| - 1], r) + if last.Update? && last.record == r then last.diff else 0
  }

  lemma {:induction false} TotalMore(ops: seq<Op>, more: seq<Op>, r: int)
    requires |more| <= 1
    ensures Total(ops + more, r) == Total(ops, r) + Total(more, r)
  {
    if more == [] {
      assert ops + more == ops;
    } else {
      assert (ops + more)[..|ops|] == ops && more[..0] == [];
    }
  }

  lemma {:induction false} TotalElsewhere(ops: seq<Op>, r: int)
    requires forall op | op in ops :: op.record != r
    ensures Total(ops, r) == 0
  {
    if ops != [] { TotalElsewhere(ops[..|ops| - 1], r); }
  }

  // ---------------------------------------------------------------- the locks of a transaction

  datatype Phase = Runs | Waits | Refused | Undone | Committed

  predicate Ended(phase: Phase)
  {
    phase == Undone || phase == Committed
  }

  /** A lock of thread t for this operation; the operation is done when the lock is active. */
  predicate LockFor(i: LockInfo, t: nat, op: Op, done: bool)
  {
    && i.thread == t && i.record == op.record && i.mode == ModeFor(op)
    && if done then i.state == ACTIVE && i.diff == DiffOf(op) else i.state != ACTIVE && i.diff == 0
  }

  /** The locks in d are different ones of thread t, for one operation after the other, and the first pc
      operations are done. */
  ghost predicate Uses<X>(s: Table<X>, t: nat, d: seq<X>, ops: seq<Op>, pc: nat)
  {
    Distinct(d) && pc <= |d| <= |ops| && forall k | 0 <= k < |d| ::
      d[k] in s.locks && LockFor(s.locks[d[k]], t, ops[k], k < pc)
  }

  ghost predicate InPhase<X>(s: Table<X>, t: nat, d: seq<X>, pc: nat, phase: Phase)
  {
    match phase
    case Runs => |d| == pc && t !in s.conflict
    case Waits => |d| == pc + 1 && t in s.conflict && s.conflict[t] == d[pc]
    case Refused => |d| == pc + 1 && t !in s.conflict && d[pc] in s.locks && s.locks[d[pc]].state == OBSOLETE
    case _ => false
  }

  /** A transaction in progress. */
  ghost predicate InProgress<X>(s: Table<X>, t: nat, d: seq<X>, ops: seq<Op>, pc: nat, phase: Phase)
  {
    TableInv(s) && Uses(s, t, d, ops, pc) && InPhase(s, t, d, pc, phase)
  }

  /** A new lock for the next operation. */
  lemma {:induction false} Asked<X>(s: Table<X>, t: nat, d: seq<X>, ops: seq<Op>, l: X)
    requires TableInv(s) && Uses(s, t, d, ops, |d|) && t !in s.conflict && |d| < |ops|
    requires MayAcquire(s, t, ops[|d|].record, l)
    ensures var op := ops[|d|];
      && Listed(s.locks, s.queue[op.record])
      && var s1 := Acquire(s, t, op.record, ModeFor(op), l);
         && TableInv(s1) && l in s1.locks
         && match s1.locks[l].state
            case ACTIVE =>
              var s2 := SetDiff(s1, l, DiffOf(op));
              TableInv(s2) && Uses(s2, t, d + [l], ops, |d| + 1) && InPhase(s2, t, d + [l], |d| + 1, Runs)
            case WAIT => Uses(s1, t, d + [l], ops, |d|) && InPhase(s1, t, d + [l], |d|, Waits)
            case OBSOLETE => Uses(s1, t, d + [l], ops, |d|) && InPhase(s1, t, d + [l], |d|, Refused)
  {
    var op := ops[|d|];
    AcquireInv(s, t, op.record, ModeFor(op), l);
    AcquireDecides(s, t, op.record, ModeFor(op), l);
    var s1 := Acquire(s, t, op.record, ModeFor(op), l);
    SetDiffInv(s1, l, DiffOf(op));
    assert l !in d;
    assert s1.locks[l].state != WAIT ==> s1.conflict == s.conflict;
    hide TableInv, Acquire, MayAcquire, Listed, Obstructed, ClosesCycle;
  }

  /** The operation that was waited for. */
  lemma {:induction false} WentOn<X>(s: Table<X>, t: nat, d: seq<X>, ops: seq<Op>, pc: nat)
    requires TableInv(s) && Uses(s, t, d, ops, pc) && InPhase(s, t, d, pc, Waits) && MayResume(s, t)
    ensures var s1 := SetDiff(Resume(s, t), d[pc], DiffOf(ops[pc]));
      TableInv(s1) && Uses(s1, t, d, ops, pc + 1) && InPhase(s1, t, d, pc + 1, Runs)
  {
    ResumeInv(s, t);
    SetDiffInv(Resume(s, t), d[pc], DiffOf(ops[pc]));
    hide TableInv;
  }

  /** What a rollback takes back is what the operations have done. */
  lemma {:induction false} AddedIsTotal<X>(s: Table<X>, t: nat, d: seq<X>, ops: seq<Op>, pc: nat, k: nat, r: int)
    requires Uses(s, t, d, ops, pc) && k <= |d|
    ensures Added(s, d, k, r) == Total(ops[..if k < pc then k else pc], r)
  {
    if k > 0 {
      AddedIsTotal(s, t, d, ops, pc, k - 1, r);
      assert LockFor(s.locks[d[k - 1]], t, ops[k - 1], k - 1 < pc);
      if k <= pc { assert ops[..k][..k - 1] == ops[..k - 1]; }
    }
  }

  /** A transaction that does not wait may release all its locks. */
  lemma {:induction false} MayEnd<X>(s: Table<X>, t: nat, d: seq<X>, ops: seq<Op>, pc: nat, phase: Phase)
    requires Structure(s) && Uses(s, t, d, ops, pc) && InPhase(s, t, d, pc, phase) && phase != Waits
    ensures Releasable(s, d) && (phase == Runs ==> AllInUse(s, d))
  {
    forall r | r in s.queue ensures Listed(s.locks, s.queue[r]) { assert PathOK(s, r); }
    forall k | 0 <= k < |d| ensures MayRelease(s, d[k]) { assert LockOK(s, d[k]); }
  }

  // ---------------------------------------------------------------- what others do to the table

  /** Nothing happens to the locks of t and to its wait but flags. */
  ghost predicate LeavesAlone<X>(s: Table<X>, s1: Table<X>, t: nat)
  {
    && (forall x | x in s.locks && s.locks[x].thread == t :: x in s1.locks && SameUse(s1.locks[x], s.locks[x]))
    && (t in s1.conflict <==> t in s.conflict) && (t in s.conflict ==> s1.conflict[t] == s.conflict[t])
  }

  lemma {:induction false} StillUses<X>(s: Table<X>, s1: Table<X>, t: nat, d: seq<X>, ops: seq<Op>, pc: nat,
      phase: Phase)
    requires Uses(s, t, d, ops, pc) && InPhase(s, t, d, pc, phase) && LeavesAlone(s, s1, t)
    ensures Uses(s1, t, d, ops, pc) && InPhase(s1, t, d, pc, phase)
  {
    assert forall k | 0 <= k < |d| :: LockFor(s.locks[d[k]], t, ops[k], k < pc);
  }

  lemma {:induction false} OtherAcquires<X>(s: Table<X>, u: nat, r: int, mode: Mode, l: X, t: nat)
    requires TableInv(s) && MayAcquire(s, u, r, l) && u != t
    ensures Listed(s.locks, s.queue[r]) && TableInv(Acquire(s, u, r, mode, l))
    ensures LeavesAlone(s, Acquire(s, u, r, mode, l), t)
  {
    AcquireInv(s, u, r, mode, l);
  }

  lemma {:induction false} OtherResumes<X>(s: Table<X>, u: nat, t: nat)
    requires TableInv(s) && MayResume(s, u) && u != t
    ensures TableInv(Resume(s, u)) && LeavesAlone(s, Resume(s, u), t)
  {
    ResumeInv(s, u);
    assert ConflictOK(s, u);
  }

  lemma {:induction false} OtherReleases<X>(s: Table<X>, l: X, t: nat)
    requires TableInv(s) && MayRelease(s, l) && s.locks[l].thread != t
    ensures Listed(s.locks, s.queue[s.locks[l].record])
    ensures TableInv(Release(s, l)) && LeavesAlone(s, Release(s, l), t)
  {
    ReleaseInv(s, l);
    forall r | r in s.queue ensures Listed(s.locks, s.queue[r]) { assert PathOK(s, r); }
    ReleaseKeeps(s, l);
  }

  lemma {:induction false} OtherNotes<X>(s: Table<X>, l: X, d: int, t: nat)
    requires TableInv(s) && l in s.locks && s.locks[l].thread != t
    ensures TableInv(SetDiff(s, l, d)) && LeavesAlone(s, SetDiff(s, l, d), t)
  {
    SetDiffInv(s, l, d);
  }

  lemma {:induction false} NothingDone<X>(s: Table<X>, t: nat)
    ensures LeavesAlone(s, s, t)
  {
  }

  // ---------------------------------------------------------------- on the lock manager's objects

  ghost predicate Has(m: L.LockManager, trx: L.TrxNode)
    reads m`trxs
  {
    trx.thread in m.trxs && m.trxs[trx.thread] == trx
  }

  /** What the objects say is what the table says. */
  lemma {:induction false} NodeKnown(m: L.LockManager, s: Table<L.Lock>, u: nat)
    requires m.Shows(s) && TableInv(s) && u in m.trxs
    ensures m.trxs[u].thread == u && Has(m, m.trxs[u])
    ensures m.trxs[u].conflict == null <==> u !in s.conflict
    ensures m.trxs[u].conflict != null ==> m.trxs[u].conflict == s.conflict[u]
    ensures m.trxs[u].conflict != null && m.trxs[u].conflict.signal ==> MayResume(s, u)
  {
    if u in s.conflict { assert ConflictOK(s, u) && s.locks[s.conflict[u]] == s.conflict[u].Info(); }
  }

  lemma {:induction false} LockKnown(m: L.LockManager, s: Table<L.Lock>, k: (nat, int), i: nat)
    requires m.Shows(s) && TableInv(s) && k in m.saved && i < |m.saved[k]|
    ensures var l := m.saved[k][i];
      && l in m.locks && l in s.locks && s.locks[l].thread == l.thread == k.0 && l.record == k.1 && k.1 in m.table
      && (l.state != WAIT ==> MayRelease(s, l))
  {
    assert LockOK(s, m.saved[k][i]);
  }

  // ---------------------------------------------------------------- the other threads

  datatype Event =
    | OwnStep
    | Acquires(thread: nat, record: int, mode: Mode)
    | GoesOn(thread: nat)
    | Releases(thread: nat, record: int, index: nat)
    | Changes(thread: nat, record: int, index: nat, diff: int, note: int)
    | TakesId

  /** Another thread calls AcquireLock. */
  method OtherAcquire(m: L.LockManager, ghost s: Table<L.Lock>, trx: L.TrxNode, v: L.TrxNode, mode: Mode, r: int)
    returns (ghost s1: Table<L.Lock>)
    requires m.Shows(s) && TableInv(s) && Has(m, trx) && Has(m, v) && v.thread != trx.thread
    requires r in m.table && v.conflict == null
    modifies m`saved, m`locks, m.locks, m.NodeOf(r)`head, m.NodeOf(r)`tail, m.NodeOf(r)`path, v`deque, v`conflict
    ensures m.Shows(s1) && TableInv(s1) && LeavesAlone(s, s1, trx.thread)
    ensures (forall x | x in m.locks :: x in old(m.locks) || fresh(x))
  {
    assert Structure(s);
    hide L.LockManager.Shows, TableInv, LeavesAlone;
    var _, l := m.AcquireLock(s, mode, r, v);
    OtherAcquires(s, v.thread, r, mode, l, trx.thread);
    s1 := Acquire(s, v.thread, r, mode, l);
  }

  /** It is woken. */
  method OtherResume(m: L.LockManager, ghost s: Table<L.Lock>, trx: L.TrxNode, v: L.TrxNode)
    returns (ghost s1: Table<L.Lock>)
    requires m.Shows(s) && TableInv(s) && Has(m, trx) && Has(m, v) && v.thread != trx.thread && MayResume(s, v.thread)
    modifies m.locks`state, v`conflict
    ensures m.Shows(s1) && TableInv(s1) && LeavesAlone(s, s1, trx.thread)
  {
    hide L.LockManager.Shows, TableInv, LeavesAlone;
    var _ := m.AfterWait(s, v);
    OtherResumes(s, v.thread, trx.thread);
    s1 := Resume(s, v.thread);
  }

  /** It releases a lock. */
  method OtherRelease(m: L.LockManager, ghost s: Table<L.Lock>, trx: L.TrxNode, l: L.Lock)
    returns (ghost s1: Table<L.Lock>)
    requires m.Shows(s) && TableInv(s) && Has(m, trx)
    requires MayRelease(s, l) && s.locks[l].thread != trx.thread && l.record in m.table
    modifies l`state, m.NodeOf(l.record)`head, m.NodeOf(l.record)`path, m.locks`headPass, m.locks`signal
    ensures m.Shows(s1) && TableInv(s1) && LeavesAlone(s, s1, trx.thread)
  {
    hide L.LockManager.Shows, TableInv, LeavesAlone;
    m.ReleaseLock(s, l);
    OtherReleases(s, l, trx.thread);
    s1 := Release(s, l);
  }

  /** It changes a record that it has locked, or takes a change back, and notes what it likes in its lock. */
  method OtherChange(m: L.LockManager, ghost s: Table<L.Lock>, trx: L.TrxNode, l: L.Lock, diff: int, note: int)
    returns (ghost s1: Table<L.Lock>)
    requires m.Shows(s) && TableInv(s) && Has(m, trx) && l in m.locks && l in s.locks && s.locks[l].thread != trx.thread
    requires l.record in m.table && l.mode == EXCLUSIVE && l.state != OBSOLETE
    modifies m.NodeOf(l.record)`value, l`diff
    ensures m.Shows(s1) && TableInv(s1) && LeavesAlone(s, s1, trx.thread)
    ensures m.table[l.record].value == old(m.table[l.record].value) + diff
  {
    hide L.LockManager.Shows, TableInv, LeavesAlone;
    var _ := m.ChangeRecord(s, l, diff);
    m.SetLockDiff(s, l, note);
    OtherNotes(s, l, note, trx.thread);
    s1 := SetDiff(s, l, note);
  }

  /** An event of another thread with one of its locks. */
  method OtherLockEvent(m: L.LockManager, ghost s: Table<L.Lock>, trx: L.TrxNode, e: Event, l: L.Lock)
    returns (ghost s1: Table<L.Lock>, ghost theirs: seq<Op>)
    requires m.Shows(s) && TableInv(s) && Has(m, trx)
    requires (e.Releases? || e.Changes?) && l.record == e.record && e.record in m.table
    requires l in m.locks && l in s.locks && s.locks[l].thread != trx.thread && (l.state != WAIT ==> MayRelease(s, l))
    requires forall r | r in m.table :: m.table[r].record == r
    modifies l, m.locks`headPass, m.locks`signal
    modifies m.NodeOf(e.record)`head, m.NodeOf(e.record)`path, m.NodeOf(e.record)`value
    ensures m.Shows(s1) && TableInv(s1) && LeavesAlone(s, s1, trx.thread)
    ensures theirs == [] || (e.Changes? && theirs == [Update(e.record, e.diff)])
    ensures forall r | r in m.table :: m.table[r].value == old(m.table[r].value) + Total(theirs, r)
  {
    hide L.LockManager.Shows, TableInv, LeavesAlone;
    NothingDone(s, trx.thread);
    s1, theirs := s, [];
    if e.Releases? {
      if l.state != WAIT { s1 := OtherRelease(m, s, trx, l); }
    } else if l.mode == EXCLUSIVE && l.state != OBSOLETE {
      s1 := OtherChange(m, s, trx, l, e.diff, e.note);
      theirs := [Update(e.record, e.diff)];
    }
  }

  /** An event of another thread, if it is possible. */
  method OtherEvent(m: L.LockManager, ghost s: Table<L.Lock>, trx: L.TrxNode, e: Event)
    returns (ghost s1: Table<L.Lock>, ghost theirs: seq<Op>)
    requires m.Shows(s) && TableInv(s) && Has(m, trx)
    modifies m`saved, m`locks, m.locks, m.table.Values, m.trxs.Values
    ensures m.Shows(s1) && TableInv(s1) && LeavesAlone(s, s1, trx.thread) && trx.deque == old(trx.deque)
    ensures theirs == [] || (e.Changes? && theirs == [Update(e.record, e.diff)])
    ensures forall r | r in m.table :: m.table[r].value == old(m.table[r].value) + Total(theirs, r)
    ensures (forall x | x in m.locks :: x in old(m.locks) || fresh(x))
  {
    hide L.LockManager.Shows, TableInv, LeavesAlone;
    NothingDone(s, trx.thread);
    s1, theirs := s, [];
    if e.OwnStep? || e.TakesId? || e.thread !in m.trxs || e.thread == trx.thread { return; }
    var v := m.trxs[e.thread];
    NodeKnown(m, s, e.thread);
    if e.Acquires? {
      if e.record in m.table && v.conflict == null { s1 := OtherAcquire(m, s, trx, v, e.mode, e.record); }
    } else if e.GoesOn? {
      if v.conflict != null && v.conflict.signal { s1 := OtherResume(m, s, trx, v); }
    } else if (e.thread, e.record) in m.saved && e.index < |m.saved[(e.thread, e.record)]| {
      LockKnown(m, s, (e.thread, e.record), e.index);
      m.NodesApart(s);
      s1, theirs := OtherLockEvent(m, s, trx, e, m.saved[(e.thread, e.record)][e.index]);
    }
  }

  // ---------------------------------------------------------------- the transaction's own steps

  function PhaseAfter(response: Response): (phase: Phase)
  {
    match response
    case Success => Runs
    case Blocked => Waits
    case MustAbort => Refused
  }

  function After(pc: nat, response: Response): (pc1: nat)
  {
    if response == Success then pc + 1 else pc
  }

  lemma {:induction false} NoteNothing<X>(s: Table<X>, l: X)
    requires l in s.locks && s.locks[l].diff == 0
    ensures SetDiff(s, l, 0) == s
  {
  }

  /** What the answer to a request means for the table. */
  lemma {:induction false} FindAnswered<X>(s: Table<X>, t: nat, d: seq<X>, ops: seq<Op>, l: X, response: Response)
    requires InProgress(s, t, d, ops, |d|, Runs) && |d| < |ops| && ops[|d|].Find?
    requires MayAcquire(s, t, ops[|d|].record, l)
    requires response == Success <==> !Obstructed(s, ops[|d|].record, SHARED)
    requires response == MustAbort <==>
             Obstructed(s, ops[|d|].record, SHARED) && ClosesCycle(s, t, ops[|d|].record)
    ensures ops[|d|].record in s.queue && Listed(s.locks, s.queue[ops[|d|].record])
    ensures InProgress(Acquire(s, t, ops[|d|].record, SHARED, l), t, d + [l], ops, After(|d|, response),
              PhaseAfter(response))
  {
    Asked(s, t, d, ops, l);
    AcquireDecides(s, t, ops[|d|].record, SHARED, l);
    NoteNothing(Acquire(s, t, ops[|d|].record, SHARED, l), l);
    hide Acquire, AcquireOutcome, TableInv, Uses, InPhase, Obstructed, ClosesCycle, Listed, MayAcquire;
  }

  lemma {:induction false} UpdateAnswered<X>(s: Table<X>, t: nat, d: seq<X>, ops: seq<Op>, l: X, response: Response)
    requires InProgress(s, t, d, ops, |d|, Runs) && |d| < |ops| && ops[|d|].Update?
    requires MayAcquire(s, t, ops[|d|].record, l)
    requires response == Success <==> !Obstructed(s, ops[|d|].record, EXCLUSIVE)
    requires response == MustAbort <==>
             Obstructed(s, ops[|d|].record, EXCLUSIVE) && ClosesCycle(s, t, ops[|d|].record)
    ensures ops[|d|].record in s.queue && Listed(s.locks, s.queue[ops[|d|].record])
    ensures InProgress(Updated(s, t, ops[|d|].record, ops[|d|].diff, l), t, d + [l], ops, After(|d|, response),
              PhaseAfter(response))
  {
    Asked(s, t, d, ops, l);
    AcquireDecides(s, t, ops[|d|].record, EXCLUSIVE, l);
    hide Acquire, AcquireOutcome, TableInv, Uses, InPhase, Obstructed, ClosesCycle, Listed, MayAcquire, SetDiff;
  }

  /** What a transaction that runs knows before its next operation. */
  lemma {:induction false} RunsKnown(m: L.LockManager, s: Table<L.Lock>, trx: L.TrxNode, ops: seq<Op>, pc: nat)
    requires m.Shows(s) && Has(m, trx) && InProgress(s, trx.thread, trx.deque, ops, pc, Runs)
    ensures Structure(s) && trx.conflict == null && |trx.deque| == pc
  {
    NodeKnown(m, s, trx.thread);
  }

  /** What a transaction that waits knows when it is signalled. */
  lemma {:induction false} WaitsKnown(m: L.LockManager, s: Table<L.Lock>, trx: L.TrxNode, ops: seq<Op>, pc: nat)
    requires m.Shows(s) && Has(m, trx) && InProgress(s, trx.thread, trx.deque, ops, pc, Waits)
    requires trx.conflict != null && trx.conflict.signal
    ensures MayResume(s, trx.thread) && pc < |ops| && |trx.deque| == pc + 1
    ensures trx.conflict == s.conflict[trx.thread] == trx.deque[pc] && trx.deque[pc].record == ops[pc].record
    ensures s.locks[trx.deque[pc]].mode == (if ops[pc].Find? then SHARED else EXCLUSIVE)
  {
    NodeKnown(m, s, trx.thread);
    assert LockFor(s.locks[trx.deque[pc]], trx.thread, ops[pc], false);
    assert s.locks[trx.deque[pc]] == trx.deque[pc].Info();
  }

  /** The next operation of the transaction, if it is a find. */
  method AskToFind(tm: TrxManager, ghost s: Table<L.Lock>, trx: L.TrxNode, ghost ops: seq<Op>, ghost pc: nat, r: int)
      returns (ghost s1: Table<L.Lock>, response: Response)
    requires tm.manager.Shows(s) && Has(tm.manager, trx) && InProgress(s, trx.thread, trx.deque, ops, pc, Runs)
    requires pc < |ops| && ops[pc] == Find(r) && r in tm.manager.table
    modifies tm.manager`saved, tm.manager`locks, tm.manager.locks, trx`deque, trx`conflict
    modifies tm.manager.NodeOf(r)`head, tm.manager.NodeOf(r)`tail, tm.manager.NodeOf(r)`path
    ensures response == Blocked <==> Obstructed(s, r, SHARED) && !ClosesCycle(s, trx.thread, r)
    ensures tm.manager.Shows(s1)
    ensures InProgress(s1, trx.thread, trx.deque, ops, After(pc, response), PhaseAfter(response))
    ensures (forall x | x in tm.manager.locks :: x in old(tm.manager.locks) || fresh(x))
  {
    RunsKnown(tm.manager, s, trx, ops, pc);
    hide L.LockManager.Shows, InProgress, Structure, Acquire, MayAcquire, Obstructed, ClosesCycle, Listed;
    var value, lock;
    response, value, lock := tm.Find(s, r, trx);
    FindAnswered(s, trx.thread, old(trx.deque), ops, lock, response);
    s1 := Acquire(s, trx.thread, r, SHARED, lock);
  }

  /** The next operation of the transaction, if it is an update. */
  method AskToUpdate(tm: TrxManager, ghost s: Table<L.Lock>, trx: L.TrxNode, ghost ops: seq<Op>, ghost pc: nat, r: int,
      diff: int) returns (ghost s1: Table<L.Lock>, response: Response)
    requires tm.manager.Shows(s) && Has(tm.manager, trx) && InProgress(s, trx.thread, trx.deque, ops, pc, Runs)
    requires pc < |ops| && ops[pc] == Update(r, diff) && r in tm.manager.table
    modifies tm.manager`saved, tm.manager`locks, tm.manager.locks, trx`deque, trx`conflict, tm.manager.NodeOf(r)
    ensures response == Blocked <==> Obstructed(s, r, EXCLUSIVE) && !ClosesCycle(s, trx.thread, r)
    ensures tm.manager.Shows(s1)
    ensures InProgress(s1, trx.thread, trx.deque, ops, After(pc, response), PhaseAfter(response))
    ensures tm.manager.table[r].value == old(tm.manager.table[r].value) + if response == Success then diff else 0
    ensures (forall x | x in tm.manager.locks :: x in old(tm.manager.locks) || fresh(x))
  {
    RunsKnown(tm.manager, s, trx, ops, pc);
    hide L.LockManager.Shows, InProgress, Structure, Updated, MayAcquire, Obstructed, ClosesCycle, Listed;
    var value, lock;
    response, value, lock := tm.Update(s, r, diff, trx);
    UpdateAnswered(s, trx.thread, old(trx.deque), ops, lock, response);
    s1 := Updated(s, trx.thread, r, diff, lock);
  }

  /** A find whose transaction is woken. */
  method FoundAtLast(tm: TrxManager, ghost s: Table<L.Lock>, trx: L.TrxNode, ghost ops: seq<Op>, ghost pc: nat)
      returns (ghost s1: Table<L.Lock>)
    requires tm.manager.Shows(s) && Has(tm.manager, trx) && InProgress(s, trx.thread, trx.deque, ops, pc, Waits)
    requires trx.conflict != null && trx.conflict.signal && pc < |ops| && ops[pc].Find?
    modifies tm.manager.locks`state, trx`conflict
    ensures tm.manager.Shows(s1) && InProgress(s1, trx.thread, trx.deque, ops, pc + 1, Runs)
  {
    WaitsKnown(tm.manager, s, trx, ops, pc);
    WentOn(s, trx.thread, trx.deque, ops, pc);
    s1 := Resume(s, trx.thread);
    NoteNothing(s1, trx.deque[pc]);
    hide L.LockManager.Shows, InProgress, Resume, MayResume;
    var value, lock := tm.AfterFind(s, trx);
  }

  /** An update whose transaction is woken. */
  method UpdatedAtLast(tm: TrxManager, ghost s: Table<L.Lock>, trx: L.TrxNode, ghost ops: seq<Op>, ghost pc: nat,
      diff: int) returns (ghost s1: Table<L.Lock>)
    requires tm.manager.Shows(s) && Has(tm.manager, trx) && InProgress(s, trx.thread, trx.deque, ops, pc, Waits)
    requires trx.conflict != null && trx.conflict.signal && pc < |ops| && ops[pc].Update? && ops[pc].diff == diff
    modifies tm.manager.locks`state, tm.manager.locks`diff, trx`conflict, tm.manager.table.Values`value
    ensures tm.manager.Shows(s1) && InProgress(s1, trx.thread, trx.deque, ops, pc + 1, Runs)
    ensures forall r | r in tm.manager.table :: tm.manager.table[r].value ==
              old(tm.manager.table[r].value) + if r == ops[pc].record then diff else 0
  {
    WaitsKnown(tm.manager, s, trx, ops, pc);
    WentOn(s, trx.thread, trx.deque, ops, pc);
    s1 := SetDiff(Resume(s, trx.thread), trx.deque[pc], diff);
    hide L.LockManager.Shows, InProgress, Resume, MayResume, SetDiff;
    var value, lock := tm.AfterUpdate(s, diff, trx);
  }

  /** What a transaction knows at its end. */
  lemma {:induction false} EndKnown<X>(s: Table<X>, t: nat, d: seq<X>, ops: seq<Op>, pc: nat, phase: Phase)
    requires InProgress(s, t, d, ops, pc, phase) && phase != Waits
    ensures Releasable(s, d) && (phase == Runs ==> AllInUse(s, d)) && pc <= |ops|
    ensures forall r :: Added(s, d, |d|, r) == Total(ops[..pc], r)
  {
    MayEnd(s, t, d, ops, pc, phase);
    forall r ensures Added(s, d, |d|, r) == Total(ops[..pc], r) {
      AddedIsTotal(s, t, d, ops, pc, |d|, r);
    }
  }

  /** The transaction aborts. */
  method GiveUp(tm: TrxManager, ghost s: Table<L.Lock>, trx: L.TrxNode, ghost ops: seq<Op>, ghost pc: nat,
      ghost phase: Phase)
    requires tm.manager.Shows(s) && InProgress(s, trx.thread, trx.deque, ops, pc, phase) && phase != Waits
    modifies tm.manager.locks`state, tm.manager.locks`headPass, tm.manager.locks`signal
    modifies tm.manager.table.Values`head, tm.manager.table.Values`path, tm.manager.table.Values`value
    ensures pc <= |ops| && forall k | 0 <= k < |trx.deque| :: trx.deque[k].state == OBSOLETE
    ensures forall r | r in tm.manager.table ::
              tm.manager.table[r].value == old(tm.manager.table[r].value) - Total(ops[..pc], r)
  {
    EndKnown(s, trx.thread, trx.deque, ops, pc, phase);
    hide L.LockManager.Shows, InProgress, Releasable, Added, Total, Trail;
    ghost var _ := tm.Abort(s, trx);
  }

  /** The transaction commits, and may be refused. */
  method TryToCommit(tm: TrxManager, ghost s: Table<L.Lock>, trx: L.TrxNode, ghost ops: seq<Op>, ghost pc: nat)
      returns (committed: bool)
    requires tm.manager.Shows(s) && InProgress(s, trx.thread, trx.deque, ops, pc, Runs)
    modifies tm`globalExecutionCount, tm.manager.locks`state, tm.manager.locks`headPass, tm.manager.locks`signal
    modifies tm.manager.table.Values`head, tm.manager.table.Values`path, tm.manager.table.Values`value
    ensures pc <= |ops| && forall k | 0 <= k < |trx.deque| :: trx.deque[k].state == OBSOLETE
    ensures committed <==> old(tm.globalExecutionCount) < tm.lastGlobalExecutionOrder
    ensures forall r | r in tm.manager.table :: tm.manager.table[r].value ==
              old(tm.manager.table[r].value) - if committed then 0 else Total(ops[..pc], r)
  {
    EndKnown(s, trx.thread, trx.deque, ops, pc, Runs);
    ghost var values := map r | r in tm.manager.table :: tm.manager.table[r].value;
    hide L.LockManager.Shows, InProgress, Releasable, AllInUse, Added, Total, Trail, IsLog;
    var id, log;
    ghost var tables;
    id, log, tables := tm.Commit(s, values, trx);
    committed := id != -1;
  }

  lemma {:induction false} TotalNext(ops: seq<Op>, pc: nat)
    requires pc < |ops|
    ensures forall r {:trigger Total(ops[..pc], r)} ::
      Total(ops[..pc + 1], r) == Total(ops[..pc], r) + if r == ops[pc].record then DiffOf(ops[pc]) else 0
  {
    assert ops[..pc + 1][..pc] == ops[..pc];
  }

  /** The next operation. */
  method Ask(tm: TrxManager, ghost s: Table<L.Lock>, trx: L.TrxNode, ops: seq<Op>, pc: nat)
      returns (ghost s1: Table<L.Lock>, pc1: nat, phase: Phase)
    requires tm.manager.Shows(s) && Has(tm.manager, trx) && InProgress(s, trx.thread, trx.deque, ops, pc, Runs)
    requires pc < |ops| && ops[pc].record in tm.manager.table
    modifies tm.manager`saved, tm.manager`locks, tm.manager.locks, tm.manager.NodeOf(ops[pc].record)
    modifies trx`deque, trx`conflict
    ensures phase == Waits <==> Obstructed(s, ops[pc].record, ModeFor(ops[pc]))
                                && !ClosesCycle(s, trx.thread, ops[pc].record)
    ensures tm.manager.Shows(s1) && InProgress(s1, trx.thread, trx.deque, ops, pc1, phase)
    ensures pc1 <= |ops| && !Ended(phase)
    ensures (forall x | x in tm.manager.locks :: x in old(tm.manager.locks) || fresh(x)) && (pc1 == pc || pc1 == pc + 1)
    ensures tm.manager.table[ops[pc].record].value ==
            old(tm.manager.table[ops[pc].record].value) + if pc1 == pc then 0 else DiffOf(ops[pc])
  {
    hide L.LockManager.Shows, InProgress, Obstructed, ClosesCycle;
    var response;
    match ops[pc] {
      case Find(r) => s1, response := AskToFind(tm, s, trx, ops, pc, r);
      case Update(r, diff) => s1, response := AskToUpdate(tm, s, trx, ops, pc, r, diff);
    }
    pc1, phase := After(pc, response), PhaseAfter(response);
  }

  /** Its end, after a wait. */
  method GoOn(tm: TrxManager, ghost s: Table<L.Lock>, trx: L.TrxNode, ops: seq<Op>, pc: nat)
      returns (ghost s1: Table<L.Lock>)
    requires tm.manager.Shows(s) && Has(tm.manager, trx) && InProgress(s, trx.thread, trx.deque, ops, pc, Waits)
    requires trx.conflict != null && trx.conflict.signal
    modifies tm.manager.locks`state, tm.manager.locks`diff, trx`conflict, tm.manager.table.Values`value
    ensures tm.manager.Shows(s1) && InProgress(s1, trx.thread, trx.deque, ops, pc + 1, Runs) && pc < |ops|
    ensures forall r | r in tm.manager.table :: tm.manager.table[r].value ==
              old(tm.manager.table[r].value) + Total(ops[..pc + 1], r) - Total(ops[..pc], r)
  {
    assert Uses(s, trx.thread, trx.deque, ops, pc) && InPhase(s, trx.thread, trx.deque, pc, Waits);
    TotalNext(ops, pc);
    hide L.LockManager.Shows, InProgress, Total;
    match ops[pc] {
      case Find(_) => s1 := FoundAtLast(tm, s, trx, ops, pc);
      case Update(_, diff) => s1 := UpdatedAtLast(tm, s, trx, ops, pc, diff);
    }
  }

  /** The next operation, and the change it makes. */
  method AskAndAdd(tm: TrxManager, ghost s: Table<L.Lock>, trx: L.TrxNode, ops: seq<Op>, pc: nat)
      returns (ghost s1: Table<L.Lock>, pc1: nat, phase: Phase)
    requires tm.manager.Shows(s) && Has(tm.manager, trx) && InProgress(s, trx.thread, trx.deque, ops, pc, Runs)
    requires pc < |ops| && ops[pc].record in tm.manager.table
    modifies tm.manager`saved, tm.manager`locks, tm.manager.locks, tm.manager.table.Values, trx`deque, trx`conflict
    ensures pc1 <= |ops| && !Ended(phase)
    ensures forall r | r in tm.manager.table :: tm.manager.table[r].value ==
              old(tm.manager.table[r].value) + Total(ops[..pc1], r) - Total(ops[..pc], r)
    ensures phase == Waits <==> Obstructed(s, ops[pc].record, ModeFor(ops[pc]))
                                && !ClosesCycle(s, trx.thread, ops[pc].record)
    ensures tm.manager.Shows(s1) && InProgress(s1, trx.thread, trx.deque, ops, pc1, phase)
    ensures (forall x | x in tm.manager.locks :: x in old(tm.manager.locks) || fresh(x))
  {
    tm.manager.NodesApart(s);
    TotalNext(ops, pc);
    hide L.LockManager.Shows, InProgress, Total, DiffOf, Obstructed, ClosesCycle;
    s1, pc1, phase := Ask(tm, s, trx, ops, pc);
  }

  /** The transaction ends: it has to abort, or it has done all its operations. */
  method End(tm: TrxManager, ghost s: Table<L.Lock>, trx: L.TrxNode, ops: seq<Op>, pc: nat, phase: Phase)
      returns (end: Phase)
    requires tm.manager.Shows(s) && InProgress(s, trx.thread, trx.deque, ops, pc, phase)
    requires pc <= |ops| && phase != Waits && (phase == Runs ==> pc == |ops|)
    modifies tm`globalExecutionCount, tm.manager.locks`state, tm.manager.locks`headPass, tm.manager.locks`signal
    modifies tm.manager.table.Values`head, tm.manager.table.Values`path, tm.manager.table.Values`value
    ensures Ended(end) && (end == Committed ==> pc == |ops|)
    ensures forall r | r in tm.manager.table :: tm.manager.table[r].value ==
              old(tm.manager.table[r].value) - if end == Undone then Total(ops[..pc], r) else 0
    ensures forall k | 0 <= k < |trx.deque| :: trx.deque[k].state == OBSOLETE
  {
    assert phase == Refused || phase == Runs;
    hide L.LockManager.Shows, InProgress, Total;
    end := Undone;
    if phase == Refused {
      GiveUp(tm, s, trx, ops, pc, Refused);
    } else {
      var committed := TryToCommit(tm, s, trx, ops, pc);
      if committed { end := Committed; }
    }
  }

  /** The change that an update in theirs stands for is one of the script. */
  ghost predicate FromScript(script: seq<Event>, theirs: seq<Op>)
  {
    forall op | op in theirs :: exists k :: 0 <= k < |script| && script[k].Changes?
                                            && op == Update(script[k].record, script[k].diff)
  }

  lemma {:induction false} FromScriptMore(script: seq<Event>, i: nat, theirs: seq<Op>, more: seq<Op>)
    requires i < |script| && FromScript(script, theirs)
    requires more == [] || (script[i].Changes? && more == [Update(script[i].record, script[i].diff)])
    ensures FromScript(script, theirs + more)
  {
    forall op | op in theirs + more ensures exists k :: 0 <= k < |script| && script[k].Changes?
                                                        && op == Update(script[k].record, script[k].diff)
    {
      if op !in theirs { assert script[i].Changes? && op == Update(script[i].record, script[i].diff); }
    }
  }

  /** Another thread's event leaves the transaction where it was. */
  method OtherTurn(m: L.LockManager, ghost s: Table<L.Lock>, trx: L.TrxNode, e: Event, ghost ops: seq<Op>,
      ghost pc: nat, ghost phase: Phase, ghost theirs: seq<Op>)
      returns (ghost s1: Table<L.Lock>, ghost more: seq<Op>)
    requires m.Shows(s) && Has(m, trx) && InProgress(s, trx.thread, trx.deque, ops, pc, phase)
    modifies m`saved, m`locks, m.locks, m.table.Values, m.trxs.Values
    ensures forall r | r in m.table ::
              m.table[r].value == old(m.table[r].value) + Total(theirs + more, r) - Total(theirs, r)
    ensures more == [] || (e.Changes? && more == [Update(e.record, e.diff)])
    ensures (forall x | x in m.locks :: x in old(m.locks) || fresh(x))
    ensures m.Shows(s1) && InProgress(s1, trx.thread, trx.deque, ops, pc, phase)
  {
    hide L.LockManager.Shows, LeavesAlone, Total;
    s1, more := OtherEvent(m, s, trx, e);
    forall r ensures Total(theirs + more, r) == Total(theirs, r) + Total(more, r) { TotalMore(theirs, more, r); }
    StillUses(s, s1, trx.thread, trx.deque, ops, pc, phase);
  }

  /** Every record has the value it had at the start, with what has been added since. */
  ghost predicate Balanced(m: L.LockManager, start: map<int, int>, theirs: seq<Op>, mine: seq<Op>)
    reads m`table, m.table.Values`value
  {
    forall r | r in m.table :: r in start && m.table[r].value == start[r] + Total(theirs, r) + Total(mine, r)
  }

  /** One event of the script while the transaction is in progress. */
  method Turn(tm: TrxManager, ghost s: Table<L.Lock>, trx: L.TrxNode, ops: seq<Op>, pc: nat, phase: Phase,
      script: seq<Event>, i: nat, ghost start: map<int, int>, ghost theirs: seq<Op>)
      returns (ghost s1: Table<L.Lock>, pc1: nat, phase1: Phase, ghost theirs1: seq<Op>)
    requires tm.manager.Shows(s) && Has(tm.manager, trx) && InProgress(s, trx.thread, trx.deque, ops, pc, phase)
    requires pc <= |ops| && i < |script| && !Ended(phase)
    requires script[i].OwnStep? ==> phase != Refused && (phase == Runs ==> pc < |ops|)
    requires pc < |ops| ==> ops[pc].record in tm.manager.table
    requires Balanced(tm.manager, start, theirs, ops[..pc]) && FromScript(script, theirs)
    modifies tm`globalExecutionCount, tm.manager`saved, tm.manager`locks, tm.manager.locks, tm.manager.table.Values
    modifies tm.manager.trxs.Values
    ensures pc1 <= |ops| && !Ended(phase1) && Balanced(tm.manager, start, theirs1, ops[..pc1])
    ensures (forall x | x in tm.manager.locks :: x in old(tm.manager.locks) || fresh(x)) && FromScript(script, theirs1)
    ensures tm.manager.Shows(s1) && InProgress(s1, trx.thread, trx.deque, ops, pc1, phase1)
  {
    hide L.LockManager.Shows, InProgress, Total, FromScript;
    s1, pc1, phase1, theirs1 := s, pc, phase, theirs;
    if script[i].TakesId? {
      tm.globalExecutionCount := tm.globalExecutionCount + 1;
    } else if !script[i].OwnStep? {
      ghost var more;
      s1, more := OtherTurn(tm.manager, s, trx, script[i], ops, pc, phase, theirs);
      FromScriptMore(script, i, theirs, more);
      theirs1 := theirs + more;
    } else if phase == Runs {
      s1, pc1, phase1 := AskAndAdd(tm, s, trx, ops, pc);
    } else if trx.conflict != null && trx.conflict.signal {
      s1 := GoOn(tm, s, trx, ops, pc);
      pc1, phase1 := pc + 1, Runs;
    }
  }

  /** The script up to the transaction's last step, if it comes to it. */
  method ToTheEnd(tm: TrxManager, ghost s: Table<L.Lock>, trx: L.TrxNode, ops: seq<Op>, script: seq<Event>,
      ghost start: map<int, int>)
      returns (ghost s1: Table<L.Lock>, pc: nat, phase: Phase, last: bool, ghost theirs: seq<Op>)
    requires tm.manager.Shows(s) && Has(tm.manager, trx) && InProgress(s, trx.thread, trx.deque, ops, 0, Runs)
    requires forall k | 0 <= k < |ops| :: ops[k].record in tm.manager.table
    requires Balanced(tm.manager, start, [], ops[..0])
    modifies tm`globalExecutionCount, tm.manager`saved, tm.manager`locks, tm.manager.locks, tm.manager.table.Values
    modifies tm.manager.trxs.Values
    ensures pc <= |ops| && !Ended(phase) && Balanced(tm.manager, start, theirs, ops[..pc])
    ensures last ==> phase != Waits && (phase == Runs ==> pc == |ops|)
    ensures (forall x | x in tm.manager.locks :: x in old(tm.manager.locks) || fresh(x)) && FromScript(script, theirs)
    ensures tm.manager.Shows(s1) && InProgress(s1, trx.thread, trx.deque, ops, pc, phase)
  {
    hide L.LockManager.Shows, InProgress, Total, Balanced;
    s1, pc, phase, last, theirs := s, 0, Runs, false, [];
    var i: nat := 0;
    while i < |script| && !last
      invariant i <= |script| && pc <= |ops| && !Ended(phase)
      invariant tm.manager.Shows(s1) && InProgress(s1, trx.thread, trx.deque, ops, pc, phase)
      invariant Balanced(tm.manager, start, theirs, ops[..pc]) && FromScript(script, theirs)
      invariant (forall x | x in tm.manager.locks :: x in old(tm.manager.locks) || fresh(x))
      invariant last ==> phase != Waits && (phase == Runs ==> pc == |ops|)
      decreases |script| - i, !last
    {
      if script[i].OwnStep? && (phase == Refused || (phase == Runs && pc == |ops|)) {
        last := true;
      } else {
        s1, pc, phase, theirs := Turn(tm, s1, trx, ops, pc, phase, script, i, start, theirs);
        i := i + 1;
      }
    }
  }

  /** The transaction's end, if the script comes to it. */
  method Finish(tm: TrxManager, ghost s: Table<L.Lock>, trx: L.TrxNode, ops: seq<Op>, pc: nat, phase: Phase,
      last: bool, ghost start: map<int, int>, ghost theirs: seq<Op>) returns (end: Phase)
    requires tm.manager.Shows(s) && InProgress(s, trx.thread, trx.deque, ops, pc, phase) && !Ended(phase)
    requires pc <= |ops| && (last ==> phase != Waits && (phase == Runs ==> pc == |ops|))
    requires Balanced(tm.manager, start, theirs, ops[..pc])
    modifies tm`globalExecutionCount, tm.manager.locks`state, tm.manager.locks`headPass, tm.manager.locks`signal
    modifies tm.manager.table.Values`head, tm.manager.table.Values`path, tm.manager.table.Values`value
    ensures end == Undone ==> Balanced(tm.manager, start, theirs, [])
    ensures end == Committed ==> Balanced(tm.manager, start, theirs, ops)
    ensures Ended(end) ==> forall k | 0 <= k < |trx.deque| :: trx.deque[k].state == OBSOLETE
  {
    hide L.LockManager.Shows, InProgress;
    end := phase;
    if last {
      end := End(tm, s, trx, ops, pc, phase);
      assert ops[..|ops|] == ops;
    }
  }

  /** What follows Begin. */
  method AfterBegin(tm: TrxManager, ghost s: Table<L.Lock>, trx: L.TrxNode, ops: seq<Op>, script: seq<Event>)
      returns (phase: Phase, ghost theirs: seq<Op>)
    requires tm.manager.Shows(s) && TableInv(s) && Has(tm.manager, trx) && trx.deque == [] && trx.conflict == null
    requires forall k | 0 <= k < |ops| :: ops[k].record in tm.manager.table
    modifies tm`globalExecutionCount, tm.manager`saved, tm.manager`locks, tm.manager.locks, tm.manager.table.Values
    modifies tm.manager.trxs.Values
    ensures phase == Undone ==> forall r | r in tm.manager.table ::
              tm.manager.table[r].value == old(tm.manager.table[r].value) + Total(theirs, r)
    ensures phase == Committed ==> forall r | r in tm.manager.table ::
              tm.manager.table[r].value == old(tm.manager.table[r].value) + Total(theirs, r) + Total(ops, r)
    ensures FromScript(script, theirs)
    ensures Ended(phase) ==> forall k | 0 <= k < |trx.deque| :: trx.deque[k].state == OBSOLETE
  {
    ghost var start := map r | r in tm.manager.table :: tm.manager.table[r].value;
    assert InProgress(s, trx.thread, [], ops, 0, Runs) by { NodeKnown(tm.manager, s, trx.thread); }
    assert forall r {:trigger Total([], r)} :: Total([], r) == 0;
    assert ops[..0] == [];
    hide L.LockManager.Shows, InProgress, Total, FromScript, TableInv;
    var pc, last;
    ghost var s1;
    s1, pc, phase, last, theirs := ToTheEnd(tm, s, trx, ops, script, start);
    phase := Finish(tm, s1, trx, ops, pc, phase, last, start, theirs);
  }

  /** A change in theirs is one that the script makes. */
  lemma {:induction false} Untouched(script: seq<Event>, theirs: seq<Op>, r: int)
    requires FromScript(script, theirs) && forall e | e in script && e.Changes? :: e.record != r
    ensures Total(theirs, r) == 0
  {
    forall op | op in theirs ensures op.record != r {
      var k :| 0 <= k < |script| && script[k].Changes? && op == Update(script[k].record, script[k].diff);
    }
    TotalElsewhere(theirs, r);
  }

  /** A transaction takes effect as a whole or not at all: once it has committed, every record has grown by the
      sum of its updates and of the changes that others have made meanwhile; once it has been undone, by those
      of the others alone, so that a record that no other thread has changed is as it was.  Either way it has
      given all its locks back. */
  method Execute(tm: TrxManager, ghost s: Table<L.Lock>, trx: L.TrxNode, ops: seq<Op>, script: seq<Event>)
      returns (phase: Phase, ghost theirs: seq<Op>)
    requires tm.manager.Shows(s) && TableInv(s) && Has(tm.manager, trx) && trx.conflict == null
    requires forall k | 0 <= k < |ops| :: ops[k].record in tm.manager.table
    modifies tm`globalExecutionCount, tm.manager`saved, tm.manager`locks, tm.manager.locks, tm.manager.table.Values
    modifies tm.manager.trxs.Values
    ensures phase == Undone ==> forall r | r in tm.manager.table ::
              tm.manager.table[r].value == old(tm.manager.table[r].value) + Total(theirs, r)
    ensures phase == Committed ==> forall r | r in tm.manager.table ::
              tm.manager.table[r].value == old(tm.manager.table[r].value) + Total(theirs, r) + Total(ops, r)
    ensures FromScript(script, theirs)
    ensures phase == Undone ==>
      forall r | r in tm.manager.table && forall e | e in script && e.Changes? :: e.record != r ::
        tm.manager.table[r].value == old(tm.manager.table[r].value)
    ensures Ended(phase) ==> forall k | 0 <= k < |trx.deque| :: trx.deque[k].state == OBSOLETE
  {
    assert NoConflict(s, trx.thread) == s by {
      NodeKnown(tm.manager, s, trx.thread);
      assert s.conflict - {trx.thread} == s.conflict;
    }
    hide L.LockManager.Shows, Total, FromScript, TableInv, NoConflict;
    tm.Begin(s, trx);
    phase, theirs := AfterBegin(tm, s, trx, ops, script);
    forall r | forall e | e in script && e.Changes? :: e.record != r ensures Total(theirs, r) == 0 {
      Untouched(script, theirs, r);
    }
  }

  /** Abort at any point brings back the values of the start. */
  method GiveAllUp(tm: TrxManager, ghost s: Table<L.Lock>, trx: L.TrxNode, ghost ops: seq<Op>, ghost pc: nat,
      ghost phase: Phase, ghost start: map<int, int>)
    requires tm.manager.Shows(s) && InProgress(s, trx.thread, trx.deque, ops, pc, phase) && phase != Waits
    requires pc <= |ops| && Balanced(tm.manager, start, [], ops[..pc])
    modifies tm.manager.locks`state, tm.manager.locks`headPass, tm.manager.locks`signal
    modifies tm.manager.table.Values`head, tm.manager.table.Values`path, tm.manager.table.Values`value
    ensures Balanced(tm.manager, start, [], [])
  {
    hide L.LockManager.Shows, InProgress;
    GiveUp(tm, s, trx, ops, pc, phase);
  }

  lemma {:induction false} StillBalanced(m: L.LockManager, start: map<int, int>, ops: seq<Op>, pc: nat)
    requires pc <= |ops| && start.Keys == m.table.Keys
    requires forall r | r in m.table :: m.table[r].value == start[r] + Total(ops[..pc], r) - Total(ops[..0], r)
    ensures Balanced(m, start, [], ops[..pc])
  {
  }

  /** The first operation of a transaction. */
  method AskFirst(tm: TrxManager, ghost s: Table<L.Lock>, trx: L.TrxNode, op: Op, ghost start: map<int, int>)
      returns (ghost s1: Table<L.Lock>, ghost pc: nat, phase: Phase)
    requires tm.manager.Shows(s) && TableInv(s) && Has(tm.manager, trx) && trx.deque == [] && trx.conflict == null
    requires op.record in tm.manager.table && start.Keys == tm.manager.table.Keys
    requires forall q | q in tm.manager.table :: tm.manager.table[q].value == start[q]
    modifies tm.manager`saved, tm.manager`locks, tm.manager.locks, tm.manager.table.Values, trx`deque, trx`conflict
    ensures phase == Waits <==> Obstructed(s, op.record, ModeFor(op)) && !ClosesCycle(s, trx.thread, op.record)
    ensures tm.manager.Shows(s1) && InProgress(s1, trx.thread, trx.deque, [op], pc, phase)
    ensures pc <= 1 && Balanced(tm.manager, start, [], [op][..pc])
    ensures (forall x | x in tm.manager.locks :: x in old(tm.manager.locks) || fresh(x))
  {
    var ops := [op];
    assert InProgress(s, trx.thread, [], ops, 0, Runs) by { NodeKnown(tm.manager, s, trx.thread); }
    hide L.LockManager.Shows, InProgress, Total, Balanced, Obstructed, ClosesCycle, ModeFor;
    s1, pc, phase := AskAndAdd(tm, s, trx, ops, 0);
    StillBalanced(tm.manager, start, ops, pc);
  }

  /** An update that is granted at once or refused, and then Abort: every record is as before. */
  method UpdateThenAbort(tm: TrxManager, ghost s: Table<L.Lock>, trx: L.TrxNode, r: int, diff: int)
      returns (aborted: bool)
    requires tm.manager.Shows(s) && TableInv(s) && Has(tm.manager, trx) && trx.deque == [] && trx.conflict == null
    requires r in tm.manager.table
    modifies tm.manager`saved, tm.manager`locks, tm.manager.locks, tm.manager.table.Values, trx`deque, trx`conflict
    ensures aborted <==> (Obstructed(s, r, EXCLUSIVE) ==> ClosesCycle(s, trx.thread, r))
    ensures aborted ==> forall q | q in tm.manager.table ::
              tm.manager.table[q].value == old(tm.manager.table[q].value)
  {
    ghost var start := map q | q in tm.manager.table :: tm.manager.table[q].value;
    hide L.LockManager.Shows, InProgress, Obstructed, ClosesCycle;
    ghost var s1, pc;
    var phase;
    s1, pc, phase := AskFirst(tm, s, trx, Update(r, diff), start);
    aborted := phase != Waits;
    if aborted { GiveAllUp(tm, s1, trx, [Update(r, diff)], pc, phase, start); }
  }
}
