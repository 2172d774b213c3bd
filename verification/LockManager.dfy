/** The lock manager as it runs under the global mutex: lock objects linked by `next`, one node per
    record with head and tail, one node per transaction.

    `Shows(s)` says that the heap represents the table s of module LockTable; every method is proved to
    do to that table what the corresponding table operation says. */
module LockManager {
  import opened LockTable
  import opened LockTableProofs
  import opened Requests
  import opened Transactions
  import opened WaitGraph

  class Lock {
    const record: int
    const thread: nat
    var mode: Mode
    var next: Lock?
    var diff: int
    var state: Status
    var headPass: bool
    var signal: bool

    constructor (record: int, thread: nat)
      ensures this.record == record && this.thread == thread
      ensures mode == SHARED && next == null && diff == 0 && state == ACTIVE && !headPass && !signal
    {
      this.record := record;
      this.thread := thread;
      mode := SHARED;
      next := null;
      diff := 0;
      state := ACTIVE;
      headPass := false;
      signal := false;
    }

    function Info(): (i: LockInfo)
      reads this
    {
      LockInfo(record, thread, mode, state, signal, headPass, diff)
    }

    /** Ready for reuse. */
    method Reset()
      modifies this
      ensures mode == old(mode) && next == null && diff == 0 && state == ACTIVE && !headPass && !signal
    {
      state := ACTIVE;
      next := null;
      diff := 0;
      headPass := false;
      signal := false;
    }
  }

  class LockTableNode {
    const record: int
    var head: Lock?
    var tail: Lock?
    var value: int
    /** The locks from head to tail. */
    ghost var path: seq<Lock>

    constructor (record: int)
      ensures this.record == record && head == null && tail == null && value == 100 && path == []
    {
      this.record := record;
      head := null;
      tail := null;
      value := 100;
      path := [];
    }
  }

  class TrxNode {
    const thread: nat
    var deque: seq<Lock>
    var conflict: Lock?

    constructor (thread: nat)
      ensures this.thread == thread && deque == [] && conflict == null
    {
      this.thread := thread;
      deque := [];
      conflict := null;
    }
  }

  lemma {:induction false} OneFurther<X>(q: seq<X>, n: nat)
    requires n < |q|
    ensures q[n..][1..] == q[n + 1..] && forall x :: x in q[..n + 1] <==> x in q[..n] || x == q[n]
  {
    assert q[..n + 1] == q[..n] + [q[n]];
  }

  function WithLock<L(==)>(s: Table<L>, l: L, i: LockInfo): (s1: Table<L>)
  {
    s.(locks := s.locks[l := i])
  }

  lemma {:induction false} AppendedIs<L>(s: Table<L>, t: nat, r: int, mode: Mode, l: L)
    requires r in s.queue
    ensures var s1 := WithLock(s, l, LockInfo(r, t, mode, ACTIVE, false, false, 0));
      && r in s1.queue
      && Appended(s, t, r, mode, l, ACTIVE) == Table(s1.locks, s1.queue[r := s1.queue[r] + [l]], s1.conflict[t := l])
  {
  }

  function InState<L(==)>(s: Table<L>, l: L, state: Status): (s1: Table<L>)
    requires l in s.locks
  {
    WithLock(s, l, s.locks[l].(state := state))
  }

  lemma {:induction false} WithTwice<L>(s: Table<L>, l: L, i: LockInfo, j: LockInfo)
    ensures WithLock(WithLock(s, l, i), l, j) == WithLock(s, l, j)
  {
  }

  ghost predicate OffPaths<L>(s: Table<L>, l: L)
  {
    forall k | k in s.queue :: l !in s.queue[k]
  }

  /** Locks that the head has passed lie on no path. */
  ghost predicate PassedOff<L>(s: Table<L>)
  {
    forall l {:trigger OffPaths(s, l)} | l in s.locks && s.locks[l].headPass :: OffPaths(s, l)
  }

  lemma {:induction false} PassedAreOff<L>(s: Table<L>)
    requires Structure(s)
    ensures PassedOff(s)
  {
    forall l | l in s.locks && s.locks[l].headPass ensures OffPaths(s, l) {
      forall k | k in s.queue ensures l !in s.queue[k] {
        assert LockOK(s, l) && PathOK(s, k);
      }
    }
  }

  /** l is the last lock of its queue. */
  ghost predicate IsLast<L>(s: Table<L>, l: L)
    requires l in s.locks
  {
    var r := s.locks[l].record;
    r in s.queue && s.queue[r] != [] && s.queue[r][|s.queue[r]| - 1] == l && Listed(s.locks, s.queue[r])
  }

  /** The locks ahead of the last one. */
  ghost function Before<L>(s: Table<L>, l: L): (q: seq<L>)
    requires l in s.locks && IsLast(s, l)
  {
    var q := s.queue[s.locks[l].record];
    q[..|q| - 1]
  }

  ghost function Verdict<L>(s: Table<L>, w: Table<L>, t: nat, l: L): (outcome: Outcome)
    requires l in s.locks && IsLast(s, l)
  {
    if Clear(s.locks, Before(s, l), s.locks[l]) then Granted else if Reaches(w, t, t) then Deadlocked else Waiting
  }

  function Decided<L(==)>(s: Table<L>, w: Table<L>, t: nat, l: L, outcome: Outcome): (s1: Table<L>)
    requires l in w.locks
  {
    match outcome
    case Granted => NoConflict(s, t)
    case Waiting => w
    case Deadlocked => NoConflict(InState(w, l, OBSOLETE), t)
  }

  lemma {:induction false} AppendedState<L>(s: Table<L>, t: nat, r: int, mode: Mode, l: L, a: Status, b: Status)
    requires r in s.queue
    ensures InState(Appended(s, t, r, mode, l, a), l, b) == Appended(s, t, r, mode, l, b)
  {
    WithTwice(s, l, LockInfo(r, t, mode, a, false, false, 0), LockInfo(r, t, mode, b, false, false, 0));
  }

  /** Inserting first and deciding afterwards is what the table's operation does at once. */
  lemma {:induction false} AppendedStates<L>(s: Table<L>, t: nat, r: int, mode: Mode, l: L)
      returns (s1: Table<L>, w: Table<L>)
    requires Structure(s) && MayAcquire(s, t, r, l)
    ensures s1 == Appended(s, t, r, mode, l, ACTIVE) && l in s1.locks && IsLast(s1, l) && w == InState(s1, l, WAIT)
            && Structure(w)
    ensures Listed(s.locks, s.queue[r]) && Verdict(s1, w, t, l) == AcquireOutcome(s, t, r, mode, l)
    ensures Decided(s1, w, t, l, Verdict(s1, w, t, l)) == Acquire(s, t, r, mode, l)
  {
    assert PathOK(s, r);
    s1 := Appended(s, t, r, mode, l, ACTIVE);
    w := Appended(s, t, r, mode, l, WAIT);
    AppendStructure(s, t, r, mode, l, WAIT);
    AppendedState(s, t, r, mode, l, ACTIVE, WAIT);
    AppendedState(s, t, r, mode, l, WAIT, OBSOLETE);
    assert Before(s1, l) == s.queue[r];
    assert l !in s.queue[r] by {
      if l in s.locks { assert LockOK(s, l); }
    }
  }

  function Flagged(i: LockInfo, passed: bool, woken: bool): (i1: LockInfo)
  {
    i.(headPass := i.headPass || passed, signal := i.signal || woken)
  }

  /** How far a release moves the head, and whom it wakes. */
  ghost predicate ReleaseSpec<L>(locks: map<L, LockInfo>, q: seq<L>, n: nat, w: set<L>)
  {
    && Listed(locks, q) && n < |q| && (forall k | 0 <= k < n :: locks[q[k]].state == OBSOLETE)
    && if locks[q[n]].state == OBSOLETE then n == |q| - 1 && w == {}
          else w == if n == 0 then {} else Woken(locks, q[n..])
  }

  lemma {:induction false} LeadingIs<L>(locks: map<L, LockInfo>, q: seq<L>, n: nat)
    requires Listed(locks, q) && n <= |q| && (forall k | 0 <= k < n :: locks[q[k]].state == OBSOLETE)
    requires n < |q| ==> locks[q[n]].state != OBSOLETE
    ensures Leading(locks, q) == n
  {
  }

  lemma {:induction false} ReleaseIs<L>(s: Table<L>, l: L, n: nat, w: set<L>)
    requires MayRelease(s, l) && ReleaseSpec(MarkObsolete(s, l).locks, s.queue[s.locks[l].record], n, w)
    ensures Listed(s.locks, s.queue[s.locks[l].record])
    ensures Release(s, l) == Advance(MarkObsolete(s, l), s.locks[l].record, n, w)
  {
    var r := s.locks[l].record;
    var q := s.queue[r];
    var locks := MarkObsolete(s, l).locks;
    if locks[q[n]].state == OBSOLETE {
      LeadingIs(locks, q, |q|);
    } else {
      LeadingIs(locks, q, n);
    }
    if n == 0 && w == {} {
      assert q[0..] == q;
      assert Advance(MarkObsolete(s, l), r, 0, {}) == MarkObsolete(s, l);
    }
  }

  lemma {:induction false} ReleaseQueues<L>(s: Table<L>, l: L, n: nat, w: set<L>)
    requires MayRelease(s, l) && ReleaseSpec(MarkObsolete(s, l).locks, s.queue[s.locks[l].record], n, w)
    ensures Listed(s.locks, s.queue[s.locks[l].record])
    ensures var r := s.locks[l].record; var s1 := Release(s, l);
      s1.queue == s.queue[r := s.queue[r][n..]] && s1.conflict == s.conflict
  {
    ReleaseIs(s, l, n, w);
  }

  lemma {:induction false} SharedRunSame<L>(a: map<L, LockInfo>, b: map<L, LockInfo>, q: seq<L>)
    requires Listed(a, q) && Listed(b, q)
             && forall k | 0 <= k < |q| :: a[q[k]].state == b[q[k]].state && a[q[k]].mode == b[q[k]].mode
    ensures SharedRun(a, q) == SharedRun(b, q)
  {
    if q != [] { SharedRunSame(a, b, q[1..]); }
  }

  lemma {:induction false} WokenSame<L>(a: map<L, LockInfo>, b: map<L, LockInfo>, q: seq<L>)
    requires q != [] && Listed(a, q) && Listed(b, q)
             && forall k | 0 <= k < |q| :: a[q[k]].state == b[q[k]].state && a[q[k]].mode == b[q[k]].mode
    ensures Woken(a, q) == Woken(b, q)
  {
    SharedRunSame(a, b, q[1..]);
  }

  class LockManager {
    var table: map<int, LockTableNode>
    var trxs: map<nat, TrxNode>
    /** Per thread and record, the locks that the thread has created there. */
    var saved: map<(nat, int), seq<Lock>>
    /** All lock objects. */
    ghost var locks: set<Lock>

    /** `info` is what the lock objects contain. */
    ghost predicate Mirrors(info: map<Lock, LockInfo>)
      reads this, locks
    {
      info.Keys == locks && forall x | x in locks ::
          LockInfo(x.record, x.thread, x.mode, x.state, x.signal, x.headPass, x.diff) == info[x]
    }

    ghost predicate PathsAre(queue: map<int, seq<Lock>>)
      reads this, table.Values`path
    {
      table.Keys == queue.Keys && forall r | r in table :: table[r].path == queue[r]
    }

    ghost predicate ConflictsAre(conflict: map<nat, Lock>)
      reads this, trxs.Values`conflict
    {
      conflict.Keys <= trxs.Keys
          && forall t | t in trxs :: trxs[t].conflict == if t in conflict then conflict[t] else null
    }

    /** Nodes, transactions and recycling vectors refer to each other consistently. */
    ghost predicate Registered()
      reads this, table.Values`path
    {
      && (forall r | r in table :: table[r].record == r && forall l | l in table[r].path :: l in locks && l.record == r)
      && (forall t | t in trxs :: trxs[t].thread == t)
      && (forall l | l in locks :: l.thread in trxs && l.record in table)
      && (forall k | k in saved :: forall l | l in saved[k] :: l in locks && l.thread == k.0 && l.record == k.1)
    }

    /** What `next` of the k-th lock of the list q has to be. */
    ghost function After(q: seq<Lock>, k: int): (next: Lock?)
    {
      if 0 <= k < |q| - 1 then q[k + 1] else null
    }

    /** The objects of q are linked in this order, and the last one ends the list. */
    ghost predicate Chain(q: seq<Lock>)
      reads q`next
    {
      forall k {:trigger After(q, k)} | 0 <= k < |q| :: q[k].next == After(q, k)
    }

    lemma {:induction false} ChainSuffix(q: seq<Lock>, n: nat)
      requires Chain(q) && n <= |q|
      ensures Chain(q[n..])
    {
      forall k | 0 <= k < |q| - n ensures q[n..][k].next == After(q[n..], k) {
        assert q[n + k].next == After(q, n + k);
      }
    }

    /** `next` leads from the head through the path to the tail, and no further. */
    ghost predicate Linked(n: LockTableNode)
      reads n`head, n`tail, n`path, n.path`next
    {
      var q := n.path;
      Chain(q) && if q == [] then n.head == null && n.tail == null else n.head == q[0] && n.tail == q[|q| - 1]
    }

    function NodeOf(r: int): (node: LockTableNode)
      requires r in table
      reads this
    {
      table[r]
    }

    /** The heap is well linked and represents the table s. */
    ghost predicate Shows(s: Table<Lock>)
      reads this, locks, table.Values`head, table.Values`tail, table.Values`path, trxs.Values`conflict
    {
      match s
      case Table(info, queue, conflict) =>
        Registered() && (forall r | r in table :: Linked(table[r])) && Mirrors(info) && PathsAre(queue)
            && ConflictsAre(conflict)
    }

    /** Before searching: the locks in use that the new lock is queued behind, last one first. */
    method Seeds(ghost s: Table<Lock>, waiting: seq<Lock>) returns (work: seq<Lock>)
      requires Shows(s) && Listed(s.locks, waiting)
      ensures Shows(s)
      ensures forall x | x in work :: x in waiting && s.locks[x].state != OBSOLETE
      ensures forall j | 0 <= j < |waiting| && s.locks[waiting[j]].state != OBSOLETE :: waiting[j] in work
    {
      work := [];
      var i := |waiting| - 1;
      while i >= 0
        invariant -1 <= i < |waiting|
        invariant forall x | x in work :: x in waiting && s.locks[x].state != OBSOLETE
        invariant forall j | i < j < |waiting| && s.locks[waiting[j]].state != OBSOLETE :: waiting[j] in work
      {
        var target := waiting[i];
        if target.state != OBSOLETE { work := work + [target]; }
        i := i - 1;
      }
    }

    /** One examined transaction: a lock in use of `me` ahead of its conflict lock, or all the locks
        ahead of it.  A transaction without a conflict lock has nothing ahead. */
    method Examine(ghost s: Table<Lock>, me: nat, u: nat) returns (blocker: bool, ahead: seq<Lock>)
      requires Shows(s) && Structure(s) && u in trxs
      ensures blocker ==> WaitsFor(s, u, me)
      ensures !blocker ==> Ahead(s, me, u, ahead)
      ensures Shows(s)
    {
      ahead := [];
      blocker := false;
      var conflict := trxs[u].conflict;
      if conflict == null { return; }
      ghost var r, c := ConflictOnPath(s, u);
      ghost var q := s.queue[r];
      ghost var k := 0;
      var target := table[conflict.record].head;
      while target != conflict
        invariant 0 <= k <= c && target == q[k] && ahead == q[..k]
        invariant forall j | 0 <= j < k :: s.locks[q[j]].state == OBSOLETE || s.locks[q[j]].thread != me
        decreases c - k
      {
        assert Chain(q) && target.next == After(q, k);
        if target.thread == me && target.state != OBSOLETE {
          EdgesAhead(s, u, r, c, me);
          return true, [];
        }
        ahead := ahead + [target];
        target := target.next;
        k := k + 1;
      }
      AheadOfConflict(s, me, u, r, c, k);
    }

    /** IsDeadlock2 for the transaction `me`, which has just queued its conflict lock behind the locks
        in `waiting`: a breadth-first search that is exact. */
    method IsDeadlock2(ghost s: Table<Lock>, me: nat, waiting: seq<Lock>) returns (found: bool)
      requires Shows(s) && Structure(s) && QueuedBehind(s, me, waiting)
      ensures found <==> Reaches(s, me, me)
      ensures Shows(s)
    {
      assert Listed(s.locks, waiting);
      var work := Seeds(s, waiting);
      SeedsStart(s, me, waiting, work);
      var pass: set<nat> := {};
      while work != []
        invariant Shows(s) && pass <= trxs.Keys && Searching(s, me, pass, work)
        decreases trxs.Keys - pass, |work|
      {
        var target := work[0];
        assert target in s.locks && s.locks[target] == target.Info();
        if target.thread in pass || target.state == OBSOLETE {
          SkipLock(s, me, pass, work);
          work := work[1..];
        } else {
          var blocker, ahead := Examine(s, me, target.thread);
          if blocker {
            AddEdge(s, me, target.thread, me);
            return true;
          }
          PassLock(s, me, pass, work, ahead);
          work := work[1..] + ahead;
          pass := pass + {target.thread};
        }
      }
      SearchEnds(s, me, pass);
      return false;
    }

    /** A heap represents one table only. */
    lemma {:induction false} ShowsOne(s: Table<Lock>, s1: Table<Lock>)
      requires Shows(s) && Shows(s1)
      ensures s == s1
    {
      assert s.locks == s1.locks;
      assert forall r | r in table :: s.queue[r] == table[r].path == s1.queue[r];
      assert s.conflict == s1.conflict;
    }

    /** MakeRecords for records 1 to recordCount, with one transaction node per thread: the empty table. */
    constructor (recordCount: nat, threadCount: nat)
      ensures Shows(Table(map[], ForRecords(recordCount, []), map[]))
      ensures forall t: nat :: t in trxs <==> t < threadCount
      ensures forall r | r in table :: table[r].value == 100
    {
      table, trxs, saved, locks := map[], map[], map[], {};
      new;
      for i := 1 to recordCount + 1
        invariant locks == {} && trxs == map[] && saved == map[]
        invariant forall r :: r in table <==> 1 <= r < i
        invariant forall r | r in table ::
                  fresh(table[r]) && table[r].record == r && Linked(table[r]) && table[r].path == []
                  && table[r].value == 100
      {
        var node := new LockTableNode(i);
        table := table[i := node];
      }
      ghost var nodes := table;
      for t := 0 to threadCount
        invariant locks == {} && saved == map[] && table == nodes
        invariant forall u: nat :: u in trxs <==> u < t
        invariant forall u | u in trxs :: fresh(trxs[u]) && trxs[u].thread == u && trxs[u].conflict == null
        invariant forall r | r in table ::
                  table[r].record == r && Linked(table[r]) && table[r].path == [] && table[r].value == 100
      {
        var trx := new TrxNode(t);
        trxs := trxs[t := trx];
      }
    }

    /** The value of the lock's record. */
    function GetRecord(lock: Lock): (content: int)
      requires lock.record in table && lock.state != OBSOLETE
      reads this, lock, table.Values
    {
      table[lock.record].value
    }

    twostate lemma {:induction false} LinkedKept(n: LockTableNode)
      requires n.head == old(n.head) && n.tail == old(n.tail) && n.path == old(n.path)
      requires forall x | x in old(n.path) :: x.next == old(x.next)
      ensures old(Linked(n)) ==> Linked(n)
    {
    }

    /** Lists whose ends and links are untouched stay well linked. */
    twostate lemma {:induction false} LinksKept(skip: set<int>)
      requires table == old(table)
      requires forall k | k in old(table) && k !in skip ::
        && old(table)[k].head == old(table[k].head) && old(table)[k].tail == old(table[k].tail)
        && old(table)[k].path == old(table[k].path) && forall x | x in old(table[k].path) :: x.next == old(x.next)
      ensures (forall k | k in old(table) :: old(Linked(table[k]))) ==>
              forall k | k in table && k !in skip :: Linked(table[k])
    {
      if forall k | k in old(table) :: old(Linked(table[k])) {
        forall k | k in table && k !in skip ensures Linked(table[k]) { LinkedKept(table[k]); }
      }
    }

    /** Where no link changes and no head or tail, all lists stay well linked. */
    twostate lemma {:induction false} AllLinksKept(skip: set<int>)
      requires table == old(table) && old(Registered())
      requires forall x | x in old(locks) :: x.next == old(x.next)
      requires forall k | k in old(table) && k !in skip ::
        old(table)[k].head == old(table[k].head) && old(table)[k].tail == old(table[k].tail)
            && old(table)[k].path == old(table[k].path)
      ensures (forall k | k in old(table) :: old(Linked(table[k]))) ==>
              forall k | k in table && k !in skip :: Linked(table[k])
    {
      LinksKept(skip);
    }

    twostate lemma {:induction false} ConflictsKept(c: map<nat, Lock>)
      requires trxs == old(trxs) && forall t | t in old(trxs) :: old(trxs)[t].conflict == old(trxs[t].conflict)
      ensures old(ConflictsAre(c)) ==> ConflictsAre(c)
    {
    }

    /** Adds to the value of the lock's record. */
    method ChangeRecord(ghost s: Table<Lock>, lock: Lock, diff: int) returns (value: int)
      requires Shows(s) && lock.record in table && lock.mode == EXCLUSIVE && lock.state != OBSOLETE
      modifies NodeOf(lock.record)`value
      ensures value == table[lock.record].value == old(table[lock.record].value) + diff
      ensures Shows(s)
    {
      table[lock.record].value := table[lock.record].value + diff;
      value := table[lock.record].value;
      AllLinksKept({});
      ConflictsKept(s.conflict);
    }

    // -------------------------------------------------------------- what a change of the heap keeps

    /** One lock has new contents. */
    lemma {:induction false} OneLockChanged(s: Table<Lock>, lock: Lock)
      requires lock in locks && locks == s.locks.Keys + {lock}
      requires forall x | x in locks && x != lock ::
        LockInfo(x.record, x.thread, x.mode, x.state, x.signal, x.headPass, x.diff) == s.locks[x]
      ensures Mirrors(WithLock(s, lock, lock.Info()).locks)
    {
    }

    /** Where no list changes and no conflict lock, what the locks contain decides what the heap shows. */
    twostate lemma {:induction false} ShownAfter(s: Table<Lock>)
      requires old(Registered() && PathsAre(s.queue) && ConflictsAre(s.conflict))
      requires old(forall r | r in table :: Linked(table[r]))
      requires table == old(table) && trxs == old(trxs) && old(locks) <= locks
      requires forall k | k in old(table) ::
        old(table)[k].head == old(table[k].head) && old(table)[k].tail == old(table[k].tail)
        && old(table)[k].path == old(table[k].path) && forall x | x in old(table[k].path) :: x.next == old(x.next)
      requires forall t | t in old(trxs) :: old(trxs)[t].conflict == old(trxs[t].conflict)
      requires forall l | l in locks :: l.thread in trxs && l.record in table
      requires forall k | k in saved :: forall l | l in saved[k] :: l in locks && l.thread == k.0 && l.record == k.1
      requires Mirrors(s.locks)
      ensures Shows(s)
    {
      LinksKept({});
      ConflictsKept(s.conflict);
    }

    // -------------------------------------------------------------- acquire

    /** The recycling vector of a thread on a record; it starts empty. */
    function Saved(t: nat, r: int): (own: seq<Lock>)
      reads this
    {
      if (t, r) in saved then saved[(t, r)] else []
    }

    /** The first lock of the recycling vector that is obsolete and that the head has passed. */
    method FindRecyclable(t: nat, r: int) returns (recycled: Lock?)
      ensures recycled == null <==> forall x | x in Saved(t, r) :: !(x.state == OBSOLETE && x.headPass)
      ensures recycled != null ==> recycled in Saved(t, r) && recycled.state == OBSOLETE && recycled.headPass
    {
      var vector := Saved(t, r);
      for i := 0 to |vector|
        invariant forall j | 0 <= j < i :: !(vector[j].state == OBSOLETE && vector[j].headPass)
      {
        if vector[i].state == OBSOLETE && vector[i].headPass { return vector[i]; }
      }
      return null;
    }

    /** Resetting a lock that lies on no path. */
    method Recycle(ghost s: Table<Lock>, lock: Lock)
      requires Shows(s) && lock in locks && forall r | r in table :: lock !in table[r].path
      modifies lock
      ensures lock.next == null
      ensures Shows(WithLock(s, lock, LockInfo(lock.record, lock.thread, s.locks[lock].mode, ACTIVE, false, false, 0)))
    {
      lock.Reset();
      OneLockChanged(s, lock);
      ShownAfter(WithLock(s, lock, lock.Info()));
    }

    /** A lock just created is remembered for recycling. */
    method Remember(ghost s: Table<Lock>, lock: Lock)
      requires Shows(s) && lock !in locks && lock.thread in trxs && lock.record in table
      modifies `saved, `locks
      ensures locks == old(locks) + {lock} && lock in Saved(lock.thread, lock.record)
      ensures Shows(WithLock(s, lock, lock.Info()))
    {
      hide Linked, Chain, PathsAre, ConflictsAre;
      var k := (lock.thread, lock.record);
      saved := saved[k := Saved(k.0, k.1) + [lock]];
      locks := locks + {lock};
      OneLockChanged(s, lock);
      ShownAfter(WithLock(s, lock, lock.Info()));
    }

    /** A new lock, remembered for recycling. */
    method Create(ghost s: Table<Lock>, t: nat, r: int) returns (lock: Lock)
      requires Shows(s) && t in trxs && r in table
      modifies `saved, `locks
      ensures fresh(lock) && lock.record == r && lock.thread == t && lock.next == null && lock in Saved(t, r)
      ensures lock in locks && old(locks) <= locks
      ensures Shows(WithLock(s, lock, LockInfo(r, t, SHARED, ACTIVE, false, false, 0)))
    {
      lock := new Lock(r, t);
      AllLinksKept({});
      ConflictsKept(s.conflict);
      Remember(s, lock);
    }

    method SetMode(ghost s: Table<Lock>, lock: Lock, mode: Mode)
      requires Shows(s) && lock in locks
      modifies lock`mode
      ensures Shows(WithLock(s, lock, s.locks[lock].(mode := mode)))
    {
      hide Linked, Chain, PathsAre, ConflictsAre;
      lock.mode := mode;
      OneLockChanged(s, lock);
      ShownAfter(WithLock(s, lock, lock.Info()));
    }

    lemma {:induction false} LastOnce(q: seq<Lock>, k: nat)
      requires Chain(q) && k < |q| && q[k] == q[|q| - 1]
      ensures k == |q| - 1
    {
      assert q[k].next == After(q, k) && q[|q| - 1].next == After(q, |q| - 1);
    }

    /** The lock becomes the tail of the list. */
    method AppendTo(node: LockTableNode, lock: Lock)
      requires Linked(node) && lock !in node.path && lock.next == null
      modifies node`head, node`tail, node`path, node.path`next
      ensures Linked(node) && node.path == old(node.path) + [lock]
    {
      ghost var q := node.path;
      var prevTail := node.tail;
      forall k | 0 <= k < |q| - 1 ensures q[k] != q[|q| - 1] && q[k].next == After(q, k) {
        if q[k] == q[|q| - 1] { LastOnce(q, k); }
        assert q[k].next == After(q, k);
      }
      if prevTail != null {
        prevTail.next := lock;
      } else {
        node.head := lock;
      }
      node.tail := lock;
      node.path := node.path + [lock];
      forall k | 0 <= k < |q| + 1 ensures node.path[k].next == After(node.path, k) {
        if k < |q| - 1 { assert q[k].next == After(q, k); }
      }
    }

    /** Insertion into the list of the lock's record; the other lists stay as they are. */
    method InsertLink(ghost s: Table<Lock>, lock: Lock)
      requires Shows(s) && lock in locks && lock.next == null && lock !in table[lock.record].path
      modifies NodeOf(lock.record)`head, NodeOf(lock.record)`tail, NodeOf(lock.record)`path,
               NodeOf(lock.record).path`next
      ensures forall r | r in table :: Linked(table[r])
      ensures table[lock.record].path == s.queue[lock.record] + [lock]
    {
      hide Linked, Chain, ConflictsAre, Mirrors;
      AppendTo(table[lock.record], lock);
      LinksKept({lock.record});
    }

    /** Insertion at the tail of the lock's record. */
    method Insert(ghost s: Table<Lock>, lock: Lock)
      requires Shows(s) && lock in locks && lock.next == null && lock !in table[lock.record].path
      modifies NodeOf(lock.record)`head, NodeOf(lock.record)`tail, NodeOf(lock.record)`path,
               NodeOf(lock.record).path`next
      ensures Shows(s.(queue := s.queue[lock.record := s.queue[lock.record] + [lock]]))
    {
      hide Linked, Chain, ConflictsAre;
      InsertLink(s, lock);
      ConflictsKept(s.conflict);
    }

    method SetConflict(ghost s: Table<Lock>, trx: TrxNode, lock: Lock)
      requires Shows(s) && trx.thread in trxs && trxs[trx.thread] == trx
      modifies trx`conflict
      ensures trx.conflict == lock && Shows(s.(conflict := s.conflict[trx.thread := lock]))
    {
      hide Linked, Chain, Mirrors;
      trx.conflict := lock;
      AllLinksKept({});
    }

    method ClearConflict(ghost s: Table<Lock>, trx: TrxNode)
      requires Shows(s) && trx.thread in trxs && trxs[trx.thread] == trx
      modifies trx`conflict
      ensures trx.conflict == null && Shows(NoConflict(s, trx.thread))
    {
      hide Linked, Chain, Mirrors;
      trx.conflict := null;
      AllLinksKept({});
    }

    /** The walk from the head to the lock just inserted: the locks ahead of it. */
    method LocksAhead(node: LockTableNode, lock: Lock) returns (waiting: seq<Lock>)
      requires Linked(node) && node.path != [] && node.path[|node.path| - 1] == lock
      ensures waiting == node.path[..|node.path| - 1]
    {
      ghost var q := node.path;
      ghost var k := 0;
      waiting := [];
      var target := node.head;
      while target != lock
        invariant 0 <= k < |q| && target == q[k] && waiting == q[..k]
        decreases |q| - k
      {
        waiting := waiting + [target];
        assert target.next == After(q, k);
        target := target.next;
        k := k + 1;
      }
      LastOnce(q, k);
    }

    /** Whether a lock in use ahead is incompatible with the new one; the scan runs from the last to the first. */
    method Conflicting(ghost s: Table<Lock>, lock: Lock, waiting: seq<Lock>) returns (conflicting: bool)
      requires Mirrors(s.locks) && lock in locks && Listed(s.locks, waiting)
      ensures conflicting <==> !Clear(s.locks, waiting, s.locks[lock])
    {
      var i := |waiting| - 1;
      while i >= 0
        invariant -1 <= i < |waiting|
        invariant forall j | i < j < |waiting| :: !Blocks(s.locks[waiting[j]], s.locks[lock])
      {
        var target := waiting[i];
        if target.state != OBSOLETE && (lock.mode == EXCLUSIVE || target.mode == EXCLUSIVE) { return true; }
        i := i - 1;
      }
      return false;
    }

    method SetState(ghost s: Table<Lock>, lock: Lock, state: Status)
      requires Shows(s) && lock in locks
      modifies lock`state
      ensures Shows(InState(s, lock, state))
    {
      hide Linked, Chain, PathsAre, ConflictsAre;
      lock.state := state;
      OneLockChanged(s, lock);
      ShownAfter(WithLock(s, lock, lock.Info()));
    }

    /** What the heap says of the locks in a recycling vector, and of the lists. */
    lemma {:induction false} SavedShown(s: Table<Lock>, t: nat, r: int)
      requires Shows(s)
      ensures locks == s.locks.Keys
      ensures forall x | x in Saved(t, r) ::
        && x in s.locks && x.record == r && x.thread == t && s.locks[x].record == r && s.locks[x].thread == t
        && s.locks[x].state == x.state && s.locks[x].headPass == x.headPass
      ensures forall k | k in table :: k in s.queue && table[k].path == s.queue[k] && Listed(s.locks, s.queue[k])
    {
    }

    /** A recycled or a new lock of the thread, with the mode asked for. */
    method TakeLock(ghost s: Table<Lock>, mode: Mode, r: int, t: nat) returns (lock: Lock)
      requires Shows(s) && PassedOff(s) && r in table && t in trxs
      modifies `saved, `locks, locks
      ensures lock !in s.locks || Recyclable(s, t, r, lock)
      ensures lock in old(locks) || fresh(lock)
      ensures lock in s.locks <==> exists x :: x in old(Saved(t, r)) && Recyclable(s, t, r, x)
      ensures lock in locks && lock.record == r && lock.thread == t && lock.next == null && lock in Saved(t, r)
              && lock !in table[r].path
      ensures Shows(WithLock(s, lock, LockInfo(r, t, mode, ACTIVE, false, false, 0)))
    {
      hide Shows;
      SavedShown(s, t, r);
      var recycled := FindRecyclable(t, r);
      ghost var i;
      if recycled != null {
        lock := recycled;
        i := LockInfo(r, t, s.locks[lock].mode, ACTIVE, false, false, 0);
        assert Recyclable(s, t, r, lock) && OffPaths(s, lock);
        Recycle(s, lock);
      } else {
        i := LockInfo(r, t, SHARED, ACTIVE, false, false, 0);
        lock := Create(s, t, r);
      }
      SetMode(WithLock(s, lock, i), lock, mode);
      WithTwice(s, lock, i, i.(mode := mode));
    }

    /** Insertion at the tail, then the transaction's conflict lock. */
    method Attach(ghost s: Table<Lock>, trx: TrxNode, lock: Lock)
      requires Shows(s) && trx.thread in trxs && trxs[trx.thread] == trx
      requires lock in locks && lock.next == null && lock !in table[lock.record].path
      modifies NodeOf(lock.record)`head, NodeOf(lock.record)`tail, NodeOf(lock.record)`path,
               NodeOf(lock.record).path`next, trx`conflict
      ensures Shows(Table(s.locks, s.queue[lock.record := s.queue[lock.record] + [lock]],
              s.conflict[trx.thread := lock]))
      ensures trx.conflict == lock
    {
      assert lock.record in s.queue;
      hide Shows;
      Insert(s, lock);
      SetConflict(s.(queue := s.queue[lock.record := s.queue[lock.record] + [lock]]), trx, lock);
    }

    method Push(ghost s: Table<Lock>, trx: TrxNode, lock: Lock)
      requires Shows(s)
      modifies trx`deque
      ensures Shows(s) && trx.deque == old(trx.deque) + [lock]
    {
      trx.deque := trx.deque + [lock];
      AllLinksKept({});
      ConflictsKept(s.conflict);
    }

    /** The lock taken joins the locks of its transaction. */
    method TakeFor(ghost s: Table<Lock>, mode: Mode, r: int, trx: TrxNode) returns (lock: Lock)
      requires Shows(s) && PassedOff(s) && r in table && trx.thread in trxs
      modifies `saved, `locks, locks, trx`deque
      ensures lock !in s.locks || Recyclable(s, trx.thread, r, lock)
      ensures lock in old(locks) || fresh(lock)
      ensures lock in locks && lock.record == r && lock.next == null && lock !in table[r].path
      ensures trx.deque == old(trx.deque) + [lock]
      ensures Shows(WithLock(s, lock, LockInfo(r, trx.thread, mode, ACTIVE, false, false, 0)))
    {
      hide Shows;
      lock := TakeLock(s, mode, r, trx.thread);
      Push(WithLock(s, lock, LockInfo(r, trx.thread, mode, ACTIVE, false, false, 0)), trx, lock);
    }

    method SetLockDiff(ghost s: Table<Lock>, lock: Lock, diff: int)
      requires Shows(s) && lock in locks
      modifies lock`diff
      ensures lock.diff == diff && Shows(SetDiff(s, lock, diff))
    {
      hide Linked, Chain, PathsAre, ConflictsAre;
      lock.diff := diff;
      OneLockChanged(s, lock);
      ShownAfter(WithLock(s, lock, lock.Info()));
    }

    lemma {:induction false} MayEnqueue(s: Table<Lock>, r: int, trx: TrxNode)
      requires Shows(s) && r in table && trx.thread in trxs && trxs[trx.thread] == trx && trx.conflict == null
      ensures r in s.queue && trx.thread !in s.conflict && forall l | l in table[r].path :: l in locks
    {
    }

    /** A new lock in the list, as the conflict lock of its transaction. */
    method Enqueue(ghost s: Table<Lock>, mode: Mode, r: int, trx: TrxNode) returns (lock: Lock)
      requires Shows(s) && PassedOff(s) && r in table && trx.thread in trxs && trxs[trx.thread] == trx
               && trx.conflict == null
      modifies `saved, `locks, locks, NodeOf(r)`head, NodeOf(r)`tail, NodeOf(r)`path, trx`deque, trx`conflict
      ensures MayAcquire(s, trx.thread, r, lock)
      ensures lock in old(locks) || fresh(lock)
      ensures trx.deque == old(trx.deque) + [lock] && trx.conflict == lock
      ensures Shows(Appended(s, trx.thread, r, mode, lock, ACTIVE))
    {
      hide Shows, PassedOff, WithLock, Appended;
      MayEnqueue(s, r, trx);
      lock := TakeFor(s, mode, r, trx);
      AppendedIs(s, trx.thread, r, mode, lock);
      Attach(WithLock(s, lock, LockInfo(r, trx.thread, mode, ACTIVE, false, false, 0)), trx, lock);
    }

    /** Collects the locks ahead of the one just inserted and compares them with it. */
    method Compare(ghost s: Table<Lock>, lock: Lock) returns (waiting: seq<Lock>, conflicting: bool)
      requires Shows(s) && lock in s.locks && IsLast(s, lock)
      ensures Shows(s) && waiting == Before(s, lock) && (conflicting <==> !Clear(s.locks, waiting, s.locks[lock]))
    {
      waiting := LocksAhead(table[lock.record], lock);
      conflicting := Conflicting(s, lock, waiting);
    }

    /** A waiting request: it goes on waiting, or it is the victim of a deadlock. */
    method Search(ghost s: Table<Lock>, trx: TrxNode, lock: Lock, waiting: seq<Lock>) returns (deadlock: bool)
      requires Shows(s) && trx.thread in trxs && trxs[trx.thread] == trx && lock in s.locks
      requires Structure(s) && QueuedBehind(s, trx.thread, waiting)
      modifies lock`state, trx`conflict
      ensures deadlock <==> Reaches(s, trx.thread, trx.thread)
      ensures Shows(if deadlock then NoConflict(InState(s, lock, OBSOLETE), trx.thread) else s)
    {
      deadlock := IsDeadlock2(s, trx.thread, waiting);
      if deadlock {
        SetState(s, lock, OBSOLETE);
        ClearConflict(InState(s, lock, OBSOLETE), trx);
      }
    }

    /** A request that is blocked by the locks ahead of it. */
    method Block(ghost s: Table<Lock>, ghost w: Table<Lock>, trx: TrxNode, lock: Lock, waiting: seq<Lock>)
        returns (deadlock: bool)
      requires Shows(s) && trx.thread in trxs && trxs[trx.thread] == trx && lock in s.locks
      requires w == InState(s, lock, WAIT) && Structure(w) && QueuedBehind(w, trx.thread, waiting)
      modifies lock`state, trx`conflict
      ensures deadlock <==> Reaches(w, trx.thread, trx.thread)
      ensures Shows(if deadlock then NoConflict(InState(w, lock, OBSOLETE), trx.thread) else w)
    {
      SetState(s, lock, WAIT);
      deadlock := Search(w, trx, lock, waiting);
    }

    /** A request that has been compared with the locks ahead of it. */
    method Settle(ghost s: Table<Lock>, ghost w: Table<Lock>, trx: TrxNode, lock: Lock, waiting: seq<Lock>,
                  conflicting: bool) returns (outcome: Outcome)
      requires Shows(s) && trx.thread in trxs && trxs[trx.thread] == trx && lock in s.locks && lock in w.locks
      requires w == InState(s, lock, WAIT) && Structure(w) && QueuedBehind(w, trx.thread, waiting)
      modifies lock`state, trx`conflict
      ensures outcome == if !conflicting then Granted else if Reaches(w, trx.thread, trx.thread) then Deadlocked
                         else Waiting
      ensures Shows(Decided(s, w, trx.thread, lock, outcome))
    {
      hide Shows;
      if !conflicting {
        ClearConflict(s, trx);
        return Granted;
      }
      var deadlock := Block(s, w, trx, lock, waiting);
      return if deadlock then Deadlocked else Waiting;
    }

    /** The outcome of an inserted request: granted, waiting, or the victim of a deadlock. */
    method Decide(ghost s: Table<Lock>, ghost w: Table<Lock>, trx: TrxNode, lock: Lock) returns (outcome: Outcome)
      requires Shows(s) && trx.thread in trxs && trxs[trx.thread] == trx && trx.conflict == lock
      requires lock in s.locks && IsLast(s, lock) && w == InState(s, lock, WAIT) && Structure(w)
      modifies lock`state, trx`conflict
      ensures outcome == Verdict(s, w, trx.thread, lock)
      ensures Shows(Decided(s, w, trx.thread, lock, outcome))
    {
      var waiting, conflicting := Compare(s, lock);
      outcome := Settle(s, w, trx, lock, waiting, conflicting);
    }

    /** The insertion, and the tables that the decision is about. */
    method Arrive(ghost s: Table<Lock>, mode: Mode, r: int, trx: TrxNode)
        returns (lock: Lock, ghost s1: Table<Lock>, ghost w: Table<Lock>)
      requires Shows(s) && Structure(s) && r in table && trx.thread in trxs && trxs[trx.thread] == trx
               && trx.conflict == null
      modifies `saved, `locks, locks, NodeOf(r)`head, NodeOf(r)`tail, NodeOf(r)`path, trx`deque, trx`conflict
      ensures MayAcquire(s, trx.thread, r, lock) && (lock in old(locks) || fresh(lock))
      ensures trx.deque == old(trx.deque) + [lock] && trx.conflict == lock && Shows(s1)
      ensures lock in s1.locks && IsLast(s1, lock) && w == InState(s1, lock, WAIT) && Structure(w)
      ensures Listed(s.locks, s.queue[r])
              && Verdict(s1, w, trx.thread, lock) == AcquireOutcome(s, trx.thread, r, mode, lock)
      ensures Decided(s1, w, trx.thread, lock, Verdict(s1, w, trx.thread, lock))
              == Acquire(s, trx.thread, r, mode, lock)
    {
      hide Shows;
      PassedAreOff(s);
      lock := Enqueue(s, mode, r, trx);
      s1, w := AppendedStates(s, trx.thread, r, mode, lock);
    }

    lemma {:induction false} LockPath(s: Table<Lock>, r: int, trx: TrxNode)
      requires Shows(s) && r in table && trx.thread in trxs && trxs[trx.thread] == trx && trx.conflict == null
      ensures r in s.queue && table[r].path == s.queue[r] && trx.thread !in s.conflict && locks == s.locks.Keys
    {
    }

    lemma {:induction false} InfoOf(lock: Lock)
      ensures var i := lock.Info();
        && i.record == lock.record && i.thread == lock.thread && i.mode == lock.mode && i.state == lock.state
        && i.signal == lock.signal && i.headPass == lock.headPass && i.diff == lock.diff
    {
    }

    /** The objects of a lock and its transaction are as the table says. */
    lemma {:induction false} LockShown(s: Table<Lock>, lock: Lock, trx: TrxNode)
      requires Shows(s) && lock in s.locks && trx.thread in trxs && trxs[trx.thread] == trx
      ensures lock.Info() == s.locks[lock]
      ensures trx.conflict == if trx.thread in s.conflict then s.conflict[trx.thread] else null
      ensures forall r | r in table :: r in s.queue && table[r].path == s.queue[r]
      ensures locks == s.locks.Keys && forall x | x in locks :: x.Info() == s.locks[x]
    {
    }

    /** AcquireLock up to its return or its wait: a new or recycled lock with the mode asked for, last on the
        record's path.  It is granted if nothing in use stands in its way, given up if it would close a cycle
        of waits, and waits otherwise; nothing else changes. */
    method AcquireLock(ghost s: Table<Lock>, mode: Mode, r: int, trx: TrxNode) returns (outcome: Outcome, lock: Lock)
      requires Shows(s) && Structure(s) && r in table && trx.thread in trxs && trxs[trx.thread] == trx
               && trx.conflict == null
      modifies `saved, `locks, locks, NodeOf(r)`head, NodeOf(r)`tail, NodeOf(r)`path, trx`deque, trx`conflict
      ensures lock.record == r && lock.thread == trx.thread && lock.mode == mode && lock.diff == 0
              && !lock.headPass && !lock.signal
      ensures table[r].path == old(table[r].path) + [lock] && locks == old(locks) + {lock}
      ensures lock.state == ACTIVE && trx.conflict == null <==> !Obstructed(s, r, mode)
      ensures lock.state == OBSOLETE && trx.conflict == null
              <==> Obstructed(s, r, mode) && ClosesCycle(s, trx.thread, r)
      ensures lock.state == WAIT && trx.conflict == lock
              <==> Obstructed(s, r, mode) && !ClosesCycle(s, trx.thread, r)
      ensures outcome == match lock.state case ACTIVE => Granted case WAIT => Waiting case OBSOLETE => Deadlocked
      ensures MayAcquire(s, trx.thread, r, lock) && (lock in old(locks) || fresh(lock))
      ensures trx.deque == old(trx.deque) + [lock]
      ensures Listed(s.locks, s.queue[r]) && outcome == AcquireOutcome(s, trx.thread, r, mode, lock)
      ensures Shows(Acquire(s, trx.thread, r, mode, lock))
    {
      hide *;
      LockPath(s, r, trx);
      ghost var s1, w;
      lock, s1, w := Arrive(s, mode, r, trx);
      outcome := Decide(s1, w, trx, lock);
      AcquireDecides(s, trx.thread, r, mode, lock);
      LockShown(Acquire(s, trx.thread, r, mode, lock), lock, trx);
      InfoOf(lock);
    }

    /** Different records have different nodes. */
    lemma {:induction false} NodesApart(s: Table<Lock>)
      requires Shows(s)
      ensures forall r | r in table :: table[r].record == r
    {
    }

    /** What the heap says of the lock a transaction waits with. */
    lemma {:induction false} SignalledShown(s: Table<Lock>, trx: TrxNode)
      requires Shows(s) && trx.thread in trxs && trxs[trx.thread] == trx && MayResume(s, trx.thread)
      ensures var l := s.conflict[trx.thread];
        trx.conflict == l && l in locks && l.record in table && s.locks[l].record == l.record
    {
    }

    /** What follows the wait of a transaction that has been signalled. */
    method AfterWait(ghost s: Table<Lock>, trx: TrxNode) returns (lock: Lock)
      requires Shows(s) && trx.thread in trxs && trxs[trx.thread] == trx && MayResume(s, trx.thread)
      modifies locks`state, trx`conflict
      ensures lock == s.conflict[trx.thread] == old(trx.conflict) && Shows(Resume(s, trx.thread))
      ensures lock.state == ACTIVE && trx.conflict == null
    {
      lock := trx.conflict;
      SetState(s, lock, ACTIVE);
      ClearConflict(InState(s, lock, ACTIVE), trx);
    }

    // -------------------------------------------------------------- release

    /** What the heap contains after a release that moved the head by n and woke w. */
    ghost predicate Released(s: Table<Lock>, l: Lock, n: nat, w: set<Lock>)
      requires l in s.locks && l.record in s.queue && n <= |s.queue[l.record]|
      reads this, locks, table.Values`path
    {
      && locks == s.locks.Keys && table.Keys == s.queue.Keys
      && (forall r | r in table :: table[r].path == if r == l.record then s.queue[r][n..] else s.queue[r])
      && (forall x | x in locks :: LockInfo(x.record, x.thread, x.mode, x.state, x.signal, x.headPass, x.diff)
            == Flagged(MarkObsolete(s, l).locks[x], x in s.queue[l.record][..n], x in w))
    }

    /** That is what the table's release says. */
    lemma {:induction false} ReleaseMirrors(s: Table<Lock>, l: Lock, n: nat, w: set<Lock>)
      requires MayRelease(s, l) && l.record == s.locks[l].record
               && ReleaseSpec(MarkObsolete(s, l).locks, s.queue[l.record], n, w)
      requires Released(s, l, n, w)
      ensures Listed(s.locks, s.queue[l.record]) && Mirrors(Release(s, l).locks)
    {
      ReleaseIs(s, l, n, w);
    }

    lemma {:induction false} ReleasePaths(s: Table<Lock>, l: Lock, n: nat, w: set<Lock>)
      requires MayRelease(s, l) && l.record == s.locks[l].record
               && ReleaseSpec(MarkObsolete(s, l).locks, s.queue[l.record], n, w)
      requires Released(s, l, n, w)
      ensures Listed(s.locks, s.queue[l.record])
      ensures PathsAre(Release(s, l).queue) && Release(s, l).conflict == s.conflict
    {
      ReleaseQueues(s, l, n, w);
    }

    lemma {:induction false} ReleaseShown(s: Table<Lock>, l: Lock, n: nat, w: set<Lock>)
      requires MayRelease(s, l) && l.record == s.locks[l].record
               && ReleaseSpec(MarkObsolete(s, l).locks, s.queue[l.record], n, w)
      requires Released(s, l, n, w)
      requires Registered() && (forall r | r in table :: Linked(table[r])) && ConflictsAre(s.conflict)
      ensures Listed(s.locks, s.queue[l.record]) && Shows(Release(s, l))
    {
      ReleaseMirrors(s, l, n, w);
      ReleasePaths(s, l, n, w);
      hide Released, ReleaseSpec, Mirrors, PathsAre, ConflictsAre, Registered, Linked, Release;
    }

    /** The ends of a list that is not empty. */
    lemma {:induction false} Ends(node: LockTableNode)
      requires Linked(node) && node.path != []
      ensures node.head == node.path[0] && node.tail == node.path[|node.path| - 1] && Chain(node.path)
    {
    }

    lemma {:induction false} SuffixLinked(node: LockTableNode, q: seq<Lock>, n: nat)
      requires Chain(q) && n < |q| && node.path == q[n..] && node.head == q[n] && node.tail == q[|q| - 1]
      ensures Linked(node)
    {
      ChainSuffix(q, n);
    }

    /** The loop that moves the head: over one lock after the other, to the first one in use or to the last. */
    method PassObsolete(node: LockTableNode, ghost q: seq<Lock>, ghost info: map<Lock, LockInfo>)
        returns (target: Lock?, ghost n: nat)
      requires Mirrors(info) && (forall x | x in q :: x in locks) && Chain(q) && q != []
      requires node.path == q && node.head == q[0] && node.head.state == OBSOLETE
      modifies node`head, node`path, locks`headPass
      ensures n < |q| && node.head == q[n] && node.path == q[n..]
      ensures forall k | 0 <= k < n :: info[q[k]].state == OBSOLETE
      ensures if target == null then n == |q| - 1 && info[q[n]].state == OBSOLETE
              else target == q[n] && info[q[n]].state != OBSOLETE
      ensures forall x | x in locks :: x.headPass == (info[x].headPass || x in q[..n])
    {
      target := node.head;
      n := 0;
      while true
        invariant n < |q| && target == q[n] && node.head == target && node.path == q[n..] && Chain(q)
        invariant forall k | 0 <= k <= n :: info[q[k]].state == OBSOLETE
        invariant forall x | x in locks :: x.headPass == (info[x].headPass || x in q[..n])
        decreases |q| - n
      {
        var prev := target;
        assert target.next == After(q, n);
        target := target.next;
        if target == null { break; }
        node.head := target;
        node.path := node.path[1..];
        prev.headPass := true;
        OneFurther(q, n);
        n := n + 1;
        if target.state != OBSOLETE { break; }
      }
    }

    /** Move the head over obsolete locks, up to a lock in use or the last lock of the list. */
    method MoveHead(node: LockTableNode, ghost info: map<Lock, LockInfo>) returns (moved: bool, ghost n: nat)
      requires Mirrors(info) && (forall x | x in node.path :: x in locks) && Linked(node) && node.path != []
               && node.head.state == OBSOLETE
      modifies node`head, node`path, locks`headPass
      ensures n < |old(node.path)| && node.path == old(node.path)[n..] && Linked(node)
      ensures forall k | 0 <= k < n :: info[old(node.path)[k]].state == OBSOLETE
      ensures if moved then info[node.path[0]].state != OBSOLETE
              else |node.path| == 1 && info[node.path[0]].state == OBSOLETE
      ensures forall x | x in locks ::
              LockInfo(x.record, x.thread, x.mode, x.state, x.signal, x.headPass, x.diff)
              == info[x].(headPass := info[x].headPass || x in old(node.path)[..n])
    {
      Ends(node);
      hide Linked;
      ghost var q := node.path;
      var target;
      target, n := PassObsolete(node, q, info);
      moved := target != null;
      SuffixLinked(node, q, n);
    }

    /** The walk behind a shared head: signals locks in use up to the first exclusive one. */
    method WakeRun(ghost q: seq<Lock>, ghost info: map<Lock, LockInfo>, first: Lock?)
      requires Mirrors(info) && (forall x | x in q :: x in locks) && Chain(q) && q != []
      requires first == After(q, 0)
      modifies locks`signal
      ensures forall x | x in locks ::
              LockInfo(x.record, x.thread, x.mode, x.state, x.signal, x.headPass, x.diff)
              == info[x].(signal := info[x].signal || x in SharedRun(info, q[1..]))
    {
      var target := first;
      ghost var k := 1;
      ghost var w := {};
      while target != null
        invariant 1 <= k <= |q| && target == (if k < |q| then q[k] else null) && Chain(q)
        invariant w + SharedRun(info, q[k..]) == SharedRun(info, q[1..])
        invariant forall x | x in locks :: x.signal == (info[x].signal || x in w)
        decreases |q| - k
      {
        assert target.next == After(q, k);
        assert q[k..][1..] == q[k + 1..] && info[target].state == target.state && info[target].mode == target.mode;
        if target.state == OBSOLETE {
          target := target.next;
          k := k + 1;
          continue;
        }
        if target.mode == EXCLUSIVE { break; }
        target.signal := true;
        w := w + {target};
        target := target.next;
        k := k + 1;
      }
    }

    /** Wake the new head and, if it is shared, the compatible locks behind it. */
    method WakeUp(node: LockTableNode, ghost info: map<Lock, LockInfo>)
      requires Mirrors(info) && (forall x | x in node.path :: x in locks) && Linked(node) && node.path != []
               && node.head.state != OBSOLETE
      modifies locks`signal
      ensures forall x | x in locks ::
              LockInfo(x.record, x.thread, x.mode, x.state, x.signal, x.headPass, x.diff)
              == info[x].(signal := info[x].signal || x in Woken(info, node.path))
    {
      ghost var q := node.path;
      var newHead := node.head;
      newHead.signal := true;
      if newHead.mode == SHARED {
        assert newHead.next == After(q, 0);
        ghost var info1 := info[newHead := info[newHead].(signal := true)];
        WakeRun(q, info1, newHead.next);
        SharedRunSame(info, info1, q[1..]);
      }
    }

    /** The wake-up at a head that has just been moved past n locks. */
    method WakeMoved(node: LockTableNode, ghost info: map<Lock, LockInfo>, ghost passed: seq<Lock>)
      requires info.Keys == locks && (forall x | x in node.path :: x in locks) && Linked(node) && node.path != []
               && node.head.state != OBSOLETE
      requires forall x | x in locks ::
               LockInfo(x.record, x.thread, x.mode, x.state, x.signal, x.headPass, x.diff)
               == Flagged(info[x], x in passed, false)
      modifies locks`signal
      ensures forall x | x in locks ::
              LockInfo(x.record, x.thread, x.mode, x.state, x.signal, x.headPass, x.diff)
              == Flagged(info[x], x in passed, x in Woken(info, node.path))
    {
      ghost var info2 := map x | x in info :: Flagged(info[x], x in passed, false);
      WokenSame(info, info2, node.path);
      hide Woken, Linked, Chain;
      WakeUp(node, info2);
    }

    /** Behind an obsolete head: find the new head and wake it with the locks it is compatible with. */
    method MoveAndWake(node: LockTableNode, ghost info: map<Lock, LockInfo>) returns (ghost n: nat, ghost w: set<Lock>)
      requires Mirrors(info) && (forall x | x in node.path :: x in locks) && Linked(node) && node.path != []
               && node.head.state == OBSOLETE
      modifies node`head, node`path, locks`headPass, locks`signal
      ensures n < |old(node.path)| && node.path == old(node.path)[n..] && Linked(node)
      ensures ReleaseSpec(info, old(node.path), n, w)
      ensures forall x | x in locks ::
              LockInfo(x.record, x.thread, x.mode, x.state, x.signal, x.headPass, x.diff)
              == Flagged(info[x], x in old(node.path)[..n], x in w)
    {
      Ends(node);
      hide Linked, Chain, Woken;
      ghost var q := node.path;
      var moved;
      moved, n := MoveHead(node, info);
      w := {};
      Ends(node);
      if moved {
        WakeMoved(node, info, q[..n]);
        w := Woken(info, q[n..]);
      }
    }

    /** The steps of a release on one node; `info` is the table's view of the locks once l is obsolete. */
    method RemoveAndWake(node: LockTableNode, l: Lock, ghost info: map<Lock, LockInfo>)
        returns (ghost n: nat, ghost w: set<Lock>)
      requires l in locks && info.Keys == locks
               && forall x | x in locks ::
               info[x] == if x == l then l.Info().(state := OBSOLETE)
               else LockInfo(x.record, x.thread, x.mode, x.state, x.signal, x.headPass, x.diff)
      requires (forall x | x in node.path :: x in locks) && node.path != [] && Linked(node)
      modifies l`state, node`head, node`path, locks`headPass, locks`signal
      ensures n < |old(node.path)| && node.path == old(node.path)[n..] && Linked(node)
      ensures ReleaseSpec(info, old(node.path), n, w)
      ensures forall x | x in locks ::
              LockInfo(x.record, x.thread, x.mode, x.state, x.signal, x.headPass, x.diff)
              == Flagged(info[x], x in old(node.path)[..n], x in w)
      ensures l.state == OBSOLETE
    {
      l.state := OBSOLETE;
      n, w := 0, {};
      if node.head.state == OBSOLETE { n, w := MoveAndWake(node, info); }
    }

    /** A release finds its lock and its list as the table says. */
    lemma {:induction false} ReleaseReady(s: Table<Lock>, l: Lock)
      requires Shows(s) && MayRelease(s, l)
      ensures l in locks && locks == s.locks.Keys && l.record == s.locks[l].record && l.record in table
      ensures forall x | x in locks ::
                MarkObsolete(s, l).locks[x] ==
                if x == l then l.Info().(state := OBSOLETE)
                else LockInfo(x.record, x.thread, x.mode, x.state, x.signal, x.headPass, x.diff)
      ensures var node := table[l.record];
              (forall x | x in node.path :: x in locks) && node.path != [] && Linked(node)
      ensures table.Keys == s.queue.Keys
      ensures forall r | r in table :: table[r].path == s.queue[r] && table[r].record == r
    {
    }

    method ReleaseHeap(ghost s: Table<Lock>, l: Lock) returns (ghost n: nat, ghost w: set<Lock>)
      requires Shows(s) && MayRelease(s, l)
      modifies l`state, NodeOf(l.record)`head, NodeOf(l.record)`path, locks`headPass, locks`signal
      ensures l.record == s.locks[l].record && ReleaseSpec(MarkObsolete(s, l).locks, s.queue[l.record], n, w)
      ensures Released(s, l, n, w) && Linked(table[l.record]) && l.state == OBSOLETE
      ensures l.record in table
      ensures n < |old(table[l.record].path)| && table[l.record].path == old(table[l.record].path)[n..]
    {
      hide Shows, ReleaseSpec, Flagged, Linked, Chain;
      ReleaseReady(s, l);
      n, w := RemoveAndWake(table[l.record], l, MarkObsolete(s, l).locks);
    }

    lemma {:induction false} ShownParts(s: Table<Lock>)
      requires Shows(s)
      ensures Registered() && ConflictsAre(s.conflict) && forall r | r in table :: Linked(table[r])
    {
    }

    twostate lemma {:induction false} RegisteredKept(r: int)
      requires table == old(table) && trxs == old(trxs) && saved == old(saved) && locks == old(locks) && r in table
      requires forall k | k in table && k != r :: table[k].path == old(table[k].path)
      requires forall l | l in table[r].path :: l in old(table[r].path)
      ensures old(Registered()) ==> Registered()
    {
    }

    /** All the other lists and the conflict locks stay as they are. */
    method ReleaseNode(ghost s: Table<Lock>, l: Lock) returns (ghost n: nat, ghost w: set<Lock>)
      requires Shows(s) && MayRelease(s, l)
      modifies l`state, NodeOf(l.record)`head, NodeOf(l.record)`path, locks`headPass, locks`signal
      ensures l.record == s.locks[l].record && ReleaseSpec(MarkObsolete(s, l).locks, s.queue[l.record], n, w)
      ensures Released(s, l, n, w) && Registered() && ConflictsAre(s.conflict) && l.state == OBSOLETE
      ensures forall r | r in table :: Linked(table[r])
    {
      hide Shows, Released, ReleaseSpec, Mirrors, PathsAre, Linked, Chain;
      ShownParts(s);
      n, w := ReleaseHeap(s, l);
      RegisteredKept(l.record);
      AllLinksKept({l.record});
      ConflictsKept(s.conflict);
    }

    /** ReleaseLock: logical removal, head movement and wake-up in one critical section. */
    method ReleaseLock(ghost s: Table<Lock>, l: Lock)
      requires Shows(s) && MayRelease(s, l)
      modifies l`state, NodeOf(l.record)`head, NodeOf(l.record)`path, locks`headPass, locks`signal
      ensures Listed(s.locks, s.queue[l.record]) && Shows(Release(s, l))
      ensures l.state == OBSOLETE
    {
      hide *;
      ghost var n, w := ReleaseNode(s, l);
      ReleaseShown(s, l, n, w);
    }
  }
}
