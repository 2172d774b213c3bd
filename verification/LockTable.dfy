/** The lock table under the global mutex, on values.

    A table maps lock identities to their contents and each record to its queue: the locks met by
    following `next` from `head` to `tail`.  Identities are a type parameter, so that the same
    definitions describe numbered locks and heap objects.  One operation is one critical section. */
module LockTable {

  datatype Mode = SHARED | EXCLUSIVE

  datatype Status = ACTIVE | WAIT | OBSOLETE

  datatype LockInfo = LockInfo(
    record: int, thread: nat, mode: Mode, state: Status, signal: bool, headPass: bool, diff: int)

  /** `conflict` holds the conflict_lock of every transaction where it is not null. */
  datatype Table<L> = Table(locks: map<L, LockInfo>, queue: map<int, seq<L>>, conflict: map<nat, L>)

  predicate Compatible(a: LockInfo, b: LockInfo)
  {
    a.mode == SHARED && b.mode == SHARED
  }

  /** x stands in the way of y. */
  predicate Blocks(x: LockInfo, y: LockInfo)
  {
    x.state != OBSOLETE && !Compatible(x, y)
  }

  /** Every queue member is a lock of the table. */
  ghost predicate Listed<L>(locks: map<L, LockInfo>, q: seq<L>)
  {
    forall k | 0 <= k < |q| :: q[k] in locks
  }

  /** No lock of q stands in the way of y. */
  ghost predicate Clear<L>(locks: map<L, LockInfo>, q: seq<L>, y: LockInfo)
    requires Listed(locks, q)
  {
    forall k | 0 <= k < |q| :: !Blocks(locks[q[k]], y)
  }

  // ---------------------------------------------------------------- the wait relation

  ghost predicate Held<L>(s: Table<L>, x: L, b: nat)
  {
    x in s.locks && s.locks[x].state != OBSOLETE && s.locks[x].thread == b
  }

  /** Transaction a's conflict lock is queued behind a lock of b that is not obsolete. */
  ghost predicate WaitsFor<L>(s: Table<L>, a: nat, b: nat)
  {
    && a in s.conflict && s.conflict[a] in s.locks
    && var r := s.locks[s.conflict[a]].record;
       r in s.queue && exists j, k ::
           0 <= j < k < |s.queue[r]| && s.queue[r][k] == s.conflict[a] && Held(s, s.queue[r][j], b)
  }

  /** p is a walk along the wait relation. */
  ghost predicate IsWalk<L>(s: Table<L>, p: seq<nat>)
  {
    forall i | 0 <= i < |p| - 1 :: WaitsFor(s, p[i], p[i + 1])
  }

  /** a reaches b along one or more edges. */
  ghost predicate Reaches<L>(s: Table<L>, a: nat, b: nat)
  {
    exists p :: |p| >= 2 && p[0] == a && p[|p| - 1] == b && IsWalk(s, p)
  }

  ghost predicate Acyclic<L>(s: Table<L>)
  {
    forall a :: !Reaches(s, a, a)
  }

  // ---------------------------------------------------------------- acquiring

  /** A lock that its thread may take again: obsolete, and passed by the head. */
  predicate Recyclable<L(==)>(s: Table<L>, t: nat, r: int, l: L)
  {
    l in s.locks && s.locks[l].state == OBSOLETE && s.locks[l].headPass && s.locks[l].thread == t
        && s.locks[l].record == r
  }

  /** The caller of an acquisition: a transaction that is not waiting, on an existing record, with a
      lock that is new or recyclable. */
  predicate MayAcquire<L(==)>(s: Table<L>, t: nat, r: int, l: L)
  {
    r in s.queue && t !in s.conflict && (l !in s.locks || Recyclable(s, t, r, l))
  }

  /** The new lock at the tail, with the conflict lock set and the given state. */
  function Appended<L(==)>(s: Table<L>, t: nat, r: int, mode: Mode, l: L, state: Status): (s1: Table<L>)
    requires r in s.queue
  {
    Table(
      s.locks[l := LockInfo(r, t, mode, state, false, false, 0)],
      s.queue[r := s.queue[r] + [l]],
      s.conflict[t := l])
  }

  function NoConflict<L>(s: Table<L>, t: nat): (s1: Table<L>)
  {
    s.(conflict := s.conflict - {t})
  }

  datatype Outcome = Granted | Waiting | Deadlocked

  ghost function AcquireOutcome<L>(s: Table<L>, t: nat, r: int, mode: Mode, l: L): (outcome: Outcome)
    requires r in s.queue && Listed(s.locks, s.queue[r])
  {
    if Clear(s.locks, s.queue[r], LockInfo(r, t, mode, ACTIVE, false, false, 0)) then Granted
    else if Reaches(Appended(s, t, r, mode, l, WAIT), t, t) then Deadlocked
    else Waiting
  }

  /** The critical section of AcquireLock up to its return or its wait. */
  ghost function Acquire<L>(s: Table<L>, t: nat, r: int, mode: Mode, l: L): (s1: Table<L>)
    requires r in s.queue && Listed(s.locks, s.queue[r])
  {
    match AcquireOutcome(s, t, r, mode, l)
    case Granted => NoConflict(Appended(s, t, r, mode, l, ACTIVE), t)
    case Waiting => Appended(s, t, r, mode, l, WAIT)
    case Deadlocked => NoConflict(Appended(s, t, r, mode, l, OBSOLETE), t)
  }

  predicate MayResume<L(==)>(s: Table<L>, t: nat)
  {
    t in s.conflict && s.conflict[t] in s.locks && s.locks[s.conflict[t]].signal
  }

  /** The critical section after the wait. */
  function Resume<L(==)>(s: Table<L>, t: nat): (s1: Table<L>)
    requires MayResume(s, t)
  {
    var l := s.conflict[t];
    NoConflict(s.(locks := s.locks[l := s.locks[l].(state := ACTIVE)]), t)
  }

  // ---------------------------------------------------------------- releasing

  /** The number of obsolete locks at the front. */
  function Leading<L(==)>(locks: map<L, LockInfo>, q: seq<L>): (n: nat)
    requires forall k | 0 <= k < |q| :: q[k] in locks
    ensures n <= |q| && (n < |q| ==> locks[q[n]].state != OBSOLETE)
    ensures forall k | 0 <= k < n :: locks[q[k]].state == OBSOLETE
  {
    if q == [] || locks[q[0]].state != OBSOLETE then 0 else 1 + Leading(locks, q[1..])
  }

  /** The compatible locks woken behind a shared head: up to the first exclusive lock in use. */
  function SharedRun<L(==)>(locks: map<L, LockInfo>, q: seq<L>): (w: set<L>)
    requires forall k | 0 <= k < |q| :: q[k] in locks
  {
    if q == [] then {}
    else if locks[q[0]].state == OBSOLETE then SharedRun(locks, q[1..])
    else if locks[q[0]].mode == EXCLUSIVE then {}
    else {q[0]} + SharedRun(locks, q[1..])
  }

  function Woken<L(==)>(locks: map<L, LockInfo>, q: seq<L>): (w: set<L>)
    requires q != [] && forall k | 0 <= k < |q| :: q[k] in locks
  {
    if locks[q[0]].mode == SHARED then {q[0]} + SharedRun(locks, q[1..]) else {q[0]}
  }

  /** The head moves past n locks, and the locks in w are signalled. */
  function Advance<L(==)>(s: Table<L>, r: int, n: nat, w: set<L>): (s1: Table<L>)
    requires r in s.queue && n <= |s.queue[r]|
  {
    var q := s.queue[r];
    s.(
      locks := map x | x in s.locks :: s.locks[x].(
        headPass := s.locks[x].headPass || x in q[..n],
        signal := s.locks[x].signal || x in w),
      queue := s.queue[r := q[n..]])
  }

  function MarkObsolete<L(==)>(s: Table<L>, l: L): (s1: Table<L>)
    requires l in s.locks
  {
    s.(locks := s.locks[l := s.locks[l].(state := OBSOLETE)])
  }

  /** The critical section of ReleaseLock. */
  ghost function Release<L>(s: Table<L>, l: L): (s1: Table<L>)
    requires l in s.locks && var r := s.locks[l].record; r in s.queue && s.queue[r] != [] && Listed(s.locks, s.queue[r])
  {
    var s1 := MarkObsolete(s, l);
    var r := s.locks[l].record;
    var q := s.queue[r];
    var n := Leading(s1.locks, q);
    if n == 0 then s1
    else if n == |q| then Advance(s1, r, |q| - 1, {})
    else Advance(s1, r, n, Woken(s1.locks, q[n..]))
  }

  /** Update writes the difference into its own lock without the mutex. */
  function SetDiff<L(==)>(s: Table<L>, l: L, d: int): (s1: Table<L>)
    requires l in s.locks
  {
    s.(locks := s.locks[l := s.locks[l].(diff := d)])
  }

  // ---------------------------------------------------------------- the invariant

  ghost predicate Distinct<L>(q: seq<L>)
  {
    forall j, k | 0 <= j < k < |q| :: q[j] != q[k]
  }

  /** The path from head to tail: no repetition, only locks of this record, none of them passed. */
  ghost predicate PathOK<L>(s: Table<L>, r: int)
    requires r in s.queue
  {
    var q := s.queue[r];
    && Distinct(q)
    && forall k | 0 <= k < |q| :: q[k] in s.locks && s.locks[q[k]].record == r && !s.locks[q[k]].headPass
  }

  /** A lock is on its record's path unless the head has passed it, and then it is obsolete. */
  ghost predicate LockOK<L>(s: Table<L>, x: L)
    requires x in s.locks
  {
    var i := s.locks[x];
    && i.record in s.queue && s.queue[i.record] != []
    && (i.headPass <==> x !in s.queue[i.record])
    && (i.headPass ==> i.state == OBSOLETE)
    && (i.state == WAIT ==> i.thread in s.conflict && s.conflict[i.thread] == x)
  }

  ghost predicate ConflictOK<L>(s: Table<L>, t: nat)
    requires t in s.conflict
  {
    s.conflict[t] in s.locks && s.locks[s.conflict[t]].state == WAIT && s.locks[s.conflict[t]].thread == t
  }

  /** The lock holds, or has been told that it holds. */
  predicate Grant(i: LockInfo)
  {
    i.state == ACTIVE || i.signal
  }

  /** Locks in use are granted exactly when nothing ahead of them stands in the way. */
  ghost predicate GrantOK<L>(s: Table<L>, r: int)
    requires r in s.queue && Listed(s.locks, s.queue[r])
  {
    var q := s.queue[r];
    forall k | 0 <= k < |q| && s.locks[q[k]].state != OBSOLETE ::
        Grant(s.locks[q[k]]) <==> Clear(s.locks, q[..k], s.locks[q[k]])
  }

  ghost predicate Structure<L>(s: Table<L>)
  {
    && (forall r {:trigger PathOK(s, r)} | r in s.queue :: PathOK(s, r))
    && (forall x {:trigger LockOK(s, x)} | x in s.locks :: LockOK(s, x))
    && (forall t {:trigger ConflictOK(s, t)} | t in s.conflict :: ConflictOK(s, t))
  }

  ghost predicate TableInv<L>(s: Table<L>)
  {
    Structure(s) && (forall r {:trigger GrantOK(s, r)} | r in s.queue && PathOK(s, r) :: GrantOK(s, r)) && Acyclic(s)
  }
}
