/** The lock list of one record as the first AcquireLock and ReleaseLock work on it, without the global
    mutex: recycling, insertion at the tail, collection of the locks ahead, the check against them,
    waiting, and the head movement and signals of a release.

    One step is one access to a shared field.  Locks are numbered objects; a null pointer is NULL. */
module LockFreeList {

  const NULL := -1
  const MAX_ID := 0xFFFF_FFFF_FFFF_FFFF

  /** ACTIVE and WAIT are not told apart: what differs is only whether a notification is sent. */
  datatype Cell = Cell(
    owner: nat, id: nat, idPass: bool, obsolete: bool, next: int, headPass: bool, signal: bool, exclusive: bool)

  datatype PC =
    | Idle
    // acquiring
    | Reset(k: nat)   // about to reset field k of a recycled lock; 6 is the mode, set in any lock
    | Exchange        // about to exchange the tail
    | Link            // about to store the lock in its predecessor's next
    | WaitId          // waiting for the predecessor's id
    | WaitHead        // waiting for the head
    | ReadId
    | WriteId
    | PassId          // about to set the predecessor's id_pass_flag
    | FirstId         // the first lock of the record gives itself id 0
    | FirstHead
    | ReadHead        // about to start collecting
    | CheckId         // about to compare the target's id with its own
    | ReadNext        // has collected the target, about to read its next
    | ScanState       // going back over the collected locks: about to read the state of one
    | ScanId
    | ScanMode
    | AgainState      // found it incompatible, about to test it once more
    | AgainId
    | Blocked         // has to wait: about to search for a deadlock
    | Waiting         // waiting for its signal
    // releasing
    | Enter           // about to take the head mutex
    | Top
    | Test
    | Follow
    | SetHead
    | SetPass
    | Again
    | WakeHead        // about to signal the new head
    | WakeMode
    | WakeNext        // going on to the lock behind the one just looked at
    | WakeTest
    | WakeCheck
    | WakeSet
    | AssertFailed

  /** `held` are the locks inserted and not yet released, `granted` those of them that AcquireLock has
      returned.  The first `todo` collected locks are still to be checked.  No step reads `start`, the
      least queue position where the current or next collection can begin. */
  datatype Thread = Thread(
    pc: PC, lock: nat, exclusive: bool, prev: int, base: nat, target: int, vec: seq<nat>, todo: nat,
    held: set<nat>, granted: set<nat>, start: nat)

  /** `order` lists the locks as they were exchanged into the tail, `pos` is each lock's last place in
      it, `headPos` the head's place, and `numbered` the number of places that have an id.  No step
      decides anything by these four. */
  datatype State = State(
    cells: seq<Cell>, head: int, tail: int, mutex: int, threads: seq<Thread>,
    order: seq<nat>, pos: seq<int>, headPos: nat, numbered: nat)

  /** Victim is the other outcome of the deadlock search, whose result is left to the scheduler. */
  datatype Action = Acquire(l: nat, exclusive: bool) | Release(l: nat) | Victim | Step

  function Init(n: nat): (s: State)
  {
    State([], NULL, NULL, NULL, seq(n, _ => Thread(Idle, 0, false, NULL, 0, NULL, [], 0, {}, {}, 0)), [], [], 0, 0)
  }

  predicate Sized(s: State)
  {
    |s.pos| == |s.cells|
  }

  function Put(s: State, t: nat, x: Thread): (s1: State)
    requires t < |s.threads|
  {
    s.(threads := s.threads[t := x])
  }

  function PutCell(s: State, l: nat, c: Cell): (s1: State)
    requires l < |s.cells|
  {
    s.(cells := s.cells[l := c])
  }

  /** An assert of the source failed, or a null pointer was followed. */
  function Fail(s: State, t: nat): (s1: State)
    requires t < |s.threads|
  {
    Put(s, t, s.threads[t].(pc := AssertFailed))
  }

  predicate IsCell(s: State, l: int)
  {
    0 <= l < |s.cells|
  }

  // ---------------------------------------------------------------- acquiring

  /** The three conditions on a lock of the thread's own that is no part of its current transaction. */
  predicate Recyclable(s: State, t: nat, l: nat)
    requires t < |s.threads|
  {
    l < |s.cells| && s.cells[l].owner == t && l !in s.threads[t].held
    && s.cells[l].obsolete && s.cells[l].idPass && s.cells[l].headPass
  }

  function NewCell(t: nat): (c: Cell)
  {
    Cell(t, MAX_ID, false, false, NULL, false, false, false)
  }

  function Begin(s: State, t: nat, l: nat, exclusive: bool): (s1: State)
    requires t < |s.threads|
  {
    var x := s.threads[t].(lock := l, exclusive := exclusive);
    if Recyclable(s, t, l) then Put(s, t, x.(pc := Reset(0)))
    else if l == |s.cells| then
      Put(s, t, x.(pc := Reset(6))).(cells := s.cells + [NewCell(t)], pos := s.pos + [NULL])
    else s
  }

  /** The order of the stores: id, id_pass_flag, state, next, head_pass_flag, signal_flag, mode. */
  function ResetField(c: Cell, k: nat, exclusive: bool): (c1: Cell)
  {
    match k
    case 0 => c.(id := MAX_ID)
    case 1 => c.(idPass := false)
    case 2 => c.(obsolete := false)
    case 3 => c.(next := NULL)
    case 4 => c.(headPass := false)
    case 5 => c.(signal := false)
    case _ => c.(exclusive := exclusive)
  }

  function StepReset(s: State, t: nat, k: nat): (s1: State)
    requires t < |s.threads|
  {
    var x := s.threads[t];
    if x.lock >= |s.cells| then Fail(s, t)
    else
      PutCell(Put(s, t, x.(pc := if k < 6 then Reset(k + 1) else Exchange)), x.lock,
              ResetField(s.cells[x.lock], k, x.exclusive))
  }

  /** Ids are assumed not to reach the maximum value. */
  function StepExchange(s: State, t: nat): (s1: State)
    requires t < |s.threads| && Sized(s)
  {
    var x := s.threads[t];
    if x.lock >= |s.cells| || |s.order| + 1 >= MAX_ID then s
    else
      Put(s, t, x.(pc := if s.tail == NULL then FirstId else Link, prev := s.tail))
        .(tail := x.lock, order := s.order + [x.lock], pos := s.pos[x.lock := |s.order|])
  }

  function StepLink(s: State, t: nat): (s1: State)
    requires t < |s.threads|
  {
    var x := s.threads[t];
    if !IsCell(s, x.prev) then Fail(s, t)
    else PutCell(Put(s, t, x.(pc := WaitId)), x.prev, s.cells[x.prev].(next := x.lock))
  }

  function StepWaitId(s: State, t: nat): (s1: State)
    requires t < |s.threads|
  {
    var x := s.threads[t];
    if !IsCell(s, x.prev) then Fail(s, t)
    else if s.cells[x.prev].id == MAX_ID then s
    else Put(s, t, x.(pc := WaitHead))
  }

  function StepWaitHead(s: State, t: nat): (s1: State)
    requires t < |s.threads|
  {
    Put(s, t, s.threads[t].(pc := if s.head == NULL then WaitId else ReadId))
  }

  function StepReadId(s: State, t: nat): (s1: State)
    requires t < |s.threads|
  {
    var x := s.threads[t];
    if !IsCell(s, x.prev) then Fail(s, t)
    else Put(s, t, x.(pc := WriteId, base := s.cells[x.prev].id))
  }

  /** The store of the id. */
  function Number(s: State, t: nat, id: nat, pc: PC): (s1: State)
    requires t < |s.threads|
  {
    var x := s.threads[t];
    if x.lock >= |s.cells| then Fail(s, t)
    else PutCell(Put(s, t, x.(pc := pc)), x.lock, s.cells[x.lock].(id := id)).(numbered := s.numbered + 1)
  }

  /** A thread that is about to read the head for the first time. */
  function Inserted(x: Thread): (y: Thread)
  {
    x.(pc := ReadHead, vec := [], start := 0)
  }

  function StepPassId(s: State, t: nat): (s1: State)
    requires t < |s.threads|
  {
    var x := s.threads[t];
    if !IsCell(s, x.prev) || s.cells[x.prev].idPass then Fail(s, t)
    else PutCell(Put(s, t, Inserted(x)), x.prev, s.cells[x.prev].(idPass := true))
  }

  function StepFirstHead(s: State, t: nat): (s1: State)
    requires t < |s.threads|
  {
    Put(s, t, Inserted(s.threads[t])).(head := s.threads[t].lock)
  }

  // ---------------------------------------------------------------- collecting

  /** Where a collection goes on once its target is known. */
  function AtTarget(x: Thread): (y: Thread)
  {
    if x.target == x.lock then x.(pc := ScanState, todo := |x.vec|) else x.(pc := CheckId)
  }

  /** Everything collected is dropped; the next start lies behind this one. */
  function Restart(x: Thread): (y: Thread)
  {
    x.(pc := ReadHead, vec := [], start := x.start + 1)
  }

  function StepReadHead(s: State, t: nat): (s1: State)
    requires t < |s.threads|
  {
    if s.head == NULL then Fail(s, t)
    else Put(s, t, AtTarget(s.threads[t].(target := s.head, vec := [], start := s.headPos)))
  }

  function StepCheckId(s: State, t: nat): (s1: State)
    requires t < |s.threads|
  {
    var x := s.threads[t];
    if !IsCell(s, x.target) || x.lock >= |s.cells| then Fail(s, t)
    else if s.cells[x.target].id > s.cells[x.lock].id then Put(s, t, Restart(x))
    else Put(s, t, x.(pc := ReadNext, vec := x.vec + [x.target]))
  }

  function StepReadNext(s: State, t: nat): (s1: State)
    requires t < |s.threads|
  {
    var x := s.threads[t];
    if !IsCell(s, x.target) then Fail(s, t)
    else if s.cells[x.target].next == NULL then Put(s, t, Restart(x))
    else Put(s, t, AtTarget(x.(target := s.cells[x.target].next)))
  }

  // ---------------------------------------------------------------- checking what was collected

  /** AcquireLock returns the lock. */
  function Grant(s: State, t: nat): (s1: State)
    requires t < |s.threads|
  {
    var x := s.threads[t];
    Put(s, t, x.(pc := Idle, held := x.held + {x.lock}, granted := x.granted + {x.lock}))
  }

  /** The current entry does not stand in the way. */
  function Skip(x: Thread): (y: Thread)
  {
    x.(pc := ScanState, todo := if x.todo > 0 then x.todo - 1 else 0)
  }

  function StepScanState(s: State, t: nat): (s1: State)
    requires t < |s.threads|
  {
    var x := s.threads[t];
    if x.todo == 0 then Grant(s, t)
    else if x.todo > |x.vec| || !IsCell(s, x.vec[x.todo - 1]) then Fail(s, t)
    else if s.cells[x.vec[x.todo - 1]].obsolete then Put(s, t, Skip(x))
    else Put(s, t, x.(pc := ScanId, target := x.vec[x.todo - 1]))
  }

  /** The test of the target's id, first or again. */
  function StepTestId(s: State, t: nat, pc: PC): (s1: State)
    requires t < |s.threads|
  {
    var x := s.threads[t];
    if !IsCell(s, x.target) || x.lock >= |s.cells| then Fail(s, t)
    else if s.cells[x.target].id > s.cells[x.lock].id then Put(s, t, Skip(x))
    else Put(s, t, x.(pc := pc))
  }

  function StepScanMode(s: State, t: nat): (s1: State)
    requires t < |s.threads|
  {
    var x := s.threads[t];
    if !IsCell(s, x.target) || x.lock >= |s.cells| then Fail(s, t)
    else if s.cells[x.lock].exclusive || s.cells[x.target].exclusive then Put(s, t, x.(pc := AgainState))
    else Put(s, t, Skip(x))
  }

  function StepAgainState(s: State, t: nat): (s1: State)
    requires t < |s.threads|
  {
    var x := s.threads[t];
    if !IsCell(s, x.target) then Fail(s, t)
    else Put(s, t, if s.cells[x.target].obsolete then Skip(x) else x.(pc := AgainId))
  }

  /** The deadlock search has found nothing. */
  function StepBlocked(s: State, t: nat): (s1: State)
    requires t < |s.threads|
  {
    Put(s, t, s.threads[t].(pc := Waiting))
  }

  function StepWaiting(s: State, t: nat): (s1: State)
    requires t < |s.threads|
  {
    var x := s.threads[t];
    if x.lock >= |s.cells| then Fail(s, t)
    else if s.cells[x.lock].signal then Grant(s, t)
    else s
  }

  // ---------------------------------------------------------------- releasing

  /** The store of OBSOLETE, in ReleaseLock or for the victim of a deadlock. */
  function Obsolete(s: State, l: nat): (s1: State)
    requires l < |s.cells|
  {
    PutCell(s, l, s.cells[l].(obsolete := true))
  }

  /** AcquireLock returns nothing; the lock stays in its transaction's list until that aborts. */
  function BecomeVictim(s: State, t: nat): (s1: State)
    requires t < |s.threads| && s.threads[t].lock < |s.cells|
  {
    var x := s.threads[t];
    Obsolete(Put(s, t, x.(pc := Idle, held := x.held + {x.lock})), x.lock)
  }

  function BeginRelease(s: State, t: nat, l: nat): (s1: State)
    requires t < |s.threads| && l < |s.cells|
  {
    var x := s.threads[t];
    Put(Obsolete(s, l), t, x.(pc := Enter, held := x.held - {l}, granted := x.granted - {l}))
  }

  /** The release returns and gives up the head mutex. */
  function Leave(s: State, t: nat): (s1: State)
    requires t < |s.threads|
  {
    Put(s, t, s.threads[t].(pc := Idle)).(mutex := NULL)
  }

  function StepEnter(s: State, t: nat): (s1: State)
    requires t < |s.threads|
  {
    if s.mutex == NULL then Put(s, t, s.threads[t].(pc := Top)).(mutex := t) else s
  }

  function StepTop(s: State, t: nat): (s1: State)
    requires t < |s.threads|
  {
    if s.head == NULL then Fail(s, t) else Put(s, t, s.threads[t].(pc := Test, target := s.head))
  }

  /** The test before the loop. */
  function StepTest(s: State, t: nat): (s1: State)
    requires t < |s.threads|
  {
    var x := s.threads[t];
    if !IsCell(s, x.target) then Fail(s, t)
    else if s.cells[x.target].obsolete then Put(s, t, x.(pc := Follow))
    else Leave(s, t)
  }

  function StepFollow(s: State, t: nat): (s1: State)
    requires t < |s.threads|
  {
    var x := s.threads[t];
    if !IsCell(s, x.target) then Fail(s, t)
    else if s.cells[x.target].next == NULL then Leave(s, t)
    else Put(s, t, x.(pc := SetHead, prev := x.target, target := s.cells[x.target].next))
  }

  function StepSetHead(s: State, t: nat): (s1: State)
    requires t < |s.threads|
  {
    var x := s.threads[t];
    Put(s, t, x.(pc := SetPass)).(head := x.target, headPos := s.headPos + 1)
  }

  function StepSetPass(s: State, t: nat): (s1: State)
    requires t < |s.threads|
  {
    var x := s.threads[t];
    if !IsCell(s, x.prev) then Fail(s, t)
    else PutCell(Put(s, t, x.(pc := Again)), x.prev, s.cells[x.prev].(headPass := true))
  }

  /** The test at the end of the loop, and the assert behind the loop. */
  function StepAgain(s: State, t: nat): (s1: State)
    requires t < |s.threads|
  {
    var x := s.threads[t];
    if !IsCell(s, x.target) then Fail(s, t)
    else if s.cells[x.target].obsolete then Put(s, t, x.(pc := Follow))
    else if x.target != s.head then Fail(s, t)
    else Put(s, t, x.(pc := WakeHead))
  }

  /** The store of the signal flag. */
  function StepSignal(s: State, t: nat, pc: PC): (s1: State)
    requires t < |s.threads|
  {
    var x := s.threads[t];
    if !IsCell(s, x.target) then Fail(s, t)
    else PutCell(Put(s, t, x.(pc := pc)), x.target, s.cells[x.target].(signal := true))
  }

  /** An exclusive lock ends the release; behind a shared one it goes on. */
  function StepTestMode(s: State, t: nat, pc: PC): (s1: State)
    requires t < |s.threads|
  {
    var x := s.threads[t];
    if !IsCell(s, x.target) then Fail(s, t)
    else if s.cells[x.target].exclusive then Leave(s, t)
    else Put(s, t, x.(pc := pc))
  }

  function StepWakeNext(s: State, t: nat): (s1: State)
    requires t < |s.threads|
  {
    var x := s.threads[t];
    if !IsCell(s, x.target) then Fail(s, t)
    else if s.cells[x.target].next == NULL then Leave(s, t)
    else Put(s, t, x.(pc := WakeTest, target := s.cells[x.target].next))
  }

  function StepWakeTest(s: State, t: nat): (s1: State)
    requires t < |s.threads|
  {
    var x := s.threads[t];
    if !IsCell(s, x.target) then Fail(s, t)
    else Put(s, t, x.(pc := if s.cells[x.target].obsolete then WakeNext else WakeCheck))
  }

  // ---------------------------------------------------------------- runs

  function StepOf(s: State, t: nat): (s1: State)
    requires t < |s.threads| && Sized(s)
    ensures |s1.threads| == |s.threads| && |s1.cells| == |s.cells| && |s1.pos| == |s.pos|
  {
    var x := s.threads[t];
    match x.pc
    case Reset(k) => StepReset(s, t, k)
    case Exchange => StepExchange(s, t)
    case Link => StepLink(s, t)
    case WaitId => StepWaitId(s, t)
    case WaitHead => StepWaitHead(s, t)
    case ReadId => StepReadId(s, t)
    case WriteId => Number(s, t, x.base + 1, PassId)
    case PassId => StepPassId(s, t)
    case FirstId => Number(s, t, 0, FirstHead)
    case FirstHead => StepFirstHead(s, t)
    case ReadHead => StepReadHead(s, t)
    case CheckId => StepCheckId(s, t)
    case ReadNext => StepReadNext(s, t)
    case ScanState => StepScanState(s, t)
    case ScanId => StepTestId(s, t, ScanMode)
    case ScanMode => StepScanMode(s, t)
    case AgainState => StepAgainState(s, t)
    case AgainId => StepTestId(s, t, Blocked)
    case Blocked => StepBlocked(s, t)
    case Waiting => StepWaiting(s, t)
    case Enter => StepEnter(s, t)
    case Top => StepTop(s, t)
    case Test => StepTest(s, t)
    case Follow => StepFollow(s, t)
    case SetHead => StepSetHead(s, t)
    case SetPass => StepSetPass(s, t)
    case Again => StepAgain(s, t)
    case WakeHead => StepSignal(s, t, WakeMode)
    case WakeMode => StepTestMode(s, t, WakeNext)
    case WakeNext => StepWakeNext(s, t)
    case WakeTest => StepWakeTest(s, t)
    case WakeCheck => StepTestMode(s, t, WakeSet)
    case WakeSet => StepSignal(s, t, WakeNext)
    case _ => s
  }

  /** One scheduled event; an event that is not possible leaves the state alone. */
  function Do(s: State, t: nat, a: Action): (s1: State)
    requires Sized(s)
    ensures Sized(s1) && |s1.threads| == |s.threads|
  {
    if t >= |s.threads| then s
    else
      var x := s.threads[t];
      match a
      case Acquire(l, exclusive) => if x.pc.Idle? then Begin(s, t, l, exclusive) else s
      case Release(l) => if x.pc.Idle? && l in x.held && l < |s.cells| then BeginRelease(s, t, l) else s
      case Victim => if x.pc.Blocked? && x.lock < |s.cells| then BecomeVictim(s, t) else s
      case Step => StepOf(s, t)
  }

  /** The state after a whole schedule of n threads. */
  function Exec(n: nat, sched: seq<(nat, Action)>): (s: State)
    ensures Sized(s) && |s.threads| == n
  {
    if sched == [] then Init(n)
    else
      var (t, a) := sched[|sched| - 1];
      Do(Exec(n, sched[..|sched| - 1]), t, a)
  }
}
