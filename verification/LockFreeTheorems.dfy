/** What the lock-free list guarantees in every run. */
module LockFreeTheorems {
  import opened LockFreeFrame
  import opened LockFreeGrants
  import opened LockFreeInvariant
  import opened LockFreeList
  import opened LockFreeModes
  import opened LockFreeQuiet
  import opened LockFreeSafety
  import opened LockFreeStranded
  import opened LockFreeWakeups

  // ---------------------------------------------------------------- the collection

  /** What a thread has collected is one run of places that ends just before its own lock, and no live lock
      ahead of its own is missing. */
  predicate Complete(s: State, t: nat)
    requires Sized(s) && t < |s.threads|
  {
    var x := s.threads[t];
    && x.lock < |s.cells|
    && var p := s.pos[x.lock];
       && x.start <= p < |s.order| && s.order[p] == x.lock && x.vec == s.order[x.start..p]
       && s.cells[x.lock].id == p
       && forall l {:trigger Live(s, l)} | 0 <= l < |s.cells| && Live(s, l) && s.pos[l] < p :: l in x.vec
  }

  lemma {:induction false} CollectedAll(s: State, t: nat)
    requires Inv(s) && t < |s.threads| && InScan(s.threads[t].pc)
    ensures Complete(s, t)
  {
    Walker(s, t);
    assert ThreadOK(s, t);
    var x := s.threads[t];
    var p := s.pos[x.lock];
    forall l | 0 <= l < |s.cells| && Live(s, l) && s.pos[l] < p ensures l in x.vec {
      LivePlace(s, l);
      assert x.vec[s.pos[l] - x.start] == l;
    }
  }

  /** From the moment the walk reaches the new lock until the check of what it collected is over. */
  lemma {:induction false} CollectionComplete(n: nat, sched: seq<(nat, Action)>, t: nat)
    requires t < n && InScan(Exec(n, sched).threads[t].pc)
    ensures Complete(Exec(n, sched), t)
  {
    RunInv(n, sched);
    CollectedAll(Exec(n, sched), t);
  }

  /** While a collector compares ids, its target shows a larger id exactly when its id has been reset or it
      has a later place, and then the head has passed the start; otherwise it is the next to collect. */
  lemma {:induction false} IdTestExact(n: nat, sched: seq<(nat, Action)>, t: nat)
    requires t < n && Exec(n, sched).threads[t].pc.CheckId?
    ensures IdDecides(Exec(n, sched), t)
  {
    RunInv(n, sched);
    TargetDecides(Exec(n, sched), t);
  }

  /** Every place between the head and a collector's own lock is untouched; a lock it may have seen and
      that has been reused since shows an id larger than the collector's. */
  lemma {:induction false} ReusedShowsLarger(n: nat, sched: seq<(nat, Action)>, t: nat, i: nat)
    requires t < n && (var pc := Exec(n, sched).threads[t].pc; pc.CheckId? || pc.ReadNext? || InScan(pc))
    requires var s := Exec(n, sched); var x := s.threads[t]; x.lock < |s.cells| && x.start <= i <= s.pos[x.lock]
    ensures var s := Exec(n, sched); var x := s.threads[t];
      && s.pos[x.lock] < |s.order| && s.order[i] < |s.cells|
      && (s.headPos <= i ==>
            s.pos[s.order[i]] == i && Stage(s, s.order[i]) >= 6
            && s.cells[s.order[i]].id == if i < s.numbered then i else MAX_ID)
      && (s.pos[s.order[i]] != i || 1 <= Stage(s, s.order[i]) <= 5 ==> s.cells[s.order[i]].id > s.pos[x.lock])
  {
    var s := Exec(n, sched);
    var x := s.threads[t];
    RunInv(n, sched);
    Walker(s, t);
    assert ThreadOK(s, t);
    assert Current(s, i) || s.pos[s.order[i]] > s.pos[x.lock];
    assert CellOK(s, s.order[i]);
    if s.headPos <= i { PathPlace(s, i); }
  }

  /** A collection starts over only when the head has moved past the place where it began. */
  lemma {:induction false} RestartMeansProgress(n: nat, sched: seq<(nat, Action)>, t: nat)
    requires t < n && (Exec(n, sched).threads[t].pc.CheckId? || Exec(n, sched).threads[t].pc.ReadNext?)
    ensures var s := Exec(n, sched); StepOf(s, t).threads[t].pc.ReadHead? ==> s.threads[t].start < s.headPos
  {
    var s := Exec(n, sched);
    RunInv(n, sched);
    if s.threads[t].pc.CheckId? {
      TargetDecides(s, t);
      assert StepOf(s, t) == StepCheckId(s, t);
    } else {
      NextInPlace(s, t);
      assert StepOf(s, t) == StepReadNext(s, t);
    }
  }

  // ---------------------------------------------------------------- the list

  /** A lock that its owner may take again has been passed by the head: it lies before the head's place
      and on no later one. */
  lemma {:induction false} RecyclableOffPath(n: nat, sched: seq<(nat, Action)>, t: nat, l: nat)
    requires t < n && Recyclable(Exec(n, sched), t, l) && Exec(n, sched).threads[t].pc.Idle?
    ensures var s := Exec(n, sched); s.pos[l] < s.headPos && forall i | s.headPos <= i < |s.order| :: s.order[i] != l
  {
    var s := Exec(n, sched);
    RunInv(n, sched);
    assert CellOK(s, l);
    assert forall i | s.headPos <= i < |s.order| :: Current(s, i);
  }

  /** Place i holds the current use of its lock, which points to the next place once that is linked. */
  predicate OnPath(s: State, i: int)
    requires Sized(s) && 0 <= i < |s.order|
  {
    && s.order[i] < |s.cells| && s.pos[s.order[i]] == i && Stage(s, s.order[i]) >= 6
    && s.cells[s.order[i]].next == NextOf(s, i)
  }

  /** The list from head to tail: every place is on it, and so is every live lock. */
  predicate Listed(s: State)
    requires Sized(s)
  {
    && (s.head != NULL ==> s.headPos < |s.order| && s.head == s.order[s.headPos])
    && (s.order != [] ==> s.tail == s.order[|s.order| - 1])
    && (forall i {:trigger s.order[i]} | s.headPos <= i < |s.order| :: OnPath(s, i))
    && (forall l {:trigger Live(s, l)} | 0 <= l < |s.cells| && Live(s, l) ::
          s.headPos <= s.pos[l] < |s.order| && s.order[s.pos[l]] == l)
  }

  lemma {:induction false} PathFromHead(n: nat, sched: seq<(nat, Action)>)
    ensures Listed(Exec(n, sched))
  {
    var s := Exec(n, sched);
    RunInv(n, sched);
    forall i | s.headPos <= i < |s.order| ensures OnPath(s, i) { PathPlace(s, i); }
    forall l | 0 <= l < |s.cells| && Live(s, l)
      ensures s.headPos <= s.pos[l] < |s.order| && s.order[s.pos[l]] == l
    {
      LivePlace(s, l);
    }
  }

  /** Ids are unique and follow the order of the tail exchanges. */
  lemma {:induction false} IdsFollowExchanges(n: nat, sched: seq<(nat, Action)>, l: nat, m: nat)
    requires var s := Exec(n, sched);
             l < |s.cells| && m < |s.cells| && l != m && s.cells[l].id != MAX_ID && s.cells[m].id != MAX_ID
    ensures var s := Exec(n, sched);
            s.cells[l].id != s.cells[m].id && (s.cells[l].id < s.cells[m].id <==> s.pos[l] < s.pos[m])
  {
    var s := Exec(n, sched);
    RunInv(n, sched);
    assert CellOK(s, l) && CellOK(s, m);
  }

  /** The id_pass_flag is down when it is set; the walk, its restarts and the release find a head; the
      release ends its loop at the head; and no null pointer is followed. */
  lemma {:induction false} NoAssertFails(n: nat, sched: seq<(nat, Action)>, t: nat)
    requires t < n
    ensures !Exec(n, sched).threads[t].pc.AssertFailed?
  {
    RunInv(n, sched);
    assert ThreadOK(Exec(n, sched), t);
  }

  // ---------------------------------------------------------------- grants and signals

  /** Every live lock ahead of a granted lock is compatible with it: both have been asked for as shared. */
  lemma {:induction false} NoOvertaking(n: nat, sched: seq<(nat, Action)>, t: nat, l: nat)
    requires t < n && l in Exec(n, sched).threads[t].granted
    ensures var s := Exec(n, sched);
      && l < |s.cells| && Live(s, l)
      && forall m {:trigger Live(s, m)} | 0 <= m < |s.cells| && Live(s, m) && s.pos[m] < s.pos[l] ::
           && !s.cells[l].exclusive && !s.cells[m].exclusive
           && Asked(n, sched, l) == By(t, false) && Asked(n, sched, m) == By(s.cells[m].owner, false)
  {
    var s := Exec(n, sched);
    RunSound(n, sched);
    assert GrantOK(s, t) && ThreadOK(s, t);
    GrantedStage(s, t, l);
    assert Free(s, l);
    forall m | 0 <= m < |s.cells| && Live(s, m) && s.pos[m] < s.pos[l]
      ensures !s.cells[l].exclusive && !s.cells[m].exclusive
              && Asked(n, sched, l) == By(t, false) && Asked(n, sched, m) == By(s.cells[m].owner, false)
    {
      GrantedAsAsked(n, sched, t, l);
      ModeAsked(n, sched, m);
    }
  }

  /** Two locks that AcquireLock has returned, directly or after a signal, and that are not yet released
      are both shared, and were both asked for as shared by the threads that hold them. */
  lemma {:induction false} Exclusion(n: nat, sched: seq<(nat, Action)>, t: nat, u: nat, l: nat, m: nat)
    requires t < n && u < n && l != m
    requires l in Exec(n, sched).threads[t].granted && m in Exec(n, sched).threads[u].granted
    ensures var s := Exec(n, sched);
      l < |s.cells| && m < |s.cells| && !s.cells[l].exclusive && !s.cells[m].exclusive
    ensures Asked(n, sched, l) == By(t, false) && Asked(n, sched, m) == By(u, false)
  {
    var s := Exec(n, sched);
    RunInv(n, sched);
    GrantedAsAsked(n, sched, t, l);
    GrantedAsAsked(n, sched, u, m);
    NoOvertaking(n, sched, t, l);
    NoOvertaking(n, sched, u, m);
    LivePlace(s, l);
    LivePlace(s, m);
  }

  /** A signal flag on a lock in use tells the truth: nothing live ahead stands in its way. */
  lemma {:induction false} SignalsTrue(n: nat, sched: seq<(nat, Action)>, l: nat)
    requires var s := Exec(n, sched); l < |s.cells| && s.cells[l].signal && Stage(s, l) >= 6
    ensures Free(Exec(n, sched), l)
  {
    RunSound(n, sched);
    assert SignalOK(Exec(n, sched), l);
  }

  /** A lock that waits has been signalled, or has a live lock ahead of it, or some release has yet to look
      at the head for the last time, or to start. */
  lemma {:induction false} NoLostWakeup(n: nat, sched: seq<(nat, Action)>, t: nat)
    requires t < n && Exec(n, sched).threads[t].pc.Waiting?
    ensures var s := Exec(n, sched);
      && s.threads[t].lock < |s.cells|
      && var l := s.threads[t].lock;
         s.cells[l].signal || LiveAhead(s, l) || exists u {:trigger Helps(s, u, l)} :: 0 <= u < n && Helps(s, u, l)
  {
    RunAwake(n, sched);
    assert WaitOK(Exec(n, sched), t);
  }

  /** While no release is under way or due, the first live lock of the record does not wait: its thread's
      next step returns it. */
  lemma {:induction false} FirstGoesOn(n: nat, sched: seq<(nat, Action)>, t: nat)
    requires t < n && Exec(n, sched).threads[t].pc.Waiting? && NoRelease(Exec(n, sched))
    requires var s := Exec(n, sched); s.threads[t].lock < |s.cells| && !LiveAhead(s, s.threads[t].lock)
    ensures var s := Exec(n, sched); s.threads[t].lock in StepOf(s, t).threads[t].granted
  {
    var s := Exec(n, sched);
    NoLostWakeup(n, sched, t);
    NobodyHelps(s, s.threads[t].lock);
    assert StepOf(s, t) == StepWaiting(s, t);
  }

  // ---------------------------------------------------------------- the check

  /** Every collected lock that the check has gone over was obsolete or reused by then, or is compatible. */
  lemma {:induction false} EntriesCleared(n: nat, sched: seq<(nat, Action)>, t: nat, i: nat)
    requires t < n && InScan(Exec(n, sched).threads[t].pc)
    requires var x := Exec(n, sched).threads[t]; x.todo <= i < |x.vec|
    ensures var s := Exec(n, sched); var x := s.threads[t];
      x.lock < |s.cells| && x.vec[i] < |s.cells| && Cleared(s, x.lock, x.vec[i], s.pos[x.lock])
  {
    RunSound(n, sched);
    assert GrantOK(Exec(n, sched), t);
  }

  lemma {:induction false} LostOnce(s: State, u: nat, a: Action, l: nat, p: nat)
    requires Inv(s) && l < |s.cells| && p < s.numbered && Lost(s, l, p)
    ensures var s1 := Do(s, u, a); l < |s1.cells| && p < s1.numbered && Lost(s1, l, p)
  {
    if u < |s.threads| {
      DoInv(s, u, a);
      LostStays(s, Do(s, u, a), l, p);
    }
  }

  /** What a collector has lost is lost for good. */
  lemma {:induction false} LostForGood(n: nat, sched: seq<(nat, Action)>, more: seq<(nat, Action)>, l: nat, p: nat)
    requires var s := Exec(n, sched); l < |s.cells| && p < s.numbered && Lost(s, l, p)
    ensures var s1 := Exec(n, sched + more); l < |s1.cells| && p < s1.numbered && Lost(s1, l, p)
    decreases |more|
  {
    if more == [] {
      assert sched + more == sched;
    } else {
      var prev := more[..|more| - 1];
      var (u, a) := more[|more| - 1];
      LostForGood(n, sched, prev, l, p);
      assert (sched + more)[..|sched + more| - 1] == sched + prev;
      RunInv(n, sched + prev);
      LostOnce(Exec(n, sched + prev), u, a, l, p);
    }
  }

  /** Reading the state first and the id later is enough: an entry that was not obsolete and later shows
      an id not above the checker's was a live lock ahead of it when its state was read. */
  lemma {:induction false} StateThenId(n: nat, sched: seq<(nat, Action)>, more: seq<(nat, Action)>, t: nat, e: nat)
    requires var s, s1 := Exec(n, sched), Exec(n, sched + more);
      && t < n && InScan(s.threads[t].pc) && 0 < s.threads[t].todo <= |s.threads[t].vec|
      && e == s.threads[t].vec[s.threads[t].todo - 1] && e < |s.cells| && e < |s1.cells|
      && s.threads[t].lock < |s.cells| && !s.cells[e].obsolete && s1.cells[e].id <= s.pos[s.threads[t].lock]
    ensures var s := Exec(n, sched); var x := s.threads[t];
            Live(s, e) && s.pos[e] == x.start + x.todo - 1 < s.pos[x.lock]
  {
    var s, s1 := Exec(n, sched), Exec(n, sched + more);
    RunInv(n, sched);
    RunInv(n, sched + more);
    EntryLive(s, t);
    var p := s.pos[s.threads[t].lock];
    if Lost(s, e, p) {
      LostForGood(n, sched, more, e, p);
      LostShows(s1, e, p);
    }
  }
}
