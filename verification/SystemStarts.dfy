/** What a transaction works on is what it was started with, in every run. */
module SystemStarts {
  import opened SystemInvariant
  import opened SystemSafety
  import opened Transactions

  /** The m-th event starts thread t's transaction tx. */
  ghost predicate StartsAt(records: nat, threads: nat, last: int, sched: seq<(nat, Action)>, m: nat, t: nat, tx: Tx)
    requires t < threads
  {
    && m < |sched| && sched[m] == (t, Start(tx))
    && Exec(records, threads, last, sched[..m]).trx[t].pc.Idle?
    && ValidTx(Exec(records, threads, last, sched[..m]), tx)
  }

  lemma {:induction false} StartsLonger(records: nat, threads: nat, last: int, sched: seq<(nat, Action)>,
      e: (nat, Action), m: nat, t: nat, tx: Tx)
    requires t < threads
    ensures StartsAt(records, threads, last, sched, m, t, tx) ==>
              StartsAt(records, threads, last, sched + [e], m, t, tx)
    ensures m < |sched| && StartsAt(records, threads, last, sched + [e], m, t, tx) ==>
              StartsAt(records, threads, last, sched, m, t, tx)
  {
    if m < |sched| { assert (sched + [e])[..m] == sched[..m]; }
  }

  /** Outside of the start of a transaction nothing changes its records. */
  lemma {:induction false} StepKeepsTx(s: System, u: nat, a: Action, t: nat)
    requires t < |s.trx| == |s.logs|
    ensures var s1 := Do(s, u, a);
      if u == t && a.Start? && s.trx[t].pc.Idle? && ValidTx(s, a.tx) then s1.trx[t].tx == a.tx && !s1.trx[t].pc.Idle?
      else s1.trx[t].tx == s.trx[t].tx && (s.trx[t].pc.Idle? ==> s1.trx[t].pc.Idle?)
  {
  }

  /** A transaction in progress works on the records of its thread's last start. */
  lemma {:induction false} WorksAsStarted(records: nat, threads: nat, last: int, sched: seq<(nat, Action)>, t: nat)
      returns (m: nat)
    requires t < threads && !Exec(records, threads, last, sched).trx[t].pc.Idle?
    ensures StartsAt(records, threads, last, sched, m, t, Exec(records, threads, last, sched).trx[t].tx)
    ensures forall n: nat, tx | n > m :: !StartsAt(records, threads, last, sched, n, t, tx)
  {
    if sched != [] {
      var p := sched[..|sched| - 1];
      var (u, a) := sched[|sched| - 1];
      var s := Exec(records, threads, last, p);
      assert sched == p + [(u, a)];
      StepKeepsTx(s, u, a, t);
      if u == t && a.Start? && s.trx[t].pc.Idle? && ValidTx(s, a.tx) {
        m := |p|;
      } else {
        m := WorksAsStarted(records, threads, last, p, t);
        StartsLonger(records, threads, last, p, (u, a), m, t, s.trx[t].tx);
        forall n: nat, tx | n > m ensures !StartsAt(records, threads, last, sched, n, t, tx) {
          StartsLonger(records, threads, last, p, (u, a), n, t, tx);
        }
      }
    }
  }

  /** Only a thread that publishes writes to the logs. */
  lemma {:induction false} LogsKept(s: System, u: nat, a: Action)
    requires |s.trx| == |s.logs| && !(u < |s.trx| && a.Step? && s.trx[u].pc.Publish?)
    ensures Do(s, u, a).logs == s.logs
  {
  }

  /** The line that a thread publishes. */
  lemma {:induction false} LinePublished(s: System, u: nat)
    requires u < |s.trx| == |s.logs| && TrxOK(s, u) && s.trx[u].pc.Publish?
    ensures var logs := StepPublish(s, u).logs;
      |logs| == |s.logs| && (forall t | 0 <= t < |logs| && t != u :: logs[t] == s.logs[t])
      && exists e: LogLine :: logs[u] == s.logs[u] + [e] && s.trx[u].tx == Tx(e.i, e.j, e.k)
  {
    var x := s.trx[u];
    assert Logging(s, u, 3, 3);
    var e := LogLine(x.commitId, x.records[0], x.records[1], x.records[2], x.values[0], x.values[1], x.values[2]);
    assert StepPublish(s, u).logs[u] == s.logs[u] + [e];
  }

  /** A step that adds a log line adds one for the transaction in progress. */
  lemma {:induction false} LineAdded(s: System, u: nat, a: Action, t: nat, y: nat)
    requires SysInv(s) && IsLine(Do(s, u, a).logs, t, y)
    ensures if IsLine(s.logs, t, y) then Do(s, u, a).logs[t][y] == s.logs[t][y]
            else var e := Do(s, u, a).logs[t][y];
              t < |s.trx| && !s.trx[t].pc.Idle? && s.trx[t].tx == Tx(e.i, e.j, e.k)
  {
    if u < |s.trx| && a.Step? && s.trx[u].pc.Publish? {
      assert TrxOK(s, u) && Do(s, u, a) == StepPublish(s, u);
      LinePublished(s, u);
      hide TrxOK, SysInv, StepPublish, Do;
      var e: LogLine :| StepPublish(s, u).logs[u] == s.logs[u] + [e] && s.trx[u].tx == Tx(e.i, e.j, e.k);
    } else {
      LogsKept(s, u, a);
    }
  }

  /** Every log line names the records of a transaction that its thread was asked to execute. */
  lemma {:induction false} LinesAsStarted(records: nat, threads: nat, last: int, sched: seq<(nat, Action)>, t: nat,
      y: nat) returns (m: nat)
    requires IsLine(Exec(records, threads, last, sched).logs, t, y)
    ensures t < threads
    ensures var e := Exec(records, threads, last, sched).logs[t][y];
      StartsAt(records, threads, last, sched, m, t, Tx(e.i, e.j, e.k))
  {
    if sched != [] {
      var p := sched[..|sched| - 1];
      var (u, a) := sched[|sched| - 1];
      var s := Exec(records, threads, last, p);
      var e := Exec(records, threads, last, sched).logs[t][y];
      assert sched == p + [(u, a)];
      RunInv(records, threads, last, p);
      LineAdded(s, u, a, t, y);
      if IsLine(s.logs, t, y) {
        m := LinesAsStarted(records, threads, last, p, t, y);
      } else {
        m := WorksAsStarted(records, threads, last, p, t);
      }
      StartsLonger(records, threads, last, p, (u, a), m, t, Tx(e.i, e.j, e.k));
    }
  }
}
