/** The replay that serves as the serializability specification: sort the log lines of all threads by
    commit id, replay them from the all-100 table, and compare every logged value. */
module Replay {
  import opened Transactions
  import opened SystemInvariant

  function Flat(files: seq<seq<LogLine>>): (lines: seq<LogLine>)
  {
    if files == [] then [] else Flat(files[..|files| - 1]) + files[|files| - 1]
  }

  function Insert(e: LogLine, s: seq<LogLine>): (s1: seq<LogLine>)
  {
    if s == [] then [e] else if e.id <= s[0].id then [e] + s else [s[0]] + Insert(e, s[1..])
  }

  /** The library's sort, by commit id. */
  function SortById(s: seq<LogLine>): (s1: seq<LogLine>)
  {
    if s == [] then [] else Insert(s[0], SortById(s[1..]))
  }

  ghost predicate Ordered(s: seq<LogLine>)
  {
    forall a, b | 0 <= a < b < |s| :: s[a].id <= s[b].id
  }

  ghost predicate DistinctIds(s: seq<LogLine>)
  {
    forall a, b | 0 <= a < b < |s| :: s[a].id != s[b].id
  }

  lemma {:induction false} InsertContents(e: LogLine, s: seq<LogLine>)
    ensures |Insert(e, s)| == |s| + 1 && multiset(Insert(e, s)) == multiset{e} + multiset(s)
    ensures forall x :: x in Insert(e, s) <==> x == e || x in s
  {
    if s != [] && e.id > s[0].id {
      InsertContents(e, s[1..]);
      assert s == [s[0]] + s[1..];
    }
  }

  lemma {:induction false} InsertOrdered(e: LogLine, s: seq<LogLine>)
    requires Ordered(s)
    ensures Ordered(Insert(e, s))
  {
    if s != [] && e.id > s[0].id {
      InsertOrdered(e, s[1..]);
      InsertContents(e, s[1..]);
      var r := Insert(e, s[1..]);
      forall b | 0 <= b < |r| ensures s[0].id <= r[b].id { assert r[b] in r; }
    }
  }

  lemma {:induction false} InsertDistinct(e: LogLine, s: seq<LogLine>)
    requires DistinctIds(s) && forall x | x in s :: x.id != e.id
    ensures DistinctIds(Insert(e, s))
  {
    if s != [] && e.id > s[0].id {
      InsertDistinct(e, s[1..]);
      InsertContents(e, s[1..]);
      var r := Insert(e, s[1..]);
      forall b | 0 <= b < |r| ensures s[0].id != r[b].id { assert r[b] in r; }
    }
  }

  lemma {:induction false} SortCorrect(s: seq<LogLine>)
    ensures Ordered(SortById(s)) && multiset(SortById(s)) == multiset(s)
    ensures |SortById(s)| == |s| && forall x :: x in SortById(s) <==> x in s
    ensures DistinctIds(s) ==> DistinctIds(SortById(s))
  {
    if s != [] {
      SortCorrect(s[1..]);
      InsertOrdered(s[0], SortById(s[1..]));
      InsertContents(s[0], SortById(s[1..]));
      assert s == [s[0]] + s[1..];
      if DistinctIds(s) {
        assert DistinctIds(s[1..]);
        forall x | x in SortById(s[1..]) ensures x.id != s[0].id {
          var b :| 0 <= b < |s[1..]| && s[1..][b] == x;
          assert s[0].id != s[b + 1].id;
        }
        InsertDistinct(s[0], SortById(s[1..]));
      }
    }
  }

  function Txs(s: seq<LogLine>): (h: seq<Tx>)
    ensures |h| == |s| && forall x | 0 <= x < |s| :: h[x] == Tx(s[x].i, s[x].j, s[x].k)
  {
    if s == [] then [] else Txs(s[..|s| - 1]) + [Tx(s[|s| - 1].i, s[|s| - 1].j, s[|s| - 1].k)]
  }

  /** Line x agrees with the replay of the lines up to it. */
  ghost predicate Agrees(s: seq<LogLine>, x: nat)
    requires x < |s|
  {
    var h := Txs(s)[..x + 1];
    s[x].vi == At(h, s[x].i) && s[x].vj == At(h, s[x].j) && s[x].vk == At(h, s[x].k)
  }

  ghost predicate Consistent(s: seq<LogLine>)
  {
    forall x | 0 <= x < |s| :: Agrees(s, x)
  }

  predicate InTable(e: LogLine, n: nat)
  {
    1 <= e.i <= n && 1 <= e.j <= n && 1 <= e.k <= n
  }

  lemma {:induction false} FlatMember(files: seq<seq<LogLine>>, e: LogLine)
    ensures e in Flat(files) <==> exists t :: 0 <= t < |files| && e in files[t]
  {
    if files != [] {
      FlatMember(files[..|files| - 1], e);
      var last := |files| - 1;
      if t :| 0 <= t < |files| && e in files[t] {
        if t < last { assert e in files[..last][t]; }
      }
      if t :| 0 <= t < last && e in files[..last][t] { assert e in files[t]; }
    }
  }

  /** One replayed transaction on the table. */
  ghost predicate TableAt(table: seq<int>, h: seq<Tx>)
  {
    forall r | 1 <= r <= |table| :: table[r - 1] == At(h, r)
  }

  lemma {:induction false} ReplayOne(table: seq<int>, t1: seq<int>, t2: seq<int>, s: seq<LogLine>, x: nat)
    requires x < |s| && InTable(s[x], |table|) && TableAt(table, Txs(s)[..x])
    requires t1 == table[s[x].j - 1 := table[s[x].j - 1] + (table[s[x].i - 1] + 1)]
    requires t2 == t1[s[x].k - 1 := t1[s[x].k - 1] - t1[s[x].i - 1]]
    ensures TableAt(t2, Txs(s)[..x + 1])
  {
    var h := Txs(s);
    var tx := h[x];
    assert h[..x + 1][..x] == h[..x] && h[..x + 1][x] == tx;
    forall r | 1 <= r <= |table| ensures t1[r - 1] == AfterFirst(h[..x], tx, r) {
    }
    var h1 := h[..x + 1];
    forall r | 1 <= r <= |t2| ensures t2[r - 1] == At(h1, r) {
    }
  }

  /** The lines of all log files, file after file. */
  method ReadLogs(files: seq<seq<LogLine>>) returns (logs: seq<LogLine>)
    ensures logs == Flat(files)
  {
    logs := [];
    for tid := 0 to |files|
      invariant logs == Flat(files[..tid])
    {
      var file := files[tid];
      var line := 0;
      while line < |file|
        invariant 0 <= line <= |file| && logs == Flat(files[..tid]) + file[..line]
      {
        logs := logs + [file[line]];
        line := line + 1;
      }
      assert files[..tid + 1][..tid] == files[..tid];
    }
    assert files[..|files|] == files;
  }

  /** The comparison of one line with the table. */
  function Matches(table: seq<int>, ghost h: seq<Tx>, e: LogLine): (r: bool)
    requires TableAt(table, h) && InTable(e, |table|)
    ensures r <==> e.vi == At(h, e.i) && e.vj == At(h, e.j) && e.vk == At(h, e.k)
  {
    table[e.i - 1] == e.vi && table[e.j - 1] == e.vj && table[e.k - 1] == e.vk
  }

  /** Replay the sorted lines on the table, and stop at the first disagreement. */
  method Compare(table: array<int>, logs: seq<LogLine>) returns (ok: bool)
    requires TableAt(table[..], []) && forall e | e in logs :: InTable(e, table.Length)
    modifies table
    ensures ok <==> Consistent(logs)
    ensures ok ==> TableAt(table[..], Txs(logs))
  {
    ok := true;
    var x := 0;
    while x < |logs|
      invariant 0 <= x <= |logs|
      invariant TableAt(table[..], Txs(logs)[..x])
      invariant forall y | 0 <= y < x :: Agrees(logs, y)
    {
      var log := logs[x];
      assert log in logs;
      ghost var before := table[..];
      table[log.j - 1] := table[log.j - 1] + (table[log.i - 1] + 1);
      ghost var middle := table[..];
      table[log.k - 1] := table[log.k - 1] - table[log.i - 1];
      ReplayOne(before, middle, table[..], logs, x);
      ok := Matches(table[..], Txs(logs)[..x + 1], log);
      if !ok {
        assert !Agrees(logs, x);
        return;
      }
      x := x + 1;
    }
    assert Txs(logs)[..|logs|] == Txs(logs);
  }

  /** The correctness check of the program.  `sized` is its assert on the number of log lines. */
  method IsCorrect(recordCount: nat, files: seq<seq<LogLine>>, last: int) returns (sized: bool, ok: bool)
    requires forall e | e in Flat(files) :: InTable(e, recordCount)
    ensures sized <==> |Flat(files)| == last
    ensures sized ==> (ok <==> Consistent(SortById(Flat(files))))
  {
    var table := new int[recordCount];
    for i := 0 to recordCount
      invariant forall r | 0 <= r < i :: table[r] == 100
    {
      table[i] := 100;
    }
    var logs := ReadLogs(files);
    sized := |logs| == last;
    ok := true;
    if sized {
      SortCorrect(logs);
      ok := Compare(table, SortById(logs));
    }
  }
}
