/** Names of compaction outputs: a compaction spends one sequence number but names a file after each of several. */
module DBNames {
  import opened Bytes
  import opened Core
  import opened Compactions
  import opened DBModel
  import opened TableFormat
  import D = DBDeletes
  import E = Events
  import R = CompactionRuns
  import AppendRuns = DBRuns

  /** The next compaction would write over a table that level 1 still lists. */
  ghost predicate Collides(s: State, target: nat) {
    exists i, j :: 0 <= i < |NewTables(s, target)| && 0 <= j < |s.l1|
                && NewTables(s, target)[i].sequence == s.l1[j].sequence
  }

  ghost predicate Listed(l: seq<Input>, q: nat) {
    exists j :: 0 <= j < |l| && l[j].sequence == q
  }

  /** From the next sequence up to any listed one, every sequence is listed. */
  ghost predicate Unbroken(s: State) {
    forall q, r: nat :: Listed(s.l1, q) && s.sstSeq <= r <= q ==> Listed(s.l1, r)
  }

  lemma {:induction false} ListedInsert(l: seq<Input>, x: Input, q: nat)
    ensures Listed(InsertBySeq(l, x), q) <==> Listed(l, q) || x.sequence == q
  {
    if l == [] || l[|l| - 1].sequence <= x.sequence {
      ListedSnoc(l, x, q);
    } else {
      var m, y := l[..|l| - 1], l[|l| - 1];
      ListedInsert(m, x, q);
      ListedSnoc(InsertBySeq(m, x), y, q);
      ListedSnoc(m, y, q);
      assert m + [y] == l;
    }
  }

  lemma {:induction false} ListedSnoc(l: seq<Input>, x: Input, q: nat)
    ensures Listed(l + [x], q) <==> Listed(l, q) || x.sequence == q
  {
    if Listed(l, q) {
      var j :| 0 <= j < |l| && l[j].sequence == q;
      assert (l + [x])[j] == l[j];
    }
    assert (l + [x])[|l|] == x;
  }

  lemma {:induction false} ListedSort(l: seq<Input>, q: nat)
    ensures Listed(SortBySeq(l), q) <==> Listed(l, q)
  {
    if l != [] {
      var m, x := l[..|l| - 1], l[|l| - 1];
      ListedSort(m, q);
      ListedInsert(SortBySeq(m), x, q);
      ListedSnoc(m, x, q);
      assert m + [x] == l;
    }
  }

  lemma {:induction false} ListedConcat(a: seq<Input>, b: seq<Input>, q: nat)
    ensures Listed(a + b, q) <==> Listed(a, q) || Listed(b, q)
  {
    if b == [] {
      assert a + b == a;
    } else {
      var m, x := b[..|b| - 1], b[|b| - 1];
      ListedConcat(a, m, q);
      ListedSnoc(a + m, x, q);
      ListedSnoc(m, x, q);
      assert a + b == a + m + [x] && m + [x] == b;
    }
  }

  /** A compaction adds the sequences from its own on. */
  lemma {:induction false} CompactLists(s: State, target: nat, q: nat)
    requires s.l0 != [] && Room(s, target)
    ensures Compacted(s, target).sstSeq == s.sstSeq + 1
    ensures Listed(Compacted(s, target).l1, q)
       <==> Listed(s.l1, q) || s.sstSeq <= q < s.sstSeq + |NewTables(s, target)|
  {
    hide *;
    var n := NewTables(s, target);
    NewSequences(s, target, q);
    RoomNext(s, target);
    CompactShape(s, target);
    ListedSort(s.l1 + n, q);
    ListedConcat(s.l1, n, q);
  }

  lemma {:induction false} RoomNext(s: State, target: nat)
    requires Room(s, target)
    ensures (s.sstSeq + 1) % TWO_64 == s.sstSeq + 1
  {
    hide NewTables;
    hide Pending;
  }

  lemma {:induction false} CompactExact(s: State, target: nat)
    requires s.l0 != [] && s.sstSeq + 1 < 0x1_0000_0000_0000_0000
    ensures var n := NewTables(s, target);
            Compacted(s, target) == State(s.symbols, s.nextId, s.nextSeq, s.sstSeq + 1, s.active, s.imms,
              if n == [] then s.l0 else [], if n == [] then s.l1 else SortBySeq(s.l1 + n), s.wal)
  {
    hide NewTables;
    hide SortBySeq;
    assert (s.sstSeq + 1) % TWO_64 == s.sstSeq + 1;
  }

  lemma {:induction false} CompactShape(s: State, target: nat)
    requires s.l0 != []
    ensures var t, n := Compacted(s, target), NewTables(s, target);
            && t.sstSeq == (s.sstSeq + 1) % TWO_64
            && t.l1 == (if n == [] then s.l1 else SortBySeq(s.l1 + n))
            && (n == [] || t.l0 == [])
  {
    hide NewTables;
    hide SortBySeq;
  }

  lemma {:induction false} NewSequences(s: State, target: nat, q: nat)
    requires Room(s, target)
    ensures forall i :: 0 <= i < |NewTables(s, target)| ==> NewTables(s, target)[i].sequence == s.sstSeq + i
    ensures Listed(NewTables(s, target), q) <==> s.sstSeq <= q < s.sstSeq + |NewTables(s, target)|
  {
    var n := NewTables(s, target);
    hide R.Chunked;
    hide Merged;
    assert forall i :: 0 <= i < |n| ==> n[i].sequence == s.sstSeq + i;
    if s.sstSeq <= q < s.sstSeq + |n| {
      assert n[q - s.sstSeq].sequence == q;
    }
  }

  lemma {:induction false} StepUnbroken(s: State, op: Op, target: nat)
    requires Unbroken(s) && Room(s, target)
    ensures Unbroken(Step(s, op, target))
  {
    if op.CompactNow? && s.l0 != [] {
      CompactUnbroken(s, target);
      hide Compacted;
    } else {
      OtherSteps(s, op, target);
      hide Step;
    }
  }

  lemma {:induction false} CompactUnbroken(s: State, target: nat)
    requires Unbroken(s) && Room(s, target) && s.l0 != []
    ensures Unbroken(Compacted(s, target))
  {
    var t := Compacted(s, target);
    CompactLists(s, target, 0);
    hide Compacted;
    hide Listed;
    forall q, r: nat | Listed(t.l1, q) && t.sstSeq <= r <= q ensures Listed(t.l1, r) {
      CompactLists(s, target, q);
      CompactLists(s, target, r);
    }
  }

  lemma {:induction false} RunUnbroken(ops: seq<Op>, target: nat)
    requires Unwrapped(ops, target)
    ensures Unbroken(Run(ops, target))
  {
    hide *;
    if ops == [] {
      FreshBehind(target);
    } else {
      var n := |ops| - 1;
      UnwrappedFront(ops, target);
      RunUnbroken(ops[..n], target);
      StepUnbroken(Run(ops[..n], target), ops[n], target);
      assert ops[..n] + [ops[n]] == ops;
      RunSnoc(ops[..n], ops[n], target);
    }
  }

  /** In any state, reopened or not, the next compaction overwrites a live table exactly when level 1 lists one of the
      sequences that the outputs will get. */
  lemma {:induction false} CollidesExactly(s: State, target: nat)
    requires Room(s, target)
    ensures Collides(s, target)
       <==> exists j: nat :: j < |s.l1| && s.sstSeq <= s.l1[j].sequence < s.sstSeq + |NewTables(s, target)|
  {
    var n := NewTables(s, target);
    NewSequences(s, target, 0);
    hide NewTables;
    if j: nat :| j < |s.l1| && s.sstSeq <= s.l1[j].sequence < s.sstSeq + |n| {
      assert n[s.l1[j].sequence - s.sstSeq].sequence == s.l1[j].sequence;
    }
  }

  /** In any state reached without reopening, that is the case exactly when something is written and level 1 lists a
      sequence that has not been handed out yet. */
  lemma {:induction false} CollidesIff(ops: seq<Op>, target: nat)
    requires Unwrapped(ops, target)
    ensures var s := Run(ops, target);
            Collides(s, target) <==>
              NewTables(s, target) != [] && exists j :: 0 <= j < |s.l1| && s.l1[j].sequence >= s.sstSeq
  {
    var s := Run(ops, target);
    RunUnbroken(ops, target);
    assert ops[..|ops|] == ops;
    assert Room(s, target);
    CollidesExactly(s, target);
    hide NewTables;
    hide Run;
    hide Collides;
    if NewTables(s, target) != [] {
      if j :| 0 <= j < |s.l1| && s.l1[j].sequence >= s.sstSeq {
        assert Listed(s.l1, s.l1[j].sequence);
        assert Listed(s.l1, s.sstSeq);
      }
    }
  }

  /** A compaction into three or more files, one more event and a flush: the next compaction collides. */
  lemma {:induction false} ThreeFilesCollide(s: State, target: nat, e: Event)
    requires Room(s, target) && |NewTables(s, target)| >= 3 && s.l0 != [] && s.active == [] && s.imms == []
    ensures Collides(Flushed(Insert(Compacted(s, target), e, false)), target)
  {
    hide *;
    var t := Compacted(s, target);
    RoomIs(s, target);
    CompactShape(s, target);
    AppendRuns.CompactKeeps(s, target);
    CompactLists(s, target, s.sstSeq + 2);
    OneMoreTable(t, e);
    FlushedTableComesOut(Flushed(Insert(t, e, false)), e, target);
    ListedCollides(Flushed(Insert(t, e, false)), target);
  }

  lemma {:induction false} RoomIs(s: State, target: nat)
    requires Room(s, target) && |NewTables(s, target)| >= 3
    ensures s.sstSeq + 3 < 0x1_0000_0000_0000_0000
  {
    hide NewTables;
    hide Pending;
  }

  lemma {:induction false} OneMoreTable(t: State, e: Event)
    requires t.imms == [] && t.l0 == [] && t.active == [] && t.sstSeq + 1 < 0x1_0000_0000_0000_0000
    ensures var u := Flushed(Insert(t, e, false));
            |u.l0| == 1 && u.l0[0].events == [e] && u.l1 == t.l1 && u.sstSeq == t.sstSeq + 1
  {
    D.OneUpsert(e);
    var v := Insert(t, e, false);
    assert v == t.(active := [e], wal := t.wal + [e]);
    hide Insert;
    assert Pending(v) == [[e]];
    assert |Numbered([[e]], t.sstSeq)| == 1 && Numbered([[e]], t.sstSeq)[0].events == [e];
    assert Flushed(v).l0 == [] + Numbered([[e]], t.sstSeq);
    assert (t.sstSeq + 1) % TWO_64 == t.sstSeq + 1;
  }

  lemma {:induction false} FlushedTableComesOut(u: State, e: Event, target: nat)
    requires |u.l0| == 1 && u.l0[0].events == [e]
    ensures NewTables(u, target) != [] && NewTables(u, target)[0].sequence == u.sstSeq % TWO_64
  {
    D.SomethingComesOut(u.l0);
    hide Merged;
    hide R.Chunked;
  }

  lemma {:induction false} ListedCollides(u: State, target: nat)
    requires Listed(u.l1, u.sstSeq) && NewTables(u, target) != []
             && NewTables(u, target)[0].sequence == u.sstSeq % TWO_64
    ensures Collides(u, target)
  {
    hide NewTables;
    var j :| 0 <= j < |u.l1| && u.l1[j].sequence == u.sstSeq;
  }

  // ---- a run that collides ----

  /** The same event appended n times, each under the next sequence id. */
  function Bulk(n: nat, body: Event): (ops: seq<Op>)
    ensures |ops| == n && forall i :: 0 <= i < n ==> ops[i] == Append("AAPL", body, false)
  {
    seq(n, _ => Append("AAPL", body, false))
  }

  lemma {:induction false} BulkRun(n: nat, body: Event, target: nat)
    ensures var s, log := Run(Bulk(n, body), target), AppendRuns.Log(Bulk(n, body), target);
            && s.imms == [] && s.l0 == [] && s.l1 == [] && s.sstSeq == 1 && |log| == n
            && forall k :: k in s.symbols ==> k == "AAPL"
  {
    if n > 0 {
      var ops := Bulk(n, body);
      BulkRun(n - 1, body, target);
      assert ops[..n - 1] == Bulk(n - 1, body);
      AppendRuns.LogStep(ops, target);
      BulkStep(Run(Bulk(n - 1, body), target), body, target);
      hide Step;
      hide Stamped;
      hide Bulk;
    }
  }

  lemma {:induction false} BulkStep(s: State, body: Event, target: nat)
    ensures var t := Step(s, Append("AAPL", body, false), target);
            && t.imms == s.imms && t.l0 == s.l0 && t.l1 == s.l1 && t.sstSeq == s.sstSeq
            && forall k :: k in t.symbols ==> k in s.symbols || k == "AAPL"
  {
    hide E.Upsert;
    hide Stamped;
  }

  lemma {:induction false} OneSymbol(m: map<string, u32>)
    requires forall k :: k in m ==> k == "AAPL"
    ensures |m| <= 1
  {
    assert m.Keys <= {"AAPL"};
    SubsetSize(m.Keys, {"AAPL"});
  }

  lemma {:induction false} SubsetSize(a: set<string>, b: set<string>)
    requires a <= b
    ensures |a| <= |b|
  {
    assert b == a + (b - a);
  }

  /** All appended events are in the active memtable, in key order. */
  lemma {:induction false} BulkActive(n: nat, body: Event, target: nat)
    requires n < TWO_32
    ensures var s := Run(Bulk(n, body), target); E.Sorted(s.active) && |s.active| == n
  {
    var ops := Bulk(n, body);
    var s, log := Run(ops, target), AppendRuns.Log(ops, target);
    BulkRun(n, body, target);
    OneSymbol(s.symbols);
    AppendRuns.RunInv(ops, target);
    hide Run;
    hide AppendRuns.Log;
    assert Bag(Sources(s)) == multiset(AppendRuns.Logged(log));
    assert Sources(s) == [s.active];
    BagOfOne(s.active);
    assert |multiset(s.active)| == |multiset(AppendRuns.Logged(log))|;
  }

  lemma {:induction false} JoinBounds(c: seq<seq<Event>>, k: nat)
    requires forall i :: 0 <= i < |c| ==> 1 <= |c[i]| <= k
    ensures |c| <= |Join(c)| <= k * |c|
  {
    if c != [] {
      JoinBounds(c[..|c| - 1], k);
      assert k * |c| == k * (|c| - 1) + k;
    }
  }

  lemma {:induction false} VersionsOfOne(l: seq<Input>, es: seq<Event>)
    requires l == [Input(1, es)] && E.Sorted(es)
    ensures |Versions(l)| == |es| && Merged(l, 1) == Versions(l)
  {
    assert Runs(l) == [es];
    BagOfOne(es);
    SortedDistinct(es);
    MergeKeepsAll(l);
    assert |multiset(Versions(l))| == |multiset(es)|;
    hide Versions;
  }

  /** How many files a compaction of one table of n events writes. */
  lemma {:induction false} FileCount(s: State, target: nat, es: seq<Event>)
    requires s.l0 == [Input(1, es)] && E.Sorted(es)
    ensures |es| <= R.PerFile(target) * |NewTables(s, target)| && |NewTables(s, target)| <= |es|
  {
    var all, k := Merged(s.l0, 1), R.PerFile(target);
    var c := R.Chunked(all, k);
    assert |NewTables(s, target)| == |c|;
    VersionsOfOne(s.l0, es);
    R.ChunkSizes(all, k);
    hide *;
    ChunkBounds(c, k);
    JoinBounds(c, k);
  }

  lemma {:induction false} ChunkBounds(c: seq<seq<Event>>, k: nat)
    requires R.Sized(c, k) && k > 0
    ensures forall i :: 0 <= i < |c| ==> 1 <= |c[i]| <= k
  {
    forall i | 0 <= i < |c| ensures 1 <= |c[i]| <= k {
      assert i < |c| - 1 || c[i] == c[|c| - 1];
    }
  }

  /** The state after the appends and a flush. */
  lemma {:induction false} BulkFlushed(n: nat, body: Event, target: nat)
    requires 0 < n < TWO_32
    ensures var u := Run(Bulk(n, body) + [FlushNow], target);
            && u.active == [] && u.imms == [] && u.l1 == [] && u.sstSeq == 2
            && |u.l0| == 1 && u.l0[0].sequence == 1 && E.Sorted(u.l0[0].events) && |u.l0[0].events| == n
  {
    var ops := Bulk(n, body);
    var s := Run(ops, target);
    BulkRun(n, body, target);
    BulkActive(n, body, target);
    assert (ops + [FlushNow])[..n] == ops;
    hide *;
    RunSnoc(ops, FlushNow, target);
    D.FlushOne(s, s.active);
  }

  /** Appending more events than fit two output files and flushing them gives a state whose compaction writes at least
      three. */
  lemma {:induction false} ThreeFilesReachable(n: nat, body: Event, target: nat)
    requires 2 * R.PerFile(target) < n < TWO_32
    ensures var s := Run(Bulk(n, body) + [FlushNow], target);
            |NewTables(s, target)| >= 3 && Room(s, target) && s.l0 != [] && s.active == [] && s.imms == []
  {
    var s := Run(Bulk(n, body) + [FlushNow], target);
    BulkFlushed(n, body, target);
    hide Run;
    hide Bulk;
    var es := s.l0[0].events;
    assert s.l0 == [Input(1, es)];
    FileCount(s, target, es);
    hide NewTables;
    if |NewTables(s, target)| <= 2 {
      Product(R.PerFile(target), |NewTables(s, target)|);
    }
    assert Pending(s) == [];
  }

  lemma {:induction false} Product(k: nat, m: nat)
    requires m <= 2
    ensures k * m <= 2 * k
  {
  }

  /** A run of appends, flush, compaction, append and flush after which the next compaction collides. */
  lemma {:induction false} CollisionReachable(n: nat, body: Event, target: nat)
    requires 2 * R.PerFile(target) < n < TWO_32
    ensures var ops := Bulk(n, body) + [FlushNow] + [CompactNow] + [Append("AAPL", body, false)] + [FlushNow];
            Collides(Run(ops, target), target)
  {
    var one := Bulk(n, body) + [FlushNow];
    var s, add := Run(one, target), Append("AAPL", body, false);
    ThreeFilesReachable(n, body, target);
    hide Bulk;
    RunSnoc(one, CompactNow, target);
    RunSnoc(one + [CompactNow], add, target);
    RunSnoc(one + [CompactNow] + [add], FlushNow, target);
    hide Run;
    var t := Compacted(s, target);
    var i, e := Intern(t, "AAPL"), Stamped(t, "AAPL", body);
    ThreeFilesCollide(s, target, e);
    StepsAre(t, body, target);
    CollidesSame(Flushed(Insert(t, e, false)), Flushed(Step(t, add, target)), target);
  }

  lemma {:induction false} RunSnoc(ops: seq<Op>, op: Op, target: nat)
    ensures Run(ops + [op], target) == Step(Run(ops, target), op, target)
    ensures op == CompactNow ==> Run(ops + [op], target) == Compacted(Run(ops, target), target)
    ensures op == FlushNow ==> Run(ops + [op], target) == Flushed(Run(ops, target))
  {
    assert (ops + [op])[..|ops|] == ops;
    hide Compacted;
    hide Flushed;
    hide Insert;
  }

  lemma {:induction false} StepsAre(t: State, body: Event, target: nat)
    ensures var u := Flushed(Insert(t, Stamped(t, "AAPL", body), false));
            var v := Flushed(Step(t, Append("AAPL", body, false), target));
            u.l0 == v.l0 && u.l1 == v.l1 && u.sstSeq == v.sstSeq
  {
    hide E.Upsert;
    hide Stamped;
  }

  lemma {:induction false} CollidesSame(s: State, t: State, target: nat)
    requires Collides(s, target) && t.l0 == s.l0 && t.l1 == s.l1 && t.sstSeq == s.sstSeq
    ensures Collides(t, target)
  {
    assert NewTables(t, target) == NewTables(s, target);
    hide NewTables;
  }

  /** In an append-only run the events of a table that is about to be overwritten are nowhere else. */
  lemma {:induction false} OverwrittenAreLost(ops: seq<Op>, target: nat, j: nat, e: Event)
    requires AppendRuns.AppendOnly(ops) && AppendRuns.InWidth(Run(ops, target), AppendRuns.Log(ops, target))
    requires j < |Run(ops, target).l1| && e in Run(ops, target).l1[j].events
    ensures var s := Run(ops, target);
            && (forall i :: 0 <= i < |Sources(s)| && e in Sources(s)[i] ==> i == |Sources(s)| - |s.l1| + j)
            && forall i :: 0 <= i < |NewTables(s, target)| ==> e !in NewTables(s, target)[i].events
  {
    hide *;
    AppendRuns.RunInv(ops, target);
    SourcesApart(Run(ops, target), AppendRuns.Log(ops, target));
    OnlyHere(Run(ops, target), j, e);
    NotInNew(Run(ops, target), target, j, e);
  }

  lemma {:induction false} SourcesApart(s: State, log: seq<AppendRuns.Named>)
    requires AppendRuns.Inv(s, log)
    ensures DistinctKeys(Join(Sources(s))) && AllSorted(s.l0)
  {
    AppendRuns.LogDistinct(s, log);
    DistinctByBag(Join(Sources(s)), AppendRuns.Logged(log));
    hide Sources;
    hide Join;
  }

  lemma {:induction false} NotInNew(s: State, target: nat, j: nat, e: Event)
    requires j < |s.l1| && AllSorted(s.l0)
    requires forall i :: 0 <= i < |Sources(s)| && e in Sources(s)[i] ==> i == |Sources(s)| - |s.l1| + j
    ensures forall i :: 0 <= i < |NewTables(s, target)| ==> e !in NewTables(s, target)[i].events
  {
    forall m | 0 <= m < |s.l0| ensures e !in s.l0[m].events {
      assert Sources(s)[1 + |s.imms| + m] == s.l0[m].events;
    }
    hide NewTables;
    hide Sources;
    forall i | 0 <= i < |NewTables(s, target)| ensures e !in NewTables(s, target)[i].events {
      NewFromLevel0(s, target, i, e);
    }
  }

  lemma {:induction false} OnlyHere(s: State, j: nat, e: Event)
    requires DistinctKeys(Join(Sources(s))) && j < |s.l1| && e in s.l1[j].events
    ensures forall i :: 0 <= i < |Sources(s)| && e in Sources(s)[i] ==> i == |Sources(s)| - |s.l1| + j
  {
    var p := Sources(s);
    var k := |p| - |s.l1| + j;
    assert p[k] == s.l1[j].events;
    forall i | 0 <= i < |p| && e in p[i] ensures i == k {
      if i < k {
        RunsApart(p, i, k, e, e);
      } else if k < i {
        RunsApart(p, k, i, e, e);
      }
    }
  }

  lemma {:induction false} NewFromLevel0(s: State, target: nat, i: nat, e: Event)
    requires AllSorted(s.l0) && i < |NewTables(s, target)|
    ensures e in NewTables(s, target)[i].events ==> exists m :: 0 <= m < |s.l0| && e in s.l0[m].events
  {
    var c := R.Chunked(Merged(s.l0, 1), R.PerFile(target));
    R.ChunkSizes(Merged(s.l0, 1), R.PerFile(target));
    MergedMembers(s.l0, 1, e);
    hide R.Chunked;
    hide Merged;
    if e in c[i] {
      R.InJoin(c, i, e);
    }
  }

  /** Every compaction so far wrote at most two files. */
  ghost predicate SmallCompactions(ops: seq<Op>, target: nat) {
    forall n :: 0 <= n < |ops| && ops[n].CompactNow? ==> |NewTables(Run(ops[..n], target), target)| <= 2
  }

  ghost predicate Behind(s: State) {
    forall q: nat :: Listed(s.l1, q) ==> q <= s.sstSeq && (s.l0 != [] ==> q < s.sstSeq)
  }

  lemma {:induction false} StepBehind(s: State, op: Op, target: nat)
    requires Behind(s) && Room(s, target) && (op.CompactNow? ==> |NewTables(s, target)| <= 2)
    ensures Behind(Step(s, op, target))
  {
    if op.CompactNow? && s.l0 != [] {
      CompactBehind(s, target);
      hide Compacted;
    } else {
      OtherSteps(s, op, target);
      hide Step;
    }
  }

  lemma {:induction false} CompactBehind(s: State, target: nat)
    requires Behind(s) && Room(s, target) && |NewTables(s, target)| <= 2 && s.l0 != []
    ensures Behind(Compacted(s, target))
  {
    var t := Compacted(s, target);
    CompactLists(s, target, 0);
    CompactShape(s, target);
    hide Compacted;
    hide Listed;
    forall q: nat | Listed(t.l1, q) ensures q <= t.sstSeq && (t.l0 != [] ==> q < t.sstSeq) {
      CompactLists(s, target, q);
    }
  }

  /** Steps that leave level 1 alone, and what they do to the table counter. */
  lemma {:induction false} OtherSteps(s: State, op: Op, target: nat)
    requires Room(s, target) && !(op.CompactNow? && s.l0 != [])
    ensures var t := Step(s, op, target);
            t.l1 == s.l1 && s.sstSeq <= t.sstSeq && (t.sstSeq == s.sstSeq ==> t.l0 == s.l0)
  {
    hide NewTables;
    hide E.Upsert;
    hide Pending;
    hide SortBySeq;
    if op.FlushNow? {
      FlushCounts(s);
    }
  }

  lemma {:induction false} FlushCounts(s: State)
    requires s.sstSeq + |Pending(s)| < TWO_64
    ensures var t := Flushed(s);
            t.l1 == s.l1 && t.sstSeq == s.sstSeq + |Pending(s)| && (Pending(s) == [] ==> t.l0 == s.l0)
  {
    hide Pending;
    if Pending(s) == [] {
      assert s.l0 + Numbered([], s.sstSeq) == s.l0;
    }
  }

  lemma {:induction false} SmallFront(ops: seq<Op>, target: nat)
    requires SmallCompactions(ops, target) && ops != []
    ensures SmallCompactions(ops[..|ops| - 1], target)
    ensures var n := |ops| - 1; ops[n].CompactNow? ==> |NewTables(Run(ops[..n], target), target)| <= 2
  {
    var n := |ops| - 1;
    assert forall m :: 0 <= m < n ==> ops[..n][..m] == ops[..m];
    assert forall m :: 0 <= m < n ==> ops[..n][m] == ops[m];
    hide NewTables;
    hide Run;
  }

  lemma {:induction false} RunBehind(ops: seq<Op>, target: nat)
    requires Unwrapped(ops, target) && SmallCompactions(ops, target)
    ensures Behind(Run(ops, target))
  {
    hide *;
    if ops == [] {
      FreshBehind(target);
    } else {
      var n := |ops| - 1;
      UnwrappedFront(ops, target);
      SmallFront(ops, target);
      RunBehind(ops[..n], target);
      StepBehind(Run(ops[..n], target), ops[n], target);
      assert ops[..n] + [ops[n]] == ops;
      RunSnoc(ops[..n], ops[n], target);
    }
  }

  lemma {:induction false} FreshBehind(target: nat)
    ensures Behind(Run([], target)) && Unbroken(Run([], target))
  {
  }

  /** Without reopening, while no compaction writes more than two files, no output takes a listed name. */
  lemma {:induction false} SmallNeverCollide(ops: seq<Op>, target: nat)
    requires Unwrapped(ops, target) && SmallCompactions(ops, target)
    ensures !Collides(Run(ops, target), target)
  {
    var s := Run(ops, target);
    RunBehind(ops, target);
    CollidesIff(ops, target);
    hide Run;
    hide Collides;
    if s.l0 == [] {
      NothingNew(s, target);
    } else {
      forall j | 0 <= j < |s.l1| ensures s.l1[j].sequence < s.sstSeq {
        assert Listed(s.l1, s.l1[j].sequence);
      }
    }
  }

  lemma {:induction false} NothingNew(s: State, target: nat)
    requires s.l0 == []
    ensures NewTables(s, target) == []
  {
    hide R.PerFile;
  }

  // ---- runs without collisions ----

  /** The step stays within 64-bit sequences and 32-bit counts, and a compaction finds its names free. */
  ghost predicate Sound(s: State, op: Op, target: nat) {
    && Room(s, target) && (forall m :: m in Pending(s) ==> |m| < TWO_32)
    && (op.CompactNow? ==> !Collides(s, target))
  }

  ghost predicate SoundRun(ops: seq<Op>, target: nat) {
    forall n :: 0 <= n < |ops| ==> Sound(Run(ops[..n], target), ops[n], target)
  }
}
