/** The database as sequential steps over runs of events: what queries answer after any run. */
module DBModel {
  import opened Bytes
  import opened Core
  import opened Compactions
  import opened TableFormat
  import opened Wrappers
  import E = Events
  import R = CompactionRuns

  // ---- state ----

  /** Memtables and tables as the sorted runs they hold; a table is its sequence number and its events. The
      write-ahead log is the events written to it, in order. */
  datatype State = State(
    symbols: map<string, u32>, nextId: u32, nextSeq: u64, sstSeq: u64,
    active: seq<Event>, imms: seq<seq<Event>>, l0: seq<Input>, l1: seq<Input>, wal: seq<Event>)

  const FRESH: State := State(map[], 1, 1, 1, [], [], [], [], [])

  /** `rotate` says whether the insert filled the memtable. */
  datatype Op =
    | Append(symbol: string, body: Event, rotate: bool)
    | Remove(symbol: string, ts: u64, seqId: u64, rotate: bool)
    | FlushNow
    | CompactNow

  // ---- steps ----

  function Intern(s: State, name: string): State {
    if name in s.symbols then s
    else s.(symbols := s.symbols[name := s.nextId], nextId := (s.nextId + 1) % TWO_32)
  }

  /** The event goes to the log and into the memtable. */
  function Insert(s: State, e: Event, rotate: bool): State {
    var a, wal := E.Upsert(s.active, e), s.wal + [e];
    if rotate then s.(active := [], imms := s.imms + [a], wal := wal) else s.(active := a, wal := wal)
  }

  /** The event an append stores: the caller's fields under the symbol's id and the next sequence. */
  function Stamped(s: State, symbol: string, body: Event): Event {
    body.(sym := IdOf(s, symbol), seqId := s.nextSeq)
  }

  function IdOf(s: State, symbol: string): u32 {
    if symbol in s.symbols then s.symbols[symbol] else s.nextId
  }

  /** A tombstone carries the exact key of the event it deletes. */
  function TombstoneOf(s: State, symbol: string, ts: u64, seqId: u64): Event {
    Event(ts, IdOf(s, symbol), seqId, TOMBSTONE, 0, 0, 0, 0, 0, 0, 0)
  }

  lemma {:induction false} TombstoneFields(s: State, symbol: string, ts: u64, seqId: u64)
    ensures TombstoneOf(s, symbol, ts, seqId) == Event(ts, IdOf(s, symbol), seqId, 0xFF, 0, 0, 0, 0, 0, 0, 0)
  {
  }

  /** Runs become tables with consecutive sequences. */
  function Numbered(p: seq<seq<Event>>, from: u64): (t: seq<Input>)
    ensures |t| == |p| && forall i :: 0 <= i < |t| ==> t[i] == Input((from + i) % TWO_64, p[i])
  {
    seq(|p|, i requires 0 <= i < |p| => Input((from + i) % TWO_64, p[i]))
  }

  function Pending(s: State): seq<seq<Event>> {
    s.imms + if s.active != [] then [s.active] else []
  }

  function Flushed(s: State): State {
    s.(active := [], imms := [], l0 := s.l0 + Numbered(Pending(s), s.sstSeq),
       sstSeq := (s.sstSeq + |Pending(s)|) % TWO_64)
  }

  function InsertBySeq(l: seq<Input>, x: Input): seq<Input> {
    if l == [] || l[|l| - 1].sequence <= x.sequence then l + [x] else InsertBySeq(l[..|l| - 1], x) + [l[|l| - 1]]
  }

  function SortBySeq(l: seq<Input>): seq<Input> {
    if l == [] then [] else InsertBySeq(SortBySeq(l[..|l| - 1]), l[|l| - 1])
  }

  /** The tables a compaction of level 0 writes. */
  function NewTables(s: State, target: nat): seq<Input> {
    Numbered(R.Chunked(Merged(s.l0, 1), R.PerFile(target)), s.sstSeq)
  }

  /** When nothing comes out, only the sequence is spent. */
  function Compacted(s: State, target: nat): State {
    if s.l0 == [] then s
    else
      var t := s.(sstSeq := (s.sstSeq + 1) % TWO_64);
      if NewTables(s, target) == [] then t else t.(l0 := [], l1 := SortBySeq(s.l1 + NewTables(s, target)))
  }

  function Step(s: State, op: Op, target: nat): State {
    match op
    case Append(symbol, body, rotate) =>
      Insert(Intern(s, symbol), Stamped(s, symbol, body), rotate).(nextSeq := (s.nextSeq + 1) % TWO_64)
    case Remove(symbol, ts, seqId, rotate) => Insert(Intern(s, symbol), TombstoneOf(s, symbol, ts, seqId), rotate)
    case FlushNow => Flushed(s)
    case CompactNow => Compacted(s, target)
  }

  function Run(ops: seq<Op>, target: nat): State {
    if ops == [] then FRESH else Step(Run(ops[..|ops| - 1], target), ops[|ops| - 1], target)
  }

  /** No 64-bit table sequence wraps in the next step. */
  ghost predicate Room(s: State, target: nat) {
    s.sstSeq + |Pending(s)| + |NewTables(s, target)| + 1 < TWO_64
  }

  ghost predicate Unwrapped(ops: seq<Op>, target: nat) {
    forall n :: 0 <= n <= |ops| ==> Room(Run(ops[..n], target), target)
  }

  lemma {:induction false} UnwrappedFront(ops: seq<Op>, target: nat)
    requires Unwrapped(ops, target) && ops != []
    ensures Unwrapped(ops[..|ops| - 1], target)
    ensures Room(Run(ops[..|ops| - 1], target), target) && Room(Run(ops, target), target)
  {
    var n := |ops| - 1;
    assert forall m :: 0 <= m <= n ==> ops[..n][..m] == ops[..m];
    assert ops[..|ops|] == ops;
    hide Room;
    hide Run;
  }

  // ---- reopening ----

  /** One above the last record that was replayed. */
  function NextAfter(kept: seq<Event>): u64 {
    if kept == [] then 1 else (kept[|kept| - 1].seqId + 1) % TWO_64
  }

  /** What opening finds: the replayed log in a fresh memtable, the tables of each directory in whatever order they are
      met, sorted by sequence, and the table counter at its start. Symbols come back from their own file. */
  function Reopened(s: State, kept: seq<Event>, d0: seq<Input>, d1: seq<Input>): State {
    State(s.symbols, s.nextId, NextAfter(kept), 1, Overlay([], kept), [], SortBySeq(d0), SortBySeq(d1), kept)
  }

  /** The tables found are the tables listed, in any order. */
  ghost predicate Found(s: State, d0: seq<Input>, d1: seq<Input>) {
    multiset(d0) == multiset(s.l0) && multiset(d1) == multiset(s.l1)
  }

  // ---- queries ----

  datatype Request = Request(symbol: string, start: u64, end: u64, kind: Option<byte>, limit: u64)

  function Limit(req: Request): nat {
    if req.limit > 0 then req.limit else 1000
  }

  function Lo(sym: u32, req: Request): Key {
    Key(sym, req.start, 0)
  }

  function Hi(sym: u32, req: Request): Key {
    Key(sym, req.end, 0xFFFF_FFFF_FFFF_FFFF)
  }

  /** Neither a tombstone nor of another type than asked for. */
  predicate Wanted(e: Event, req: Request) {
    e.kind != TOMBSTONE && (req.kind.Some? ==> e.kind == req.kind.value)
  }

  predicate Matches(e: Event, sym: u32, req: Request) {
    e.sym == sym && req.start <= e.ts <= req.end && Wanted(e, req)
  }

  function Select(es: seq<Event>, sym: u32, req: Request): seq<Event> {
    if es == [] then []
    else (if Matches(es[0], sym, req) then [es[0]] else []) + Select(es[1..], sym, req)
  }

  function Runs(l: seq<Input>): (p: seq<seq<Event>>)
    ensures |p| == |l| && forall i :: 0 <= i < |p| ==> p[i] == l[i].events
  {
    seq(|l|, i requires 0 <= i < |l| => l[i].events)
  }

  /** In the order a query visits them. */
  function Sources(s: State): seq<seq<Event>> {
    [s.active] + s.imms + Runs(s.l0) + Runs(s.l1)
  }

  function Take(es: seq<Event>, n: nat): seq<Event> {
    if |es| <= n then es else es[..n]
  }

  /** Sources are concatenated as they are visited, without merging versions or sorting. */
  function Answer(s: State, req: Request): seq<Event> {
    if req.symbol !in s.symbols then []
    else Take(Select(Join(Sources(s)), s.symbols[req.symbol], req), Limit(req))
  }

  /** The scanned key range is the symbol and the inclusive time range. */
  lemma {:induction false} RangeIsSymbolAndTime(e: Event, sym: u32, req: Request)
    ensures E.Within(e, Lo(sym, req), Hi(sym, req)) && Wanted(e, req) <==> Matches(e, sym, req)
  {
  }

  lemma {:induction false} SelectConcat(a: seq<Event>, b: seq<Event>, sym: u32, req: Request)
    ensures Select(a + b, sym, req) == Select(a, sym, req) + Select(b, sym, req)
  {
    if a == [] {
      assert a + b == b;
    } else {
      hide *;
      SelectConcat(a[1..], b, sym, req);
      assert (a + b)[0] == a[0] && (a + b)[1..] == a[1..] + b;
      SelectFront(a, sym, req);
      SelectFront(a + b, sym, req);
    }
  }

  lemma {:induction false} SelectFront(es: seq<Event>, sym: u32, req: Request)
    requires es != []
    ensures Select(es, sym, req) == (if Matches(es[0], sym, req) then [es[0]] else []) + Select(es[1..], sym, req)
  {
    hide Matches;
  }

  lemma {:induction false} SelectCounts(es: seq<Event>, sym: u32, req: Request, e: Event)
    ensures multiset(Select(es, sym, req))[e] == if Matches(e, sym, req) then multiset(es)[e] else 0
  {
    if es != [] {
      SelectCounts(es[1..], sym, req, e);
      assert es == [es[0]] + es[1..];
    }
  }

  lemma {:induction false} SelectMember(es: seq<Event>, sym: u32, req: Request, e: Event)
    ensures e in Select(es, sym, req) <==> e in es && Matches(e, sym, req)
  {
    SelectCounts(es, sym, req, e);
    assert e in Select(es, sym, req) <==> e in multiset(Select(es, sym, req));
    assert e in es <==> e in multiset(es);
  }

  // ---- bags of events ----

  ghost function Bag(p: seq<seq<Event>>): multiset<Event> {
    multiset(Join(p))
  }

  lemma {:induction false} BagConcat(p: seq<seq<Event>>, q: seq<seq<Event>>)
    ensures Bag(p + q) == Bag(p) + Bag(q)
  {
    JoinConcat(p, q);
  }

  lemma {:induction false} BagOfOne(a: seq<Event>)
    ensures Join([a]) == a && Bag([a]) == multiset(a)
  {
    assert [a][..0] == [];
    assert Join([a]) == a;
  }

  lemma {:induction false} SourcesBag(s: State)
    ensures Bag(Sources(s)) == multiset(s.active) + Bag(s.imms) + Bag(Runs(s.l0)) + Bag(Runs(s.l1))
  {
    BagConcat([s.active] + s.imms + Runs(s.l0), Runs(s.l1));
    BagConcat([s.active] + s.imms, Runs(s.l0));
    BagConcat([s.active], s.imms);
    BagOfOne(s.active);
  }

  lemma {:induction false} RunsConcat(a: seq<Input>, b: seq<Input>)
    ensures Runs(a + b) == Runs(a) + Runs(b)
  {
  }

  lemma {:induction false} RunsNumbered(p: seq<seq<Event>>, from: u64)
    ensures Runs(Numbered(p, from)) == p
  {
  }

  lemma {:induction false} BagSnoc(l: seq<Input>, x: Input)
    ensures Bag(Runs(l + [x])) == Bag(Runs(l)) + multiset(x.events)
  {
    RunsConcat(l, [x]);
    BagConcat(Runs(l), Runs([x]));
    assert Runs([x]) == [x.events];
    BagOfOne(x.events);
  }

  lemma {:induction false} InsertBySeqBag(l: seq<Input>, x: Input)
    ensures Bag(Runs(InsertBySeq(l, x))) == Bag(Runs(l)) + multiset(x.events)
  {
    hide Bag;
    hide Runs;
    if l == [] || l[|l| - 1].sequence <= x.sequence {
      BagSnoc(l, x);
    } else {
      var m, y := l[..|l| - 1], l[|l| - 1];
      InsertBySeqBag(m, x);
      BagSnoc(InsertBySeq(m, x), y);
      BagSnoc(m, y);
      assert m + [y] == l;
    }
  }

  /** The sequences never descend. */
  ghost predicate InSequence(l: seq<Input>) {
    forall i, j :: 0 <= i < j < |l| ==> l[i].sequence <= l[j].sequence
  }

  lemma {:induction false} NoneAbove(m: seq<Input>, f: seq<Input>, x: Input, q: nat)
    requires multiset(m) == multiset(f) + multiset{x} && x.sequence <= q
             && forall i :: 0 <= i < |f| ==> f[i].sequence <= q
    ensures forall i :: 0 <= i < |m| ==> m[i].sequence <= q
  {
    forall i | 0 <= i < |m| ensures m[i].sequence <= q {
      assert m[i] in multiset(m);
      assert m[i] == x || m[i] in multiset(f);
    }
  }

  lemma {:induction false} InsertBySeqSorts(l: seq<Input>, x: Input)
    requires InSequence(l)
    ensures InSequence(InsertBySeq(l, x)) && multiset(InsertBySeq(l, x)) == multiset(l) + multiset{x}
  {
    if l != [] && l[|l| - 1].sequence > x.sequence {
      var f, y := l[..|l| - 1], l[|l| - 1];
      InsertBySeqSorts(f, x);
      assert l == f + [y];
      var g := InsertBySeq(f, x);
      assert InsertBySeq(l, x) == g + [y];
      hide InsertBySeq;
      NoneAbove(g, f, x, y.sequence);
    }
  }

  /** Sorting rearranges a level so that its sequences never descend. */
  lemma {:induction false} SortBySeqSorts(l: seq<Input>)
    ensures InSequence(SortBySeq(l)) && multiset(SortBySeq(l)) == multiset(l)
  {
    if l != [] {
      var f, x := l[..|l| - 1], l[|l| - 1];
      SortBySeqSorts(f);
      InsertBySeqSorts(SortBySeq(f), x);
      assert l == f + [x];
      hide InsertBySeq;
      hide InSequence;
    }
  }

  lemma {:induction false} SortBySeqBag(l: seq<Input>)
    ensures Bag(Runs(SortBySeq(l))) == Bag(Runs(l))
  {
    hide Bag;
    hide Runs;
    if l != [] {
      var m, x := l[..|l| - 1], l[|l| - 1];
      SortBySeqBag(m);
      InsertBySeqBag(SortBySeq(m), x);
      assert m + [x] == l;
      BagSnoc(m, x);
    }
  }

  lemma {:induction false} UpsertBag(es: seq<Event>, e: Event)
    requires forall d :: d in es ==> KeyOf(d) != KeyOf(e)
    ensures multiset(E.Upsert(es, e)) == multiset(es) + multiset{e}
  {
    HalvesBag(es, KeyOf(e));
  }

  lemma {:induction false} HalvesBag(es: seq<Event>, k: Key)
    requires forall d :: d in es ==> KeyOf(d) != k
    ensures multiset(E.Below(es, k)) + multiset(E.Above(es, k)) == multiset(es)
  {
    if es != [] {
      HalvesBag(es[1..], k);
      assert es == [es[0]] + es[1..];
      assert es[0] in es;
      LessTotal(KeyOf(es[0]), k);
    }
  }

  ghost predicate DistinctKeys(es: seq<Event>) {
    forall i, j :: 0 <= i < j < |es| ==> KeyOf(es[i]) != KeyOf(es[j])
  }

  lemma {:induction false} DistinctCounts(es: seq<Event>, e: Event)
    requires DistinctKeys(es)
    ensures multiset(es)[e] == if e in es then 1 else 0
  {
    if es != [] {
      DistinctCounts(es[1..], e);
      assert es == [es[0]] + es[1..];
      assert forall j :: 1 <= j < |es| ==> KeyOf(es[0]) != KeyOf(es[j]);
    }
  }

  lemma {:induction false} SortedDistinct(es: seq<Event>)
    requires E.Sorted(es)
    ensures DistinctKeys(es)
  {
    forall i, j | 0 <= i < j < |es| ensures KeyOf(es[i]) != KeyOf(es[j]) {
      LessTotal(KeyOf(es[i]), KeyOf(es[j]));
    }
  }

  /** A rearrangement of events with distinct keys has distinct keys. */
  lemma {:induction false} DistinctByBag(a: seq<Event>, b: seq<Event>)
    requires multiset(a) == multiset(b) && DistinctKeys(b)
    ensures DistinctKeys(a)
  {
    forall i, j | 0 <= i < j < |a| ensures KeyOf(a[i]) != KeyOf(a[j]) {
      assert a[i] in multiset(b) && a[j] in multiset(b);
      if a[i] == a[j] {
        assert a == a[..j] + a[j..];
        assert a[i] in a[..j] && a[j] in a[j..];
        DistinctCounts(b, a[i]);
      } else {
        var x :| 0 <= x < |b| && b[x] == a[i];
        var y :| 0 <= y < |b| && b[y] == a[j];
        assert x < y || y < x;
      }
    }
  }

  lemma {:induction false} InRunsInJoin(p: seq<seq<Event>>, e: Event)
    ensures e in Join(p) <==> exists i :: 0 <= i < |p| && e in p[i]
  {
    if p != [] {
      InRunsInJoin(p[..|p| - 1], e);
      if i :| 0 <= i < |p| && e in p[i] {
        assert i < |p| - 1 ==> p[..|p| - 1][i] == p[i];
      }
    }
  }

  lemma {:induction false} RunsApart(p: seq<seq<Event>>, i: nat, j: nat, e: Event, d: Event)
    requires DistinctKeys(Join(p)) && i < j < |p| && e in p[i] && d in p[j]
    ensures KeyOf(e) != KeyOf(d)
  {
    assert p == p[..j] + p[j..];
    JoinConcat(p[..j], p[j..]);
    assert p[..j][i] == p[i] && p[j..][0] == p[j];
    InRunsInJoin(p[..j], e);
    InRunsInJoin(p[j..], d);
    var a, b := Join(p[..j]), Join(p[j..]);
    var x :| 0 <= x < |a| && a[x] == e;
    var y :| 0 <= y < |b| && b[y] == d;
    assert (a + b)[x] == e && (a + b)[|a| + y] == d;
  }

  /** Merging tables that share no key loses nothing and duplicates nothing. */
  lemma {:induction false} MergeKeepsAll(l: seq<Input>)
    requires AllSorted(l) && DistinctKeys(Join(Runs(l)))
    ensures multiset(Versions(l)) == Bag(Runs(l))
  {
    forall e ensures e in Versions(l) <==> e in Join(Runs(l)) {
      NewestPerKey(l, e);
      InRunsInJoin(Runs(l), e);
      if i :| 0 <= i < |Runs(l)| && e in Runs(l)[i] {
        OnlyHolder(l, i, e);
      }
    }
    MergedSorted(l, 0);
    SortedDistinct(Versions(l));
    SameBag(Versions(l), Join(Runs(l)));
  }

  lemma {:induction false} OnlyHolder(l: seq<Input>, i: nat, e: Event)
    requires DistinctKeys(Join(Runs(l))) && i < |l| && e in l[i].events
    ensures Newest(l, e)
  {
    assert Holds(l[i], KeyOf(e));
    forall j | 0 <= j < |l| && Holds(l[j], KeyOf(e)) ensures j == i {
      var d :| d in l[j].events && KeyOf(d) == KeyOf(e);
      if j < i {
        RunsApart(Runs(l), j, i, d, e);
      } else if i < j {
        RunsApart(Runs(l), i, j, e, d);
      }
    }
    assert Wins(l, i, KeyOf(e));
  }

  lemma {:induction false} SameBag(a: seq<Event>, b: seq<Event>)
    requires DistinctKeys(a) && DistinctKeys(b) && forall e :: e in a <==> e in b
    ensures multiset(a) == multiset(b)
  {
    forall e ensures multiset(a)[e] == multiset(b)[e] {
      DistinctCounts(a, e);
      DistinctCounts(b, e);
    }
  }
}
