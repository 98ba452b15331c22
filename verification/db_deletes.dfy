/** Removing events: when a tombstone hides its event, and when compaction output names repeat. */
module DBDeletes {
  import opened Bytes
  import opened Core
  import opened Compactions
  import opened DBModel
  import opened DBRuns
  import opened TableFormat
  import opened Wrappers
  import E = Events
  import R = CompactionRuns

  // ---- the last write of each key ----

  /** Everything inserted, in order: appended events and tombstones. */
  function Writes(ops: seq<Op>, target: nat): seq<Event> {
    if ops == [] then []
    else
      var n := |ops| - 1;
      Writes(ops[..n], target) +
      match ops[n]
      case Append(symbol, body, _) => [Stamped(Run(ops[..n], target), symbol, body)]
      case Remove(symbol, ts, seqId, _) => [TombstoneOf(Run(ops[..n], target), symbol, ts, seqId)]
      case _ => []
  }

  function LastWrite(w: seq<Event>, k: Key): Option<Event> {
    if w == [] then None
    else if KeyOf(w[|w| - 1]) == k then Some(w[|w| - 1])
    else LastWrite(w[..|w| - 1], k)
  }

  /** Applying writes as upserts keeps exactly the last write of every key. */
  lemma {:induction false} OverlayIsLast(w: seq<Event>, e: Event)
    ensures e in Overlay([], w) <==> LastWrite(w, KeyOf(e)) == Some(e)
  {
    if w != [] {
      OverlayIsLast(w[..|w| - 1], e);
      E.UpsertMember(Overlay([], w[..|w| - 1]), w[|w| - 1], e);
    }
  }

  // ---- stacking runs ----

  /** Oldest run first, each upserted over the ones before. */
  function Stack(p: seq<seq<Event>>): seq<Event> {
    if p == [] then [] else Overlay(Stack(p[..|p| - 1]), p[|p| - 1])
  }

  lemma {:induction false} ReplayIsStack(l: seq<Input>)
    ensures Replay(l) == Stack(Runs(l))
  {
    if l != [] {
      ReplayIsStack(l[..|l| - 1]);
      assert Runs(l)[..|l| - 1] == Runs(l[..|l| - 1]);
    }
  }

  /** An upsert into the top layer is an upsert into the stack. */
  lemma {:induction false} OverlayUpsert(base: seq<Event>, a: seq<Event>, e: Event)
    requires E.Sorted(base) && E.Sorted(a)
    ensures Overlay(base, E.Upsert(a, e)) == E.Upsert(Overlay(base, a), e)
  {
    var x, y := Overlay(base, E.Upsert(a, e)), E.Upsert(Overlay(base, a), e);
    E.UpsertSorted(a, e);
    OverlaySorted(base, E.Upsert(a, e));
    OverlaySorted(base, a);
    E.UpsertSorted(Overlay(base, a), e);
    forall d ensures d in x <==> d in y {
      UpsertEitherWay(base, a, e, d);
    }
    hide *;
    SortedUnique(x, y);
  }

  lemma {:induction false} UpsertEitherWay(base: seq<Event>, a: seq<Event>, e: Event, d: Event)
    requires E.Sorted(base) && E.Sorted(a)
    ensures d in Overlay(base, E.Upsert(a, e)) <==> d in E.Upsert(Overlay(base, a), e)
  {
    E.UpsertSorted(a, e);
    OverlayMember(base, E.Upsert(a, e), d);
    OverlayMember(base, a, d);
    E.UpsertMember(Overlay(base, a), e, d);
    forall x ensures x in E.Upsert(a, e) <==> x == e || (x in a && KeyOf(x) != KeyOf(e)) {
      E.UpsertMember(a, e, x);
    }
    hide Overlay;
    hide E.Upsert;
    hide E.Sorted;
  }

  /** Overlaying an overlay is overlaying twice. */
  lemma {:induction false} OverlayTwice(base: seq<Event>, a: seq<Event>, b: seq<Event>)
    requires E.Sorted(base) && E.Sorted(a)
    ensures Overlay(base, Overlay(a, b)) == Overlay(Overlay(base, a), b)
  {
    if b != [] {
      var n := |b| - 1;
      OverlayTwice(base, a, b[..n]);
      OverlaySorted(a, b[..n]);
      OverlayUpsert(base, Overlay(a, b[..n]), b[n]);
    }
  }

  lemma {:induction false} OverlayConcat(base: seq<Event>, a: seq<Event>, b: seq<Event>)
    ensures Overlay(base, a + b) == Overlay(Overlay(base, a), b)
  {
    hide E.Upsert;
    if b == [] {
      assert a + b == a;
    } else {
      OverlayConcat(base, a, b[..|b| - 1]);
      assert (a + b)[..|a + b| - 1] == a + b[..|b| - 1];
    }
  }

  lemma {:induction false} NothingSorted()
    ensures E.Sorted([]) && forall base :: Overlay(base, []) == base
  {
  }

  /** Writes in two stretches, each overlaid on its own. */
  lemma {:induction false} TwoStretches(a: seq<Event>, b: seq<Event>)
    ensures Overlay([], a + b) == Overlay(Overlay([], a), Overlay([], b))
  {
    hide *;
    NothingSorted();
    OverlaySorted([], a);
    OverlayConcat([], a, b);
    OverlayTwice(Overlay([], a), [], b);
  }

  // ---- layers of writes ----

  /** The writes by how far they have come: one stretch for each compaction, level-0 table and immutable memtable, and
      those of the active memtable. */
  datatype Layers = Layers(settled: seq<seq<Event>>, tables: seq<seq<Event>>, closed: seq<seq<Event>>, open: seq<Event>)

  function Wrote(h: Layers, e: Event, rotate: bool): Layers {
    if rotate then h.(closed := h.closed + [h.open + [e]], open := []) else h.(open := h.open + [e])
  }

  function Unflushed(h: Layers): seq<seq<Event>> {
    h.closed + if h.open != [] then [h.open] else []
  }

  function NextLayers(h: Layers, op: Op, s: State): Layers {
    match op
    case Append(symbol, body, rotate) => Wrote(h, Stamped(s, symbol, body), rotate)
    case Remove(symbol, ts, seqId, rotate) => Wrote(h, TombstoneOf(s, symbol, ts, seqId), rotate)
    case FlushNow => Layers(h.settled, h.tables + Unflushed(h), [], [])
    case CompactNow => if h.tables == [] then h else Layers(h.settled + [Join(h.tables)], [], h.closed, h.open)
  }

  function LayersOf(ops: seq<Op>, target: nat): Layers {
    if ops == [] then Layers([], [], [], [])
    else NextLayers(LayersOf(ops[..|ops| - 1], target), ops[|ops| - 1], Run(ops[..|ops| - 1], target))
  }

  /** All the writes of the layers, oldest first. */
  function Flat(h: Layers): seq<Event> {
    Join(h.settled) + Join(h.tables) + Join(h.closed) + h.open
  }

  /** The layers are all the writes, in order. */
  lemma {:induction false} LayersPartition(ops: seq<Op>, target: nat)
    ensures Flat(LayersOf(ops, target)) == Writes(ops, target)
  {
    if ops != [] {
      var n := |ops| - 1;
      var h := LayersOf(ops[..n], target);
      LayersPartition(ops[..n], target);
      NextPartition(h, ops[n], Run(ops[..n], target));
      hide NextLayers;
      hide Flat;
      hide Run;
      hide Stamped;
      hide TombstoneOf;
    }
  }

  /** A step adds what it writes to the layers and loses nothing. */
  lemma {:induction false} NextPartition(h: Layers, op: Op, s: State)
    ensures Flat(NextLayers(h, op, s)) == Flat(h)
              + match op
                case Append(symbol, body, _) => [Stamped(s, symbol, body)]
                case Remove(symbol, ts, seqId, _) => [TombstoneOf(s, symbol, ts, seqId)]
                case _ => []
  {
    hide Flat;
    hide Wrote;
    hide Join;
    hide Unflushed;
    hide Stamped;
    hide TombstoneOf;
    match op
    case Append(symbol, body, rotate) => WrotePartition(h, Stamped(s, symbol, body), rotate);
    case Remove(symbol, ts, seqId, rotate) => WrotePartition(h, TombstoneOf(s, symbol, ts, seqId), rotate);
    case FlushNow => FlushPartition(h);
    case CompactNow => CompactPartition(h);
  }

  lemma {:induction false} FlushPartition(h: Layers)
    ensures Flat(Layers(h.settled, h.tables + Unflushed(h), [], [])) == Flat(h)
  {
    JoinConcat(h.tables, Unflushed(h));
    UnflushedJoin(h);
    hide Join;
    hide Unflushed;
  }

  lemma {:induction false} CompactPartition(h: Layers)
    ensures Flat(Layers(h.settled + [Join(h.tables)], [], h.closed, h.open)) == Flat(h)
  {
    JoinConcat(h.settled, [Join(h.tables)]);
    BagOfOne(Join(h.tables));
    assert Join([]) == [];
    hide Join;
  }

  lemma {:induction false} WrotePartition(h: Layers, e: Event, rotate: bool)
    ensures Flat(Wrote(h, e, rotate)) == Flat(h) + [e]
  {
    JoinConcat(h.closed, [h.open + [e]]);
    BagOfOne(h.open + [e]);
    hide Join;
  }

  lemma {:induction false} UnflushedJoin(h: Layers)
    ensures Join(Unflushed(h)) == Join(h.closed) + h.open && Join([]) == []
  {
    if h.open != [] {
      JoinConcat(h.closed, [h.open]);
      BagOfOne(h.open);
    } else {
      assert h.closed + [] == h.closed;
    }
  }

  // ---- what every run keeps ----

  ghost predicate InTables(l: seq<Input>, e: Event) {
    exists j :: 0 <= j < |l| && e in l[j].events
  }

  /** The event is the last write of its key in this stretch. */
  ghost predicate IsLast(w: seq<Event>, e: Event) {
    LastWrite(w, KeyOf(e)) == Some(e)
  }

  ghost predicate LastIn(p: seq<seq<Event>>, e: Event) {
    exists k :: 0 <= k < |p| && IsLast(p[k], e)
  }

  /** Each run replays its stretch of writes. */
  ghost predicate Replays(p: seq<seq<Event>>, w: seq<seq<Event>>) {
    |p| == |w| && forall i :: 0 <= i < |p| ==> p[i] == Overlay([], w[i])
  }

  /** Only the active memtable can be empty. */
  ghost predicate NoneVoid(s: State) {
    NoneEmpty(s.imms) && NoneEmpty(Runs(s.l0))
  }

  /** Level 0 is numbered upwards below the next sequence. */
  ghost predicate Rising(s: State) {
    Ascending(s.l0) && forall i :: 0 <= i < |s.l0| ==> s.l0[i].sequence < s.sstSeq
  }

  /** Level 1 holds what each compaction left. */
  ghost predicate SettledHold(s: State, h: Layers) {
    (forall e :: InTables(s.l1, e) <==> LastIn(h.settled, e)) && (h.settled == [] <==> s.l1 == [])
  }

  /** Every memtable and every level-0 table replays its layer, and level 1 the settled ones. */
  ghost predicate Layered(s: State, h: Layers) {
    && StateSorted(s) && NoneVoid(s) && Rising(s)
    && s.active == Overlay([], h.open) && (h.open == [] <==> s.active == [])
    && Replays(s.imms, h.closed) && Replays(Runs(s.l0), h.tables) && SettledHold(s, h)
  }

  // ---- inserts ----

  lemma {:induction false} OverlaySnoc(w: seq<Event>, e: Event)
    ensures Overlay([], w + [e]) == E.Upsert(Overlay([], w), e)
  {
    assert (w + [e])[..|w|] == w;
    hide E.Upsert;
  }

  lemma {:induction false} InsertVoid(s: State, e: Event, rotate: bool)
    requires NoneVoid(s)
    ensures NoneVoid(Insert(s, e, rotate))
  {
    assert e in E.Upsert(s.active, e);
    hide E.Upsert;
  }

  lemma {:induction false} ReplaysSnoc(p: seq<seq<Event>>, w: seq<seq<Event>>, v: seq<Event>)
    requires Replays(p, w)
    ensures Replays(p + [Overlay([], v)], w + [v])
  {
    hide Overlay;
  }

  lemma {:induction false} InsertLayered(s: State, h: Layers, e: Event, rotate: bool)
    requires Layered(s, h)
    ensures Layered(Insert(s, e, rotate), Wrote(h, e, rotate))
  {
    InsertSorted(s, e, rotate);
    InsertVoid(s, e, rotate);
    OverlaySnoc(h.open, e);
    ReplaysSnoc(s.imms, h.closed, h.open + [e]);
    NothingSorted();
    assert e in E.Upsert(s.active, e);
    hide StateSorted;
    hide NoneVoid;
    hide Replays;
    hide E.Upsert;
    hide Overlay;
    hide InTables;
    hide LastIn;
  }

  /** Names, ids and the next sequence do not matter to the layers. */
  lemma {:induction false} LayersOnly(s: State, h: Layers, t: State)
    requires Layered(s, h) && t.active == s.active && t.imms == s.imms && t.l0 == s.l0 && t.l1 == s.l1
    requires t.sstSeq == s.sstSeq
    ensures Layered(t, h)
  {
    hide Overlay;
    hide Replays;
    hide InTables;
    hide LastIn;
  }

  // ---- flushes ----

  lemma {:induction false} FlushVoid(s: State)
    requires NoneVoid(s)
    ensures NoneVoid(Flushed(s))
  {
    RunsConcat(s.l0, Numbered(Pending(s), s.sstSeq));
    RunsNumbered(Pending(s), s.sstSeq);
  }

  lemma {:induction false} FlushRises(s: State)
    requires StateSorted(s) && Rising(s) && s.sstSeq + |Pending(s)| < TWO_64
    ensures StateSorted(Flushed(s)) && Rising(Flushed(s))
  {
    var t, p, n := Flushed(s), Pending(s), |s.l0|;
    assert RunsSorted(p);
    assert t.sstSeq == s.sstSeq + |p|;
    forall i | n <= i < |t.l0| ensures t.l0[i].sequence == s.sstSeq + (i - n) && E.Sorted(t.l0[i].events) {
      assert t.l0[i] == Numbered(p, s.sstSeq)[i - n];
    }
    hide E.Sorted;
    assert forall i :: 0 <= i < n ==> t.l0[i] == s.l0[i];
  }

  lemma {:induction false} ReplaysConcat(p: seq<seq<Event>>, w: seq<seq<Event>>, q: seq<seq<Event>>, v: seq<seq<Event>>)
    requires Replays(p, w) && Replays(q, v)
    ensures Replays(p + q, w + v)
  {
    hide Overlay;
  }

  lemma {:induction false} PendingReplays(s: State, h: Layers)
    requires s.active == Overlay([], h.open) && (h.open == [] <==> s.active == []) && Replays(s.imms, h.closed)
    ensures Replays(Pending(s), Unflushed(h))
  {
    if h.open == [] {
      assert Pending(s) == s.imms && Unflushed(h) == h.closed;
    } else {
      ReplaysSnoc(s.imms, h.closed, h.open);
    }
    hide Overlay;
    hide Replays;
  }

  lemma {:induction false} FlushLayered(s: State, h: Layers)
    requires Layered(s, h) && s.sstSeq + |Pending(s)| < TWO_64
    ensures Layered(Flushed(s), Layers(h.settled, h.tables + Unflushed(h), [], []))
  {
    FlushRises(s);
    FlushVoid(s);
    PendingReplays(s, h);
    RunsConcat(s.l0, Numbered(Pending(s), s.sstSeq));
    RunsNumbered(Pending(s), s.sstSeq);
    ReplaysConcat(Runs(s.l0), h.tables, Pending(s), Unflushed(h));
    NothingSorted();
    assert Replays([], []);
    hide StateSorted;
    hide NoneVoid;
    hide Rising;
    hide Overlay;
    hide Replays;
    hide Runs;
    hide Pending;
    hide Unflushed;
    hide InTables;
    hide LastIn;
  }

  // ---- compactions ----

  /** Stacked, the runs replay all their stretches together. */
  lemma {:induction false} StackReplays(p: seq<seq<Event>>, w: seq<seq<Event>>)
    requires Replays(p, w)
    ensures Stack(p) == Overlay([], Join(w))
  {
    if p != [] {
      var n := |p| - 1;
      StackReplays(p[..n], w[..n]);
      TwoStretches(Join(w[..n]), w[n]);
    } else {
      NothingSorted();
    }
    hide Overlay;
  }

  lemma {:induction false} SomethingComesOut(l: seq<Input>)
    requires AllSorted(l) && l != [] && l[0].events != []
    ensures Versions(l) != [] && Merged(l, 1) != []
  {
    var k := KeyOf(l[0].events[0]);
    assert Holds(l[0], k) by {
      assert l[0].events[0] in l[0].events;
    }
    BestWins(l, k);
    VersionsAreBest(l, Best(Gathered(l), k).value.e);
  }

  lemma {:induction false} NewTablesAre(s: State, target: nat)
    requires Merged(s.l0, 1) != []
    ensures NewTables(s, target) == Numbered(R.Chunked(Merged(s.l0, 1), R.PerFile(target)), s.sstSeq)
    ensures NewTables(s, target) != []
  {
    hide R.Chunked;
    hide Merged;
  }

  lemma {:induction false} CompactedIs(s: State, target: nat)
    requires s.l0 != [] && NewTables(s, target) != []
    ensures Compacted(s, target)
         == s.(sstSeq := Compacted(s, target).sstSeq, l0 := [], l1 := SortBySeq(s.l1 + NewTables(s, target)))
  {
    hide NewTables;
    hide SortBySeq;
  }

  lemma {:induction false} InTablesBag(l: seq<Input>, e: Event)
    ensures InTables(l, e) <==> e in Bag(Runs(l))
  {
    InRunsInJoin(Runs(l), e);
    if j :| 0 <= j < |l| && e in l[j].events {
      assert e in Runs(l)[j];
    }
    if j :| 0 <= j < |Runs(l)| && e in Runs(l)[j] {
      assert e in l[j].events;
    }
  }

  /** Level 1 gains the overlay of level 0, and nothing it held is touched. */
  lemma {:induction false} CompactionAdds(s: State, target: nat, e: Event)
    requires s.l0 != [] && AllSorted(s.l0) && Ascending(s.l0) && NewTables(s, target) != []
    ensures InTables(Compacted(s, target).l1, e) <==> InTables(s.l1, e) || e in Stack(Runs(s.l0))
  {
    hide *;
    var added := NewTables(s, target);
    CompactedIs(s, target);
    InTablesBag(s.l1, e);
    InTablesBag(Compacted(s, target).l1, e);
    SortBySeqBag(s.l1 + added);
    RunsConcat(s.l1, added);
    BagConcat(Runs(s.l1), Runs(added));
    AddedBag(s, target);
    VersionsAreReplay(s.l0);
    ReplayIsStack(s.l0);
  }

  lemma {:induction false} AddedBag(s: State, target: nat)
    requires NewTables(s, target) != []
    ensures Bag(Runs(NewTables(s, target))) == multiset(Versions(s.l0))
  {
    var c := R.Chunked(Merged(s.l0, 1), R.PerFile(target));
    R.ChunkSizes(Merged(s.l0, 1), R.PerFile(target));
    assert Merged(s.l0, 1) != [];
    assert Merged(s.l0, 1) == Versions(s.l0);
    NewTablesAre(s, target);
    RunsNumbered(c, s.sstSeq);
    hide R.Chunked;
    hide NewTables;
  }

  lemma {:induction false} NothingComesOut(s: State, target: nat, e: Event)
    requires AllSorted(s.l0) && Ascending(s.l0) && NewTables(s, target) == []
    ensures !InTables(s.l0, e) && e !in Stack(Runs(s.l0))
  {
    assert Versions(s.l0) == [] by {
      hide R.PerFile;
      hide Versions;
    }
    VersionsAreReplay(s.l0);
    ReplayIsStack(s.l0);
    if InTables(s.l0, e) {
      var j :| 0 <= j < |s.l0| && e in s.l0[j].events;
      BestWins(s.l0, KeyOf(e));
      assert Holds(s.l0[j], KeyOf(e));
      VersionsAreBest(s.l0, Best(Gathered(s.l0), KeyOf(e)).value.e);
    }
  }

  /** What a query shows after a compaction: of level 0 the newest version of each key, of everything else all that
      was there. A tombstone hides versions in level 0 and none outside it. */
  lemma {:induction false} CompactionShows(s: State, target: nat, req: Request, e: Event)
    requires req.symbol in s.symbols && AllSorted(s.l0) && Ascending(s.l0)
    ensures e in Unlimited(Compacted(s, target), req) <==>
              && Matches(e, s.symbols[req.symbol], req)
              && (e in s.active || e in Join(s.imms) || e in Stack(Runs(s.l0)) || InTables(s.l1, e))
  {
    var t := Compacted(s, target);
    CompactKeeps(s, target);
    SelectMember(Join(Sources(t)), t.symbols[req.symbol], req, e);
    SourcesHold(t, e);
    hide Matches;
    hide Select;
    hide Sources;
    if s.l0 == [] {
      NoStack(s, e);
    } else if NewTables(s, target) == [] {
      NothingComesOut(s, target, e);
      CompactedVoid(s, target);
    } else {
      CompactionAdds(s, target, e);
      CompactedIs(s, target);
      NoStack(t, e);
    }
  }

  lemma {:induction false} CompactedVoid(s: State, target: nat)
    requires s.l0 != [] && NewTables(s, target) == []
    ensures Compacted(s, target) == s.(sstSeq := Compacted(s, target).sstSeq)
  {
    hide NewTables;
    hide SortBySeq;
  }

  lemma {:induction false} NoStack(s: State, e: Event)
    requires s.l0 == []
    ensures !InTables(s.l0, e) && e !in Stack(Runs(s.l0))
  {
  }

  lemma {:induction false} SourcesHold(s: State, e: Event)
    ensures e in Join(Sources(s)) <==> e in s.active || e in Join(s.imms) || InTables(s.l0, e) || InTables(s.l1, e)
  {
    SourcesBag(s);
    InTablesBag(s.l0, e);
    InTablesBag(s.l1, e);
    assert e in Join(Sources(s)) <==> e in Bag(Sources(s));
    assert e in Join(s.imms) <==> e in Bag(s.imms);
    hide Sources;
    hide Join;
    hide Runs;
    hide InTables;
  }

  lemma {:induction false} CompactRises(s: State, target: nat)
    requires StateSorted(s) && NoneVoid(s) && s.l0 != [] && NewTables(s, target) != []
    ensures var t := Compacted(s, target); StateSorted(t) && NoneVoid(t) && Rising(t) && t.l0 == [] && t.l1 != []
  {
    CompactedIs(s, target);
    SortKeepsSize(s.l1 + NewTables(s, target));
    hide NewTables;
    hide SortBySeq;
  }

  lemma {:induction false} SortKeepsSize(l: seq<Input>)
    ensures |SortBySeq(l)| == |l|
  {
    if l != [] {
      SortKeepsSize(l[..|l| - 1]);
      InsertKeepsSize(SortBySeq(l[..|l| - 1]), l[|l| - 1]);
    }
  }

  lemma {:induction false} InsertKeepsSize(l: seq<Input>, x: Input)
    ensures |InsertBySeq(l, x)| == |l| + 1
  {
    if l != [] && l[|l| - 1].sequence > x.sequence {
      InsertKeepsSize(l[..|l| - 1], x);
    }
  }

  lemma {:induction false} LastInSnoc(p: seq<seq<Event>>, w: seq<Event>, e: Event)
    ensures LastIn(p + [w], e) <==> LastIn(p, e) || IsLast(w, e)
  {
    var q := p + [w];
    assert q[|p|] == w;
    assert forall k :: 0 <= k < |p| ==> q[k] == p[k];
    if k :| 0 <= k < |p| && IsLast(p[k], e) {
      assert IsLast(q[k], e);
    }
    hide IsLast;
  }

  lemma {:induction false} CompactSettles(s: State, h: Layers, target: nat)
    requires s.l0 != [] && AllSorted(s.l0) && Rising(s) && Replays(Runs(s.l0), h.tables) && SettledHold(s, h)
    requires NewTables(s, target) != [] && Compacted(s, target).l1 != []
    ensures SettledHold(Compacted(s, target), Layers(h.settled + [Join(h.tables)], [], h.closed, h.open))
  {
    var t, w := Compacted(s, target), Join(h.tables);
    hide Compacted;
    hide InTables;
    hide LastIn;
    StackReplays(Runs(s.l0), h.tables);
    forall e ensures InTables(t.l1, e) <==> LastIn(h.settled + [w], e) {
      CompactionAdds(s, target, e);
      LastInSnoc(h.settled, w, e);
      OverlayIsLast(w, e);
    }
  }

  lemma {:induction false} CompactLayered(s: State, h: Layers, target: nat)
    requires Layered(s, h) && s.l0 != []
    ensures Layered(Compacted(s, target), Layers(h.settled + [Join(h.tables)], [], h.closed, h.open))
  {
    assert AllSorted(s.l0) && Runs(s.l0)[0] != [];
    SomethingComesOut(s.l0);
    NewTablesAre(s, target);
    CompactRises(s, target);
    CompactKeeps(s, target);
    CompactSettles(s, h, target);
    VoidRuns();
    assert Replays([], []);
    hide StateSorted;
    hide NoneVoid;
    hide Rising;
    hide SettledHold;
    hide Compacted;
    hide Overlay;
    hide Replays;
  }

  lemma {:induction false} VoidRuns()
    ensures Runs([]) == []
  {
  }

  // ---- every run ----

  lemma {:induction false} FreshLayered()
    ensures Layered(FRESH, Layers([], [], [], []))
  {
    VoidRuns();
  }

  lemma {:induction false} StepLayered(s: State, h: Layers, op: Op, target: nat)
    requires Layered(s, h) && Room(s, target)
    ensures Layered(Step(s, op, target), NextLayers(h, op, s))
  {
    match op
    case Append(symbol, body, rotate) =>
      var i, e := Intern(s, symbol), Stamped(s, symbol, body);
      InternKeeps(s, symbol);
      hide *;
      LayersOnly(s, h, i);
      InsertLayered(i, h, e, rotate);
      AppendIs(s, h, symbol, body, rotate, target);
      LayersOnly(Insert(i, e, rotate), Wrote(h, e, rotate), Step(s, op, target));
    case Remove(symbol, ts, seqId, rotate) =>
      InternKeeps(s, symbol);
      RemoveIs(s, h, symbol, ts, seqId, rotate, target);
      hide *;
      LayersOnly(s, h, Intern(s, symbol));
      InsertLayered(Intern(s, symbol), h, TombstoneOf(s, symbol, ts, seqId), rotate);
    case FlushNow =>
      FlushIs(s, h, target);
      hide *;
      FlushLayered(s, h);
    case CompactNow =>
      CompactIs(s, h, target);
      hide *;
      if s.l0 != [] {
        CompactLayered(s, h, target);
      }
  }

  lemma {:induction false} AppendIs(s: State, h: Layers, symbol: string, body: Event, rotate: bool, target: nat)
    ensures var e, t := Stamped(s, symbol, body), Step(s, Append(symbol, body, rotate), target);
            && t == Insert(Intern(s, symbol), e, rotate).(nextSeq := t.nextSeq)
            && NextLayers(h, Append(symbol, body, rotate), s) == Wrote(h, e, rotate)
  {
    hide Insert;
    hide Intern;
    hide Stamped;
    hide Wrote;
  }

  lemma {:induction false} RemoveIs(s: State, h: Layers, symbol: string, ts: u64, seqId: u64, rotate: bool, target: nat)
    ensures var e, op := TombstoneOf(s, symbol, ts, seqId), Remove(symbol, ts, seqId, rotate);
            Step(s, op, target) == Insert(Intern(s, symbol), e, rotate) && NextLayers(h, op, s) == Wrote(h, e, rotate)
  {
    hide Insert;
    hide Intern;
    hide TombstoneOf;
    hide Wrote;
  }

  lemma {:induction false} FlushIs(s: State, h: Layers, target: nat)
    requires Room(s, target)
    ensures Step(s, FlushNow, target) == Flushed(s) && s.sstSeq + |Pending(s)| < TWO_64
    ensures NextLayers(h, FlushNow, s) == Layers(h.settled, h.tables + Unflushed(h), [], [])
  {
    hide Flushed;
    hide Pending;
    hide NewTables;
    hide Unflushed;
  }

  lemma {:induction false} CompactIs(s: State, h: Layers, target: nat)
    requires Layered(s, h)
    ensures Step(s, CompactNow, target) == Compacted(s, target)
    ensures s.l0 == [] ==> Compacted(s, target) == s && NextLayers(h, CompactNow, s) == h
    ensures s.l0 != [] ==>
      NextLayers(h, CompactNow, s) == Layers(h.settled + [Join(h.tables)], [], h.closed, h.open)
  {
    hide NewTables;
    hide SortBySeq;
    hide SettledHold;
    hide StateSorted;
    hide Overlay;
    hide Join;
  }

  lemma {:induction false} InternKeeps(s: State, name: string)
    ensures var t := Intern(s, name);
            t.active == s.active && t.imms == s.imms && t.l0 == s.l0 && t.l1 == s.l1 && t.sstSeq == s.sstSeq
  {
  }

  /** In every run, every memtable and every table holds exactly what its layer of writes says. */
  lemma {:induction false} RunLayered(ops: seq<Op>, target: nat)
    requires Unwrapped(ops, target)
    ensures Layered(Run(ops, target), LayersOf(ops, target))
  {
    hide Layered;
    hide Step;
    hide NextLayers;
    hide Unwrapped;
    if ops == [] {
      FreshLayered();
    } else {
      var n := |ops| - 1;
      UnwrappedFront(ops, target);
      RunLayered(ops[..n], target);
      StepLayered(Run(ops[..n], target), LayersOf(ops[..n], target), ops[n], target);
    }
  }

  /** In every run level 0 lists its tables oldest first, and level 1 lists its own in the order of their sequences. */
  lemma {:induction false} LevelsAscend(ops: seq<Op>, target: nat)
    requires Unwrapped(ops, target)
    ensures var l := Run(ops, target).l0; forall i, j :: 0 <= i < j < |l| ==> l[i].sequence < l[j].sequence
    ensures InSequence(Run(ops, target).l1)
  {
    RunLayered(ops, target);
    if ops != [] {
      var n := |ops| - 1;
      UnwrappedFront(ops, target);
      LevelsAscend(ops[..n], target);
      hide *;
      Level1Sorted(Run(ops[..n], target), ops[n], target);
      LastStep(ops, target);
      Level0Rises(Run(ops, target), LayersOf(ops, target));
    }
  }

  lemma {:induction false} LastStep(ops: seq<Op>, target: nat)
    requires ops != []
    ensures Run(ops, target) == Step(Run(ops[..|ops| - 1], target), ops[|ops| - 1], target)
  {
    hide Step;
  }

  lemma {:induction false} Level0Rises(s: State, h: Layers)
    requires Layered(s, h)
    ensures forall i, j :: 0 <= i < j < |s.l0| ==> s.l0[i].sequence < s.l0[j].sequence
  {
    hide StateSorted;
    hide Replays;
    hide SettledHold;
  }

  lemma {:induction false} Level1Sorted(s: State, op: Op, target: nat)
    requires InSequence(s.l1)
    ensures InSequence(Step(s, op, target).l1)
  {
    SortBySeqSorts(s.l1 + NewTables(s, target));
    hide NewTables;
    hide SortBySeq;
    hide InSequence;
    hide E.Upsert;
    hide Numbered;
  }

  // ---- what deletion achieves ----

  /** After any run, an event is shown if and only if it is the last write of its key in one of the layers: in the
      active memtable, in an immutable one, in a level-0 table, or among all that one compaction merged. So a remove
      hides what lies in its own layer and nothing outside it. */
  lemma {:induction false} ShownIff(ops: seq<Op>, target: nat, req: Request, e: Event)
    requires Unwrapped(ops, target)
    ensures var t, h := Run(ops, target), LayersOf(ops, target);
            e in Unlimited(t, req) <==>
              && req.symbol in t.symbols && Matches(e, t.symbols[req.symbol], req)
              && (IsLast(h.open, e) || LastIn(h.closed, e) || LastIn(h.tables, e) || LastIn(h.settled, e))
  {
    var t, h := Run(ops, target), LayersOf(ops, target);
    RunLayered(ops, target);
    hide Run;
    hide LayersOf;
    LayersHold(t, h, e);
    if req.symbol in t.symbols {
      SelectMember(Join(Sources(t)), t.symbols[req.symbol], req, e);
    }
    hide Matches;
    hide Sources;
    hide Select;
    hide IsLast;
    hide LastIn;
  }

  lemma {:induction false} LayersHold(t: State, h: Layers, e: Event)
    requires Layered(t, h)
    ensures e in Join(Sources(t)) <==>
              IsLast(h.open, e) || LastIn(h.closed, e) || LastIn(h.tables, e) || LastIn(h.settled, e)
  {
    OverlayIsLast(h.open, e);
    ReplaysHold(t.imms, h.closed, e);
    ReplaysHold(Runs(t.l0), h.tables, e);
    InRunsInJoin(Runs(t.l0), e);
    InTablesRuns(t.l0, e);
    SourcesHold(t, e);
    hide StateSorted;
    hide NoneVoid;
    hide Rising;
    hide Sources;
    hide Overlay;
    hide LastWrite;
    hide Replays;
    hide LastIn;
    hide InTables;
  }

  lemma {:induction false} InTablesRuns(l: seq<Input>, e: Event)
    ensures InTables(l, e) <==> e in Join(Runs(l))
  {
    InTablesBag(l, e);
    hide Join;
    hide InTables;
  }

  lemma {:induction false} ReplaysHold(p: seq<seq<Event>>, w: seq<seq<Event>>, e: Event)
    requires Replays(p, w)
    ensures e in Join(p) <==> LastIn(w, e)
  {
    InRunsInJoin(p, e);
    forall k | 0 <= k < |w| ensures e in p[k] <==> IsLast(w[k], e) {
      OverlayIsLast(w[k], e);
    }
    hide Overlay;
    hide LastWrite;
    hide IsLast;
    hide Join;
  }

  /** Once everything written has been through a compaction, an event is shown if and only if it was the last write of
      its key among the writes of one compaction. */
  lemma {:induction false} ShownOnceCompacted(ops: seq<Op>, target: nat, req: Request, e: Event)
    requires Unwrapped(ops + [FlushNow, CompactNow], target)
    ensures var full := ops + [FlushNow, CompactNow];
            var t, h := Run(full, target), LayersOf(full, target);
            && h.open == [] && h.closed == [] && h.tables == []
            && (e in Unlimited(t, req) <==>
                  req.symbol in t.symbols && Matches(e, t.symbols[req.symbol], req) && LastIn(h.settled, e))
  {
    AllSettled(ops, target);
    ShownIff(ops + [FlushNow, CompactNow], target, req, e);
    hide LayersOf;
    hide Run;
    hide Matches;
    hide Unlimited;
  }

  /** A flush and a compaction settle everything. */
  lemma {:induction false} AllSettled(ops: seq<Op>, target: nat)
    ensures var h, k := LayersOf(ops, target), LayersOf(ops + [FlushNow, CompactNow], target);
            var p := h.tables + Unflushed(h);
            k == Layers(if p == [] then h.settled else h.settled + [Join(p)], [], [], [])
    ensures Run(ops + [FlushNow, CompactNow], target) == Compacted(Flushed(Run(ops, target)), target)
  {
    var one, two := ops + [FlushNow], ops + [FlushNow, CompactNow];
    assert two[..|two| - 1] == one && one[..|one| - 1] == ops;
    hide Compacted;
    hide Flushed;
    hide Unflushed;
  }

  /** Starting with an empty level 1, after any appends, removes and flushes, one flush and one compaction: a query
      returns, in key order, exactly the keys whose last write was not a remove, with that last value (as many as the
      limit allows). */
  lemma {:induction false} DeletedIsGone(ops: seq<Op>, target: nat, req: Request)
    requires Unwrapped(ops + [FlushNow, CompactNow], target) && Run(ops, target).l1 == []
    ensures var t, w := Run(ops + [FlushNow, CompactNow], target), Writes(ops, target);
            && Answer(t, req) == Take(Unlimited(t, req), Limit(req))
            && E.Sorted(Unlimited(t, req))
            && (req.symbol in t.symbols ==>
                  forall e :: e in Unlimited(t, req) <==>
                    LastWrite(w, KeyOf(e)) == Some(e) && Matches(e, t.symbols[req.symbol], req))
  {
    var t, w := Run(ops + [FlushNow, CompactNow], target), Writes(ops, target);
    CompactedIsLastWrites(ops, target);
    OverlaySorted([], w);
    hide Sources;
    hide Run;
    hide Matches;
    if req.symbol in t.symbols {
      var sym := t.symbols[req.symbol];
      SelectSorted(Overlay([], w), sym, req);
      forall e ensures e in Unlimited(t, req) <==> LastWrite(w, KeyOf(e)) == Some(e) && Matches(e, sym, req) {
        SelectMember(Overlay([], w), sym, req, e);
        OverlayIsLast(w, e);
      }
    }
  }

  /** From an empty level 1, flushing everything and compacting it once leaves the last write of every key, in key
      order. */
  lemma {:induction false} CompactedIsLastWrites(ops: seq<Op>, target: nat)
    requires Unwrapped(ops + [FlushNow, CompactNow], target) && Run(ops, target).l1 == []
    ensures Join(Sources(Run(ops + [FlushNow, CompactNow], target))) == Overlay([], Writes(ops, target))
  {
    hide *;
    var one := ops + [FlushNow];
    RoomBefore(ops, target);
    RunLayered(one, target);
    FlushedLayers(ops, target);
    LayersPartition(ops, target);
    RunLayered(ops, target);
    NoneSettled(Run(ops, target), LayersOf(ops, target));
    AllSettled(ops, target);
    CompactWhole(Run(one, target), LayersOf(one, target), Writes(ops, target), target);
  }

  lemma {:induction false} RoomBefore(ops: seq<Op>, target: nat)
    requires Unwrapped(ops + [FlushNow, CompactNow], target)
    ensures Unwrapped(ops, target) && Unwrapped(ops + [FlushNow], target) && Room(Run(ops + [FlushNow], target), target)
  {
    var one, two := ops + [FlushNow], ops + [FlushNow, CompactNow];
    assert two[..|two| - 1] == one && one[..|one| - 1] == ops;
    UnwrappedFront(two, target);
    UnwrappedFront(one, target);
    hide Unwrapped;
    hide Room;
  }

  lemma {:induction false} FlushedLayers(ops: seq<Op>, target: nat)
    ensures var h := LayersOf(ops, target);
            LayersOf(ops + [FlushNow], target) == Layers(h.settled, h.tables + Unflushed(h), [], [])
    ensures Run(ops + [FlushNow], target) == Flushed(Run(ops, target))
    ensures var t := Run(ops + [FlushNow], target); t.active == [] && t.imms == [] && t.l1 == Run(ops, target).l1
  {
    assert (ops + [FlushNow])[..|ops|] == ops;
    hide Unflushed;
  }

  lemma {:induction false} NoneSettled(s: State, h: Layers)
    requires Layered(s, h) && s.l1 == []
    ensures Join(h.tables + Unflushed(h)) == Flat(h)
  {
    assert h.settled == [] by {
      hide StateSorted;
      hide NoneVoid;
      hide Rising;
    }
    JoinConcat(h.tables, Unflushed(h));
    UnflushedJoin(h);
    assert Flat(h) == Join(h.tables) + (Join(h.closed) + h.open);
  }

  lemma {:induction false} CompactWhole(s: State, h: Layers, w: seq<Event>, target: nat)
    requires Layered(s, h) && Join(h.tables) == w && s.active == [] && s.imms == [] && s.l1 == [] && Room(s, target)
    ensures Join(Sources(Compacted(s, target))) == Overlay([], w)
  {
    assert AllSorted(s.l0) && Ascending(s.l0) && NoneEmpty(Runs(s.l0));
    StackReplays(Runs(s.l0), h.tables);
    assert s.sstSeq + |NewTables(s, target)| < TWO_64;
    ReplayIsStack(s.l0);
    VersionsAreReplay(s.l0);
    if s.l0 == [] {
      assert Sources(Compacted(s, target)) == [[]];
      BagOfOne([]);
      VoidRuns();
      assert Stack([]) == [];
    } else {
      assert Runs(s.l0)[0] != [];
      SomethingComesOut(s.l0);
      OnlyLevelOne(s, target);
      hide *;
      ChunksJoin(s.l0, target);
    }
  }

  lemma {:induction false} ChunksJoin(l: seq<Input>, target: nat)
    ensures Join([[]] + R.Chunked(Merged(l, 1), R.PerFile(target))) == Versions(l)
  {
    var c := R.Chunked(Merged(l, 1), R.PerFile(target));
    R.ChunkSizes(Merged(l, 1), R.PerFile(target));
    JoinConcat([[]], c);
    BagOfOne([]);
    hide R.Chunked;
    hide Versions;
    assert [] + Join(c) == Join(c);
  }

  lemma {:induction false} NewTablesAscend(s: State, target: nat)
    requires s.sstSeq + |NewTables(s, target)| < TWO_64
    ensures forall i :: 0 <= i < |NewTables(s, target)| ==> NewTables(s, target)[i].sequence == s.sstSeq + i
    ensures SortBySeq(NewTables(s, target)) == NewTables(s, target)
  {
    var added := NewTables(s, target);
    hide R.Chunked;
    hide Merged;
    assert forall i :: 0 <= i < |added| ==> added[i].sequence == s.sstSeq + i;
    SortNothing(added);
  }

  lemma {:induction false} OnlyLevelOne(s: State, target: nat)
    requires s.l0 != [] && s.active == [] && s.imms == [] && s.l1 == []
    requires s.sstSeq + |NewTables(s, target)| < TWO_64 && Merged(s.l0, 1) != []
    ensures Sources(Compacted(s, target)) == [[]] + R.Chunked(Merged(s.l0, 1), R.PerFile(target))
  {
    hide *;
    var c := R.Chunked(Merged(s.l0, 1), R.PerFile(target));
    var added, t := NewTables(s, target), Compacted(s, target);
    NewTablesAre(s, target);
    NewTablesAscend(s, target);
    CompactedIs(s, target);
    RunsNumbered(c, s.sstSeq);
    assert s.l1 + added == added;
    SourcesAre(t);
    VoidRuns();
    assert [[]] + [] + [] + c == [[]] + c;
  }

  lemma {:induction false} SourcesAre(t: State)
    ensures Sources(t) == [t.active] + t.imms + Runs(t.l0) + Runs(t.l1)
  {
  }

  lemma {:induction false} SortNothing(l: seq<Input>)
    requires forall i, j :: 0 <= i < j < |l| ==> l[i].sequence <= l[j].sequence
    ensures SortBySeq(l) == l
  {
    if l != [] {
      SortNothing(l[..|l| - 1]);
    }
  }

  lemma {:induction false} SelectSorted(es: seq<Event>, sym: u32, req: Request)
    requires E.Sorted(es)
    ensures E.Sorted(Select(es, sym, req))
  {
    hide Matches;
    if es != [] {
      SelectSorted(es[1..], sym, req);
      forall i | 0 <= i < |Select(es[1..], sym, req)| ensures Less(KeyOf(es[0]), KeyOf(Select(es[1..], sym, req)[i])) {
        var e := Select(es[1..], sym, req)[i];
        SelectMember(es[1..], sym, req, e);
        var j :| 0 <= j < |es[1..]| && es[1..][j] == e;
        assert es[j + 1] == e;
      }
    }
  }

  // ---- when a removed event is still seen ----

  /** Right after a remove, the removed key is still seen exactly when an immutable memtable or a table holds a live
      version of it: tombstones do not hide versions in other sources. */
  lemma {:induction false} StillVisibleIff(s: State, symbol: string, ts: u64, seqId: u64, rotate: bool, target: nat,
      req: Request, e: Event)
    requires E.Sorted(s.active) && req.symbol == symbol
    requires KeyOf(e) == Key(IdOf(s, symbol), ts, seqId)
    ensures var t := Step(s, Remove(symbol, ts, seqId, rotate), target);
            e in Unlimited(t, req) <==>
              Matches(e, IdOf(s, symbol), req) && exists i :: 1 <= i < |Sources(s)| && e in Sources(s)[i]
  {
    var t, sym := Step(s, Remove(symbol, ts, seqId, rotate), target), IdOf(s, symbol);
    var d := TombstoneOf(s, symbol, ts, seqId);
    var a, tables := E.Upsert(s.active, d), Runs(s.l0) + Runs(s.l1);
    AfterRemove(s, symbol, ts, seqId, rotate, target, req);
    E.UpsertMember(s.active, d, e);
    assert e in a && Matches(e, sym, req) ==> e == d && d.kind == TOMBSTONE;
    assert !(e in a && Matches(e, sym, req));
    hide *;
    SelectMember(Join(Sources(t)), sym, req, e);
    InRunsInJoin(Sources(t), e);
    InFirst(s.active, s.imms + tables, e);
    if rotate {
      InSplit(s.imms, a, tables, e);
      InFirst([], s.imms + [a] + tables, e);
    } else {
      InFirst(a, s.imms + tables, e);
    }
  }

  lemma {:induction false} AfterRemove(s: State, symbol: string, ts: u64, seqId: u64, rotate: bool, target: nat,
      req: Request)
    requires req.symbol == symbol
    ensures var t, d := Step(s, Remove(symbol, ts, seqId, rotate), target), TombstoneOf(s, symbol, ts, seqId);
            var a, tables := E.Upsert(s.active, d), Runs(s.l0) + Runs(s.l1);
            && Unlimited(t, req) == Select(Join(Sources(t)), IdOf(s, symbol), req)
            && Sources(s) == [s.active] + (s.imms + tables)
            && Sources(t) == if rotate then [[]] + (s.imms + [a] + tables) else [a] + (s.imms + tables)
  {
    hide E.Upsert;
    hide Select;
    hide Join;
    hide Runs;
    var t, d := Step(s, Remove(symbol, ts, seqId, rotate), target), TombstoneOf(s, symbol, ts, seqId);
    hide TombstoneOf;
    var a := E.Upsert(s.active, d);
    assert t.l0 == s.l0 && t.l1 == s.l1 && t.symbols[symbol] == IdOf(s, symbol);
    assert t.active == (if rotate then [] else a) && t.imms == if rotate then s.imms + [a] else s.imms;
    hide Step;
    hide IdOf;
  }

  lemma {:induction false} InFirst(a: seq<Event>, rest: seq<seq<Event>>, e: Event)
    ensures (exists i :: 0 <= i < |[a] + rest| && e in ([a] + rest)[i])
            <==> e in a || exists i :: 0 <= i < |rest| && e in rest[i]
    ensures (exists i :: 1 <= i < |[a] + rest| && e in ([a] + rest)[i]) <==> exists i :: 0 <= i < |rest| && e in rest[i]
  {
    var p := [a] + rest;
    assert p[0] == a;
    assert forall i :: 0 <= i < |rest| ==> p[i + 1] == rest[i];
    if i :| 1 <= i < |p| && e in p[i] {
      assert e in rest[i - 1];
    }
    if i :| 0 <= i < |rest| && e in rest[i] {
      assert e in p[i + 1];
    }
  }

  lemma {:induction false} InSplit(p: seq<seq<Event>>, a: seq<Event>, q: seq<seq<Event>>, e: Event)
    ensures (exists i :: 0 <= i < |p + [a] + q| && e in (p + [a] + q)[i])
            <==> e in a || exists i :: 0 <= i < |p + q| && e in (p + q)[i]
  {
    var l, r := p + [a] + q, p + q;
    if i :| 0 <= i < |l| && e in l[i] {
      if i != |p| {
        assert e in r[if i < |p| then i else i - 1];
      }
    }
    if i :| 0 <= i < |r| && e in r[i] {
      assert e in l[if i < |p| then i else i + 1];
    }
    assert l[|p|] == a;
  }

  /** Three operations that leave a removed event in plain sight: append, flush, remove. */
  lemma {:induction false} RemovedAfterFlushIsSeen(body: Event, target: nat)
    requires body.kind != TOMBSTONE && body.ts == 7
    ensures var ops := [Append("AAPL", body, false), FlushNow, Remove("AAPL", 7, 1, false)];
            var req := Request("AAPL", 0, 10, None, 0);
            Answer(Run(ops, target), req) == [body.(sym := 1, seqId := 1)]
  {
    var add, remove := Append("AAPL", body, false), Remove("AAPL", 7, 1, false);
    var e, d := body.(sym := 1, seqId := 1), Event(7, 1, 1, TOMBSTONE, 0, 0, 0, 0, 0, 0, 0);
    ThreeSteps([add, FlushNow, remove], target);
    FirstInsert(body, target);
    var s1 := Step(FRESH, add, target);
    var s2 := Flushed(s1);
    hide *;
    FlushOne(s1, [e]);
    SecondInsert(s2, target);
    SeenAgain(Step(s2, remove, target), e, d);
  }

  lemma {:induction false} ThreeSteps(ops: seq<Op>, target: nat)
    requires |ops| == 3 && ops[1] == FlushNow
    ensures Run(ops, target) == Step(Flushed(Step(FRESH, ops[0], target)), ops[2], target)
  {
    hide Step;
    assert ops[..2][..1] == ops[..1] && ops[..1][..0] == [];
    assert Run(ops[..1], target) == Step(FRESH, ops[0], target);
    assert Run(ops[..2], target) == Step(Run(ops[..1], target), FlushNow, target);
    assert Run(ops, target) == Step(Run(ops[..2], target), ops[2], target);
    FlushOrCompact(Run(ops[..1], target), target);
  }

  lemma {:induction false} SeenAgain(t: State, e: Event, d: Event)
    requires t.active == [d] && t.imms == [] && t.l0 == [Input(1, [e])] && t.l1 == [] && t.symbols == map["AAPL" := 1]
    requires e.sym == 1 && e.ts == 7 && e.kind != TOMBSTONE && d.kind == TOMBSTONE
    ensures Answer(t, Request("AAPL", 0, 10, None, 0)) == [e]
  {
    assert Sources(t) == [[d], [e]];
    SelectPair(d, e, Request("AAPL", 0, 10, None, 0));
    hide Sources;
    hide Select;
    hide Join;
  }

  lemma {:induction false} OneTable(s: State, target: nat, q: u64, x: Event)
    requires s.l0 == [Input(q, [x])]
    ensures NewTables(s, target) == [Input(s.sstSeq, [x])]
    ensures Compacted(s, target)
            == s.(sstSeq := (s.sstSeq + 1) % TWO_64, l0 := [], l1 := SortBySeq(s.l1 + [Input(s.sstSeq, [x])]))
  {
    assert AllSorted(s.l0) && Ascending(s.l0);
    VersionsAreReplay(s.l0);
    OneReplay(q, x);
    assert Merged(s.l0, 1) == [x];
    OneChunk(x, R.PerFile(target));
    hide Merged;
    hide R.Chunked;
    assert Numbered([[x]], s.sstSeq) == [Input(s.sstSeq, [x])];
  }

  lemma {:induction false} OneReplay(q: u64, x: Event)
    ensures Replay([Input(q, [x])]) == [x]
  {
    OneUpsert(x);
    hide E.Upsert;
    assert [x][..0] == [];
    assert Overlay([], [x]) == E.Upsert(Overlay([], []), x);
    hide Overlay;
    var l := [Input(q, [x])];
    assert l[..0] == [];
    assert Replay(l) == Overlay(Replay([]), l[0].events);
  }

  lemma {:induction false} OneChunk(x: Event, n: nat)
    ensures R.Chunked([x], n) == [[x]]
  {
    assert [x][..0] == [];
  }

  /** Six operations after which a removed event stays in sight for good: append, flush, compact, remove, flush,
      compact. The tombstone reaches level 1, but no compaction reads level 1. */
  lemma {:induction false} RemovedStaysForGood(body: Event, target: nat)
    requires body.kind != TOMBSTONE && body.ts == 7
    ensures var ops := [Append("AAPL", body, false), FlushNow, CompactNow,
                        Remove("AAPL", 7, 1, false), FlushNow, CompactNow];
            body.(sym := 1, seqId := 1) in Unlimited(Run(ops, target), Request("AAPL", 0, 10, None, 0))
  {
    var add, remove := Append("AAPL", body, false), Remove("AAPL", 7, 1, false);
    var e, d := body.(sym := 1, seqId := 1), Event(7, 1, 1, TOMBSTONE, 0, 0, 0, 0, 0, 0, 0);
    SixSteps([add, FlushNow, CompactNow, remove, FlushNow, CompactNow], target);
    FirstInsert(body, target);
    FirstCompaction(Step(FRESH, add, target), e, target);
    var s3 := Compacted(Flushed(Step(FRESH, add, target)), target);
    hide *;
    SecondInsert(s3, target);
    FlushOne(Step(s3, remove, target), [d]);
    StillShown(Flushed(Step(s3, remove, target)), target, e, d);
  }

  lemma {:induction false} FirstCompaction(s: State, e: Event, target: nat)
    requires s == State(map["AAPL" := 1], 2, 2, 1, [e], [], [], [], [e])
    ensures Compacted(Flushed(s), target) == State(map["AAPL" := 1], 2, 2, 3, [], [], [], [Input(2, [e])], [e])
  {
    hide *;
    FlushOne(s, [e]);
    OneTable(Flushed(s), target, 1, e);
    SmallSequence(2);
    SortNothing([Input(2, [e])]);
    assert [] + [Input(2, [e])] == [Input(2, [e])];
  }

  lemma {:induction false} FirstInsert(body: Event, target: nat)
    ensures var e := body.(sym := 1, seqId := 1);
            Step(FRESH, Append("AAPL", body, false), target) == State(map["AAPL" := 1], 2, 2, 1, [e], [], [], [], [e])
  {
    OneUpsert(body.(sym := 1, seqId := 1));
  }

  lemma {:induction false} SecondInsert(s: State, target: nat)
    requires s.active == [] && s.symbols == map["AAPL" := 1]
    ensures var d := Event(7, 1, 1, TOMBSTONE, 0, 0, 0, 0, 0, 0, 0);
            Step(s, Remove("AAPL", 7, 1, false), target) == s.(active := [d], wal := s.wal + [d])
  {
    OneUpsert(Event(7, 1, 1, TOMBSTONE, 0, 0, 0, 0, 0, 0, 0));
  }

  /** A lone memtable becomes the only table of level 0. */
  lemma {:induction false} FlushOne(s: State, es: seq<Event>)
    requires s.active == es != [] && s.imms == [] && s.l0 == [] && s.sstSeq < 100
    ensures Flushed(s) == s.(active := [], sstSeq := s.sstSeq + 1, l0 := [Input(s.sstSeq, es)])
  {
    OnePending(s, es);
    NumberedOne(es, s.sstSeq);
    SmallSequence(s.sstSeq);
    hide Pending;
    hide Numbered;
    assert Flushed(s).l0 == [] + [Input(s.sstSeq, es)];
  }

  lemma {:induction false} OnePending(s: State, es: seq<Event>)
    requires s.active == es != [] && s.imms == []
    ensures Pending(s) == [es]
  {
  }

  lemma {:induction false} NumberedOne(a: seq<Event>, q: u64)
    requires q < 100
    ensures Numbered([a], q) == [Input(q, a)]
  {
    SmallSequence(q);
  }

  lemma {:induction false} SmallSequence(q: nat)
    requires q < 100
    ensures q % TWO_64 == q && (q + 1) % TWO_64 == q + 1
  {
  }

  lemma {:induction false} StillShown(s: State, target: nat, e: Event, d: Event)
    requires s.l0 == [Input(3, [d])] && s.l1 == [Input(2, [e])] && s.symbols == map["AAPL" := 1]
    requires e.sym == 1 && e.ts == 7 && e.kind != TOMBSTONE
    ensures e in Unlimited(Compacted(s, target), Request("AAPL", 0, 10, None, 0))
  {
    assert e in s.l1[0].events;
    hide Compacted;
    hide Unlimited;
    hide Stack;
    CompactionShows(s, target, Request("AAPL", 0, 10, None, 0), e);
  }

  lemma {:induction false} SixSteps(ops: seq<Op>, target: nat)
    requires |ops| == 6 && ops[1] == ops[4] == FlushNow && ops[2] == ops[5] == CompactNow
    ensures var s3 := Compacted(Flushed(Step(FRESH, ops[0], target)), target);
            Run(ops, target) == Compacted(Flushed(Step(s3, ops[3], target)), target)
  {
    hide Step;
    assert ops[..5][..4] == ops[..4] && ops[..4][..3] == ops[..3] && ops[..3][..2] == ops[..2]
      && ops[..2][..1] == ops[..1];
    assert ops[..1][..0] == [] && ops[..1] == [ops[0]];
    assert Run(ops[..1], target) == Step(FRESH, ops[0], target);
    assert Run(ops[..2], target) == Step(Run(ops[..1], target), FlushNow, target);
    assert Run(ops[..3], target) == Step(Run(ops[..2], target), CompactNow, target);
    assert Run(ops[..4], target) == Step(Run(ops[..3], target), ops[3], target);
    assert Run(ops[..5], target) == Step(Run(ops[..4], target), FlushNow, target);
    assert Run(ops, target) == Step(Run(ops[..5], target), CompactNow, target);
    FlushOrCompact(Run(ops[..1], target), target);
    FlushOrCompact(Run(ops[..2], target), target);
    FlushOrCompact(Run(ops[..4], target), target);
    FlushOrCompact(Run(ops[..5], target), target);
  }

  lemma {:induction false} FlushOrCompact(s: State, target: nat)
    ensures Step(s, FlushNow, target) == Flushed(s) && Step(s, CompactNow, target) == Compacted(s, target)
  {
    hide Flushed;
    hide Compacted;
  }

  lemma {:induction false} OneUpsert(e: Event)
    ensures E.Upsert([], e) == [e]
  {
  }

  lemma {:induction false} SelectPair(d: Event, e: Event, req: Request)
    requires !Matches(d, 1, req) && Matches(e, 1, req)
    ensures Select(Join([[d], [e]]), 1, req) == [e]
  {
    assert [[d], [e]][..1] == [[d]];
    BagOfOne([d]);
    assert Join([[d], [e]]) == [d] + [e];
    assert ([d] + [e])[1..] == [e] && [e][1..] == [];
    assert Select([e], 1, req) == [e];
  }
}
